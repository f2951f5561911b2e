/** What workflow.json says of a set of process templates: derived from them, template by template and step by step. */
module WorkflowSummary {
  import opened Basics
  import opened PafDigest

  datatype PerformerKind = Agent | Program | Human | OtherKind

  datatype Performer = Performer(kind: PerformerKind, profile: string, role: string, assignee: string, run: string, args: seq<string>)

  datatype Bound = Bound(maxIterations: int, onExhausted: string)

  datatype Subprocess = Subprocess(templateRef: string, version: string)

  /** A step, under the id a walk over the template gives it. */
  datatype Node = Node(
    id: string, performer: Option<Performer>, plan: Option<Performer>, checks: seq<Performer>, review: Option<Performer>,
    loops: map<string, Bound>, next: map<string, string>, subprocess: Option<Subprocess>)

  datatype ParamSpec = ParamSpec(kind: string, required: bool, description: string)

  /** A parsed process template, its steps in walking order. */
  datatype Process = Process(id: string, name: string, description: string, params: map<string, ParamSpec>, nodes: seq<Node>)

  datatype Template = Template(ref: string, head: bool, source: string, parsed: Process, problems: seq<string>)

  datatype TemplateEntry = TemplateEntry(ref: string, id: string, name: string, head: bool)
  datatype Param = Param(name: string, spec: ParamSpec)
  datatype Use = Use(name: string, steps: seq<string>)
  datatype ProgramUse = ProgramUse(step: string, profile: string, run: string, args: seq<string>)
  datatype Loop = Loop(step: string, outcome: string, to: string, bound: Bound)

  datatype Text = Text(title: string, summary: string, author: string, licence: string)

  datatype Workflow = Workflow(
    text: Text, root: string, templates: seq<TemplateEntry>, params: seq<Param>, roles: seq<Use>,
    programs: seq<ProgramUse>, assignees: seq<Use>, humans: seq<string>, loops: seq<Loop>)

  // ----- sorted keys -----

  predicate InOrder(ks: seq<string>) {
    forall i, j :: 0 <= i < j < |ks| ==> Before(ks[i], ks[j])
  }

  /** Two ordered lists of the same names are the same list. */
  lemma {:induction false} InOrderUnique(a: seq<string>, b: seq<string>)
    requires InOrder(a) && InOrder(b) && forall x :: x in a <==> x in b
    ensures a == b
  {
    var a' := seq(|a|, i requires 0 <= i < |a| => Entry(a[i], 0, "", ""));
    var b' := seq(|b|, i requires 0 <= i < |b| => Entry(b[i], 0, "", ""));
    AsEntries(a, a');
    AsEntries(b, b');
    OrderedUnique(a', b');
    assert |a| == |a'| && |b| == |b'|;
    assert forall i :: 0 <= i < |a| ==> a[i] == a'[i].path && b[i] == b'[i].path;
  }

  lemma AsEntries(a: seq<string>, es: seq<Entry>)
    requires |es| == |a| && forall i :: 0 <= i < |a| ==> es[i] == Entry(a[i], 0, "", "")
    ensures forall x :: x in es <==> x == Entry(x.path, 0, "", "") && x.path in a
    ensures InOrder(a) ==> Ordered(es)
  {
    forall x: Entry | x == Entry(x.path, 0, "", "") && x.path in a ensures x in es {
      var i :| 0 <= i < |a| && a[i] == x.path;
      assert es[i] == x;
    }
  }

  function InsertKey(k: string, ks: seq<string>): seq<string> {
    if ks == [] then [k]
    else if Before(ks[0], k) then [ks[0]] + InsertKey(k, ks[1..])
    else [k] + ks
  }

  lemma {:induction false} InsertKeyHas(k: string, ks: seq<string>)
    ensures forall x :: x in InsertKey(k, ks) <==> x == k || x in ks
  {
    hide Before;
    if ks != [] {
      assert ks == [ks[0]] + ks[1..];
      InsertKeyHas(k, ks[1..]);
    }
  }

  lemma {:induction false} InsertKeyKeeps(k: string, ks: seq<string>)
    requires InOrder(ks) && k !in ks
    ensures InOrder(InsertKey(k, ks))
    ensures forall x :: x in InsertKey(k, ks) <==> x == k || x in ks
  {
    hide Before;
    InsertKeyHas(k, ks);
    if ks != [] {
      if Before(ks[0], k) {
        var rest := InsertKey(k, ks[1..]);
        InsertKeyKeeps(k, ks[1..]);
        forall i | 0 <= i < |rest| ensures Before(ks[0], rest[i]) {
          assert rest[i] in rest;
        }
        assert InOrder([ks[0]] + rest);
      } else {
        BeforeTotal(k, ks[0]);
        forall i | 0 < i < |ks| ensures Before(k, ks[i]) { BeforeTransitive(k, ks[0], ks[i]); }
        assert InOrder([k] + ks);
      }
    }
  }

  /** The names of a set, in order. */
  ghost function Sorted(names: set<string>): seq<string> {
    if names == {} then [] else var k :| k in names; InsertKey(k, Sorted(names - {k}))
  }

  lemma {:induction false} SortedKeeps(names: set<string>)
    ensures InOrder(Sorted(names)) && forall x :: x in Sorted(names) <==> x in names
  {
    if names != {} {
      var k :| k in names && Sorted(names) == InsertKey(k, Sorted(names - {k}));
      SortedKeeps(names - {k});
      InsertKeyKeeps(k, Sorted(names - {k}));
    }
  }

  /** `sortedKeys`. */
  method SortedKeys<V>(m: map<string, V>) returns (ks: seq<string>)
    ensures ks == Sorted(m.Keys)
    ensures ByName(ks) && forall x :: x in ks <==> x in m
  {
    ks := [];
    var rest := m.Keys;
    while rest != {}
      invariant rest <= m.Keys && InOrder(ks) && forall x :: x in ks <==> x in m.Keys - rest
      decreases |rest|
    {
      var k :| k in rest;
      InsertKeyKeeps(k, ks);
      ks := InsertKey(k, ks);
      rest := rest - {k};
    }
    SortedKeeps(m.Keys);
    InOrderUnique(ks, Sorted(m.Keys));
    InOrderByName(ks);
  }

  /** Names in byte order, each once. */
  ghost predicate ByName(ks: seq<string>) {
    forall i, j :: 0 <= i < j < |ks| ==> ByteOrder(ks[i], ks[j])
  }

  lemma InOrderByName(ks: seq<string>)
    requires InOrder(ks)
    ensures ByName(ks)
  {
    hide Before, ByteOrder;
    forall i, j | 0 <= i < j < |ks| ensures ByteOrder(ks[i], ks[j]) { BeforeIsByteOrder(ks[i], ks[j]); }
  }

  // ----- the walk -----

  type Steps = map<string, seq<string>>

  /** What a walk has gathered so far. */
  datatype Tally = Tally(roles: Steps, assignees: Steps, programs: seq<ProgramUse>, humans: seq<string>, loops: seq<Loop>)

  function Note(m: Steps, name: string, where: string): Steps {
    m[name := (if name in m then m[name] else []) + [where]]
  }

  /** One performer. `selectors` says whether role selectors are listed as roles. */
  function Visit(t: Tally, where: string, p: Option<Performer>, selectors: bool): Tally {
    if p.None? then t
    else match p.value.kind
      case Agent =>
        var byProfile := if p.value.profile != "" then Note(t.roles, p.value.profile, where) else t.roles;
        var roles := if selectors && p.value.role != "" && p.value.role != p.value.profile then Note(byProfile, p.value.role, where) else byProfile;
        t.(roles := roles, assignees := if p.value.assignee != "" then Note(t.assignees, p.value.assignee, where) else t.assignees)
      case Program => t.(programs := t.programs + [ProgramUse(where, p.value.profile, p.value.run, p.value.args)])
      case Human => t.(humans := t.humans + [where])
      case OtherKind => t
  }

  function Digits(n: nat): string {
    (if n < 10 then "" else Digits(n / 10)) + ["0123456789"[n % 10]]
  }

  function VisitChecks(t: Tally, step: string, checks: seq<Performer>, selectors: bool): Tally {
    if checks == [] then t
    else Visit(VisitChecks(t, step, checks[..|checks| - 1], selectors), step + "/check" + Digits(|checks|), Some(checks[|checks| - 1]), selectors)
  }

  function Stages(t: Tally, step: string, n: Node, selectors: bool): Tally {
    var main := Visit(t, step, n.performer, selectors);
    var planned := Visit(main, step + "/plan", n.plan, selectors);
    Visit(VisitChecks(planned, step, n.checks, selectors), step + "/review", n.review, selectors)
  }

  /** The prefix a step in a subprocess body shares with its neighbours. */
  function Scope(id: string): string {
    if id == "" || id[|id| - 1] == '/' then id else Scope(id[..|id| - 1])
  }

  function LoopAt(process: string, n: Node, outcome: string): Loop
    requires outcome in n.loops
  {
    Loop(process + ":" + n.id, outcome, process + ":" + Scope(n.id) + (if outcome in n.next then n.next[outcome] else ""), n.loops[outcome])
  }

  function LoopsAt(process: string, n: Node, outcomes: seq<string>): seq<Loop>
    requires forall o :: o in outcomes ==> o in n.loops
  {
    if outcomes == [] then [] else LoopsAt(process, n, outcomes[..|outcomes| - 1]) + [LoopAt(process, n, outcomes[|outcomes| - 1])]
  }

  ghost function VisitNode(t: Tally, process: string, n: Node, selectors: bool): Tally {
    var s := Stages(t, process + ":" + n.id, n, selectors);
    SortedKeeps(n.loops.Keys);
    s.(loops := s.loops + LoopsAt(process, n, Sorted(n.loops.Keys)))
  }

  ghost function VisitNodes(t: Tally, process: string, ns: seq<Node>, selectors: bool): Tally {
    if ns == [] then t else VisitNode(VisitNodes(t, process, ns[..|ns| - 1], selectors), process, ns[|ns| - 1], selectors)
  }

  ghost predicate Carried(byRef: map<string, Template>, order: seq<string>) {
    forall r :: r in order ==> r in byRef
  }

  ghost function Tallied(byRef: map<string, Template>, order: seq<string>, selectors: bool): Tally
    requires Carried(byRef, order)
  {
    if order == [] then Tally(map[], map[], [], [], [])
    else
      var p := byRef[order[|order| - 1]].parsed;
      VisitNodes(Tallied(byRef, order[..|order| - 1], selectors), p.id, p.nodes, selectors)
  }

  function EntryFor(byRef: map<string, Template>, ref: string): TemplateEntry
    requires ref in byRef
  {
    TemplateEntry(ref, byRef[ref].parsed.id, byRef[ref].parsed.name, byRef[ref].head)
  }

  ghost function Uses(m: Steps): seq<Use> {
    SortedKeeps(m.Keys);
    var ks := Sorted(m.Keys);
    seq(|ks|, i requires 0 <= i < |ks| => assert ks[i] in ks; Use(ks[i], m[ks[i]]))
  }

  ghost function Params(m: map<string, ParamSpec>): seq<Param> {
    SortedKeeps(m.Keys);
    var ks := Sorted(m.Keys);
    seq(|ks|, i requires 0 <= i < |ks| => assert ks[i] in ks; Param(ks[i], m[ks[i]]))
  }

  const NO_TEXT := Text("", "", "", "")

  /** `summarize`, without the exporter's text. */
  ghost function Summary(root: string, byRef: map<string, Template>, order: seq<string>, selectors: bool): Workflow
    requires Carried(byRef, order) && root in byRef
  {
    var t := Tallied(byRef, order, selectors);
    Workflow(NO_TEXT, root, seq(|order|, i requires 0 <= i < |order| => EntryFor(byRef, order[i])),
      Params(byRef[root].parsed.params), Uses(t.roles), t.programs, Uses(t.assignees), t.humans, t.loops)
  }

  // ----- summarize, in loops -----

  method CollectUses(m: Steps) returns (us: seq<Use>)
    ensures us == Uses(m)
  {
    var ks := SortedKeys(m);
    SortedKeeps(m.Keys);
    us := [];
    for i := 0 to |ks|
      invariant |us| == i && forall k :: 0 <= k < i ==> ks[k] in m && us[k] == Use(ks[k], m[ks[k]])
    {
      assert ks[i] in ks;
      us := us + [Use(ks[i], m[ks[i]])];
    }
  }

  method VisitStep(t: Tally, process: string, n: Node, selectors: bool) returns (r: Tally)
    ensures r == VisitNode(t, process, n, selectors)
  {
    hide Visit, Digits, LoopAt, Sorted, ByteOrder, InOrder, ByName;
    var step := process + ":" + n.id;
    r := Visit(t, step, n.performer, selectors);
    r := Visit(r, step + "/plan", n.plan, selectors);
    ghost var planned := r;
    for i := 0 to |n.checks|
      invariant r == VisitChecks(planned, step, n.checks[..i], selectors)
    {
      assert n.checks[..i + 1][..i] == n.checks[..i];
      r := Visit(r, step + "/check" + Digits(i + 1), Some(n.checks[i]), selectors);
    }
    assert n.checks[..|n.checks|] == n.checks;
    r := Visit(r, step + "/review", n.review, selectors);
    assert r == Stages(t, step, n, selectors);
    var outcomes := SortedKeys(n.loops);
    SortedKeeps(n.loops.Keys);
    ghost var staged := r;
    for i := 0 to |outcomes|
      invariant r == staged.(loops := staged.loops + LoopsAt(process, n, outcomes[..i]))
    {
      assert outcomes[i] in outcomes && outcomes[..i + 1][..i] == outcomes[..i];
      r := r.(loops := r.loops + [LoopAt(process, n, outcomes[i])]);
    }
    assert outcomes[..|outcomes|] == outcomes;
  }

  /** `summarize`. */
  method Summarize(root: string, byRef: map<string, Template>, order: seq<string>, selectors: bool) returns (w: Workflow)
    requires Carried(byRef, order) && root in byRef
    ensures w == Summary(root, byRef, order, selectors)
  {
    hide VisitNode;
    var templates: seq<TemplateEntry> := [];
    for i := 0 to |order|
      invariant |templates| == i && forall k :: 0 <= k < i ==> templates[k] == EntryFor(byRef, order[k])
    {
      templates := templates + [EntryFor(byRef, order[i])];
    }
    var params := CollectParams(byRef[root].parsed.params);
    var t := Tally(map[], map[], [], [], []);
    for i := 0 to |order|
      invariant t == Tallied(byRef, order[..i], selectors)
    {
      assert order[..i + 1][..i] == order[..i];
      var p := byRef[order[i]].parsed;
      ghost var before := t;
      for k := 0 to |p.nodes|
        invariant t == VisitNodes(before, p.id, p.nodes[..k], selectors)
      {
        assert p.nodes[..k + 1][..k] == p.nodes[..k];
        t := VisitStep(t, p.id, p.nodes[k], selectors);
      }
      assert p.nodes[..|p.nodes|] == p.nodes;
    }
    assert order[..|order|] == order;
    var roles := CollectUses(t.roles);
    var assignees := CollectUses(t.assignees);
    w := Workflow(NO_TEXT, root, templates, params, roles, t.programs, assignees, t.humans, t.loops);
  }

  method CollectParams(m: map<string, ParamSpec>) returns (ps: seq<Param>)
    ensures ps == Params(m)
  {
    var ks := SortedKeys(m);
    SortedKeeps(m.Keys);
    ps := [];
    for i := 0 to |ks|
      invariant |ps| == i && forall k :: 0 <= k < i ==> ks[k] in m && ps[k] == Param(ks[k], m[ks[k]])
    {
      assert ks[i] in ks;
      ps := ps + [Param(ks[i], m[ks[i]])];
    }
  }

  // ----- role selectors -----

  /** Two tallies that differ in their roles alone, the second listing at least the names of the first. */
  predicate SameButRoles(a: Tally, b: Tally) {
    a == b.(roles := a.roles) && a.roles.Keys <= b.roles.Keys
  }

  lemma VisitSame(a: Tally, b: Tally, where: string, p: Option<Performer>)
    requires SameButRoles(a, b)
    ensures SameButRoles(Visit(a, where, p, false), Visit(b, where, p, true))
  {
  }

  lemma {:induction false} ChecksSame(a: Tally, b: Tally, step: string, checks: seq<Performer>)
    requires SameButRoles(a, b)
    ensures SameButRoles(VisitChecks(a, step, checks, false), VisitChecks(b, step, checks, true))
  {
    hide Visit, SameButRoles;
    if checks != [] {
      var rest := checks[..|checks| - 1];
      ChecksSame(a, b, step, rest);
      VisitSame(VisitChecks(a, step, rest, false), VisitChecks(b, step, rest, true), step + "/check" + Digits(|checks|), Some(checks[|checks| - 1]));
    }
  }

  lemma NodeSame(a: Tally, b: Tally, process: string, n: Node)
    requires SameButRoles(a, b)
    ensures SameButRoles(VisitNode(a, process, n, false), VisitNode(b, process, n, true))
  {
    hide Visit;
    var step := process + ":" + n.id;
    VisitSame(a, b, step, n.performer);
    var a1, b1 := Visit(a, step, n.performer, false), Visit(b, step, n.performer, true);
    VisitSame(a1, b1, step + "/plan", n.plan);
    var a2, b2 := Visit(a1, step + "/plan", n.plan, false), Visit(b1, step + "/plan", n.plan, true);
    ChecksSame(a2, b2, step, n.checks);
    VisitSame(VisitChecks(a2, step, n.checks, false), VisitChecks(b2, step, n.checks, true), step + "/review", n.review);
  }

  lemma {:induction false} NodesSame(a: Tally, b: Tally, process: string, ns: seq<Node>)
    requires SameButRoles(a, b)
    ensures SameButRoles(VisitNodes(a, process, ns, false), VisitNodes(b, process, ns, true))
  {
    hide VisitNode, SameButRoles;
    if ns != [] {
      var rest := ns[..|ns| - 1];
      NodesSame(a, b, process, rest);
      NodeSame(VisitNodes(a, process, rest, false), VisitNodes(b, process, rest, true), process, ns[|ns| - 1]);
    }
  }

  lemma {:induction false} TalliedSame(byRef: map<string, Template>, order: seq<string>)
    requires Carried(byRef, order)
    ensures SameButRoles(Tallied(byRef, order, false), Tallied(byRef, order, true))
  {
    hide VisitNodes;
    if order != [] {
      var rest, p := order[..|order| - 1], byRef[order[|order| - 1]].parsed;
      TalliedSame(byRef, rest);
      NodesSame(Tallied(byRef, rest, false), Tallied(byRef, rest, true), p.id, p.nodes);
    }
  }

  /** A summary made before role selectors were listed differs from a full one in its roles alone. */
  lemma LegacySummary(root: string, byRef: map<string, Template>, order: seq<string>)
    requires Carried(byRef, order) && root in byRef
    ensures Summary(root, byRef, order, true) ==
      Summary(root, byRef, order, false).(roles := Summary(root, byRef, order, true).roles)
  {
    hide Tallied, Uses, Params;
    TalliedSame(byRef, order);
  }
}
