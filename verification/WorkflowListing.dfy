/**
 What a workflow's summary lists, said of the templates themselves: who performs which stage of which step, and which
 outcomes send work back. The walk that gathers it is not mentioned in any of these definitions.
 */
module WorkflowListing {
  import opened Basics
  import opened PafDigest
  import opened WorkflowSummary

  // ----- the stages of the steps -----

  datatype Stage = Main | Plan | Check(index: nat) | Review

  function PerformerAt(n: Node, s: Stage): Option<Performer> {
    match s
    case Main => n.performer
    case Plan => n.plan
    case Check(i) => if i < |n.checks| then Some(n.checks[i]) else None
    case Review => n.review
  }

  function Label(s: Stage): string {
    match s
    case Main => ""
    case Plan => "/plan"
    case Check(i) => "/check" + Digits(i + 1)
    case Review => "/review"
  }

  function Value(s: string): int {
    if s == [] then 0 else 10 * Value(s[..|s| - 1]) + (s[|s| - 1] as int - '0' as int)
  }

  /** Checks are numbered in decimal, without leading zeros. */
  lemma {:induction false} DigitsRead(n: nat)
    ensures Value(Digits(n)) == n && (n > 0 ==> Digits(n)[0] != '0') && forall c :: c in Digits(n) ==> '0' <= c <= '9'
  {
    var d := "0123456789"[n % 10];
    assert d as int - '0' as int == n % 10 && '0' <= d <= '9';
    if n < 10 {
      assert Digits(n) == [d];
    } else {
      DigitsRead(n / 10);
      assert Digits(n) == Digits(n / 10) + [d];
      assert Digits(n)[..|Digits(n)| - 1] == Digits(n / 10);
    }
  }

  /** A stage is performed before another one of the same step. */
  predicate StageBefore(s: Stage, t: Stage) {
    match s
    case Main => !t.Main?
    case Plan => t.Check? || t.Review?
    case Check(i) => (t.Check? && i < t.index) || t.Review?
    case Review => false
  }

  /** Somebody's turn: a stage of a step of a template, under its name. */
  datatype Turn = Turn(template: nat, node: nat, stage: Stage, where: string, who: Performer)

  predicate Earlier(t: Turn, u: Turn) {
    || t.template < u.template
    || (t.template == u.template && t.node < u.node)
    || (t.template == u.template && t.node == u.node && StageBefore(t.stage, u.stage))
  }

  ghost predicate AtNode(t: Turn, i: nat, k: nat, process: string, n: Node) {
    && t.template == i && t.node == k && PerformerAt(n, t.stage) == Some(t.who)
    && t.where == process + ":" + n.id + Label(t.stage)
  }

  /** The templates, in the order they are listed, ask for this turn. */
  ghost predicate Asked(byRef: map<string, Template>, order: seq<string>, t: Turn) {
    && t.template < |order| && order[t.template] in byRef
    && var p := byRef[order[t.template]].parsed;
    t.node < |p.nodes| && AtNode(t, t.template, t.node, p.id, p.nodes[t.node])
  }

  /** All turns, in order. */
  ghost predicate Listing(byRef: map<string, Template>, order: seq<string>, ts: seq<Turn>) {
    && (forall t :: t in ts <==> Asked(byRef, order, t))
    && (forall i, j :: 0 <= i < j < |ts| ==> Earlier(ts[i], ts[j]))
  }

  // ----- what is read off a list of turns -----

  /** Where those are performed that `f` picks out. */
  function Steps(ts: seq<Turn>, f: Performer -> bool): seq<string> {
    if ts == [] then []
    else Steps(ts[..|ts| - 1], f) + if f(ts[|ts| - 1].who) then [ts[|ts| - 1].where] else []
  }

  function ProgramsOf(ts: seq<Turn>): seq<ProgramUse> {
    if ts == [] then []
    else
      var t := ts[|ts| - 1];
      ProgramsOf(ts[..|ts| - 1]) + if t.who.kind.Program? then [ProgramUse(t.where, t.who.profile, t.who.run, t.who.args)] else []
  }

  function IsHuman(): Performer -> bool {
    (p: Performer) => p.kind.Human?
  }

  /** An agent of this role: by its profile, or by the role it is selected for. */
  function Plays(role: string, selectors: bool): Performer -> bool {
    (p: Performer) => p.kind.Agent? && role != "" && (p.profile == role || (selectors && p.role == role))
  }

  function AssignedTo(name: string): Performer -> bool {
    (p: Performer) => p.kind.Agent? && name != "" && p.assignee == name
  }

  lemma {:induction false} StepsHave(ts: seq<Turn>, f: Performer -> bool)
    ensures forall x :: x in Steps(ts, f) <==> exists i :: 0 <= i < |ts| && f(ts[i].who) && ts[i].where == x
  {
    if ts != [] {
      var rest := ts[..|ts| - 1];
      StepsHave(rest, f);
      assert forall i :: 0 <= i < |rest| ==> rest[i] == ts[i];
      forall x ensures x in Steps(ts, f) <==> exists i :: 0 <= i < |ts| && f(ts[i].who) && ts[i].where == x {
        if x in Steps(rest, f) {
          var i :| 0 <= i < |rest| && f(rest[i].who) && rest[i].where == x;
          assert ts[i].where == x;
        }
      }
    }
  }

  lemma {:induction false} ProgramsHave(ts: seq<Turn>)
    ensures forall u :: u in ProgramsOf(ts) <==>
      exists i :: 0 <= i < |ts| && ts[i].who.kind.Program? && u == ProgramUse(ts[i].where, ts[i].who.profile, ts[i].who.run, ts[i].who.args)
  {
    if ts != [] {
      var rest := ts[..|ts| - 1];
      ProgramsHave(rest);
      assert forall i :: 0 <= i < |rest| ==> rest[i] == ts[i];
      forall u ensures u in ProgramsOf(ts) <==>
        exists i :: 0 <= i < |ts| && ts[i].who.kind.Program? && u == ProgramUse(ts[i].where, ts[i].who.profile, ts[i].who.run, ts[i].who.args)
      {
        if u in ProgramsOf(rest) {
          var i :| 0 <= i < |rest| && rest[i].who.kind.Program? && u == ProgramUse(rest[i].where, rest[i].who.profile, rest[i].who.run, rest[i].who.args);
          assert ts[i].who.kind.Program?;
        }
      }
    }
  }

  // ----- what the walk gathers -----

  ghost predicate Accounts(m: map<string, seq<string>>, ts: seq<Turn>, f: string -> Performer -> bool) {
    forall name :: if name in m then m[name] == Steps(ts, f(name)) && m[name] != [] else Steps(ts, f(name)) == []
  }

  function ByRole(selectors: bool): string -> Performer -> bool {
    role => Plays(role, selectors)
  }

  function ByAssignee(): string -> Performer -> bool {
    name => AssignedTo(name)
  }

  /** The walk has gathered exactly these turns. */
  ghost predicate Tells(t: Tally, ts: seq<Turn>, selectors: bool) {
    && t.humans == Steps(ts, IsHuman()) && t.programs == ProgramsOf(ts)
    && Accounts(t.roles, ts, ByRole(selectors)) && Accounts(t.assignees, ts, ByAssignee())
  }

  lemma OneMoreStep(ts: seq<Turn>, t: Turn, f: Performer -> bool)
    ensures Steps(ts + [t], f) == Steps(ts, f) + if f(t.who) then [t.where] else []
  {
    assert (ts + [t])[..|ts|] == ts;
  }

  /** A name that is noted once more, or the other names left alone. */
  lemma NotedUses(m: map<string, seq<string>>, m': map<string, seq<string>>, ts: seq<Turn>, t: Turn, f: string -> Performer -> bool)
    requires Accounts(m, ts, f)
    requires NotedAt(m, m', t, f)
    ensures Accounts(m', ts + [t], f)
  {
    forall name ensures if name in m' then m'[name] == Steps(ts + [t], f(name)) && m'[name] != [] else Steps(ts + [t], f(name)) == [] {
      OneMoreStep(ts, t, f(name));
    }
  }

  /** One name is noted where it should be, and the others are left alone. */
  ghost predicate NotedAt(m: map<string, seq<string>>, m': map<string, seq<string>>, t: Turn, f: string -> Performer -> bool) {
    forall name ::
      if f(name)(t.who) then name in m' && m'[name] == (if name in m then m[name] else []) + [t.where]
      else (name in m' <==> name in m) && (name in m ==> m'[name] == m[name])
  }

  lemma RolesNoted(t: Tally, turn: Turn, selectors: bool)
    ensures NotedAt(t.roles, Visit(t, turn.where, Some(turn.who), selectors).roles, turn, ByRole(selectors))
  {
  }

  lemma AssigneesNoted(t: Tally, turn: Turn, selectors: bool)
    ensures NotedAt(t.assignees, Visit(t, turn.where, Some(turn.who), selectors).assignees, turn, ByAssignee())
  {
  }

  lemma ListsGrow(t: Tally, ts: seq<Turn>, turn: Turn, selectors: bool)
    requires t.humans == Steps(ts, IsHuman()) && t.programs == ProgramsOf(ts)
    ensures var r := Visit(t, turn.where, Some(turn.who), selectors);
      r.humans == Steps(ts + [turn], IsHuman()) && r.programs == ProgramsOf(ts + [turn])
  {
    OneMoreStep(ts, turn, IsHuman());
    assert (ts + [turn])[..|ts|] == ts;
  }

  lemma VisitTells(t: Tally, ts: seq<Turn>, turn: Turn, selectors: bool)
    requires Tells(t, ts, selectors)
    ensures Tells(Visit(t, turn.where, Some(turn.who), selectors), ts + [turn], selectors)
  {
    hide Visit, Accounts, NotedAt, Steps, ProgramsOf;
    var r := Visit(t, turn.where, Some(turn.who), selectors);
    ListsGrow(t, ts, turn, selectors);
    RolesNoted(t, turn, selectors);
    AssigneesNoted(t, turn, selectors);
    NotedUses(t.roles, r.roles, ts, turn, ByRole(selectors));
    NotedUses(t.assignees, r.assignees, ts, turn, ByAssignee());
  }

  function OneTurn(i: nat, k: nat, process: string, n: Node, s: Stage): seq<Turn> {
    match PerformerAt(n, s)
    case None => []
    case Some(p) => [Turn(i, k, s, process + ":" + n.id + Label(s), p)]
  }

  function CheckTurns(i: nat, k: nat, process: string, n: Node, c: nat): seq<Turn> {
    if c == 0 then [] else CheckTurns(i, k, process, n, c - 1) + OneTurn(i, k, process, n, Check(c - 1))
  }

  function NodeTurns(i: nat, k: nat, process: string, n: Node): seq<Turn> {
    OneTurn(i, k, process, n, Main) + OneTurn(i, k, process, n, Plan)
    + CheckTurns(i, k, process, n, |n.checks|) + OneTurn(i, k, process, n, Review)
  }

  function TemplateTurns(i: nat, process: string, ns: seq<Node>): seq<Turn> {
    if ns == [] then [] else TemplateTurns(i, process, ns[..|ns| - 1]) + NodeTurns(i, |ns| - 1, process, ns[|ns| - 1])
  }

  ghost function AllTurns(byRef: map<string, Template>, order: seq<string>): seq<Turn>
    requires Carried(byRef, order)
  {
    if order == [] then []
    else
      var p := byRef[order[|order| - 1]].parsed;
      AllTurns(byRef, order[..|order| - 1]) + TemplateTurns(|order| - 1, p.id, p.nodes)
  }

  lemma StageTells(t: Tally, ts: seq<Turn>, i: nat, k: nat, process: string, n: Node, s: Stage, selectors: bool)
    requires Tells(t, ts, selectors)
    ensures Tells(Visit(t, process + ":" + n.id + Label(s), PerformerAt(n, s), selectors), ts + OneTurn(i, k, process, n, s), selectors)
  {
    hide Tells, Label, Digits;
    if PerformerAt(n, s).Some? {
      VisitTells(t, ts, OneTurn(i, k, process, n, s)[0], selectors);
    } else {
      assert ts + [] == ts;
    }
  }

  lemma {:induction false} ChecksTell(t: Tally, ts: seq<Turn>, i: nat, k: nat, process: string, n: Node, c: nat, selectors: bool)
    requires Tells(t, ts, selectors) && c <= |n.checks|
    ensures Tells(VisitChecks(t, process + ":" + n.id, n.checks[..c], selectors), ts + CheckTurns(i, k, process, n, c), selectors)
  {
    hide Tells, Visit, Digits;
    var step := process + ":" + n.id;
    if c == 0 {
      assert ts + [] == ts;
    } else {
      ChecksTell(t, ts, i, k, process, n, c - 1, selectors);
      var before, turns := VisitChecks(t, step, n.checks[..c - 1], selectors), CheckTurns(i, k, process, n, c - 1);
      StageTells(before, ts + turns, i, k, process, n, Check(c - 1), selectors);
      assert n.checks[..c][..c - 1] == n.checks[..c - 1];
      assert step + "/check" + Digits(c) == step + Label(Check(c - 1));
      assert ts + turns + OneTurn(i, k, process, n, Check(c - 1)) == ts + CheckTurns(i, k, process, n, c);
    }
  }

  lemma NodeTells(t: Tally, ts: seq<Turn>, i: nat, k: nat, process: string, n: Node, selectors: bool)
    requires Tells(t, ts, selectors)
    ensures Tells(VisitNode(t, process, n, selectors), ts + NodeTurns(i, k, process, n), selectors)
  {
    hide Visit, VisitChecks, OneTurn, CheckTurns, Accounts, Steps, ProgramsOf, Digits;
    var step := process + ":" + n.id;
    assert step + "" == step;
    StageTells(t, ts, i, k, process, n, Main, selectors);
    var t1, ts1 := Visit(t, step, n.performer, selectors), ts + OneTurn(i, k, process, n, Main);
    StageTells(t1, ts1, i, k, process, n, Plan, selectors);
    var t2, ts2 := Visit(t1, step + "/plan", n.plan, selectors), ts1 + OneTurn(i, k, process, n, Plan);
    ChecksTell(t2, ts2, i, k, process, n, |n.checks|, selectors);
    assert n.checks[..|n.checks|] == n.checks;
    var t3, ts3 := VisitChecks(t2, step, n.checks, selectors), ts2 + CheckTurns(i, k, process, n, |n.checks|);
    StageTells(t3, ts3, i, k, process, n, Review, selectors);
    assert ts3 + OneTurn(i, k, process, n, Review) == ts + NodeTurns(i, k, process, n);
  }

  lemma {:induction false} NodesTell(t: Tally, ts: seq<Turn>, i: nat, process: string, ns: seq<Node>, selectors: bool)
    requires Tells(t, ts, selectors)
    ensures Tells(VisitNodes(t, process, ns, selectors), ts + TemplateTurns(i, process, ns), selectors)
  {
    hide Tells, VisitNode, NodeTurns;
    if ns == [] {
      assert ts + [] == ts;
    } else {
      var rest := ns[..|ns| - 1];
      NodesTell(t, ts, i, process, rest, selectors);
      NodeTells(VisitNodes(t, process, rest, selectors), ts + TemplateTurns(i, process, rest), i, |ns| - 1, process, ns[|ns| - 1], selectors);
      assert ts + TemplateTurns(i, process, rest) + NodeTurns(i, |ns| - 1, process, ns[|ns| - 1]) == ts + TemplateTurns(i, process, ns);
    }
  }

  /** The walk gathers all turns. */
  lemma {:induction false} WalkTells(byRef: map<string, Template>, order: seq<string>, selectors: bool)
    requires Carried(byRef, order)
    ensures Tells(Tallied(byRef, order, selectors), AllTurns(byRef, order), selectors)
  {
    hide VisitNodes, TemplateTurns;
    if order != [] {
      hide Tells;
      var rest, p := order[..|order| - 1], byRef[order[|order| - 1]].parsed;
      WalkTells(byRef, rest, selectors);
      NodesTell(Tallied(byRef, rest, selectors), AllTurns(byRef, rest), |order| - 1, p.id, p.nodes, selectors);
    }
  }

  // ----- all turns, in order -----

  predicate Ascending(ts: seq<Turn>) {
    forall i, j :: 0 <= i < j < |ts| ==> Earlier(ts[i], ts[j])
  }

  lemma Joined(a: seq<Turn>, b: seq<Turn>)
    requires Ascending(a) && Ascending(b) && forall t, u :: t in a && u in b ==> Earlier(t, u)
    ensures Ascending(a + b) && forall t :: t in a + b <==> t in a || t in b
  {
    forall i, j | 0 <= i < j < |a + b| ensures Earlier((a + b)[i], (a + b)[j]) {
      if i < |a| && |a| <= j { assert (a + b)[i] == a[i] && (a + b)[j] == b[j - |a|]; }
    }
  }

  lemma OneListed(i: nat, k: nat, process: string, n: Node, s: Stage)
    ensures Ascending(OneTurn(i, k, process, n, s))
    ensures forall t :: t in OneTurn(i, k, process, n, s) <==> AtNode(t, i, k, process, n) && t.stage == s
  {
    hide Label;
  }

  lemma {:induction false} ChecksListed(i: nat, k: nat, process: string, n: Node, c: nat)
    requires c <= |n.checks|
    ensures Ascending(CheckTurns(i, k, process, n, c))
    ensures forall t :: t in CheckTurns(i, k, process, n, c) <==> AtNode(t, i, k, process, n) && t.stage.Check? && t.stage.index < c
  {
    hide AtNode, OneTurn, Ascending;
    if c == 0 {
      assert Ascending([]) by { Nobody(); }
    } else {
      ChecksListed(i, k, process, n, c - 1);
      OneListed(i, k, process, n, Check(c - 1));
      forall t, u | t in CheckTurns(i, k, process, n, c - 1) && u in OneTurn(i, k, process, n, Check(c - 1)) ensures Earlier(t, u) { PlaceOf(t, i, k, process, n); PlaceOf(u, i, k, process, n); }
      Joined(CheckTurns(i, k, process, n, c - 1), OneTurn(i, k, process, n, Check(c - 1)));
    }
  }

  lemma Nobody()
    ensures Ascending([])
  {
  }

  lemma PlaceOf(t: Turn, i: nat, k: nat, process: string, n: Node)
    requires AtNode(t, i, k, process, n)
    ensures t.template == i && t.node == k && (t.stage.Check? ==> t.stage.index < |n.checks|)
  {
  }

  lemma NodeListed(i: nat, k: nat, process: string, n: Node)
    ensures Ascending(NodeTurns(i, k, process, n))
    ensures forall t :: t in NodeTurns(i, k, process, n) <==> AtNode(t, i, k, process, n)
  {
    hide AtNode, OneTurn, CheckTurns, Ascending;
    forall t | AtNode(t, i, k, process, n) ensures t.template == i && t.node == k && (t.stage.Check? ==> t.stage.index < |n.checks|) {
      PlaceOf(t, i, k, process, n);
    }
    OneListed(i, k, process, n, Main);
    OneListed(i, k, process, n, Plan);
    ChecksListed(i, k, process, n, |n.checks|);
    OneListed(i, k, process, n, Review);
    var a, b, c, d := OneTurn(i, k, process, n, Main), OneTurn(i, k, process, n, Plan), CheckTurns(i, k, process, n, |n.checks|), OneTurn(i, k, process, n, Review);
    Joined(a, b);
    Joined(a + b, c);
    Joined(a + b + c, d);
  }

  lemma {:induction false} TemplateListed(i: nat, process: string, ns: seq<Node>)
    ensures Ascending(TemplateTurns(i, process, ns))
    ensures forall t :: t in TemplateTurns(i, process, ns) <==> t.template == i && t.node < |ns| && AtNode(t, i, t.node, process, ns[t.node])
  {
    hide AtNode, NodeTurns, Ascending;
    if ns == [] {
      Nobody();
    } else {
      var rest, k := ns[..|ns| - 1], |ns| - 1;
      TemplateListed(i, process, rest);
      NodeListed(i, k, process, ns[k]);
      forall t | AtNode(t, i, k, process, ns[k]) ensures t.template == i && t.node == k { PlaceOf(t, i, k, process, ns[k]); }
      Joined(TemplateTurns(i, process, rest), NodeTurns(i, k, process, ns[k]));
      assert forall j :: 0 <= j < k ==> rest[j] == ns[j];
    }
  }

  lemma {:induction false} AllListed(byRef: map<string, Template>, order: seq<string>)
    requires Carried(byRef, order)
    ensures Listing(byRef, order, AllTurns(byRef, order))
  {
    hide AtNode, TemplateTurns;
    if order != [] {
      var rest, i := order[..|order| - 1], |order| - 1;
      var p := byRef[order[i]].parsed;
      AllListed(byRef, rest);
      TemplateListed(i, p.id, p.nodes);
      assert forall j :: 0 <= j < i ==> rest[j] == order[j];
      Joined(AllTurns(byRef, rest), TemplateTurns(i, p.id, p.nodes));
      assert order[i] in order;
    }
  }

  // ----- outcomes that send work back -----

  /** The part of a step's id up to its last separator: what it shares with its neighbours in a subprocess body. */
  ghost predicate ScopeOf(id: string, scope: string) {
    scope <= id && (scope == "" || scope[|scope| - 1] == '/') && '/' !in id[|scope|..]
  }

  lemma {:induction false} ScopeIsScope(id: string)
    ensures ScopeOf(id, Scope(id))
  {
    if id != "" && id[|id| - 1] != '/' {
      ScopeIsScope(id[..|id| - 1]);
      assert id[|Scope(id)|..] == id[..|id| - 1][|Scope(id)|..] + [id[|id| - 1]];
    }
  }

  lemma OneScope(id: string, a: string, b: string)
    requires ScopeOf(id, a) && ScopeOf(id, b) && |a| <= |b|
    ensures a == b
  {
  }

  /** An outcome of a step of a template that goes back for another round. */
  datatype Back = Back(template: nat, node: nat, loop: Loop)

  ghost predicate BackAt(b: Back, i: nat, k: nat, process: string, n: Node) {
    && b.template == i && b.node == k && b.loop.step == process + ":" + n.id
    && b.loop.outcome in n.loops && b.loop.bound == n.loops[b.loop.outcome]
    && exists scope ::
         ScopeOf(n.id, scope) && b.loop.to == process + ":" + scope + if b.loop.outcome in n.next then n.next[b.loop.outcome] else ""
  }

  ghost predicate GoesBack(byRef: map<string, Template>, order: seq<string>, b: Back) {
    && b.template < |order| && order[b.template] in byRef
    && var p := byRef[order[b.template]].parsed;
    b.node < |p.nodes| && BackAt(b, b.template, b.node, p.id, p.nodes[b.node])
  }

  ghost predicate BackBefore(b: Back, c: Back) {
    || b.template < c.template
    || (b.template == c.template && b.node < c.node)
    || (b.template == c.template && b.node == c.node && ByteOrder(b.loop.outcome, c.loop.outcome))
  }

  ghost predicate Backwards(bs: seq<Back>) {
    forall i, j :: 0 <= i < j < |bs| ==> BackBefore(bs[i], bs[j])
  }

  /** All of them, in order. */
  ghost predicate BackListing(byRef: map<string, Template>, order: seq<string>, bs: seq<Back>) {
    (forall b :: b in bs <==> GoesBack(byRef, order, b)) && Backwards(bs)
  }

  function LoopsOf(bs: seq<Back>): seq<Loop> {
    seq(|bs|, i requires 0 <= i < |bs| => bs[i].loop)
  }

  ghost function NodeBacks(i: nat, k: nat, process: string, n: Node): seq<Back> {
    SortedKeeps(n.loops.Keys);
    var ks := Sorted(n.loops.Keys);
    seq(|ks|, j requires 0 <= j < |ks| => assert ks[j] in ks; Back(i, k, LoopAt(process, n, ks[j])))
  }

  ghost function TemplateBacks(i: nat, process: string, ns: seq<Node>): seq<Back> {
    if ns == [] then [] else TemplateBacks(i, process, ns[..|ns| - 1]) + NodeBacks(i, |ns| - 1, process, ns[|ns| - 1])
  }

  ghost function AllBacks(byRef: map<string, Template>, order: seq<string>): seq<Back>
    requires Carried(byRef, order)
  {
    if order == [] then []
    else
      var p := byRef[order[|order| - 1]].parsed;
      AllBacks(byRef, order[..|order| - 1]) + TemplateBacks(|order| - 1, p.id, p.nodes)
  }

  lemma LoopsJoined(a: seq<Back>, b: seq<Back>)
    ensures LoopsOf(a + b) == LoopsOf(a) + LoopsOf(b)
  {
  }

  lemma {:induction false} LoopsAtEach(process: string, n: Node, outcomes: seq<string>)
    requires forall o :: o in outcomes ==> o in n.loops
    ensures |LoopsAt(process, n, outcomes)| == |outcomes|
    ensures forall j :: 0 <= j < |outcomes| ==> outcomes[j] in n.loops && LoopsAt(process, n, outcomes)[j] == LoopAt(process, n, outcomes[j])
  {
    hide LoopAt;
    if outcomes != [] {
      var rest := outcomes[..|outcomes| - 1];
      LoopsAtEach(process, n, rest);
      assert forall j :: 0 <= j < |rest| ==> outcomes[j] == rest[j];
      assert outcomes[|rest|] in outcomes;
    }
  }

  lemma {:induction false} ChecksKeepLoops(t: Tally, step: string, checks: seq<Performer>, selectors: bool)
    ensures VisitChecks(t, step, checks, selectors).loops == t.loops
  {
    if checks != [] { ChecksKeepLoops(t, step, checks[..|checks| - 1], selectors); }
  }

  lemma NodeLoops(t: Tally, i: nat, k: nat, process: string, n: Node, selectors: bool)
    ensures VisitNode(t, process, n, selectors).loops == t.loops + LoopsOf(NodeBacks(i, k, process, n))
  {
    hide VisitChecks, LoopAt, LoopsAt, Sorted, Digits;
    var step := process + ":" + n.id;
    var planned := Visit(Visit(t, step, n.performer, selectors), step + "/plan", n.plan, selectors);
    ChecksKeepLoops(planned, step, n.checks, selectors);
    assert Stages(t, step, n, selectors).loops == t.loops;
    SortedKeeps(n.loops.Keys);
    LoopsAtEach(process, n, Sorted(n.loops.Keys));
  }

  lemma {:induction false} TemplateLoops(t: Tally, i: nat, process: string, ns: seq<Node>, selectors: bool)
    ensures VisitNodes(t, process, ns, selectors).loops == t.loops + LoopsOf(TemplateBacks(i, process, ns))
  {
    hide VisitNode, NodeBacks;
    if ns != [] {
      var rest := ns[..|ns| - 1];
      TemplateLoops(t, i, process, rest, selectors);
      NodeLoops(VisitNodes(t, process, rest, selectors), i, |ns| - 1, process, ns[|ns| - 1], selectors);
      LoopsJoined(TemplateBacks(i, process, rest), NodeBacks(i, |ns| - 1, process, ns[|ns| - 1]));
    }
  }

  lemma {:induction false} WalkLoops(byRef: map<string, Template>, order: seq<string>, selectors: bool)
    requires Carried(byRef, order)
    ensures Tallied(byRef, order, selectors).loops == LoopsOf(AllBacks(byRef, order))
  {
    hide VisitNodes, TemplateBacks;
    if order != [] {
      var rest, p := order[..|order| - 1], byRef[order[|order| - 1]].parsed;
      WalkLoops(byRef, rest, selectors);
      TemplateLoops(Tallied(byRef, rest, selectors), |order| - 1, p.id, p.nodes, selectors);
      LoopsJoined(AllBacks(byRef, rest), TemplateBacks(|order| - 1, p.id, p.nodes));
    }
  }

  lemma JoinedBacks(a: seq<Back>, b: seq<Back>)
    requires Backwards(a) && Backwards(b) && forall t, u :: t in a && u in b ==> BackBefore(t, u)
    ensures Backwards(a + b) && forall t :: t in a + b <==> t in a || t in b
  {
    forall i, j | 0 <= i < j < |a + b| ensures BackBefore((a + b)[i], (a + b)[j]) {
      if i < |a| && |a| <= j { assert (a + b)[i] == a[i] && (a + b)[j] == b[j - |a|]; }
    }
  }

  lemma LoopGoesBack(i: nat, k: nat, process: string, n: Node, outcome: string)
    requires outcome in n.loops
    ensures forall b :: BackAt(b, i, k, process, n) && b.loop.outcome == outcome <==> b == Back(i, k, LoopAt(process, n, outcome))
  {
    ScopeIsScope(n.id);
    var c := Back(i, k, LoopAt(process, n, outcome));
    assert BackAt(c, i, k, process, n);
    forall b | BackAt(b, i, k, process, n) && b.loop.outcome == outcome ensures b == c {
      var scope :| ScopeOf(n.id, scope)
        && b.loop.to == process + ":" + scope + if b.loop.outcome in n.next then n.next[b.loop.outcome] else "";
      if |scope| <= |Scope(n.id)| { OneScope(n.id, scope, Scope(n.id)); } else { OneScope(n.id, Scope(n.id), scope); }
    }
  }

  lemma NodeBacksListed(i: nat, k: nat, process: string, n: Node)
    ensures Backwards(NodeBacks(i, k, process, n))
    ensures forall b :: b in NodeBacks(i, k, process, n) <==> BackAt(b, i, k, process, n)
  {
    hide ByteOrder, Sorted, BackAt, Scope;
    SortedKeeps(n.loops.Keys);
    var ks, bs := Sorted(n.loops.Keys), NodeBacks(i, k, process, n);
    InOrderByName(ks);
    forall b ensures b in bs <==> BackAt(b, i, k, process, n) {
      if b in bs {
        var j :| 0 <= j < |bs| && bs[j] == b;
        assert ks[j] in ks;
        LoopGoesBack(i, k, process, n, ks[j]);
      }
      if BackAt(b, i, k, process, n) {
        BackOutcome(b, i, k, process, n);
        LoopGoesBack(i, k, process, n, b.loop.outcome);
        var j :| 0 <= j < |ks| && ks[j] == b.loop.outcome;
        assert bs[j] == b;
      }
    }
    assert forall j :: 0 <= j < |bs| ==> bs[j].template == i && bs[j].node == k && bs[j].loop.outcome == ks[j];
  }

  lemma BackOutcome(b: Back, i: nat, k: nat, process: string, n: Node)
    requires BackAt(b, i, k, process, n)
    ensures b.template == i && b.node == k && b.loop.outcome in n.loops
  {
  }

  lemma {:induction false} TemplateBacksListed(i: nat, process: string, ns: seq<Node>)
    ensures Backwards(TemplateBacks(i, process, ns))
    ensures forall b :: b in TemplateBacks(i, process, ns) <==> b.template == i && b.node < |ns| && BackAt(b, i, b.node, process, ns[b.node])
  {
    hide BackAt, NodeBacks, ByteOrder;
    if ns != [] {
      var rest, k := ns[..|ns| - 1], |ns| - 1;
      TemplateBacksListed(i, process, rest);
      NodeBacksListed(i, k, process, ns[k]);
      forall b | BackAt(b, i, k, process, ns[k]) ensures b.template == i && b.node == k { BackOutcome(b, i, k, process, ns[k]); }
      JoinedBacks(TemplateBacks(i, process, rest), NodeBacks(i, k, process, ns[k]));
      assert forall j :: 0 <= j < k ==> rest[j] == ns[j];
    }
  }

  lemma {:induction false} AllBacksListed(byRef: map<string, Template>, order: seq<string>)
    requires Carried(byRef, order)
    ensures BackListing(byRef, order, AllBacks(byRef, order))
  {
    hide BackAt, TemplateBacks, ByteOrder;
    if order != [] {
      var rest, i := order[..|order| - 1], |order| - 1;
      var p := byRef[order[i]].parsed;
      AllBacksListed(byRef, rest);
      TemplateBacksListed(i, p.id, p.nodes);
      assert forall j :: 0 <= j < i ==> rest[j] == order[j];
      JoinedBacks(AllBacks(byRef, rest), TemplateBacks(i, p.id, p.nodes));
      assert order[i] in order;
    }
  }

  // ----- the summary -----

  /** The names in use, in byte order, each with where it is used. */
  ghost predicate UsesListed(us: seq<Use>, ts: seq<Turn>, f: string -> Performer -> bool) {
    && (forall i, j :: 0 <= i < j < |us| ==> ByteOrder(us[i].name, us[j].name))
    && (forall u :: u in us <==> u.steps != [] && u.steps == Steps(ts, f(u.name)))
  }

  lemma UsesOfMap(m: map<string, seq<string>>, ts: seq<Turn>, f: string -> Performer -> bool)
    requires Accounts(m, ts, f)
    ensures UsesListed(WorkflowSummary.Uses(m), ts, f)
  {
    hide ByteOrder, Sorted, Steps;
    SortedKeeps(m.Keys);
    var ks, us := Sorted(m.Keys), WorkflowSummary.Uses(m);
    InOrderByName(ks);
    forall u ensures u in us <==> u.steps != [] && u.steps == Steps(ts, f(u.name)) {
      if u in us {
        var i :| 0 <= i < |us| && us[i] == u;
        assert ks[i] in ks;
      }
      if u.steps != [] && u.steps == Steps(ts, f(u.name)) {
        assert u.name in ks;
        var i :| 0 <= i < |ks| && ks[i] == u.name;
        assert us[i] == u;
      }
    }
    assert forall i :: 0 <= i < |us| ==> us[i].name == ks[i];
  }

  ghost predicate ParamsListed(ps: seq<Param>, m: map<string, ParamSpec>) {
    && (forall i, j :: 0 <= i < j < |ps| ==> ByteOrder(ps[i].name, ps[j].name))
    && (forall p :: p in ps <==> p.name in m && p.spec == m[p.name])
  }

  lemma ParamsOfMap(m: map<string, ParamSpec>)
    ensures ParamsListed(Params(m), m)
  {
    hide ByteOrder, Sorted;
    SortedKeeps(m.Keys);
    var ks, ps := Sorted(m.Keys), Params(m);
    InOrderByName(ks);
    forall p ensures p in ps <==> p.name in m && p.spec == m[p.name] {
      if p.name in m && p.spec == m[p.name] {
        var i :| 0 <= i < |ks| && ks[i] == p.name;
        assert ps[i] == p;
      }
      if p in ps {
        var i :| 0 <= i < |ps| && ps[i] == p;
        assert ks[i] in ks;
      }
    }
    assert forall i :: 0 <= i < |ps| ==> ps[i].name == ks[i];
  }

  /** What a summary says of the templates: everything they ask for, and nothing else, in their order or by name. */
  ghost predicate Describes(w: Workflow, root: string, byRef: map<string, Template>, order: seq<string>, selectors: bool, ts: seq<Turn>, bs: seq<Back>) {
    && Listing(byRef, order, ts) && BackListing(byRef, order, bs)
    && w.root == root && root in byRef && ParamsListed(w.params, byRef[root].parsed.params)
    && |w.templates| == |order|
    && (forall i :: 0 <= i < |order| ==>
          && order[i] in byRef
          && w.templates[i] == TemplateEntry(order[i], byRef[order[i]].parsed.id, byRef[order[i]].parsed.name, byRef[order[i]].head))
    && w.humans == Steps(ts, IsHuman()) && w.programs == ProgramsOf(ts)
    && UsesListed(w.roles, ts, ByRole(selectors)) && UsesListed(w.assignees, ts, ByAssignee())
    && w.loops == LoopsOf(bs)
  }

  lemma SummaryDescribes(root: string, byRef: map<string, Template>, order: seq<string>, selectors: bool)
    requires Carried(byRef, order) && root in byRef
    ensures Describes(Summary(root, byRef, order, selectors), root, byRef, order, selectors, AllTurns(byRef, order), AllBacks(byRef, order))
  {
    hide Listing, BackListing, UsesListed, ParamsListed, Accounts, Steps, ProgramsOf, LoopsOf, Tallied, AllTurns, AllBacks, WorkflowSummary.Uses, Params;
    var t, ts := Tallied(byRef, order, selectors), AllTurns(byRef, order);
    WalkTells(byRef, order, selectors);
    WalkLoops(byRef, order, selectors);
    AllListed(byRef, order);
    AllBacksListed(byRef, order);
    UsesOfMap(t.roles, ts, ByRole(selectors));
    UsesOfMap(t.assignees, ts, ByAssignee());
    ParamsOfMap(byRef[root].parsed.params);
    forall i | 0 <= i < |order| ensures order[i] in byRef { assert order[i] in order; }
  }

  /** The steps a person performs: exactly those with such a performer at some stage. */
  lemma HumansExactly(root: string, byRef: map<string, Template>, order: seq<string>, selectors: bool, x: string)
    requires Carried(byRef, order) && root in byRef
    ensures x in Summary(root, byRef, order, selectors).humans <==> exists t :: Asked(byRef, order, t) && t.who.kind.Human? && t.where == x
  {
    hide Asked, Summary, UsesListed, ParamsListed, BackListing, Steps, ProgramsOf, AllTurns, AllBacks;
    SummaryDescribes(root, byRef, order, selectors);
    var ts := AllTurns(byRef, order);
    StepsHave(ts, IsHuman());
    if t :| Asked(byRef, order, t) && t.who.kind.Human? && t.where == x {
      var i :| 0 <= i < |ts| && ts[i] == t;
      assert IsHuman()(ts[i].who);
    }
    if x in Steps(ts, IsHuman()) {
      var i :| 0 <= i < |ts| && IsHuman()(ts[i].who) && ts[i].where == x;
      assert ts[i] in ts;
    }
  }

  /** The commands a step would run. */
  lemma ProgramsExactly(root: string, byRef: map<string, Template>, order: seq<string>, selectors: bool, u: ProgramUse)
    requires Carried(byRef, order) && root in byRef
    ensures u in Summary(root, byRef, order, selectors).programs <==>
      exists t :: Asked(byRef, order, t) && t.who.kind.Program? && u == ProgramUse(t.where, t.who.profile, t.who.run, t.who.args)
  {
    hide Asked, Summary, UsesListed, ParamsListed, BackListing, Steps, ProgramsOf, AllTurns, AllBacks;
    SummaryDescribes(root, byRef, order, selectors);
    var ts := AllTurns(byRef, order);
    ProgramsHave(ts);
    if t :| Asked(byRef, order, t) && t.who.kind.Program? && u == ProgramUse(t.where, t.who.profile, t.who.run, t.who.args) {
      var i :| 0 <= i < |ts| && ts[i] == t;
      assert ts[i].who.kind.Program?;
    }
    if u in ProgramsOf(ts) {
      var i :| 0 <= i < |ts| && ts[i].who.kind.Program? && u == ProgramUse(ts[i].where, ts[i].who.profile, ts[i].who.run, ts[i].who.args);
      assert ts[i] in ts;
    }
  }

  lemma UsesExactly(us: seq<Use>, ts: seq<Turn>, f: string -> Performer -> bool, name: string, x: string)
    requires UsesListed(us, ts, f)
    ensures (exists u :: u in us && u.name == name && x in u.steps) <==> exists i :: 0 <= i < |ts| && f(name)(ts[i].who) && ts[i].where == x
  {
    hide ByteOrder, Steps;
    StepsHave(ts, f(name));
    if x in Steps(ts, f(name)) { assert Use(name, Steps(ts, f(name))) in us; }
  }

  /** The roles agents are asked for: by profile and, with selectors, by role. */
  lemma RolesExactly(root: string, byRef: map<string, Template>, order: seq<string>, selectors: bool, role: string, x: string)
    requires Carried(byRef, order) && root in byRef
    ensures (exists u :: u in Summary(root, byRef, order, selectors).roles && u.name == role && x in u.steps) <==>
      exists t :: Asked(byRef, order, t) && t.who.kind.Agent? && role != "" && (t.who.profile == role || (selectors && t.who.role == role)) && t.where == x
  {
    hide Asked, Summary, UsesListed, ParamsListed, BackListing, Steps, ProgramsOf, AllTurns, AllBacks;
    SummaryDescribes(root, byRef, order, selectors);
    var ts := AllTurns(byRef, order);
    UsesExactly(Summary(root, byRef, order, selectors).roles, ts, ByRole(selectors), role, x);
    if t :| Asked(byRef, order, t) && t.who.kind.Agent? && role != "" && (t.who.profile == role || (selectors && t.who.role == role)) && t.where == x {
      var i :| 0 <= i < |ts| && ts[i] == t;
      assert ByRole(selectors)(role)(ts[i].who);
    }
    if i :| 0 <= i < |ts| && ByRole(selectors)(role)(ts[i].who) && ts[i].where == x { assert ts[i] in ts; }
  }

  /** The agents named by steps. */
  lemma AssigneesExactly(root: string, byRef: map<string, Template>, order: seq<string>, selectors: bool, name: string, x: string)
    requires Carried(byRef, order) && root in byRef
    ensures (exists u :: u in Summary(root, byRef, order, selectors).assignees && u.name == name && x in u.steps) <==>
      exists t :: Asked(byRef, order, t) && t.who.kind.Agent? && name != "" && t.who.assignee == name && t.where == x
  {
    hide Asked, Summary, UsesListed, ParamsListed, BackListing, Steps, ProgramsOf, AllTurns, AllBacks;
    SummaryDescribes(root, byRef, order, selectors);
    var ts := AllTurns(byRef, order);
    UsesExactly(Summary(root, byRef, order, selectors).assignees, ts, ByAssignee(), name, x);
    if t :| Asked(byRef, order, t) && t.who.kind.Agent? && name != "" && t.who.assignee == name && t.where == x {
      var i :| 0 <= i < |ts| && ts[i] == t;
      assert ByAssignee()(name)(ts[i].who);
    }
    if i :| 0 <= i < |ts| && ByAssignee()(name)(ts[i].who) && ts[i].where == x { assert ts[i] in ts; }
  }

  /** The outcomes that send work back. */
  lemma LoopsExactly(root: string, byRef: map<string, Template>, order: seq<string>, selectors: bool, l: Loop)
    requires Carried(byRef, order) && root in byRef
    ensures l in Summary(root, byRef, order, selectors).loops <==> exists b :: GoesBack(byRef, order, b) && b.loop == l
  {
    hide GoesBack, Summary, UsesListed, ParamsListed, Listing, Steps, ProgramsOf, AllTurns, AllBacks, ByteOrder;
    SummaryDescribes(root, byRef, order, selectors);
    var bs := AllBacks(byRef, order);
    if b :| GoesBack(byRef, order, b) && b.loop == l {
      var i :| 0 <= i < |bs| && bs[i] == b;
      assert LoopsOf(bs)[i] == l;
    }
    if l in LoopsOf(bs) {
      var i :| 0 <= i < |bs| && LoopsOf(bs)[i] == l;
      assert bs[i] in bs;
    }
  }
}
