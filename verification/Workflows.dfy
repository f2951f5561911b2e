/** Workflow bundles: the files a bundle of process templates is written as, and how they are read back and checked. */
module Workflows {
  import opened Basics
  import opened WorkflowSummary

  const WORKFLOW_FILE := "workflow.json"
  const README_FILE := "README.md"
  const TEMPLATES := "templates/"
  const AT := "@sha256:"

  /** What parsing a source gives: the template, the ref its content hashes to, and its validation errors. */
  datatype Parsed = Parsed(process: Process, ref: string, problems: seq<string>)

  type Parser = string -> Option<Parsed>

  datatype Given = Given(ref: string, head: bool, source: string)

  datatype Bundle = Bundle(root: string, text: Text, readme: string, templates: seq<Given>)

  // ----- refs and entry names -----

  predicate IdChar(c: char) { 'a' <= c <= 'z' || '0' <= c <= '9' }

  predicate ValidId(id: string) {
    1 <= |id| <= 128 && IdChar(id[0]) && forall c :: c in id ==> IdChar(c) || c in {'.', '_', '-'}
  }

  predicate ValidHash(h: string) {
    |h| == 64 && forall c :: c in h ==> '0' <= c <= '9' || 'a' <= c <= 'f'
  }

  /** Portable template ids, by character code: letters and digits, and behind the first also dots, underscores and hyphens. */
  lemma IdsExactly(id: string)
    ensures ValidId(id) <==>
      && 1 <= |id| <= 128 && (97 <= id[0] as int <= 122 || 48 <= id[0] as int <= 57)
      && forall i :: 0 <= i < |id| ==>
        97 <= id[i] as int <= 122 || 48 <= id[i] as int <= 57 || id[i] as int == 46 || id[i] as int == 95 || id[i] as int == 45
  {
    if ValidId(id) {
      forall i | 0 <= i < |id| ensures IdChar(id[i]) || id[i] in {'.', '_', '-'} { assert id[i] in id; }
    }
  }

  /** The position of the first "@sha256:". */
  function Cut(ref: string): Option<nat> {
    if AT <= ref then Some(0)
    else if ref == [] then None
    else match Cut(ref[1..]) case Some(n) => Some(n + 1) case None => None
  }

  lemma {:induction false} CutSplits(ref: string)
    ensures Cut(ref).Some? ==> Cut(ref).value + |AT| <= |ref| && ref[Cut(ref).value..Cut(ref).value + |AT|] == AT
  {
    if !(AT <= ref) && ref != [] && Cut(ref[1..]).Some? {
      CutSplits(ref[1..]);
      var n := Cut(ref[1..]).value;
      assert ref[1..][n..n + |AT|] == ref[n + 1..n + 1 + |AT|];
    }
  }

  /** `templatePath`: templates/<id>/<hash>. */
  function TemplatePath(ref: string): Option<string> {
    CutSplits(ref);
    match Cut(ref)
    case None => None
    case Some(n) =>
      if ValidId(ref[..n]) && ValidHash(ref[n + |AT|..]) then Some(TEMPLATES + ref[..n] + "/" + ref[n + |AT|..]) else None
  }

  /** The entry of a template: its id and its hash, in their own places. */
  lemma TemplatePathShape(ref: string)
    ensures TemplatePath(ref).Some? ==> exists id, hash ::
      ref == id + "@sha256:" + hash && ValidId(id) && ValidHash(hash) && TemplatePath(ref).value == "templates/" + id + "/" + hash
  {
    hide ValidId, ValidHash;
    CutSplits(ref);
    if TemplatePath(ref).Some? {
      var n := Cut(ref).value;
      var id, hash := ref[..n], ref[n + |AT|..];
      assert ref == id + ref[n..n + |AT|] + hash;
    }
  }

  lemma {:induction false} SameUpTo(a: string, x: string, b: string, y: string)
    requires '/' !in a && '/' !in b && a + "/" + x == b + "/" + y
    ensures a == b && x == y
  {
    var l, r := a + "/" + x, b + "/" + y;
    assert l[0] == (if a == [] then '/' else a[0]) && r[0] == (if b == [] then '/' else b[0]);
    if a != [] && b != [] {
      assert l[1..] == a[1..] + "/" + x && r[1..] == b[1..] + "/" + y;
      SameUpTo(a[1..], x, b[1..], y);
      assert a == [a[0]] + a[1..] && b == [b[0]] + b[1..];
    } else {
      assert l[1..] == x && r[1..] == y;
    }
  }

  /** Different refs have different entry names. */
  lemma TemplatePathInjective(a: string, b: string)
    requires TemplatePath(a).Some? && TemplatePath(a) == TemplatePath(b)
    ensures a == b
  {
    CutSplits(a);
    CutSplits(b);
    var m, n := Cut(a).value, Cut(b).value;
    var x, y := a[..m] + "/" + a[m + |AT|..], b[..n] + "/" + b[n + |AT|..];
    assert TemplatePath(a).value == TEMPLATES + x && TemplatePath(b).value == TEMPLATES + y;
    assert x == (TEMPLATES + x)[|TEMPLATES|..] && y == (TEMPLATES + y)[|TEMPLATES|..];
    SameUpTo(a[..m], a[m + |AT|..], b[..n], b[n + |AT|..]);
    assert a == a[..m] + a[m..m + |AT|] + a[m + |AT|..] && b == b[..n] + b[n..n + |AT|] + b[n + |AT|..];
  }

  lemma TemplatePathNamed(ref: string)
    ensures TemplatePath(ref).Some? ==> TEMPLATES <= TemplatePath(ref).value
    ensures TemplatePath(ref).Some? ==> TemplatePath(ref).value != WORKFLOW_FILE && TemplatePath(ref).value != README_FILE
  {
    assert TEMPLATES[0] == 't' && WORKFLOW_FILE[0] == 'w' && README_FILE[0] == 'R';
  }

  // ----- the closure -----

  /** `resolveIn`. */
  function Resolve(sp: Subprocess, byRef: map<string, Template>, order: seq<string>): Option<Template> {
    if sp.version != "" then
      var ref := sp.templateRef + "@" + sp.version;
      if ref in byRef then Some(byRef[ref]) else None
    else FirstHead(sp.templateRef, byRef, order)
  }

  function FirstHead(id: string, byRef: map<string, Template>, order: seq<string>): Option<Template> {
    if order == [] then None
    else if order[0] in byRef && byRef[order[0]].head && byRef[order[0]].parsed.id == id then Some(byRef[order[0]])
    else FirstHead(id, byRef, order[1..])
  }

  predicate OneHead(byRef: map<string, Template>, order: seq<string>)
    requires Carried(byRef, order)
  {
    forall i, j :: 0 <= i < j < |order| && byRef[order[i]].head && byRef[order[j]].head ==>
      byRef[order[i]].parsed.id != byRef[order[j]].parsed.id
  }

  function Missing(byRef: map<string, Template>, order: seq<string>, id: string, ns: seq<Node>): seq<string> {
    if ns == [] then []
    else
      var n := ns[|ns| - 1];
      Missing(byRef, order, id, ns[..|ns| - 1])
      + if n.subprocess.Some? && n.subprocess.value.templateRef != "" && Resolve(n.subprocess.value, byRef, order).None?
        then ["template " + id + " references " + n.subprocess.value.templateRef + (if n.subprocess.value.version == "" then "" else "@" + n.subprocess.value.version)]
        else []
  }

  function Labelled(id: string, problems: seq<string>): seq<string> {
    seq(|problems|, i requires 0 <= i < |problems| => "template " + id + ": " + problems[i])
  }

  /** The problem list: each template's own, then the references the file does not carry. */
  function Problems(byRef: map<string, Template>, all: seq<string>, order: seq<string>): seq<string>
    requires Carried(byRef, order)
  {
    if order == [] then []
    else
      var t := byRef[order[|order| - 1]];
      Problems(byRef, all, order[..|order| - 1]) + Labelled(t.parsed.id, t.problems) + Missing(byRef, all, t.parsed.id, t.parsed.nodes)
  }

  ghost function Closure(root: string, byRef: map<string, Template>, order: seq<string>): Option<seq<string>>
    requires Carried(byRef, order)
  {
    if root in byRef && OneHead(byRef, order) then Some(Problems(byRef, order, order)) else None
  }

  /** `checkClosure`. */
  method CheckClosure(root: string, byRef: map<string, Template>, order: seq<string>) returns (r: Option<seq<string>>)
    requires Carried(byRef, order)
    ensures r == Closure(root, byRef, order)
  {
    if root !in byRef { return None; }
    var heads: set<string> := {};
    for i := 0 to |order|
      invariant forall k :: 0 <= k < i && byRef[order[k]].head ==> byRef[order[k]].parsed.id in heads
      invariant forall id :: id in heads ==> exists k :: 0 <= k < i && byRef[order[k]].head && byRef[order[k]].parsed.id == id
      invariant forall k, l :: 0 <= k < l < i && byRef[order[k]].head && byRef[order[l]].head ==> byRef[order[k]].parsed.id != byRef[order[l]].parsed.id
    {
      var t := byRef[order[i]];
      if t.head {
        if t.parsed.id in heads { return None; }
        heads := heads + {t.parsed.id};
      }
    }
    var problems := ListProblems(byRef, order);
    r := Some(problems);
  }

  method ListProblems(byRef: map<string, Template>, order: seq<string>) returns (problems: seq<string>)
    requires Carried(byRef, order)
    ensures problems == Problems(byRef, order, order)
  {
    problems := [];
    for i := 0 to |order|
      invariant problems == Problems(byRef, order, order[..i])
    {
      assert order[..i + 1][..i] == order[..i];
      var t := byRef[order[i]];
      ghost var before := problems;
      problems := problems + Labelled(t.parsed.id, t.problems);
      ghost var own := problems;
      for k := 0 to |t.parsed.nodes|
        invariant problems == own + Missing(byRef, order, t.parsed.id, t.parsed.nodes[..k])
      {
        assert t.parsed.nodes[..k + 1][..k] == t.parsed.nodes[..k];
        var sp := t.parsed.nodes[k].subprocess;
        if sp.Some? && sp.value.templateRef != "" && Resolve(sp.value, byRef, order).None? {
          problems := problems + ["template " + t.parsed.id + " references " + sp.value.templateRef + (if sp.value.version == "" then "" else "@" + sp.value.version)];
        }
      }
      assert t.parsed.nodes[..|t.parsed.nodes|] == t.parsed.nodes;
    }
    assert order[..|order|] == order;
  }

  /** In a set with one head per id, an unpinned reference has one answer, wherever the head is listed. */
  lemma {:induction false} HeadIsUnique(id: string, byRef: map<string, Template>, order: seq<string>, i: nat)
    requires Carried(byRef, order) && OneHead(byRef, order)
    requires i < |order| && byRef[order[i]].head && byRef[order[i]].parsed.id == id
    ensures FirstHead(id, byRef, order) == Some(byRef[order[i]])
  {
    assert order[0] in order;
    if i > 0 {
      var rest := order[1..];
      assert forall k :: 0 <= k < |rest| ==> rest[k] == order[k + 1];
      assert rest[i - 1] == order[i];
      HeadIsUnique(id, byRef, rest, i - 1);
    }
  }

  /** The file carries what a reference asks for: the pinned version, or a head of that id. */
  ghost predicate Answered(sp: Subprocess, byRef: map<string, Template>, order: seq<string>) {
    if sp.version != "" then sp.templateRef + "@" + sp.version in byRef
    else exists i :: 0 <= i < |order| && order[i] in byRef && byRef[order[i]].head && byRef[order[i]].parsed.id == sp.templateRef
  }

  lemma {:induction false} HeadFound(id: string, byRef: map<string, Template>, order: seq<string>)
    ensures FirstHead(id, byRef, order).Some? <==> exists i :: 0 <= i < |order| && order[i] in byRef && byRef[order[i]].head && byRef[order[i]].parsed.id == id
    ensures FirstHead(id, byRef, order).Some? ==> FirstHead(id, byRef, order).value.head && FirstHead(id, byRef, order).value.parsed.id == id
  {
    if order != [] {
      var rest := order[1..];
      HeadFound(id, byRef, rest);
      assert forall k :: 0 <= k < |rest| ==> rest[k] == order[k + 1];
      if i :| 0 <= i < |order| && order[i] in byRef && byRef[order[i]].head && byRef[order[i]].parsed.id == id {
        assert i > 0 ==> rest[i - 1] == order[i];
      }
    }
  }

  lemma ResolvedExactly(sp: Subprocess, byRef: map<string, Template>, order: seq<string>)
    ensures Resolve(sp, byRef, order).Some? <==> Answered(sp, byRef, order)
    ensures sp.version != "" && Resolve(sp, byRef, order).Some? ==> Resolve(sp, byRef, order).value == byRef[sp.templateRef + "@" + sp.version]
    ensures sp.version == "" && Resolve(sp, byRef, order).Some? ==>
      Resolve(sp, byRef, order).value.head && Resolve(sp, byRef, order).value.parsed.id == sp.templateRef
  {
    HeadFound(sp.templateRef, byRef, order);
  }

  /** Every reference of these steps is answered in the file. */
  ghost predicate AllAnswered(ns: seq<Node>, byRef: map<string, Template>, order: seq<string>) {
    forall k :: 0 <= k < |ns| && ns[k].subprocess.Some? && ns[k].subprocess.value.templateRef != "" ==> Answered(ns[k].subprocess.value, byRef, order)
  }

  lemma {:induction false} NoneMissing(byRef: map<string, Template>, order: seq<string>, id: string, ns: seq<Node>)
    ensures Missing(byRef, order, id, ns) == [] <==> AllAnswered(ns, byRef, order)
  {
    hide Answered, Resolve;
    if ns != [] {
      var n, rest := ns[|ns| - 1], ns[..|ns| - 1];
      NoneMissing(byRef, order, id, rest);
      assert forall k :: 0 <= k < |rest| ==> rest[k] == ns[k];
      if n.subprocess.Some? { ResolvedExactly(n.subprocess.value, byRef, order); }
      if AllAnswered(rest, byRef, order) && (n.subprocess.Some? && n.subprocess.value.templateRef != "" ==> Answered(n.subprocess.value, byRef, order)) {
        forall k | 0 <= k < |ns| && ns[k].subprocess.Some? && ns[k].subprocess.value.templateRef != "" ensures Answered(ns[k].subprocess.value, byRef, order) {
          if k < |rest| { assert rest[k] == ns[k]; }
        }
      }
    }
  }

  /** A workflow has no problems exactly if no template has any and every reference is answered in the file. */
  lemma {:induction false} ProblemFree(byRef: map<string, Template>, all: seq<string>, order: seq<string>)
    requires Carried(byRef, order)
    ensures Problems(byRef, all, order) == [] <==>
      forall i :: 0 <= i < |order| ==> order[i] in byRef && byRef[order[i]].problems == [] && AllAnswered(byRef[order[i]].parsed.nodes, byRef, all)
  {
    hide AllAnswered, Missing;
    if order != [] {
      var rest, t := order[..|order| - 1], byRef[order[|order| - 1]];
      ProblemFree(byRef, all, rest);
      NoneMissing(byRef, all, t.parsed.id, t.parsed.nodes);
      assert forall k :: 0 <= k < |rest| ==> rest[k] == order[k];
      assert Problems(byRef, all, order) == [] <==>
        Problems(byRef, all, rest) == [] && t.problems == [] && Missing(byRef, all, t.parsed.id, t.parsed.nodes) == [];
      if Problems(byRef, all, order) == [] {
        forall i | 0 <= i < |order| ensures order[i] in byRef && byRef[order[i]].problems == [] && AllAnswered(byRef[order[i]].parsed.nodes, byRef, all) {
          if i < |rest| { assert rest[i] == order[i]; }
        }
      }
    }
  }

  // ----- preparing a bundle -----

  datatype Prepared = Prepared(byRef: map<string, Template>, order: seq<string>)

  function Prepare(parse: Parser, root: string, ts: seq<Given>): Option<Prepared> {
    if ts == [] then Some(Prepared(map[], []))
    else match Prepare(parse, root, ts[..|ts| - 1])
      case None => None
      case Some(p) => Join(parse, root, p, ts[|ts| - 1])
  }

  /** One more template: its source must parse, hash to the ref it was given under, and be new. The root goes first. */
  function Join(parse: Parser, root: string, p: Prepared, t: Given): Option<Prepared> {
    match parse(t.source)
    case None => None
    case Some(x) =>
      if (t.ref != "" && t.ref != x.ref) || x.ref in p.byRef then None
      else Some(Prepared(p.byRef[x.ref := Template(x.ref, t.head, t.source, x.process, x.problems)],
                  if x.ref == root then [x.ref] + p.order else p.order + [x.ref]))
  }

  predicate Genuine(parse: Parser, r: string, t: Template) {
    t.ref == r && parse(t.source) == Some(Parsed(t.parsed, r, t.problems))
  }

  /** Every template is what its ref says, each is listed once, and the root comes first. */
  ghost predicate InShape(parse: Parser, root: string, p: Prepared) {
    && (forall r :: r in p.byRef ==> Genuine(parse, r, p.byRef[r]))
    && (forall r :: r in p.order <==> r in p.byRef)
    && (forall i, j :: 0 <= i < j < |p.order| ==> p.order[i] != p.order[j])
    && (root in p.byRef ==> p.order != [] && p.order[0] == root)
  }

  lemma JoinKeeps(parse: Parser, root: string, p: Prepared, t: Given)
    requires InShape(parse, root, p) && Join(parse, root, p, t).Some?
    ensures InShape(parse, root, Join(parse, root, p, t).value)
  {
    var x := parse(t.source).value;
    var q := Join(parse, root, p, t).value;
    forall r ensures r in q.order <==> r in p.order || r == x.ref {
      if r == x.ref { assert q.order[if r == root then 0 else |p.order|] == r; }
      if r in p.order {
        var i :| 0 <= i < |p.order| && p.order[i] == r;
        assert q.order[if x.ref == root then i + 1 else i] == r;
      }
    }
  }

  lemma {:induction false} PrepareKeeps(parse: Parser, root: string, ts: seq<Given>)
    ensures Prepare(parse, root, ts).Some? ==> InShape(parse, root, Prepare(parse, root, ts).value)
  {
    hide InShape, Join;
    if ts != [] {
      PrepareKeeps(parse, root, ts[..|ts| - 1]);
      var p := Prepare(parse, root, ts[..|ts| - 1]);
      if p.Some? && Prepare(parse, root, ts).Some? { JoinKeeps(parse, root, p.value, ts[|ts| - 1]); }
    } else {
      NothingInShape(parse, root);
    }
  }

  lemma NothingInShape(parse: Parser, root: string)
    ensures InShape(parse, root, Prepared(map[], []))
  {
  }

  ghost predicate Sourced(parse: Parser, b: Bundle, p: Prepared, problems: seq<string>) {
    && Prepare(parse, b.root, b.templates) == Some(p) && Carried(p.byRef, p.order)
    && Closure(b.root, p.byRef, p.order) == Some(problems)
  }

  /** `prepare`. */
  method PrepareBundle(parse: Parser, b: Bundle) returns (r: Option<(Prepared, seq<string>)>)
    ensures r.Some? ==> Sourced(parse, b, r.value.0, r.value.1)
    ensures r.None? ==> forall p, problems :: !Sourced(parse, b, p, problems)
  {
    hide InShape;
    var byRef: map<string, Template> := map[];
    var order: seq<string> := [];
    for i := 0 to |b.templates|
      invariant Prepare(parse, b.root, b.templates[..i]) == Some(Prepared(byRef, order))
    {
      assert b.templates[..i + 1][..i] == b.templates[..i];
      var t := b.templates[i];
      var x := parse(t.source);
      if x.None? || (t.ref != "" && t.ref != x.value.ref) || x.value.ref in byRef {
        Refused(parse, b.root, b.templates, i + 1);
        return None;
      }
      var ref := x.value.ref;
      byRef := byRef[ref := Template(ref, t.head, t.source, x.value.process, x.value.problems)];
      order := if ref == b.root then [ref] + order else order + [ref];
    }
    assert b.templates[..|b.templates|] == b.templates;
    PrepareKeeps(parse, b.root, b.templates);
    ShapeCarried(parse, b.root, Prepared(byRef, order));
    var problems := CheckClosure(b.root, byRef, order);
    if problems.None? { return None; }
    r := Some((Prepared(byRef, order), problems.value));
  }

  lemma ShapeCarried(parse: Parser, root: string, p: Prepared)
    requires InShape(parse, root, p)
    ensures Carried(p.byRef, p.order)
  {
  }

  /** What a prefix is refused for, the whole is. */
  lemma {:induction false} Refused(parse: Parser, root: string, ts: seq<Given>, n: nat)
    requires n <= |ts| && Prepare(parse, root, ts[..n]).None?
    ensures Prepare(parse, root, ts).None?
  {
    if n < |ts| {
      assert ts[..|ts| - 1][..n] == ts[..n];
      Refused(parse, root, ts[..|ts| - 1], n);
    } else {
      assert ts[..n] == ts;
    }
  }

  // ----- what a bundle is written as -----

  /**
   The parts around a bundle: the template parser, the JSON text of workflow.json both ways, `checkText`, trimming, whether the
   parsed template of a source has a JSON form, and the paths to be found in a text, a readme and templates.
   */
  datatype Codec = Codec(parse: Parser, encode: Workflow -> string, decode: string -> Option<Workflow>, fine: Text -> bool, trim: string -> string,
                         formed: string -> bool, find: (Text, string, seq<Template>) -> seq<string>)

  /** Decoding undoes encoding. */
  ghost predicate Faithful(c: Codec) {
    forall w :: c.decode(c.encode(w)) == Some(w)
  }

  /** `workflowText`, with the credits. */
  function TextFor(c: Codec, t: Text, root: Process): Text {
    var title := c.trim(t.title);
    var summary := c.trim(t.summary);
    Text(if title != "" then title else if root.name != "" then root.name else root.id,
      if summary != "" then summary else root.description, c.trim(t.author), c.trim(t.licence))
  }

  predicate AllNamed(order: seq<string>) {
    forall r :: r in order ==> TemplatePath(r).Some?
  }

  const TEMPLATE_TYPE := "application/vnd.tclaude.process-template"

  function TemplateFiles(byRef: map<string, Template>, order: seq<string>): seq<File>
    requires Carried(byRef, order) && AllNamed(order)
  {
    seq(|order|, i requires 0 <= i < |order| => File(TemplatePath(order[i]).value, TEMPLATE_TYPE, byRef[order[i]].source))
  }

  function Leading(c: Codec, w: Workflow, readme: string): seq<File> {
    [File(WORKFLOW_FILE, "application/json", c.encode(w))] + if readme == "" then [] else [File(README_FILE, "text/markdown", readme)]
  }

  ghost function WorkflowOf(c: Codec, b: Bundle, p: Prepared): Workflow
    requires Carried(p.byRef, p.order) && b.root in p.byRef
  {
    Summary(b.root, p.byRef, p.order, true).(text := TextFor(c, b.text, p.byRef[b.root].parsed))
  }

  /** What `bundleContent` accepts. */
  ghost predicate Writable(c: Codec, b: Bundle, p: Prepared, problems: seq<string>) {
    && Sourced(c.parse, b, p, problems) && c.fine(TextFor(c, b.text, p.byRef[b.root].parsed)) && AllNamed(p.order)
  }

  /** `bundleContent`. */
  method BundleContent(c: Codec, b: Bundle) returns (r: Option<(Workflow, seq<File>)>, ghost p: Prepared, ghost problems: seq<string>)
    ensures r.Some? ==> Writable(c, b, p, problems)
    ensures r.Some? ==> r.value.0 == WorkflowOf(c, b, p) && r.value.1 == Leading(c, r.value.0, b.readme) + TemplateFiles(p.byRef, p.order)
    ensures r.None? ==> forall q, ps :: !Writable(c, b, q, ps)
  {
    hide Summary, TemplatePath, Prepare, AllNamed, TemplateFiles, Leading, Problems, OneHead, TextFor;
    p, problems := Prepared(map[], []), [];
    var ready := PrepareBundle(c.parse, b);
    if ready.None? { return None, p, problems; }
    p, problems := ready.value.0, ready.value.1;
    var byRef, order := ready.value.0.byRef, ready.value.0.order;
    var w := Summarize(b.root, byRef, order, true);
    w := w.(text := TextFor(c, b.text, byRef[b.root].parsed));
    if !c.fine(w.text) { return None, p, problems; }
    var templates := ListTemplates(byRef, order);
    if templates.None? { return None, p, problems; }
    r := Some((w, Leading(c, w, b.readme) + templates.value));
  }

  method ListTemplates(byRef: map<string, Template>, order: seq<string>) returns (r: Option<seq<File>>)
    requires Carried(byRef, order)
    ensures r.Some? <==> AllNamed(order)
    ensures r.Some? ==> r.value == TemplateFiles(byRef, order)
  {
    hide TemplatePath;
    var files: seq<File> := [];
    for i := 0 to |order|
      invariant |files| == i
      invariant forall k :: 0 <= k < i ==> TemplatePath(order[k]).Some? && files[k] == File(TemplatePath(order[k]).value, TEMPLATE_TYPE, byRef[order[k]].source)
    {
      var name := TemplatePath(order[i]);
      assert order[i] in order;
      if name.None? { return None; }
      files := files + [File(name.value, TEMPLATE_TYPE, byRef[order[i]].source)];
    }
    r := Some(files);
  }
}
