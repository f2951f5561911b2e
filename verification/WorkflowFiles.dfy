/** Reading a workflow's files back, and what that says of the bundle they were written from. */
module WorkflowFiles {
  import opened Basics
  import opened WorkflowSummary
  import opened Workflows
  import WorkflowListing

  type Contents = map<string, string>

  datatype Loaded = Loaded(workflow: Workflow, readme: string, templates: map<string, Template>, order: seq<string>, problems: seq<string>, paths: seq<string>)

  // ----- templates -----

  function LoadOne(parse: Parser, contents: Contents, m: map<string, Template>, te: TemplateEntry): Option<map<string, Template>> {
    var name := TemplatePath(te.ref);
    if name.None? || name.value !in contents || te.ref in m then None
    else match parse(contents[name.value])
      case None => None
      case Some(x) =>
        if x.ref != te.ref then None
        else Some(m[te.ref := Template(te.ref, te.head, contents[name.value], x.process, x.problems)])
  }

  function LoadTemplates(parse: Parser, contents: Contents, tes: seq<TemplateEntry>): Option<map<string, Template>> {
    if tes == [] then Some(map[])
    else match LoadTemplates(parse, contents, tes[..|tes| - 1])
      case None => None
      case Some(m) => LoadOne(parse, contents, m, tes[|tes| - 1])
  }

  function RefsOf(tes: seq<TemplateEntry>): seq<string> {
    seq(|tes|, i requires 0 <= i < |tes| => tes[i].ref)
  }

  /** A listed template is what its ref says, and read from the entry of that ref. */
  ghost predicate ReadAt(parse: Parser, contents: Contents, te: TemplateEntry, m: map<string, Template>) {
    && te.ref in m && m[te.ref].head == te.head && Genuine(parse, te.ref, m[te.ref])
    && TemplatePath(te.ref).Some? && TemplatePath(te.ref).value in contents
    && m[te.ref].source == contents[TemplatePath(te.ref).value]
  }

  /** Every listed template is read, nothing else, and each is listed once. */
  ghost predicate Read(parse: Parser, contents: Contents, tes: seq<TemplateEntry>, m: map<string, Template>) {
    && (forall i :: 0 <= i < |tes| ==> ReadAt(parse, contents, tes[i], m))
    && (forall r :: r in m ==> r in RefsOf(tes))
    && (forall i, j :: 0 <= i < j < |tes| ==> tes[i].ref != tes[j].ref)
  }

  lemma ReadAtGrows(parse: Parser, contents: Contents, te: TemplateEntry, m: map<string, Template>, more: map<string, Template>)
    requires ReadAt(parse, contents, te, m) && te.ref in more && more[te.ref] == m[te.ref]
    ensures ReadAt(parse, contents, te, more)
  {
  }

  lemma OneReadAt(parse: Parser, contents: Contents, m: map<string, Template>, te: TemplateEntry)
    requires LoadOne(parse, contents, m, te).Some?
    ensures var more := LoadOne(parse, contents, m, te).value;
      ReadAt(parse, contents, te, more) && te.ref !in m && more == m[te.ref := more[te.ref]]
  {
    hide TemplatePath;
  }

  lemma OneRead(parse: Parser, contents: Contents, tes: seq<TemplateEntry>, m: map<string, Template>)
    requires tes != [] && Read(parse, contents, tes[..|tes| - 1], m) && LoadOne(parse, contents, m, tes[|tes| - 1]).Some?
    ensures Read(parse, contents, tes, LoadOne(parse, contents, m, tes[|tes| - 1]).value)
  {
    hide ReadAt, LoadOne;
    var rest, te := tes[..|tes| - 1], tes[|tes| - 1];
    var more := LoadOne(parse, contents, m, te).value;
    OneReadAt(parse, contents, m, te);
    forall i | 0 <= i < |rest| ensures ReadAt(parse, contents, tes[i], more) && tes[i].ref in m {
      assert tes[i] == rest[i];
      InMap(parse, contents, rest[i], m);
      ReadAtGrows(parse, contents, rest[i], m, more);
    }
    assert RefsOf(tes) == RefsOf(rest) + [te.ref];
  }

  lemma InMap(parse: Parser, contents: Contents, te: TemplateEntry, m: map<string, Template>)
    requires ReadAt(parse, contents, te, m)
    ensures te.ref in m
  {
  }

  lemma {:induction false} AllRead(parse: Parser, contents: Contents, tes: seq<TemplateEntry>)
    ensures LoadTemplates(parse, contents, tes).Some? ==> Read(parse, contents, tes, LoadTemplates(parse, contents, tes).value)
  {
    hide LoadOne, Read;
    if tes == [] {
      assert Read(parse, contents, [], map[]) by { NothingRead(parse, contents); }
    } else {
      AllRead(parse, contents, tes[..|tes| - 1]);
      var m := LoadTemplates(parse, contents, tes[..|tes| - 1]);
      if m.Some? && LoadTemplates(parse, contents, tes).Some? { OneRead(parse, contents, tes, m.value); }
    }
  }

  lemma NothingRead(parse: Parser, contents: Contents)
    ensures Read(parse, contents, [], map[])
  {
  }

  lemma ReadCarried(parse: Parser, contents: Contents, tes: seq<TemplateEntry>, m: map<string, Template>)
    requires Read(parse, contents, tes, m)
    ensures Carried(m, RefsOf(tes))
  {
    hide TemplatePath;
    forall r | r in RefsOf(tes) ensures r in m {
      var i :| 0 <= i < |tes| && RefsOf(tes)[i] == r;
      assert tes[i].ref in m;
    }
  }

  // ----- the whole file -----

  /** Nothing but workflow.json, README.md and templates. */
  predicate OnlyKnown(contents: Contents) {
    forall p :: p in contents ==> p == WORKFLOW_FILE || p == README_FILE || TEMPLATES <= p
  }

  /** Every template entry is listed. */
  predicate NothingLoose(contents: Contents, tes: seq<TemplateEntry>) {
    forall p :: p in contents && TEMPLATES <= p ==> exists i :: 0 <= i < |tes| && TemplatePath(tes[i].ref) == Some(p)
  }

  ghost predicate Matches(c: Codec, w: Workflow, root: string, m: map<string, Template>, order: seq<string>, selectors: bool)
    requires Carried(m, order) && root in m
  {
    c.encode(w) == c.encode(Summary(root, m, order, selectors).(text := w.text))
  }

  // ----- the scan for paths -----

  function TemplatesIn(m: map<string, Template>, order: seq<string>): (ts: seq<Template>)
    requires Carried(m, order)
    ensures |ts| == |order| && forall i :: 0 <= i < |ts| ==> order[i] in m && ts[i] == m[order[i]]
  {
    seq(|order|, i requires 0 <= i < |order| && Carried(m, order) => assert order[i] in order; m[order[i]])
  }

  /** Every template has a JSON form, which the scan needs: a layout coordinate that is no number has none. */
  predicate AllFormed(c: Codec, ts: seq<Template>) {
    forall i :: 0 <= i < |ts| ==> c.formed(ts[i].source)
  }

  /** `scanPaths`. */
  method Scan(c: Codec, t: Text, readme: string, ts: seq<Template>) returns (r: Option<seq<string>>)
    ensures r == if AllFormed(c, ts) then Some(c.find(t, readme, ts)) else None
  {
    for i := 0 to |ts|
      invariant AllFormed(c, ts[..i])
    {
      if !c.formed(ts[i].source) { return None; }
    }
    r := Some(c.find(t, readme, ts));
  }

  /** What `loadContents` demands of a file whose workflow.json says `w` and whose templates are `m`. */
  ghost predicate Acceptable(c: Codec, root: string, contents: Contents, w: Workflow, m: map<string, Template>) {
    var order := RefsOf(w.templates);
    && OnlyKnown(contents) && WORKFLOW_FILE in contents && c.decode(contents[WORKFLOW_FILE]) == Some(w) && c.fine(w.text)
    && LoadTemplates(c.parse, contents, w.templates) == Some(m) && NothingLoose(contents, w.templates)
    && order != [] && order[0] == root && w.root == root && Carried(m, order)
    && Closure(root, m, order).Some?
    && (Matches(c, w, root, m, order, true) || Matches(c, w, root, m, order, false))
    && AllFormed(c, TemplatesIn(m, order))
  }

  ghost function Outcome(c: Codec, root: string, contents: Contents, w: Workflow, m: map<string, Template>): Loaded
    requires Acceptable(c, root, contents, w, m)
  {
    var order := RefsOf(w.templates);
    var readme := if README_FILE in contents then contents[README_FILE] else "";
    Loaded(if Matches(c, w, root, m, order, true) then w else w.(roles := Summary(root, m, order, true).roles),
      readme, m, order, Closure(root, m, order).value, c.find(w.text, readme, TemplatesIn(m, order)))
  }

  /** `loadContents`. */
  method LoadContents(c: Codec, root: string, contents: Contents) returns (r: Option<Loaded>)
    ensures r.Some? ==> exists w, m :: Acceptable(c, root, contents, w, m) && r.value == Outcome(c, root, contents, w, m)
    ensures r.None? ==> forall w, m :: !Acceptable(c, root, contents, w, m)
  {
    hide TemplatePath, OneHead, Problems, LoadOne, Summary, AllFormed, NothingLoose, ReadAt;
    if exists p :: p in contents && p != WORKFLOW_FILE && p != README_FILE && !(TEMPLATES <= p) { return None; }
    if WORKFLOW_FILE !in contents { return None; }
    var decoded := c.decode(contents[WORKFLOW_FILE]);
    if decoded.None? { return None; }
    var w := decoded.value;
    if !c.fine(w.text) { return None; }
    var templates := ReadTemplates(c.parse, contents, w.templates);
    if templates.None? { return None; }
    var m, order := templates.value, RefsOf(w.templates);
    AllRead(c.parse, contents, w.templates);
    ReadCarried(c.parse, contents, w.templates, m);
    if !NothingLoose(contents, w.templates) { return None; }
    if order == [] || order[0] != root || w.root != root { return None; }
    var problems := CheckClosure(root, m, order);
    if problems.None? { return None; }
    var derived := Summarize(root, m, order, true);
    var final := w;
    if c.encode(w) != c.encode(derived.(text := w.text)) {
      var legacy := Summarize(root, m, order, false);
      if c.encode(w) != c.encode(legacy.(text := w.text)) { return None; }
      final := w.(roles := derived.roles);
    }
    var readme := if README_FILE in contents then contents[README_FILE] else "";
    var paths := Scan(c, final.text, readme, TemplatesIn(m, order));
    if paths.None? { return None; }
    r := Some(Loaded(final, readme, m, order, problems.value, paths.value));
    assert Acceptable(c, root, contents, w, m);
    assert r.value == Outcome(c, root, contents, w, m);
  }

  method ReadTemplates(parse: Parser, contents: Contents, tes: seq<TemplateEntry>) returns (r: Option<map<string, Template>>)
    ensures r == LoadTemplates(parse, contents, tes)
  {
    hide TemplatePath;
    var m: map<string, Template> := map[];
    for i := 0 to |tes|
      invariant LoadTemplates(parse, contents, tes[..i]) == Some(m)
    {
      assert tes[..i + 1][..i] == tes[..i];
      var te := tes[i];
      var name := TemplatePath(te.ref);
      if name.None? || name.value !in contents || te.ref in m { StaysRefused(parse, contents, tes, i + 1); return None; }
      var x := parse(contents[name.value]);
      if x.None? || x.value.ref != te.ref { StaysRefused(parse, contents, tes, i + 1); return None; }
      m := m[te.ref := Template(te.ref, te.head, contents[name.value], x.value.process, x.value.problems)];
    }
    assert tes[..|tes|] == tes;
    r := Some(m);
  }

  lemma {:induction false} StaysRefused(parse: Parser, contents: Contents, tes: seq<TemplateEntry>, n: nat)
    requires n <= |tes| && LoadTemplates(parse, contents, tes[..n]).None?
    ensures LoadTemplates(parse, contents, tes).None?
  {
    hide LoadOne;
    if n < |tes| {
      assert tes[..|tes| - 1][..n] == tes[..n];
      StaysRefused(parse, contents, tes[..|tes| - 1], n);
    } else {
      assert tes[..n] == tes;
    }
  }

  // ----- every accepted file -----

  /** Current or legacy, an accepted file ends with the full summary of its templates, role selectors included. */
  lemma FullySummarized(c: Codec, root: string, contents: Contents, w: Workflow, m: map<string, Template>)
    requires Faithful(c) && Acceptable(c, root, contents, w, m)
    ensures var l := Outcome(c, root, contents, w, m);
      l.workflow == Summary(root, m, l.order, true).(text := w.text)
  {
    hide Summary, LoadTemplates, Closure, NothingLoose;
    var order := RefsOf(w.templates);
    LegacySummary(root, m, order);
    if Matches(c, w, root, m, order, true) {
      EncodesOne(c, w, Summary(root, m, order, true).(text := w.text));
    } else {
      EncodesOne(c, w, Summary(root, m, order, false).(text := w.text));
    }
  }

  /** So what its workflow.json ends up saying is exactly what its templates ask for. */
  lemma AcceptedDescribes(c: Codec, root: string, contents: Contents, w: Workflow, m: map<string, Template>)
    requires Faithful(c) && Acceptable(c, root, contents, w, m)
    ensures var l := Outcome(c, root, contents, w, m);
      WorkflowListing.Describes(l.workflow, root, m, l.order, true, WorkflowListing.AllTurns(m, l.order), WorkflowListing.AllBacks(m, l.order))
  {
    hide Acceptable, Summary, WorkflowListing.AllTurns, WorkflowListing.AllBacks, WorkflowListing.Listing, WorkflowListing.BackListing;
    hide WorkflowListing.UsesListed, WorkflowListing.ParamsListed, WorkflowListing.Steps, WorkflowListing.ProgramsOf, WorkflowListing.LoopsOf;
    FullySummarized(c, root, contents, w, m);
    AcceptedCarries(c, root, contents, w, m);
    WorkflowListing.SummaryDescribes(root, m, RefsOf(w.templates), true);
  }

  lemma AcceptedCarries(c: Codec, root: string, contents: Contents, w: Workflow, m: map<string, Template>)
    requires Acceptable(c, root, contents, w, m)
    ensures Carried(m, RefsOf(w.templates)) && root in m && Outcome(c, root, contents, w, m).order == RefsOf(w.templates)
  {
    hide Summary, LoadTemplates, Closure, NothingLoose;
    assert RefsOf(w.templates)[0] in RefsOf(w.templates);
  }

  lemma EncodesOne(c: Codec, v: Workflow, w: Workflow)
    requires Faithful(c) && c.encode(v) == c.encode(w)
    ensures v == w
  {
    assert c.decode(c.encode(v)) == Some(v) && c.decode(c.encode(w)) == Some(w);
  }

  // ----- the round trip -----

  /** The files of a container, by name. */
  function AsContents(files: seq<File>): Contents {
    if files == [] then map[] else AsContents(files[..|files| - 1])[files[|files| - 1].name := files[|files| - 1].text]
  }

  predicate DistinctNames(files: seq<File>) {
    forall i, j :: 0 <= i < j < |files| ==> files[i].name != files[j].name
  }

  lemma {:induction false} ContentsGiven(files: seq<File>)
    requires DistinctNames(files)
    ensures forall i :: 0 <= i < |files| ==> files[i].name in AsContents(files) && AsContents(files)[files[i].name] == files[i].text
    ensures forall p :: p in AsContents(files) ==> exists i :: 0 <= i < |files| && files[i].name == p
  {
    if files != [] {
      var rest := files[..|files| - 1];
      assert forall i :: 0 <= i < |rest| ==> rest[i] == files[i];
      ContentsGiven(rest);
      forall p | p in AsContents(files) ensures exists i :: 0 <= i < |files| && files[i].name == p {
        if p != files[|files| - 1].name {
          var i :| 0 <= i < |rest| && rest[i].name == p;
          assert files[i].name == p;
        }
      }
    }
  }

  /** The names a bundle is written under are distinct. */
  lemma NamesDistinct(c: Codec, w: Workflow, readme: string, byRef: map<string, Template>, order: seq<string>)
    requires Carried(byRef, order) && AllNamed(order) && forall i, j :: 0 <= i < j < |order| ==> order[i] != order[j]
    ensures DistinctNames(Leading(c, w, readme) + TemplateFiles(byRef, order))
  {
    hide TemplatePath;
    var lead, ts := Leading(c, w, readme), TemplateFiles(byRef, order);
    var files := lead + ts;
    forall i | 0 <= i < |ts|
      ensures ts[i].name != WORKFLOW_FILE && ts[i].name != README_FILE
    {
      assert order[i] in order;
      TemplatePathNamed(order[i]);
    }
    assert WORKFLOW_FILE[0] == 'w' && README_FILE[0] == 'R';
    forall i, j | 0 <= i < j < |files| ensures files[i].name != files[j].name {
      if i >= |lead| {
        var x, y := order[i - |lead|], order[j - |lead|];
        assert x in order && y in order && files[i] == ts[i - |lead|] && files[j] == ts[j - |lead|];
        if files[i].name == files[j].name { TemplatePathInjective(x, y); }
      } else if j >= |lead| {
        assert files[j] == ts[j - |lead|];
      }
    }
  }

  ghost function Restrict(byRef: map<string, Template>, order: seq<string>): map<string, Template>
    requires Carried(byRef, order)
  {
    map r | r in order :: byRef[r]
  }

  lemma RestrictMore(byRef: map<string, Template>, order: seq<string>, ref: string)
    requires Carried(byRef, order) && ref in byRef
    ensures Carried(byRef, order + [ref]) && Restrict(byRef, order + [ref]) == Restrict(byRef, order)[ref := byRef[ref]]
  {
  }

  /** Loading the templates a bundle lists gives back the bundle's own. */
  lemma {:induction false} TemplatesLoad(parse: Parser, contents: Contents, byRef: map<string, Template>, order: seq<string>, tes: seq<TemplateEntry>)
    requires Carried(byRef, order) && AllNamed(order) && forall i, j :: 0 <= i < j < |order| ==> order[i] != order[j]
    requires forall r :: r in order ==> Genuine(parse, r, byRef[r]) && TemplatePath(r).value in contents && contents[TemplatePath(r).value] == byRef[r].source
    requires |tes| == |order| && forall i :: 0 <= i < |order| ==> tes[i] == EntryFor(byRef, order[i])
    ensures LoadTemplates(parse, contents, tes) == Some(Restrict(byRef, order))
  {
    hide TemplatePath;
    if order != [] {
      var rest, ref := order[..|order| - 1], order[|order| - 1];
      assert order == rest + [ref] && ref in order;
      assert forall r :: r in rest ==> r in order;
      TemplatesLoad(parse, contents, byRef, rest, tes[..|tes| - 1]);
      assert ref !in rest;
      RestrictMore(byRef, rest, ref);
    } else {
      assert Restrict(byRef, order) == map[];
    }
  }

  predicate Listable(byRef: map<string, Template>, order: seq<string>) {
    (forall r :: r in order ==> r in byRef) && AllNamed(order) && forall i, j :: 0 <= i < j < |order| ==> order[i] != order[j]
  }

  /** A written template is found under its entry name. */
  lemma TemplateFound(lead: seq<File>, byRef: map<string, Template>, order: seq<string>, r: string)
    requires Listable(byRef, order) && DistinctNames(lead + TemplateFiles(byRef, order)) && r in order
    ensures var contents := AsContents(lead + TemplateFiles(byRef, order));
      TemplatePath(r).value in contents && contents[TemplatePath(r).value] == byRef[r].source
  {
    hide TemplatePath;
    var files := lead + TemplateFiles(byRef, order);
    ContentsGiven(files);
    var i :| 0 <= i < |order| && order[i] == r;
    assert files[|lead| + i] == TemplateFiles(byRef, order)[i];
  }

  lemma TemplateFileAt(byRef: map<string, Template>, order: seq<string>, k: nat)
    requires Listable(byRef, order) && k < |TemplateFiles(byRef, order)|
    ensures k < |order| && TemplatePath(order[k]) == Some(TemplateFiles(byRef, order)[k].name)
  {
    hide TemplatePath;
    assert order[k] in order;
  }

  /** Whatever is found is a leading file or a written template. */
  lemma FoundWritten(lead: seq<File>, byRef: map<string, Template>, order: seq<string>, q: string)
    requires Listable(byRef, order) && DistinctNames(lead + TemplateFiles(byRef, order)) && q in AsContents(lead + TemplateFiles(byRef, order))
    ensures (exists i :: 0 <= i < |lead| && lead[i].name == q) || exists i :: 0 <= i < |order| && TemplatePath(order[i]) == Some(q)
  {
    hide TemplatePath, AsContents, DistinctNames, TemplateFiles, AllNamed;
    var ts := TemplateFiles(byRef, order);
    ContentsGiven(lead + ts);
    var i :| 0 <= i < |lead + ts| && (lead + ts)[i].name == q;
    if i < |lead| {
      assert (lead + ts)[i] == lead[i];
    } else {
      var k := i - |lead|;
      assert (lead + ts)[i] == ts[k];
      TemplateFileAt(byRef, order, k);
    }
  }

  /** What the files of a written bundle hold. */
  lemma WrittenContents(c: Codec, w: Workflow, readme: string, byRef: map<string, Template>, order: seq<string>, contents: Contents)
    requires Listable(byRef, order)
    requires contents == AsContents(Leading(c, w, readme) + TemplateFiles(byRef, order))
    ensures OnlyKnown(contents) && WORKFLOW_FILE in contents && contents[WORKFLOW_FILE] == c.encode(w)
    ensures readme == if README_FILE in contents then contents[README_FILE] else ""
    ensures forall r :: r in order ==> TemplatePath(r).value in contents && contents[TemplatePath(r).value] == byRef[r].source
    ensures forall q :: q in contents && TEMPLATES <= q ==> exists i :: 0 <= i < |order| && TemplatePath(order[i]) == Some(q)
  {
    hide TemplatePath, AsContents, TemplateFiles;
    var lead, ts := Leading(c, w, readme), TemplateFiles(byRef, order);
    NamesDistinct(c, w, readme, byRef, order);
    forall r | r in order ensures TemplatePath(r).value in contents && contents[TemplatePath(r).value] == byRef[r].source {
      TemplateFound(lead, byRef, order, r);
    }
    LeadFound(lead, ts);
    assert WORKFLOW_FILE[0] == 'w' && README_FILE[0] == 'R' && TEMPLATES[0] == 't';
    forall q | q in contents
      ensures q == WORKFLOW_FILE || (q == README_FILE && readme != "") || TEMPLATES <= q
      ensures TEMPLATES <= q ==> exists i :: 0 <= i < |order| && TemplatePath(order[i]) == Some(q)
    {
      FoundWritten(lead, byRef, order, q);
      if i :| 0 <= i < |order| && TemplatePath(order[i]) == Some(q) { TemplatePathNamed(order[i]); }
    }
    assert lead[0].name == WORKFLOW_FILE;
    assert readme != "" ==> lead[1] == File(README_FILE, "text/markdown", readme);
  }

  lemma LeadFound(lead: seq<File>, ts: seq<File>)
    requires DistinctNames(lead + ts)
    ensures forall i :: 0 <= i < |lead| ==> lead[i].name in AsContents(lead + ts) && AsContents(lead + ts)[lead[i].name] == lead[i].text
  {
    ContentsGiven(lead + ts);
    assert forall i :: 0 <= i < |lead| ==> (lead + ts)[i] == lead[i];
  }

  /**
   Round trip: the files of every bundle `bundleContent` accepts are accepted by `loadContents` exactly if its templates have
   a JSON form, which writing does not ask for; with the same templates, heads, root-first order, problems, text and summary.
   */
  lemma BundleLoads(c: Codec, b: Bundle, p: Prepared, problems: seq<string>)
    requires Faithful(c) && Writable(c, b, p, problems)
    ensures var w := WorkflowOf(c, b, p);
      var contents := AsContents(Leading(c, w, b.readme) + TemplateFiles(p.byRef, p.order));
      && (Acceptable(c, b.root, contents, w, p.byRef) <==> AllFormed(c, TemplatesIn(p.byRef, p.order)))
      && (forall v, m :: Acceptable(c, b.root, contents, v, m) ==> v == w && m == p.byRef)
      && (Acceptable(c, b.root, contents, w, p.byRef) ==> Outcome(c, b.root, contents, w, p.byRef) == ReadBack(c, b, p, problems))
  {
    hide TemplatePath, Prepare, Problems, OneHead, Summary, AsContents, TextFor, Leading, TemplateFiles, LoadTemplates, AllNamed, NothingLoose, OnlyKnown, RefsOf;
    var w := WorkflowOf(c, b, p);
    var contents := AsContents(Leading(c, w, b.readme) + TemplateFiles(p.byRef, p.order));
    PrepareKeeps(c.parse, b.root, b.templates);
    WrittenContents(c, w, b.readme, p.byRef, p.order, contents);
    SummaryLists(b.root, p.byRef, p.order, w);
    TemplatesLoad(c.parse, contents, p.byRef, p.order, w.templates);
    assert Restrict(p.byRef, p.order) == p.byRef;
    ListsAll(contents, p.order, w.templates);
    assert c.decode(c.encode(w)) == Some(w);
    assert Matches(c, w, b.root, p.byRef, p.order, true);
  }

  /** What is read of the file a bundle is written as. */
  ghost function ReadBack(c: Codec, b: Bundle, p: Prepared, problems: seq<string>): Loaded
    requires Carried(p.byRef, p.order) && b.root in p.byRef
  {
    var w := WorkflowOf(c, b, p);
    Loaded(w, b.readme, p.byRef, p.order, problems, c.find(w.text, b.readme, TemplatesIn(p.byRef, p.order)))
  }

  lemma SummaryLists(root: string, byRef: map<string, Template>, order: seq<string>, w: Workflow)
    requires Carried(byRef, order) && root in byRef && w == Summary(root, byRef, order, true).(text := w.text)
    ensures RefsOf(w.templates) == order && w.root == root && |w.templates| == |order|
    ensures forall i :: 0 <= i < |order| ==> w.templates[i] == EntryFor(byRef, order[i])
  {
  }

  lemma ListsAll(contents: Contents, order: seq<string>, tes: seq<TemplateEntry>)
    requires RefsOf(tes) == order
    requires forall q :: q in contents && TEMPLATES <= q ==> exists i :: 0 <= i < |order| && TemplatePath(order[i]) == Some(q)
    ensures NothingLoose(contents, tes)
  {
    hide TemplatePath;
    forall q | q in contents && TEMPLATES <= q ensures exists i :: 0 <= i < |tes| && TemplatePath(tes[i].ref) == Some(q) {
      var i :| 0 <= i < |order| && TemplatePath(order[i]) == Some(q);
      assert tes[i].ref == order[i];
    }
  }

  /** There is one way to accept a file. */
  lemma AcceptedOnce(c: Codec, root: string, contents: Contents, w: Workflow, m: map<string, Template>, w': Workflow, m': map<string, Template>)
    requires Acceptable(c, root, contents, w, m) && Acceptable(c, root, contents, w', m')
    ensures w == w' && m == m'
  {
  }

  /**
   `ScanPaths`, before a bundle is written: for a writable bundle it succeeds exactly if the file will be readable, and lists what
   a reader will be given, unless blanks around the credits make a difference.
   */
  method ScanPaths(c: Codec, b: Bundle) returns (r: Option<seq<string>>, ghost p: Prepared, ghost problems: seq<string>)
    ensures r.Some? ==> Sourced(c.parse, b, p, problems)
    ensures forall q, ps :: Writable(c, b, q, ps) ==> (r.Some? <==> AllFormed(c, TemplatesIn(q.byRef, q.order)))
    ensures forall q, ps :: Writable(c, b, q, ps) && r.Some? && c.trim(b.text.author) == b.text.author && c.trim(b.text.licence) == b.text.licence ==>
      r.value == ReadBack(c, b, q, ps).paths
  {
    hide Prepare, Problems, OneHead, Summary, AllNamed, AllFormed;
    p, problems := Prepared(map[], []), [];
    var ready := PrepareBundle(c.parse, b);
    if ready.None? { return None, p, problems; }
    p, problems := ready.value.0, ready.value.1;
    PrepareKeeps(c.parse, b.root, b.templates);
    var byRef, order := ready.value.0.byRef, ready.value.0.order;
    var text := TextFor(c, b.text, byRef[b.root].parsed).(author := b.text.author, licence := b.text.licence);
    r := Scan(c, text, b.readme, TemplatesIn(byRef, order));
    forall q, ps | Writable(c, b, q, ps) ensures q == p && ps == problems { }
  }

  /** The files a bundle is written as. */
  ghost function FilesOf(c: Codec, b: Bundle, p: Prepared, problems: seq<string>): seq<File>
    requires Writable(c, b, p, problems)
  {
    Leading(c, WorkflowOf(c, b, p), b.readme) + TemplateFiles(p.byRef, p.order)
  }

  predicate WithinLimit(files: seq<File>, limit: nat) {
    forall i :: 0 <= i < |files| ==> |files[i].text| <= limit
  }

  lemma WritableOnce(c: Codec, b: Bundle, p: Prepared, problems: seq<string>, q: Prepared, ps: seq<string>)
    requires Writable(c, b, p, problems) && Writable(c, b, q, ps)
    ensures p == q && problems == ps
  {
  }

  /** `Write` and `Open`, apart from the container: no file may be over the limit, and what is read is what was written. */
  method WriteThenRead(c: Codec, b: Bundle, limit: nat) returns (written: bool, r: Option<Loaded>, ghost p: Prepared, ghost problems: seq<string>)
    requires Faithful(c)
    ensures written <==> exists q, ps :: Writable(c, b, q, ps) && WithinLimit(FilesOf(c, b, q, ps), limit)
    ensures written ==> Writable(c, b, p, problems) && r == if AllFormed(c, TemplatesIn(p.byRef, p.order)) then Some(ReadBack(c, b, p, problems)) else None
    // the text: credits trimmed, and the root template's where the exporter gave no title or summary
    ensures r.Some? ==>
      && r.value.workflow.text.author == c.trim(b.text.author) && r.value.workflow.text.licence == c.trim(b.text.licence)
      && (c.trim(b.text.title) != "" ==> r.value.workflow.text.title == c.trim(b.text.title))
      && (c.trim(b.text.summary) != "" ==> r.value.workflow.text.summary == c.trim(b.text.summary))
  {
    hide Acceptable, Outcome, Writable, AllFormed, Leading, TemplateFiles, AsContents, Faithful;
    var content;
    content, p, problems := BundleContent(c, b);
    if content.None? { return false, None, p, problems; }
    var files := content.value.1;
    forall q, ps | Writable(c, b, q, ps) ensures q == p && ps == problems { WritableOnce(c, b, p, problems, q, ps); }
    for i := 0 to |files|
      invariant forall k :: 0 <= k < i ==> |files[k].text| <= limit
    {
      if |files[i].text| > limit { return false, None, p, problems; }
    }
    var contents := AsContents(files);
    r := LoadContents(c, b.root, contents);
    BundleLoads(c, b, p, problems);
    if r.Some? {
      ghost var w, m :| Acceptable(c, b.root, contents, w, m) && r.value == Outcome(c, b.root, contents, w, m);
      AcceptedOnce(c, b.root, contents, w, m, content.value.0, p.byRef);
    }
    written := true;
  }
}
