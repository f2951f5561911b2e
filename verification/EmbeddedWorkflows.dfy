/** Workflows that travel in a PAF envelope: their section of the archive, and how it is opened. */
module EmbeddedWorkflows {
  import opened Basics
  import opened PafDigest
  import opened PafArchive
  import opened PafAgreement
  import opened PafWriter
  import opened WorkflowSummary
  import opened Workflows
  import opened WorkflowFiles

  const MAX_TOTAL: nat := 0x200_0000
  const MAX_FILE: nat := 0x10_0000
  const MAX_FILES: nat := 1000

  /** The bounds of a workflow file, on the section of one. */
  predicate SectionFits(es: seq<Entry>, prefix: string) {
    var section := Under(es, prefix);
    && TotalSize(section) <= 33554432 && |section| <= 1000
    && forall e :: e in section ==> e.bytes <= 1048576
  }

  /** Files below a workflow's directory are plain text, listed once and with their sizes. */
  predicate PlainSection(a: Archive, prefix: string) {
    && DistinctPaths(a.manifest.entries)
    && (forall e :: e in a.manifest.entries && prefix <= e.path ==>
          e.path in a.files && a.files[e.path].Raw? && e.bytes == |a.files[e.path].text|)
    && (forall p :: p in a.files && prefix <= p ==> Listed(a.manifest, p))
  }

  /** The files below a prefix, under their names relative to it. */
  ghost predicate IsSection(a: Archive, prefix: string, contents: Contents) {
    && (forall p :: p in a.files && prefix <= p ==> p[|prefix|..] in contents)
    && (forall rel :: rel in contents ==> prefix + rel in a.files && a.files[prefix + rel] == Raw(contents[rel]))
  }

  /** What the first `n` entries have given. */
  ghost predicate Gathered(a: Archive, prefix: string, n: nat, contents: Contents)
    requires n <= |a.manifest.entries|
  {
    var es := a.manifest.entries;
    && (forall k :: 0 <= k < n && prefix <= es[k].path ==> es[k].path[|prefix|..] in contents && es[k].bytes <= MAX_FILE)
    && (forall k :: n <= k < |es| && prefix <= es[k].path ==> es[k].path[|prefix|..] !in contents)
    && (forall rel :: rel in contents ==> prefix + rel in a.files && a.files[prefix + rel] == Raw(contents[rel]))
  }

  lemma GatherStep(a: Archive, prefix: string, n: nat, contents: Contents)
    requires PlainSection(a, prefix) && n < |a.manifest.entries| && Gathered(a, prefix, n, contents)
    requires prefix <= a.manifest.entries[n].path && a.manifest.entries[n].bytes <= MAX_FILE
    ensures var e := a.manifest.entries[n];
      && e.path in a.files && a.files[e.path].Raw? && e.path[|prefix|..] !in contents
      && Gathered(a, prefix, n + 1, contents[e.path[|prefix|..] := a.files[e.path].text])
  {
    var es := a.manifest.entries;
    var e := es[n];
    var rel := e.path[|prefix|..];
    assert e in es && e.path == prefix + rel;
    forall k | n < k < |es| && prefix <= es[k].path ensures es[k].path[|prefix|..] != rel {
      assert es[k].path == prefix + es[k].path[|prefix|..];
    }
  }

  lemma GatheredAll(a: Archive, prefix: string, contents: Contents)
    requires PlainSection(a, prefix) && Gathered(a, prefix, |a.manifest.entries|, contents)
    ensures IsSection(a, prefix, contents)
    ensures forall e :: e in Under(a.manifest.entries, prefix) ==> e.bytes <= MAX_FILE
  {
    hide Under;
    UnderKeeps(a.manifest.entries, prefix);
    forall p | p in a.files && prefix <= p ensures p[|prefix|..] in contents {
      assert Listed(a.manifest, p);
    }
  }

  /** The entries of one workflow. */
  method Gather(a: Archive, prefix: string) returns (r: Option<Contents>)
    requires PlainSection(a, prefix)
    ensures r.Some? <==> SectionFits(a.manifest.entries, prefix)
    ensures r.Some? ==> IsSection(a, prefix, r.value)
  {
    hide Under, TotalSize, PlainSection, IsSection, Gathered;
    var es := a.manifest.entries;
    var contents: Contents := map[];
    var total := 0;
    assert es[0..] == es;
    assert Gathered(a, prefix, 0, map[]) by { GatheredNone(a, prefix); }
    for i := 0 to |es|
      invariant total + TotalSize(Under(es[i..], prefix)) == TotalSize(Under(es, prefix)) && total <= MAX_TOTAL
      invariant |contents| + |Under(es[i..], prefix)| == |Under(es, prefix)| && |contents| <= MAX_FILES
      invariant Gathered(a, prefix, i, contents)
    {
      var e := es[i];
      assert e in es;
      UnderStep(es, i, prefix);
      if prefix <= e.path {
        total := total + e.bytes;
        if total > MAX_TOTAL || |contents| >= MAX_FILES { return None; }
        if e.bytes > MAX_FILE {
          UnderKeeps(es, prefix);
          return None;
        }
        GatherStep(a, prefix, i, contents);
        contents := contents[e.path[|prefix|..] := a.files[e.path].text];
      } else {
        GatherSkip(a, prefix, i, contents);
      }
    }
    GatheredAll(a, prefix, contents);
    UnderNone(prefix, es);
    r := Some(contents);
  }

  lemma GatheredNone(a: Archive, prefix: string)
    ensures Gathered(a, prefix, 0, map[])
  {
  }

  lemma GatherSkip(a: Archive, prefix: string, n: nat, contents: Contents)
    requires n < |a.manifest.entries| && Gathered(a, prefix, n, contents) && !(prefix <= a.manifest.entries[n].path)
    ensures Gathered(a, prefix, n + 1, contents)
  {
  }

  lemma UnderNone(prefix: string, es: seq<Entry>)
    ensures Under(es[|es|..], prefix) == [] && TotalSize([]) == 0
  {
  }

  lemma UnderStep(es: seq<Entry>, i: nat, prefix: string)
    requires i < |es|
    ensures var more := Under(es[i + 1..], prefix);
      var here := if prefix <= es[i].path then 1 else 0;
      && |Under(es[i..], prefix)| == here + |more|
      && TotalSize(Under(es[i..], prefix)) == here * es[i].bytes + TotalSize(more)
  {
    assert es[i..][0] == es[i] && es[i..][1..] == es[i + 1..];
    var more := Under(es[i + 1..], prefix);
    assert [] + more == more && ([es[i]] + more)[1..] == more;
  }

  /** The item an envelope has for a workflow; of two with one key, the later counts. */
  function ItemOf(items: seq<WorkflowItem>, key: string): Option<WorkflowItem> {
    if items == [] then None
    else if items[|items| - 1].key == key then Some(items[|items| - 1])
    else ItemOf(items[..|items| - 1], key)
  }

  const LOOPS := "loops"

  /** `requiredFeatures`. */
  function RequiredFeatures(w: Workflow): seq<string> {
    if w.loops == [] then [] else [LOOPS]
  }

  /** `unknownFeatures` finds nothing. */
  predicate Understood(needs: seq<string>) {
    forall f :: f in needs ==> f == LOOPS
  }

  /** The envelope names the workflow, and this reader understands what it needs. */
  predicate Openable(a: Archive, key: string) {
    ItemOf(a.manifest.workflows, key).Some? && Understood(ItemOf(a.manifest.workflows, key).value.needs)
  }

  /** `OpenEmbedded`. */
  method OpenEmbedded(c: Codec, a: Archive, key: string) returns (r: Option<Loaded>)
    requires PlainSection(a, WorkflowPath(key, ""))
    ensures r.Some? ==> Openable(a, key) && SectionFits(a.manifest.entries, WorkflowPath(key, ""))
    ensures r.Some? ==> exists contents, w, m ::
      IsSection(a, WorkflowPath(key, ""), contents) && Acceptable(c, ItemOf(a.manifest.workflows, key).value.root, contents, w, m) &&
      r.value == Outcome(c, ItemOf(a.manifest.workflows, key).value.root, contents, w, m)
    ensures r.None? && Openable(a, key) && SectionFits(a.manifest.entries, WorkflowPath(key, "")) ==>
      forall contents, w, m :: IsSection(a, WorkflowPath(key, ""), contents) ==> !Acceptable(c, ItemOf(a.manifest.workflows, key).value.root, contents, w, m)
  {
    hide PlainSection, SectionFits, Acceptable, Outcome;
    var item := ItemOf(a.manifest.workflows, key);
    if item.None? || exists f :: f in item.value.needs && f != LOOPS { return None; }
    var contents := Gather(a, WorkflowPath(key, ""));
    if contents.None? { return None; }
    r := LoadContents(c, item.value.root, contents.value);
    forall other | IsSection(a, WorkflowPath(key, ""), other) ensures other == contents.value {
      OneSection(a, WorkflowPath(key, ""), other, contents.value);
    }
  }

  /** A section's contents are determined. */
  lemma OneSection(a: Archive, prefix: string, x: Contents, y: Contents)
    requires IsSection(a, prefix, x) && IsSection(a, prefix, y)
    ensures x == y
  {
    forall rel ensures rel in x <==> rel in y {
      assert (prefix + rel)[|prefix|..] == rel && prefix <= prefix + rel;
    }
  }

  /** The files a bundle was embedded as are its section. */
  lemma EmbeddedSection(a: Archive, prefix: string, files: seq<File>)
    requires DistinctNames(files)
    requires forall i :: 0 <= i < |files| ==> prefix + files[i].name in a.files && a.files[prefix + files[i].name] == Raw(files[i].text)
    requires forall p :: p in a.files && prefix <= p ==> exists i :: 0 <= i < |files| && p == prefix + files[i].name
    ensures IsSection(a, prefix, AsContents(files))
  {
    ContentsGiven(files);
    forall p | p in a.files && prefix <= p ensures p[|prefix|..] in AsContents(files) {
      var i :| 0 <= i < |files| && p == prefix + files[i].name;
      assert p[|prefix|..] == files[i].name;
    }
    forall rel | rel in AsContents(files) ensures prefix + rel in a.files && a.files[prefix + rel] == Raw(AsContents(files)[rel]) {
      var i :| 0 <= i < |files| && files[i].name == rel;
    }
  }

  /**
   A bundle embedded in an envelope opens as the bundle it was, exactly when it stays within what a workflow file may
   hold: writing it does not check the total size or the number of files.
   */
  method OpenWritten(c: Codec, ghost b: Bundle, ghost p: Prepared, ghost problems: seq<string>, a: Archive, key: string, ghost files: seq<File>) returns (r: Option<Loaded>)
    requires Faithful(c) && Writable(c, b, p, problems)
    requires files == Leading(c, WorkflowOf(c, b, p), b.readme) + TemplateFiles(p.byRef, p.order)
    requires Openable(a, key) && ItemOf(a.manifest.workflows, key).value.root == b.root && PlainSection(a, WorkflowPath(key, ""))
    requires forall i :: 0 <= i < |files| ==>
      WorkflowPath(key, files[i].name) in a.files && a.files[WorkflowPath(key, files[i].name)] == Raw(files[i].text)
    requires forall q :: q in a.files && WorkflowPath(key, "") <= q ==> exists i :: 0 <= i < |files| && q == WorkflowPath(key, files[i].name)
    ensures r.Some? <==> SectionFits(a.manifest.entries, WorkflowPath(key, "")) && AllFormed(c, TemplatesIn(p.byRef, p.order))
    ensures r.Some? ==> r.value == ReadBack(c, b, p, problems)
  {
    hide PlainSection, SectionFits, Acceptable, Outcome, WorkflowOf, Faithful, Leading, TemplateFiles, AsContents, Prepare;
    r := OpenEmbedded(c, a, key);
    ghost var prefix := WorkflowPath(key, "");
    assert forall i :: 0 <= i < |files| ==> prefix + files[i].name == WorkflowPath(key, files[i].name);
    PrepareKeeps(c.parse, b.root, b.templates);
    NamesDistinct(c, WorkflowOf(c, b, p), b.readme, p.byRef, p.order);
    EmbeddedSection(a, prefix, files);
    BundleLoads(c, b, p, problems);
    if r.Some? {
      ghost var contents, w, m :| IsSection(a, prefix, contents) && Acceptable(c, b.root, contents, w, m) && r.value == Outcome(c, b.root, contents, w, m);
      OneSection(a, prefix, contents, AsContents(files));
    }
  }

  // ----- through an envelope -----

  /** A section made of a bundle's files alone is plain. */
  lemma SectionIsPlain(sha: Data -> string, entries: seq<Entry>, a: Archive, prefix: string, files: seq<File>)
    requires Stored(sha, entries, a.files, a.files.Keys, None) && a.manifest.entries == Sort(entries)
    requires forall p :: p in a.files && prefix <= p ==> exists i :: 0 <= i < |files| && a.files[p] == Raw(files[i].text)
    ensures PlainSection(a, prefix)
  {
    hide Sort, ValidEntryPath, Reserved;
    SortKeepsEntries(entries);
    ListingAgrees(sha, entries, a);
  }

  /** Below a directory that held nothing before, there are the files that were embedded. */
  lemma OnlyEmbedded(before: map<string, Data>, after: map<string, Data>, key: string, files: seq<File>)
    requires Embedded(before, after, key, files) && forall p :: p in before ==> !(WorkflowPath(key, "") <= p)
    ensures forall p :: p in after && WorkflowPath(key, "") <= p ==>
      exists i :: 0 <= i < |files| && p == WorkflowPath(key, files[i].name) && after[p] == Raw(files[i].text)
  {
  }

  lemma LastItem(h: string -> string, es: seq<Entry>, ws: seq<WorkflowItem>, item: WorkflowItem)
    ensures ItemOf(FilledWorkflows(h, es, ws + [item]), item.key) == Some(FilledWorkflow(h, es, item))
  {
    hide SectionText;
  }

  /**
   A bundle written into an envelope, the envelope closed, and the workflow opened again: it is the bundle it was, exactly
   when it stays within what a workflow file may hold.
   */
  method EmbedAndOpen(c: Codec, b: Bundle, w: Writer, key: string, sizes: Sizes, keys: seq<string>)
    returns (done: bool, a: Option<Archive>, r: Option<Loaded>, ghost p: Prepared, ghost problems: seq<string>)
    requires Faithful(c) && w.Good() && forall q :: q in w.files ==> !(WorkflowPath(key, "") <= q)
    modifies w
    ensures done <==> a.Some?
    ensures done ==> Writable(c, b, p, problems)
    ensures done ==> (r.Some? <==> SectionFits(a.value.manifest.entries, WorkflowPath(key, "")) && AllFormed(c, TemplatesIn(p.byRef, p.order)))
    ensures r.Some? ==> done && r.value == ReadBack(c, b, p, problems)
    // a reader that does not know loops is told that there are some
    ensures done ==> ItemOf(a.value.manifest.workflows, key).Some?
    ensures done ==> ItemOf(a.value.manifest.workflows, key).value.needs == if WorkflowOf(c, b, p).loops == [] then [] else ["loops"]
  {
    hide Writer.Good, Complete, Declared, Writer.Duties, DutiesMet, Accepted, Hashes, Embedded, PlainSection, SectionFits, Writable, WorkflowOf, Leading, TemplateFiles, Faithful, Sort, Stored, ValidKey, NamesFit, Understood;
    done, a, r := false, None, None;
    var content;
    content, p, problems := BundleContent(c, b);
    if content.None? { return; }
    var files := content.value.1;
    ghost var before := w.files;
    var ok := w.WriteEmbedded(key, b.root, RequiredFeatures(content.value.0), files);
    if !ok { return; }
    ghost var es, ws := w.entries, w.workflows;
    OnlyEmbedded(before, w.files, key, files);
    if w.open.None? { StoredNow(w); }
    a := w.Close(sizes, keys);
    if a.None? { return; }
    assert Understood(RequiredFeatures(content.value.0)) by { FeaturesUnderstood(content.value.0); }
    LastItem(w.h, a.value.manifest.entries, ws[..|ws| - 1], ws[|ws| - 1]);
    assert ws == ws[..|ws| - 1] + [ws[|ws| - 1]];
    SectionIsPlain(w.sha, es, a.value, WorkflowPath(key, ""), files);
    EmbeddedThere(before, w.files, key, files);
    done := true;
    r := OpenWritten(c, b, p, problems, a.value, key, files);
  }

  lemma FeaturesUnderstood(w: Workflow)
    ensures Understood(RequiredFeatures(w))
  {
  }

  lemma StoredNow(w: Writer)
    requires w.Good() && w.open.None?
    ensures Stored(w.sha, w.entries, w.files, w.files.Keys, None)
  {
  }

  lemma EmbeddedThere(before: map<string, Data>, after: map<string, Data>, key: string, files: seq<File>)
    requires Embedded(before, after, key, files)
    ensures forall i :: 0 <= i < |files| ==> WorkflowPath(key, files[i].name) in after && after[WorkflowPath(key, files[i].name)] == Raw(files[i].text)
  {
  }
}
