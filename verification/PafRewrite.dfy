/** Replacing privacy.json: the archive is written again entry by entry, and its digests must not change. */
module PafRewrite {
  import opened Basics
  import opened PafDigest
  import opened PafArchive
  import opened PafAgreement
  import opened PafWriter

  /** What an opened archive says of one of its files is what the writer wants of it. */
  lemma OpenedFits(sha: Data -> string, h: string -> string, a: Archive, lim: Limits, e: Entry)
    requires Accepted(sha, h, a, lim) && e in a.manifest.entries
    ensures e.path in a.files && Shaped(sha, lim, a.manifest.extUsed, e.path, a.files[e.path])
    ensures Size(a.files[e.path]) == e.bytes && sha(a.files[e.path]) == e.sha
    ensures ValidEntryPath(e.path) && !Reserved(e.path)
    ensures EXT <= e.path ==> Head(e.path[|EXT|..]) in a.manifest.extUsed
  {
    hide EnvelopeOk, ManifestOk, Size, Head, AgentOk;
    if IsContext(e.path) { ContextHasNoSchema(e.path); }
    assert EntryOk(sha, a, e, lim);
  }

  /** `copyEntry`. The group's members are noted later, so until then group.json counts as stray. */
  method CopyEntry(a: Archive, w: Writer, e: Entry) returns (ok: bool)
    requires Accepted(w.sha, w.h, a, w.limits) && e in a.manifest.entries
    requires w.Good() && GROUP_PATH in w.stray && w.extUsed == a.manifest.extUsed
    modifies w`seen, w`open, w`context, w`extSeen, w`entries, w`files, w`total
    ensures w.Good()
    ensures ok == old(w.CanCreate(e.path) && w.total + e.bytes <= w.limits.maxArchive)
    ensures ok ==> e.path in a.files && w.files == old(w.files)[e.path := a.files[e.path]] && w.entries == old(w.entries) + [e]
    ensures ok ==> w.open.None? && w.seen == old(w.seen) + {e.path} && w.total == old(w.total) + e.bytes
    ensures old(w.extSeen) <= w.extUsed ==> w.extSeen <= w.extUsed
  {
    hide Writer.Good, Accepted, Shaped, Size, Head, ValidEntryPath, Reserved;
    OpenedFits(w.sha, w.h, a, w.limits, e);
    ok := w.Put(e.path, e.mediaType, a.files[e.path]);
    ShapeGrows(w.sha, w.limits, w.extUsed, w.extUsed + w.extSeen, e.path, a.files[e.path]);
  }

  /** Nothing has been written yet, and nothing stands in the way. */
  ghost predicate Blank(w: Writer)
    reads w
  {
    !w.closed && w.open.None? && w.entries == [] && w.files == map[] && w.seen == {} && w.total == 0 && w.extSeen == {}
  }

  /** Every entry but privacy.json, byte for byte. It fails only if there are too many. */
  method CopyEntries(a: Archive, w: Writer) returns (ok: bool)
    requires Accepted(w.sha, w.h, a, w.limits)
    requires w.Good() && GROUP_PATH in w.stray && Blank(w) && w.extUsed == a.manifest.extUsed
    modifies w`seen, w`open, w`context, w`extSeen, w`entries, w`files, w`total
    ensures w.Good()
    ensures ok <==> |Content(a.manifest.entries)| <= w.limits.maxEntries
    ensures ok ==> w.entries == Content(a.manifest.entries) && w.open.None? && w.total == TotalSize(w.entries) && w.extSeen <= w.extUsed
    ensures ok ==> w.seen == w.files.Keys && forall p :: p in w.files <==> p in a.files && p != PRIVACY_PATH
    ensures ok ==> forall p :: p in w.files ==> w.files[p] == a.files[p]
  {
    hide Writer.Good, Accepted, ValidEntryPath, Reserved, Content, TotalSize;
    var es := a.manifest.entries;
    assert es[0..] == es && TotalSize([]) == 0 by { NoContent([]); }
    for i := 0 to |es|
      invariant w.Good() && w.open.None? && w.extSeen <= w.extUsed && w.seen == w.files.Keys
      invariant w.entries + Content(es[i..]) == Content(es) && w.total == TotalSize(w.entries) && |w.entries| <= w.limits.maxEntries
      invariant forall p :: p in w.files ==> p in a.files && p != PRIVACY_PATH && w.files[p] == a.files[p]
      invariant forall p :: p in w.files <==> exists k :: 0 <= k < i && es[k].path != PRIVACY_PATH && p == es[k].path
    {
      ContentStep(es, i);
      if es[i].path != PRIVACY_PATH {
        OpenedRoom(w.sha, w.h, a, w.limits, i, w.entries);
        SizeAppend(w.entries, es[i]);
        ok := CopyEntry(a, w, es[i]);
        if !ok { return; }
      }
    }
    ok := true;
    NoContent(es[|es|..]);
    forall p | p in a.files && p != PRIVACY_PATH ensures p in w.files {
      AllListed(w.sha, w.h, a, w.limits, p);
    }
  }

  /** An entry of an opened archive can be created and fits, behind a prefix of its content. */
  lemma OpenedRoom(sha: Data -> string, h: string -> string, a: Archive, lim: Limits, i: nat, done: seq<Entry>)
    requires Accepted(sha, h, a, lim) && i < |a.manifest.entries|
    requires done + Content(a.manifest.entries[i..]) == Content(a.manifest.entries) && a.manifest.entries[i].path != PRIVACY_PATH
    ensures var e := a.manifest.entries[i];
      && e.path in a.files && ValidEntryPath(e.path) && !Reserved(e.path) && TotalSize(done) + e.bytes <= lim.maxArchive
      && forall k :: 0 <= k < i ==> a.manifest.entries[k].path != e.path
  {
    hide Accepted, Content, ValidEntryPath, Reserved, TotalSize, Shaped;
    var es := a.manifest.entries;
    OpenedFits(sha, h, a, lim, es[i]);
    OpenedSizes(sha, h, a, lim);
    ContentStep(es, i);
    var rest := Content(es[i + 1..]);
    assert done + ([es[i]] + rest) == (done + [es[i]]) + rest;
    TotalSplits(done + [es[i]], rest);
    SizeAppend(done, es[i]);
    ContentSize(es);
  }

  lemma OpenedSizes(sha: Data -> string, h: string -> string, a: Archive, lim: Limits)
    requires Accepted(sha, h, a, lim)
    ensures TotalSize(a.manifest.entries) <= lim.maxArchive && DistinctPaths(a.manifest.entries)
  {
    hide EntryOk, SemanticsOk, ManifestOk, EnvelopeOk, SchemaOk;
  }

  lemma {:induction false} TotalSplits(a: seq<Entry>, b: seq<Entry>)
    ensures TotalSize(a + b) == TotalSize(a) + TotalSize(b)
  {
    if a == [] {
      assert a + b == b;
    } else {
      assert (a + b)[1..] == a[1..] + b;
      TotalSplits(a[1..], b);
    }
  }

  lemma {:induction false} ContentSize(es: seq<Entry>)
    ensures TotalSize(Content(es)) <= TotalSize(es)
  {
    if es != [] {
      ContentSize(es[1..]);
      var rest := Content(es[1..]);
      assert [] + rest == rest && ([es[0]] + rest)[1..] == rest;
    }
  }

  lemma ContentStep(es: seq<Entry>, i: nat)
    requires i < |es|
    ensures Content(es[i..]) == (if es[i].path == PRIVACY_PATH then [] else [es[i]]) + Content(es[i + 1..])
  {
    assert es[i..][0] == es[i] && es[i..][1..] == es[i + 1..];
  }

  lemma NoContent(es: seq<Entry>)
    requires es == []
    ensures Content(es) == [] && TotalSize(es) == 0
  {
  }

  lemma AllListed(sha: Data -> string, h: string -> string, a: Archive, lim: Limits, p: string)
    requires Accepted(sha, h, a, lim) && p in a.files
    ensures exists i :: 0 <= i < |a.manifest.entries| && a.manifest.entries[i].path == p
  {
    hide EntryOk, SemanticsOk, EnvelopeOk, ManifestOk, ContainerOk;
    assert Listed(a.manifest, p);
  }

  // ----- agents, native blobs and members -----

  function NativeOf(a: Archive, key: string): Option<string> {
    var p := AgentPath(key, "agent.json");
    if p in a.files && a.files[p].Json? then a.files[p].native else None
  }

  /** These are native blobs of agents and members of the group. */
  predicate PeopleOf(a: Archive, natives: seq<string>, members: seq<string>) {
    && (forall p :: p in natives ==> exists k :: k in a.manifest.agents && NativeOf(a, k) == Some(p))
    && (forall k :: k in members ==> GROUP_PATH in a.files && a.files[GROUP_PATH].Json? && k in a.files[GROUP_PATH].members)
  }

  /** The agents, their native blobs and the group's members, as the opened archive knows them. */
  method CarryPeople(a: Archive, w: Writer)
    requires Accepted(w.sha, w.h, a, w.limits) && w.kind == a.manifest.kind
    requires w.Good() && w.stray == {GROUP_PATH} && w.agents == [] && w.extUsed == a.manifest.extUsed
    requires forall p :: p in w.files <==> p in a.files && p != PRIVACY_PATH
    requires forall p :: p in w.files ==> w.files[p] == a.files[p]
    modifies w`agents, w`natives, w`members, w`stray
    ensures w.Good() && w.stray == {} && w.agents == a.manifest.agents
    ensures old(w.natives == [] && w.members == []) ==> PeopleOf(a, w.natives, w.members)
  {
    hide Accepted, AllShaped, Shaped, Stored, TotalSize, Size, WorkflowsKept, AgentsKept, GroupKept, ExtFilesKnown, FewAgents, NativeOf;
    w.agents := w.agents + a.manifest.agents;
    assert w.agents == a.manifest.agents;
    var natives := Natives(a);
    w.natives := w.natives + natives;
    if GROUP_PATH in a.files && a.files[GROUP_PATH].Json? { w.members := w.members + a.files[GROUP_PATH].members; }
    OpenedAgents(w.sha, w.h, a, w.limits, w.files, w.natives);
    GroupCarried(w.files, w.members);
    GroupShaped(a, w.sha, w.h, w.limits, w.extUsed + w.extSeen, w.files);
    w.stray := {};
  }

  method Natives(a: Archive) returns (natives: seq<string>)
    ensures forall k :: k in a.manifest.agents && NativeOf(a, k).Some? ==> NativeOf(a, k).value in natives
    ensures forall p :: p in natives ==> exists k :: k in a.manifest.agents && NativeOf(a, k) == Some(p)
  {
    natives := [];
    for i := 0 to |a.manifest.agents|
      invariant forall p :: p in natives ==> exists k :: k in a.manifest.agents && NativeOf(a, k) == Some(p)
      invariant forall k :: 0 <= k < i && NativeOf(a, a.manifest.agents[k]).Some? ==> NativeOf(a, a.manifest.agents[k]).value in natives
    {
      var native := NativeOf(a, a.manifest.agents[i]);
      assert a.manifest.agents[i] in a.manifest.agents;
      if native.Some? { natives := natives + [native.value]; }
    }
  }

  lemma GroupShaped(a: Archive, sha: Data -> string, h: string -> string, lim: Limits, known: set<string>, files: map<string, Data>)
    requires Accepted(sha, h, a, lim) && a.manifest.extUsed <= known
    requires GROUP_PATH in files ==> GROUP_PATH in a.files && files[GROUP_PATH] == a.files[GROUP_PATH]
    requires AllShaped(sha, lim, known, files, {GROUP_PATH})
    ensures AllShaped(sha, lim, known, files, {})
  {
    hide Accepted, Shaped, Size, Head;
    if GROUP_PATH in files {
      AllListed(sha, h, a, lim, GROUP_PATH);
      var i :| 0 <= i < |a.manifest.entries| && a.manifest.entries[i].path == GROUP_PATH;
      OpenedFits(sha, h, a, lim, a.manifest.entries[i]);
      ShapeGrows(sha, lim, a.manifest.extUsed, known, GROUP_PATH, a.files[GROUP_PATH]);
    }
  }

  lemma GroupCarried(files: map<string, Data>, members: seq<string>)
    requires GROUP_PATH in files && files[GROUP_PATH].Json? ==> forall k :: k in files[GROUP_PATH].members ==> k in members
    ensures GroupKept(files, members)
  {
  }

  lemma OpenedAgents(sha: Data -> string, h: string -> string, a: Archive, lim: Limits, files: map<string, Data>, natives: seq<string>)
    requires Accepted(sha, h, a, lim)
    requires forall p :: p in files <==> p in a.files && p != PRIVACY_PATH
    requires forall p :: p in files ==> files[p] == a.files[p]
    requires forall k :: k in a.manifest.agents && NativeOf(a, k).Some? ==> NativeOf(a, k).value in natives
    ensures AgentsKept(a.manifest.agents, files, natives) && FewAgents(a.manifest.kind, a.manifest.agents)
  {
    hide EntryOk, EnvelopeOk, ListingOk, ContainerOk, ValidKey, Head;
    forall k | k in a.manifest.agents ensures AgentKept(k, files, natives) {
      assert AgentOk(a, k);
      assert AgentPath(k, "agent.json")[0] == 'a' && AgentPath(k, "environment.json")[0] == 'a' && PRIVACY_PATH[0] == 'p';
    }
  }

  // ----- the rewrite -----

  lemma OpenedFile(sha: Data -> string, h: string -> string, a: Archive, lim: Limits, q: string)
    requires Accepted(sha, h, a, lim) && q in a.files
    ensures SchemaOf(q) != NoSchema ==> a.files[q].Json? && a.files[q].strict
    ensures IsContext(q) && a.files[q].Context? ==> forall l :: l in a.files[q].lines ==> LineDuty(l, a.manifest.extUsed, a.files)
  {
    hide SemanticsOk, EnvelopeOk, ManifestOk, ContainerOk, Size;
    AllListed(sha, h, a, lim, q);
    var i :| 0 <= i < |a.manifest.entries| && a.manifest.entries[i].path == q;
    assert EntryOk(sha, a, a.manifest.entries[i], lim);
    if IsContext(q) { ContextHasNoSchema(q); }
    forall p | Listed(a.manifest, p) ensures p in a.files {
      var k :| 0 <= k < |a.manifest.entries| && a.manifest.entries[k].path == p;
      assert a.manifest.entries[k] in a.manifest.entries;
    }
  }

  lemma OpenedEnvelope(sha: Data -> string, h: string -> string, a: Archive, lim: Limits)
    requires Accepted(sha, h, a, lim)
    ensures EnvelopeDuty(a.manifest.workflows, a.manifest.links, a.manifest.agents, a.files) && NamesDuty(a.manifest.workflows, a.manifest.links)
    ensures WorkflowsKept(a.manifest.workflows)
    ensures a.manifest.workflows == [] ==> a.manifest.links == []
    ensures a.manifest.strict
  {
    hide EntryOk, ManifestOk, ContainerOk, SectionText, Head, AgentOk, ValidKey, DigestOf;
    var m := a.manifest;
    forall w | w in m.workflows ensures WorkflowPath(w.key, "workflow.json") in a.files && ValidKey(w.key) {
      assert WorkflowOk(h, m, w);
      var k :| 0 <= k < |m.entries| && m.entries[k].path == WorkflowPath(w.key, "workflow.json");
      assert m.entries[k] in m.entries;
    }
    forall p | p in a.files && WORKFLOWS <= p && m.workflows != [] ensures Head(p[|WORKFLOWS|..]) in Keys(m.workflows) {
      AllListed(sha, h, a, lim, p);
    }
    forall l | l in m.links && m.workflows != [] ensures LinkDuty(m.workflows, m.agents, l) {
      assert LinkOk(h, m, l);
    }
  }

  /** An opened archive leaves its writer's callers nothing to answer for but the new document. */
  lemma OpenedDuties(sha: Data -> string, h: string -> string, a: Archive, lim: Limits, p: Data)
    requires Accepted(sha, h, a, lim) && p.Json?
    ensures DocumentDuty(a.files[PRIVACY_PATH := p]) <==> p.strict
    ensures ContextDuty(a.files[PRIVACY_PATH := p], a.manifest.extUsed)
    ensures EnvelopeDuty(a.manifest.workflows, a.manifest.links, a.manifest.agents, a.files[PRIVACY_PATH := p])
  {
    hide Accepted, LinkDuty, OnePerformerPerRole, Head, Keys;
    var files := a.files[PRIVACY_PATH := p];
    assert PRIVACY_PATH[0] == 'p' && WORKFLOWS[0] == 'w' && AGENTS[0] == 'a';
    forall q | q in files && q != PRIVACY_PATH
      ensures SchemaOf(q) != NoSchema ==> files[q].Json? && files[q].strict
      ensures IsContext(q) && files[q].Context? ==> forall l :: l in files[q].lines ==> LineDuty(l, a.manifest.extUsed, files)
    {
      OpenedFile(sha, h, a, lim, q);
    }
    OpenedEnvelope(sha, h, a, lim);
    assert files[PRIVACY_PATH] == p && SchemaOf(PRIVACY_PATH) == PrivacySchema;
  }

  // ----- digests -----

  lemma {:induction false} PathHasNoBreak(s: string)
    requires ValidSegments(s)
    ensures '\n' !in s
    decreases |s|
  {
    var seg := Head(s);
    if HasSlash(s) {
      PathHasNoBreak(Tail(s));
      assert s == seg + "/" + Tail(s);
    } else {
      assert s == seg;
    }
  }

  lemma OpenedRows(sha: Data -> string, h: string -> string, a: Archive, lim: Limits)
    requires Accepted(sha, h, a, lim) && Hashes(sha, h)
    ensures ValidRows(a.manifest.entries)
  {
    hide Accepted, Shaped, Size, Head, ValidSegments;
    assert ListingOk(a) by { hide ListingOk; OpenedListing(sha, h, a, lim); }
    forall e | e in a.manifest.entries ensures ValidRow(e) {
      OpenedFits(sha, h, a, lim, e);
      PathHasNoBreak(e.path);
      assert HexDigest(sha(a.files[e.path]));
    }
  }

  lemma OpenedListing(sha: Data -> string, h: string -> string, a: Archive, lim: Limits)
    requires Accepted(sha, h, a, lim)
    ensures ListingOk(a) && EnvelopeOk(h, a.manifest)
  {
    hide EntryOk, SemanticsOk, ManifestOk, ContainerOk, ListingOk, EnvelopeOk;
  }

  /** Content(es) and one privacy.json, sorted, commit to what `es` commits to. */
  lemma SameCommitment(es: seq<Entry>, e: Entry)
    requires ValidRows(es) && ValidRow(e) && e.path == PRIVACY_PATH
    ensures ValidRows(Sort(Content(es) + [e])) && Committed(Sort(Content(es) + [e])) == Committed(es)
  {
    hide Sort, Content;
    var fs := Content(es) + [e];
    ContentKeeps(es);
    forall i, j | 0 <= i < j < |fs| ensures fs[i].path != fs[j].path {
      if j == |fs| - 1 { assert fs[i] in Content(es); }
    }
    SortKeepsEntries(fs);
    forall x ensures x in fs <==> x in Content(es) || x == e {
      if x in Content(es) { var i :| 0 <= i < |Content(es)| && Content(es)[i] == x; assert fs[i] == x; }
      if x == e { assert fs[|fs| - 1] == x; }
    }
  }

  /** Digests filled in over the new entries are the ones the archive had, for every workflow and every link of a known kind. */
  lemma SameDigests(h: string -> string, m: Manifest, es: seq<Entry>)
    requires EnvelopeOk(h, m) && ValidRows(m.entries) && ValidRows(es) && Committed(es) == Committed(m.entries)
    ensures FilledWorkflows(h, es, m.workflows) == m.workflows
    ensures forall i :: 0 <= i < |m.links| && !m.links[i].kind.OtherLink? ==> FilledLink(h, es, m.links[i]) == m.links[i]
    ensures forall i :: 0 <= i < |m.links| ==> FilledLink(h, es, m.links[i]) == FilledLink(h, m.entries, m.links[i])
  {
    hide SectionText, ValidRows, Committed, ValidKey, Head, Listed;
    forall prefix ensures SectionText(es, prefix) == SectionText(m.entries, prefix) { SectionsFollow(es, m.entries, prefix); }
    forall i | 0 <= i < |m.workflows| ensures FilledWorkflow(h, es, m.workflows[i]) == m.workflows[i] {
      assert m.workflows[i] in m.workflows;
    }
    if m.workflows != [] {
      forall i | 0 <= i < |m.links| && !m.links[i].kind.OtherLink? ensures FilledLink(h, es, m.links[i]) == m.links[i] {
        assert LinkOk(h, m, m.links[i]);
        FilledDigest(h, m.entries, m.workflows, m.workflows, m.links[i].workflow);
      }
    }
  }

  /** What a rewrite keeps. A link of a kind this version does not know has its digest computed again, as a workflow's. */
  ghost predicate SameContent(h: string -> string, was: Manifest, m: Manifest) {
    && m.kind == was.kind && m.agents == was.agents && m.extUsed == was.extUsed
    && ContentText(m.entries) == ContentText(was.entries)
    && (forall prefix :: SectionText(m.entries, prefix) == SectionText(was.entries, prefix))
    && m.workflows == was.workflows && |m.links| == |was.links|
    && forall i :: 0 <= i < |m.links| ==>
      m.links[i] == if was.links[i].kind.OtherLink? then FilledLink(h, was.entries, was.links[i]) else was.links[i]
  }

  lemma Rewritten(sha: Data -> string, h: string -> string, a: Archive, lim: Limits, p: Data, m: Manifest)
    requires Accepted(sha, h, a, lim) && p.Json? && Hashes(sha, h)
    requires m.kind == a.manifest.kind && m.agents == a.manifest.agents && m.extUsed == a.manifest.extUsed
    requires m.entries == Sort(Content(a.manifest.entries) + [Entry(PRIVACY_PATH, p.bytes, sha(p), "application/json")])
    requires m.workflows == FilledWorkflows(h, m.entries, a.manifest.workflows)
    requires m.links == if a.manifest.workflows == [] then [] else FilledLinks(h, m.entries, a.manifest.links)
    ensures SameContent(h, a.manifest, m)
  {
    hide Accepted, Sort, Content, SectionText, ContentText, ValidRows, Committed, FilledLink, FilledWorkflow, EnvelopeOk;
    assert HexDigest(sha(p));
    OpenedEnvelope(sha, h, a, lim);
    OpenedListing(sha, h, a, lim);
    OpenedRows(sha, h, a, lim);
    assert '\n' !in PRIVACY_PATH;
    SameCommitment(a.manifest.entries, Entry(PRIVACY_PATH, p.bytes, sha(p), "application/json"));
    SameDigests(h, a.manifest, m.entries);
    DigestCanonical(m.entries, a.manifest.entries);
    forall prefix ensures SectionText(m.entries, prefix) == SectionText(a.manifest.entries, prefix) { SectionsFollow(m.entries, a.manifest.entries, prefix); }
  }

  /** What an opened archive gives a writer is complete. */
  lemma OpenedComplete(sha: Data -> string, h: string -> string, a: Archive, lim: Limits, natives: seq<string>, members: seq<string>)
    requires Accepted(sha, h, a, lim) && PeopleOf(a, natives, members)
    ensures Complete(a.manifest.kind, a.manifest.agents, a.files.Keys + {PRIVACY_PATH}, natives, members, a.manifest.workflows != [])
    ensures Declared(a.manifest.exts, a.manifest.extUsed)
  {
    hide EntryOk, EnvelopeOk, SchemaOk, ContainerOk, ValidKey, Head, HasSlash;
    var m := a.manifest;
    assert PRIVACY_PATH != GROUP_PATH && AgentOf(PRIVACY_PATH).None? by { assert PRIVACY_PATH[0] == 'p' && GROUP_PATH[0] == 'g' && AGENTS[0] == 'a'; }
    forall p | Listed(m, p) ensures p in a.files {
      var k :| 0 <= k < |m.entries| && m.entries[k].path == p;
      assert m.entries[k] in m.entries;
    }
    forall k | k in m.agents ensures AgentPath(k, "context/transcript.jsonl") in a.files ==> AgentPath(k, "context/losses.json") in a.files {
      assert AgentOk(a, k);
    }
    forall p | p in natives ensures p in a.files {
      var k :| k in m.agents && NativeOf(a, k) == Some(p);
      assert AgentOk(a, k);
    }
    forall p | p in a.files && AgentOf(p).Some? ensures AgentOf(p).value in m.agents {
      AllListed(sha, h, a, lim, p);
      var k :| 0 <= k < |m.entries| && m.entries[k].path == p;
      assert m.entries[k] in m.entries;
    }
  }

  /** The manifest of a rewritten archive. */
  function RewrittenManifest(sha: Data -> string, h: string -> string, m: Manifest, p: Data): Manifest
    requires p.Json?
  {
    var es := Sort(Content(m.entries) + [Entry(PRIVACY_PATH, p.bytes, sha(p), "application/json")]);
    m.(entries := es, workflows := FilledWorkflows(h, es, m.workflows), links := if m.workflows == [] then [] else FilledLinks(h, es, m.links))
  }

  /** The new document is admissible, and there is room for it. */
  predicate Replaceable(a: Archive, p: Data, limits: Limits)
    requires p.Json?
  {
    && p.bytes <= limits.maxMetadata && PrivacySchema in p.schemas && p.exts.Some?
    && |Content(a.manifest.entries)| + 1 <= limits.maxEntries && TotalSize(Content(a.manifest.entries)) + p.bytes <= limits.maxArchive
  }

  /**
   `WithPrivacy`: it succeeds exactly when the document, its manifest and the keys are in order. Every other file is
   kept, the content digest and the digests of the envelope stay what they were, and the copy opens exactly when the new
   document is strict and the number of keys and the size of the container allow it.
   */
  method WithPrivacy(sha: Data -> string, h: string -> string, a: Archive, p: Data, limits: Limits,
                     sizes: Sizes, keys: seq<string>) returns (r: Option<Archive>)
    requires Accepted(sha, h, a, limits) && p.Json? && Hashes(sha, h)
    ensures r.Some? <==> Replaceable(a, p, limits) && Declared(p.exts, a.manifest.extUsed) && sizes.manifest(RewrittenManifest(sha, h, a.manifest, p)) <= limits.maxMetadata && Distinct(keys)
    ensures r.Some? ==> r.value.files == a.files[PRIVACY_PATH := p] && r.value.signatures == keys
    ensures r.Some? ==> r.value.manifest == RewrittenManifest(sha, h, a.manifest, p) && SameContent(h, a.manifest, r.value.manifest)
    ensures r.Some? ==>
      (Accepted(sha, h, r.value, limits) <==> p.strict && |r.value.files| + |keys| <= limits.maxEntries + 64 && r.value.size <= limits.maxArchive)
  {
    hide Accepted, Writer.Good, DocumentDuty, ContextDuty, EnvelopeDuty, NamesDuty, DutiesMet, Sort, Content, SameContent, FilledLinks, FilledWorkflows, Replaceable, Hashes, Complete, Declared;
    var w := Recast(sha, h, a, p, limits);
    if w.None? { return None; }
    OpenedComplete(sha, h, a, limits, w.value.natives, w.value.members);
    r := w.value.Close(sizes, keys);
    OpenedDuties(sha, h, a, limits, p);
    OpenedEnvelope(sha, h, a, limits);
    if r.Some? {
      assert [] + keys == keys;
      Rewritten(sha, h, a, limits, p, r.value.manifest);
    }
  }

  /** What a copy of `a` has in common with it. */
  ghost predicate CopyOf(a: Archive, w: Writer)
    reads w
  {
    && w.Good() && w.stray == {} && w.kind == a.manifest.kind && !w.closed && w.open.None?
    && PeopleOf(a, w.natives, w.members) && w.agents == a.manifest.agents && w.manifests == 0 && w.signatures == []
    && w.extUsed == a.manifest.extUsed && w.manExt == Extensions(a.manifest.exts, a.manifest.strict)
    && w.workflows == a.manifest.workflows && w.links == a.manifest.links
  }

  /** The copy, without privacy.json. */
  method CopyAll(sha: Data -> string, h: string -> string, a: Archive, limits: Limits) returns (r: Option<Writer>)
    requires Accepted(sha, h, a, limits)
    ensures r.Some? <==> |Content(a.manifest.entries)| <= limits.maxEntries
    ensures r.Some? ==> var w := r.value;
      && fresh(w) && CopyOf(a, w) && w.sha == sha && w.h == h && w.limits == limits && w.extSeen <= w.extUsed
      && w.entries == Content(a.manifest.entries) && w.total == TotalSize(w.entries) && w.seen == w.files.Keys
      && (forall p :: p in w.files <==> p in a.files && p != PRIVACY_PATH) && forall p :: p in w.files ==> w.files[p] == a.files[p]
  {
    hide Accepted, Writer.Good, Content, TotalSize, PeopleOf;
    var w := StartCopy(sha, h, a, limits);
    var ok := CopyEntries(a, w);
    if !ok { return None; }
    CarryPeople(a, w);
    r := Some(w);
  }

  /** The copy, up to `Close`. */
  method Recast(sha: Data -> string, h: string -> string, a: Archive, p: Data, limits: Limits) returns (r: Option<Writer>)
    requires Accepted(sha, h, a, limits) && p.Json?
    ensures r.Some? <==> Replaceable(a, p, limits)
    ensures r.Some? ==> var w := r.value;
      && fresh(w) && CopyOf(a, w) && w.sha == sha && w.h == h && w.limits == limits
      && (w.extSeen <= w.extUsed <==> Declared(p.exts, a.manifest.extUsed)) && w.seen == a.files.Keys + {PRIVACY_PATH}
      && w.files == a.files[PRIVACY_PATH := p]
      && w.entries == Content(a.manifest.entries) + [Entry(PRIVACY_PATH, p.bytes, sha(p), "application/json")]
  {
    hide Accepted, Writer.Good, Content, IsContext, SchemaOf, TotalSize, PeopleOf, ValidEntryPath, Reserved;
    r := CopyAll(sha, h, a, limits);
    if r.None? { return; }
    PrivacyName();
    var ok := r.value.WriteJSON(PRIVACY_PATH, p);
    if !ok { return None; }
    assert r.value.files == a.files[PRIVACY_PATH := p];
  }

  /** Every link comes through a rewrite unchanged exactly when those of an unknown kind carry their workflow's digest. */
  lemma LinksKeptExactly(h: string -> string, was: Manifest, m: Manifest)
    requires SameContent(h, was, m)
    ensures m.links == was.links <==>
      forall i :: 0 <= i < |was.links| && was.links[i].kind.OtherLink? ==>
        was.links[i].digest == h(SectionText(was.entries, WorkflowPath(was.links[i].workflow, "")))
  {
    hide SectionText, ContentText;
    assert m.links == was.links <==> forall i :: 0 <= i < |m.links| ==> m.links[i] == was.links[i];
    forall i | 0 <= i < |was.links| && was.links[i].kind.OtherLink?
      ensures m.links[i] == was.links[i] <==> was.links[i].digest == h(SectionText(was.entries, WorkflowPath(was.links[i].workflow, "")))
    {
    }
  }

  lemma PrivacyName()
    ensures !IsContext(PRIVACY_PATH) && !(ATTACHMENTS <= PRIVACY_PATH) && !(EXT <= PRIVACY_PATH) && PRIVACY_PATH != GROUP_PATH
    ensures SchemaOf(PRIVACY_PATH) == PrivacySchema && ValidEntryPath(PRIVACY_PATH) && !Reserved(PRIVACY_PATH)
  {
    assert PRIVACY_PATH[0] == 'p' && AGENTS[0] == 'a' && ATTACHMENTS[0] == 'a' && EXT[0] == 'e' && GROUP_PATH[0] == 'g' && SIGNATURES[0] == 's' && MANIFEST_PATH[0] == 'm';
    PlainName(PRIVACY_PATH);
  }

  /** A name of one segment is a valid path. */
  lemma PlainName(s: string)
    requires 0 < |s| <= 255 && s != "." && s != ".." && forall c :: c in s ==> NameChar(c)
    ensures ValidEntryPath(s)
  {
    NoSlash(s);
  }

  lemma {:induction false} NoSlash(s: string)
    requires '/' !in s
    ensures Head(s) == s
  {
    if s != [] { NoSlash(s[1..]); }
  }

  lemma NothingShaped(sha: Data -> string, lim: Limits, known: set<string>)
    ensures AllShaped(sha, lim, known, map[], {GROUP_PATH}) && ExtFilesKnown({}, known)
  {
  }

  /** A writer set up from the manifest: extensions, workflows and links are carried over as they are. */
  method StartCopy(sha: Data -> string, h: string -> string, a: Archive, limits: Limits) returns (w: Writer)
    requires Accepted(sha, h, a, limits)
    ensures fresh(w) && w.Good() && w.stray == {GROUP_PATH} && Blank(w) && w.natives == [] && w.members == []
    ensures w.sha == sha && w.h == h && w.limits == limits && w.kind == a.manifest.kind
    ensures w.agents == [] && w.manifests == 0 && w.signatures == []
    ensures w.extUsed == a.manifest.extUsed && w.manExt == Extensions(a.manifest.exts, a.manifest.strict)
    ensures w.workflows == a.manifest.workflows && w.links == a.manifest.links
  {
    hide Accepted, Stored, AllShaped, Shaped, TotalSize, AgentsKept, GroupKept, ExtFilesKnown, WorkflowsKept, Size, FewAgents, Hashes, ValidKey, Keys, EnvelopeOk;
    w := new Writer(sha, h, limits, a.manifest.kind);
    OpenedEnvelope(sha, h, a, limits);
    NothingShaped(sha, limits, a.manifest.extUsed + w.extSeen);
    w.extUsed, w.manExt, w.workflows, w.links, w.stray :=
      a.manifest.extUsed, Extensions(a.manifest.exts, a.manifest.strict), a.manifest.workflows, a.manifest.links, {GROUP_PATH};
  }
}
