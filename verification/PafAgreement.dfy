/** What the PAF writer keeps, what it leaves to its caller, and why the two together are what the reader checks. */
module PafAgreement {
  import opened Basics
  import opened PafDigest
  import opened PafArchive

  /** Extension data on the manifest root. */
  datatype Extensions = Extensions(ids: Option<set<string>>, strict: bool)

  /** Hashes are 64 hexadecimal characters. */
  ghost predicate Hashes(sha: Data -> string, h: string -> string) {
    (forall d :: HexDigest(sha(d))) && (forall s :: HexDigest(h(s)))
  }

  /** Sizes that encoding and compression decide: the manifest's JSON text, and the container of a manifest, written so many times, with its files and signatures. */
  datatype Sizes = Sizes(manifest: Manifest -> nat, container: (Manifest, nat, map<string, Data>, seq<string>) -> nat)

  // ----- what the writer keeps true -----

  /** The entries written are the files in the container, with their sizes and hashes; one more may be open. */
  ghost predicate Stored(sha: Data -> string, entries: seq<Entry>, files: map<string, Data>, seen: set<string>, open: Option<string>) {
    && DistinctPaths(entries)
    && (forall e :: e in entries ==> e.path in files && e.bytes == Size(files[e.path]) && e.sha == sha(files[e.path]))
    && (forall p :: p in files ==> exists e :: e in entries && e.path == p)
    && (forall p :: p in seen ==> ValidEntryPath(p) && !Reserved(p))
    && (if open.Some? then open.value !in files && seen == files.Keys + {open.value} else seen == files.Keys)
  }

  /** What a file at a path of the format's own must be; `known` are the extension ids on record. */
  ghost predicate Shaped(sha: Data -> string, lim: Limits, known: set<string>, p: string, d: Data) {
    && (SchemaOf(p) != NoSchema ==>
          && d.Json? && d.bytes <= lim.maxMetadata && SchemaOf(p) in d.schemas && Declared(d.exts, known))
    && (IsContext(p) ==>
          && d.Context? && d.full == (AgentFile(p) == "context/full.jsonl") && Headed(d.lines)
          && forall l :: l in d.lines ==> l.bytes <= lim.maxRecord && (l.literal ==> Declared(l.exts, known)))
    && (ATTACHMENTS <= p ==> p[|ATTACHMENTS|..] == sha(d))
  }

  ghost predicate AllShaped(sha: Data -> string, lim: Limits, known: set<string>, files: map<string, Data>, stray: set<string>) {
    forall p :: p in files && p !in stray ==> Shaped(sha, lim, known, p, files[p])
  }

  ghost predicate ExtFilesKnown(seen: set<string>, known: set<string>) {
    forall p :: p in seen && EXT <= p ==> Head(p[|EXT|..]) in known
  }

  ghost predicate AgentsKept(agents: seq<string>, files: map<string, Data>, natives: seq<string>) {
    && (forall i, j :: 0 <= i < j < |agents| ==> agents[i] != agents[j])
    && (forall k :: k in agents ==> ValidKey(k) && AgentKept(k, files, natives))
  }

  ghost predicate AgentKept(k: string, files: map<string, Data>, natives: seq<string>) {
    && AgentPath(k, "agent.json") in files && AgentPath(k, "environment.json") in files
    && var d := files[AgentPath(k, "agent.json")];
    d.Json? && d.native.Some? ==> AgentPath(k, "native/") <= d.native.value && d.native.value in natives
  }

  ghost predicate GroupKept(files: map<string, Data>, members: seq<string>) {
    GROUP_PATH in files && files[GROUP_PATH].Json? ==> forall k :: k in files[GROUP_PATH].members ==> k in members
  }

  ghost predicate WorkflowsKept(ws: seq<WorkflowItem>) {
    && (forall w :: w in ws ==> ValidKey(w.key))
    && (forall i, j :: 0 <= i < j < |ws| ==> ws[i].key != ws[j].key)
  }

  // ----- what the writer leaves to its caller -----

  /** No repeated keys, and payloads of known extensions in order. */
  predicate DocumentDuty(files: map<string, Data>) {
    forall p :: p in files && SchemaOf(p) != NoSchema && files[p].Json? ==> files[p].strict
  }

  /** Lines pass the line checks and name attachments that were added, and an extension key that no byte search
      finds is used only for declared extensions. */
  predicate LineDuty(l: Line, extUsed: set<string>, files: map<string, Data>) {
    && l.valid && (l.literal || Declared(l.exts, extUsed))
    && forall h :: h in l.attachments ==> ATTACHMENTS + h in files
  }

  predicate ContextDuty(files: map<string, Data>, extUsed: set<string>) {
    forall p :: p in files && IsContext(p) && files[p].Context? ==> forall l :: l in files[p].lines ==> LineDuty(l, extUsed, files)
  }

  /** Every workflow was written, nothing else lies among them, and links name what was added. */
  predicate EnvelopeDuty(ws: seq<WorkflowItem>, ls: seq<Link>, agents: seq<string>, files: map<string, Data>) {
    ws != [] ==>
      && WorkflowsWritten(ws, files)
      && (forall l :: l in ls ==> LinkDuty(ws, agents, l))
      && OnePerformerPerRole(ls)
  }

  /** Roots and names are given, and keys are keys. */
  predicate NamesDuty(ws: seq<WorkflowItem>, ls: seq<Link>) {
    ws != [] ==> (forall w :: w in ws ==> w.root != "") && (forall l :: l in ls ==> LinkNamed(l))
  }

  predicate WorkflowsWritten(ws: seq<WorkflowItem>, files: map<string, Data>) {
    && (forall w :: w in ws ==> WorkflowPath(w.key, "workflow.json") in files)
    && (forall p :: p in files && WORKFLOWS <= p ==> Head(p[|WORKFLOWS|..]) in Keys(ws))
  }

  predicate LinkDuty(ws: seq<WorkflowItem>, agents: seq<string>, l: Link) {
    l.kind.OtherLink? || (l.workflow in Keys(ws) && l.agent in agents && (l.kind.Performer? ==> l.role != ""))
  }

  // ----- digests -----

  function FilledWorkflow(h: string -> string, es: seq<Entry>, w: WorkflowItem): WorkflowItem {
    w.(digest := h(SectionText(es, WorkflowPath(w.key, ""))))
  }

  function FilledLink(h: string -> string, es: seq<Entry>, l: Link): Link {
    l.(digest := h(SectionText(es, if l.kind.Performer? then AgentPath(l.agent, "") else WorkflowPath(l.workflow, ""))))
  }

  function FilledWorkflows(h: string -> string, es: seq<Entry>, ws: seq<WorkflowItem>): seq<WorkflowItem> {
    seq(|ws|, i requires 0 <= i < |ws| => FilledWorkflow(h, es, ws[i]))
  }

  function FilledLinks(h: string -> string, es: seq<Entry>, ls: seq<Link>): seq<Link> {
    seq(|ls|, i requires 0 <= i < |ls| => FilledLink(h, es, ls[i]))
  }

  // ----- names -----

  lemma {:induction false} HeadOf(k: string, rest: string)
    requires '/' !in k
    ensures Head(k + "/" + rest) == k && Tail(k + "/" + rest) == rest && HasSlash(k + "/" + rest)
  {
    var s := k + "/" + rest;
    if k == [] {
      assert s[0] == '/';
    } else {
      assert s[0] == k[0] && s[1..] == k[1..] + "/" + rest;
      HeadOf(k[1..], rest);
    }
    assert s[|k| + 1..] == rest;
  }

  lemma AgentPathSplits(k: string, rel: string)
    requires ValidKey(k)
    ensures AgentOf(AgentPath(k, rel)) == Some(k) && AgentFile(AgentPath(k, rel)) == rel
  {
    assert AgentPath(k, rel)[|AGENTS|..] == k + "/" + rel;
    HeadOf(k, rel);
  }

  lemma WorkflowPathSplits(k: string, rel: string)
    requires ValidKey(k)
    ensures WORKFLOWS <= WorkflowPath(k, rel) && Head(WorkflowPath(k, rel)[|WORKFLOWS|..]) == k
  {
    assert WorkflowPath(k, rel)[|WORKFLOWS|..] == k + "/" + rel;
    HeadOf(k, rel);
  }

  // ----- sorting -----

  lemma {:induction false} SortKeepsSize(es: seq<Entry>)
    ensures TotalSize(Sort(es)) == TotalSize(es)
  {
    if es != [] {
      SortKeepsSize(es[1..]);
      InsertAddsSize(es[0], Sort(es[1..]));
    }
  }

  lemma {:induction false} InsertAddsSize(e: Entry, rows: seq<Entry>)
    ensures TotalSize(Insert(e, rows)) == e.bytes + TotalSize(rows)
  {
    if rows != [] && Before(rows[0].path, e.path) { InsertAddsSize(e, rows[1..]); }
  }

  lemma {:induction false} SizeAppend(es: seq<Entry>, e: Entry)
    ensures TotalSize(es + [e]) == TotalSize(es) + e.bytes
  {
    if es != [] {
      assert (es + [e])[1..] == es[1..] + [e];
      SizeAppend(es[1..], e);
    }
  }

  lemma SortKeepsEntries(es: seq<Entry>)
    requires DistinctPaths(es)
    ensures forall e :: e in Sort(es) <==> e in es
    ensures DistinctPaths(Sort(es))
  {
    SortSorts(es);
    forall e ensures e in Sort(es) <==> e in es {
      assert e in multiset(Sort(es)) <==> e in multiset(es);
    }
    forall i, j | 0 <= i < j < |Sort(es)| ensures Sort(es)[i].path != Sort(es)[j].path {
      BeforeStrict(Sort(es)[i].path, Sort(es)[j].path);
    }
  }

  // ----- the checks of Close -----

  /** What `Close` demands of the parts. */
  predicate Complete(kind: Kind, agents: seq<string>, seen: set<string>, natives: seq<string>, members: seq<string>, bundled: bool) {
    && agents != []
    && (kind == KindGroup <==> GROUP_PATH in seen)
    && (kind == KindBundle ==> bundled)
    && (forall k :: k in agents && AgentPath(k, "context/transcript.jsonl") in seen ==> AgentPath(k, "context/losses.json") in seen)
    && (forall p :: p in natives ==> p in seen)
    && (forall k :: k in members ==> k in agents)
    && (forall p :: p in seen && AgentOf(p).Some? ==> AgentOf(p).value in agents)
  }

  lemma ListingAgrees(sha: Data -> string, entries: seq<Entry>, a: Archive)
    requires Stored(sha, entries, a.files, a.files.Keys, None)
    requires DistinctPaths(a.manifest.entries) && forall e :: e in a.manifest.entries <==> e in entries
    ensures ListingOk(a)
    ensures forall p :: Listed(a.manifest, p) <==> p in a.files
    ensures forall e :: e in a.manifest.entries ==> Size(a.files[e.path]) == e.bytes && sha(a.files[e.path]) == e.sha
  {
    forall p | p in a.files ensures Listed(a.manifest, p) {
      var e :| e in entries && e.path == p;
      assert e in a.manifest.entries;
    }
    forall p | Listed(a.manifest, p) ensures p in a.files {
      var i :| 0 <= i < |a.manifest.entries| && a.manifest.entries[i].path == p;
      assert a.manifest.entries[i] in entries;
    }
  }

  lemma ContextHasNoSchema(p: string)
    requires IsContext(p)
    ensures SchemaOf(p) == NoSchema
  {
    assert p[0] == 'a' && PRIVACY_PATH[0] == 'p' && GROUP_PATH[0] == 'g';
  }

  /** Sizes, hashes, schemas and contexts: what the reader checks of one entry is what was left to the caller. */
  lemma EntryAgrees(sha: Data -> string, lim: Limits, a: Archive, e: Entry)
    requires e.path in a.files && Size(a.files[e.path]) == e.bytes && sha(a.files[e.path]) == e.sha
    requires Shaped(sha, lim, a.manifest.extUsed, e.path, a.files[e.path])
    requires forall p :: Listed(a.manifest, p) <==> p in a.files
    ensures EntryOk(sha, a, e, lim) <==>
      && (SchemaOf(e.path) != NoSchema && a.files[e.path].Json? ==> a.files[e.path].strict)
      && (IsContext(e.path) && a.files[e.path].Context? ==>
            forall l :: l in a.files[e.path].lines ==> LineDuty(l, a.manifest.extUsed, a.files))
  {
    if IsContext(e.path) { ContextHasNoSchema(e.path); }
  }

  lemma EntriesAgree(sha: Data -> string, lim: Limits, a: Archive)
    requires forall e :: e in a.manifest.entries ==>
      e.path in a.files && Size(a.files[e.path]) == e.bytes && sha(a.files[e.path]) == e.sha
    requires AllShaped(sha, lim, a.manifest.extUsed, a.files, {})
    requires forall p :: Listed(a.manifest, p) <==> p in a.files
    ensures (forall e :: e in a.manifest.entries ==> EntryOk(sha, a, e, lim)) <==> DocumentDuty(a.files) && ContextDuty(a.files, a.manifest.extUsed)
  {
    hide EntryOk, Shaped, LineDuty, SchemaOf, IsContext, Size;
    forall e | e in a.manifest.entries
      ensures EntryOk(sha, a, e, lim) <==>
        && (SchemaOf(e.path) != NoSchema && a.files[e.path].Json? ==> a.files[e.path].strict)
        && (IsContext(e.path) && a.files[e.path].Context? ==>
              forall l :: l in a.files[e.path].lines ==> LineDuty(l, a.manifest.extUsed, a.files))
    {
      EntryAgrees(sha, lim, a, e);
    }
    forall p | p in a.files ensures exists e :: e in a.manifest.entries && e.path == p {
      assert Listed(a.manifest, p);
    }
  }

  lemma SemanticsAgree(sha: Data -> string, lim: Limits, a: Archive, natives: seq<string>, members: seq<string>)
    requires ListingOk(a) && forall p :: Listed(a.manifest, p) <==> p in a.files
    requires forall e :: e in a.manifest.entries ==> sha(a.files[e.path]) == e.sha
    requires AllShaped(sha, lim, a.manifest.extUsed, a.files, {}) && ExtFilesKnown(a.files.Keys, a.manifest.extUsed)
    requires AgentsKept(a.manifest.agents, a.files, natives) && GroupKept(a.files, members) && FewAgents(a.manifest.kind, a.manifest.agents)
    requires Complete(a.manifest.kind, a.manifest.agents, a.files.Keys, natives, members, a.manifest.workflows != [])
    requires Declared(a.manifest.exts, a.manifest.extUsed)
    ensures ManifestOk(a.manifest)
    ensures SemanticsOk(a) <==> a.manifest.strict
  {
    var m := a.manifest;
    forall k | k in m.agents ensures AgentOk(a, k) {
      assert AgentKept(k, a.files, natives);
    }
    forall e | e in m.entries
      ensures AgentOf(e.path).Some? ==> AgentOf(e.path).value in m.agents
      ensures EXT <= e.path ==> Head(e.path[|EXT|..]) in m.extUsed
      ensures ATTACHMENTS <= e.path ==> e.path[|ATTACHMENTS|..] == e.sha
    {
      assert e.path in a.files;
      assert Shaped(sha, lim, m.extUsed, e.path, a.files[e.path]);
    }
  }

  /** Every digest `Close` fills in is the one `checkEnvelope` computes; what remains is the caller's part. */
  lemma EnvelopeAgrees(h: string -> string, m: Manifest, ws: seq<WorkflowItem>, ls: seq<Link>, files: map<string, Data>)
    requires forall p :: Listed(m, p) <==> p in files
    requires WorkflowsKept(ws)
    requires |m.workflows| == |ws| && forall i :: 0 <= i < |ws| ==> m.workflows[i] == FilledWorkflow(h, m.entries, ws[i])
    requires ws == [] ==> m.links == []
    requires ws != [] ==> |m.links| == |ls| && forall i :: 0 <= i < |ls| ==> m.links[i] == FilledLink(h, m.entries, ls[i])
    ensures EnvelopeOk(h, m) <==> EnvelopeDuty(ws, ls, m.agents, files)
  {
    hide SectionText, Head, LinkOk, LinkDuty, WorkflowOk, ValidKey, OnePerformerPerRole, DigestOf, Listed;
    if ws != [] {
      assert forall i :: 0 <= i < |ws| ==> m.workflows[i].key == ws[i].key;
      SameKeys(m.workflows, ws);
      WorkflowsAgree(h, m, ws, files);
      LinksAgree(h, m, ws, ls);
      SectionsAgree(m, ws, files);
    }
  }

  lemma LinksAgree(h: string -> string, m: Manifest, ws: seq<WorkflowItem>, ls: seq<Link>)
    requires Keys(m.workflows) == Keys(ws)
    requires |m.workflows| == |ws| && forall i :: 0 <= i < |ws| ==> m.workflows[i] == FilledWorkflow(h, m.entries, ws[i])
    requires |m.links| == |ls| && forall i :: 0 <= i < |ls| ==> m.links[i] == FilledLink(h, m.entries, ls[i])
    ensures (forall l :: l in m.links ==> LinkOk(h, m, l)) <==> (forall l :: l in ls ==> LinkDuty(ws, m.agents, l))
    ensures OnePerformerPerRole(m.links) <==> OnePerformerPerRole(ls)
  {
    hide SectionText, LinkOk, LinkDuty;
    forall i | 0 <= i < |ls| ensures LinkOk(h, m, m.links[i]) <==> LinkDuty(ws, m.agents, ls[i]) {
      LinkAgrees(h, m, ws, ls[i]);
    }
    assert (forall l :: l in m.links ==> LinkOk(h, m, l)) <==> (forall i :: 0 <= i < |ls| ==> LinkOk(h, m, m.links[i]));
    assert (forall l :: l in ls ==> LinkDuty(ws, m.agents, l)) <==> (forall i :: 0 <= i < |ls| ==> LinkDuty(ws, m.agents, ls[i]));
  }

  lemma SectionsAgree(m: Manifest, ws: seq<WorkflowItem>, files: map<string, Data>)
    requires forall p :: Listed(m, p) <==> p in files
    requires Keys(m.workflows) == Keys(ws)
    ensures (forall e :: e in m.entries && WORKFLOWS <= e.path ==> Head(e.path[|WORKFLOWS|..]) in Keys(m.workflows)) <==>
            (forall p :: p in files && WORKFLOWS <= p ==> Head(p[|WORKFLOWS|..]) in Keys(ws))
  {
    hide Head;
    forall e | e in m.entries ensures e.path in files { assert Listed(m, e.path); }
    forall p | p in files ensures exists e :: e in m.entries && e.path == p { assert Listed(m, p); }
  }

  lemma SameKeys(filled: seq<WorkflowItem>, ws: seq<WorkflowItem>)
    requires |filled| == |ws| && forall i :: 0 <= i < |ws| ==> filled[i].key == ws[i].key
    ensures Keys(filled) == Keys(ws)
  {
    forall k | k in Keys(filled) ensures k in Keys(ws) {
      var i :| 0 <= i < |filled| && filled[i].key == k;
      assert ws[i] in ws;
    }
    forall k | k in Keys(ws) ensures k in Keys(filled) {
      var i :| 0 <= i < |ws| && ws[i].key == k;
      assert filled[i] in filled;
    }
  }

  lemma WorkflowsAgree(h: string -> string, m: Manifest, ws: seq<WorkflowItem>, files: map<string, Data>)
    requires forall p :: Listed(m, p) <==> p in files
    requires WorkflowsKept(ws)
    requires |m.workflows| == |ws| && forall i :: 0 <= i < |ws| ==> m.workflows[i] == FilledWorkflow(h, m.entries, ws[i])
    ensures (forall w :: w in m.workflows ==> WorkflowOk(h, m, w)) <==> (forall w :: w in ws ==> WorkflowPath(w.key, "workflow.json") in files)
  {
    hide SectionText, ValidKey, Listed;
    forall i | 0 <= i < |ws| ensures WorkflowOk(h, m, m.workflows[i]) <==> WorkflowPath(ws[i].key, "workflow.json") in files {
      assert ws[i] in ws;
    }
    forall w | w in ws ensures exists i :: 0 <= i < |ws| && ws[i] == w && m.workflows[i] in m.workflows { }
  }

  lemma LinkAgrees(h: string -> string, m: Manifest, ws: seq<WorkflowItem>, l: Link)
    requires Keys(m.workflows) == Keys(ws)
    requires |m.workflows| == |ws| && forall i :: 0 <= i < |ws| ==> m.workflows[i] == FilledWorkflow(h, m.entries, ws[i])
    ensures LinkOk(h, m, FilledLink(h, m.entries, l)) <==> LinkDuty(ws, m.agents, l)
  {
    if l.workflow in Keys(ws) {
      FilledDigest(h, m.entries, m.workflows, ws, l.workflow);
    }
  }

  lemma {:induction false} FilledDigest(h: string -> string, es: seq<Entry>, filled: seq<WorkflowItem>, ws: seq<WorkflowItem>, key: string)
    requires |filled| == |ws| && forall i :: 0 <= i < |ws| ==> filled[i] == FilledWorkflow(h, es, ws[i])
    requires key in Keys(ws)
    ensures DigestOf(filled, key) == h(SectionText(es, WorkflowPath(key, "")))
  {
    hide SectionText;
    if ws[0].key != key {
      assert ws == [ws[0]] + ws[1..];
      FilledDigest(h, es, filled[1..], ws[1..], key);
    }
  }

  /** The caller's part of an archive. */
  predicate DutiesMet(lim: Limits, a: Archive) {
    && a.manifests == 1 && a.manifest.strict && |a.files| + |a.signatures| <= lim.maxEntries + 64
    && DocumentDuty(a.files) && ContextDuty(a.files, a.manifest.extUsed)
    && EnvelopeDuty(a.manifest.workflows, a.manifest.links, a.manifest.agents, a.files)
    && NamesDuty(a.manifest.workflows, a.manifest.links) && a.size <= lim.maxArchive
  }

  /** The names of the envelope, with digests filled in. */
  lemma NamesAgree(sha: Data -> string, h: string -> string, m: Manifest, files: map<string, Data>, ws: seq<WorkflowItem>, ls: seq<Link>)
    requires Hashes(sha, h)
    requires forall e :: e in m.entries ==> e.path in files && sha(files[e.path]) == e.sha
    requires m.workflows == FilledWorkflows(h, m.entries, ws) && m.links == if ws == [] then [] else FilledLinks(h, m.entries, ls)
    ensures SchemaOk(m) <==> NamesDuty(ws, ls)
    ensures NamesDuty(m.workflows, m.links) <==> NamesDuty(ws, ls)
  {
    hide HexDigest, SectionText, LinkNamed;
    forall e | e in m.entries ensures HexDigest(e.sha) { assert HexDigest(sha(files[e.path])); }
    ItemsNamed(h, m.entries, ws);
    LinksNamed(h, m.entries, ls);
  }

  lemma ItemsNamed(h: string -> string, es: seq<Entry>, ws: seq<WorkflowItem>)
    requires forall s :: HexDigest(h(s))
    ensures forall w :: w in FilledWorkflows(h, es, ws) ==> HexDigest(w.digest)
    ensures (forall w :: w in FilledWorkflows(h, es, ws) ==> w.root != "") <==> (forall w :: w in ws ==> w.root != "")
  {
    hide HexDigest, SectionText;
    var fw := FilledWorkflows(h, es, ws);
    forall w | w in fw ensures HexDigest(w.digest) {
      var i :| 0 <= i < |fw| && fw[i] == w;
      assert HexDigest(h(SectionText(es, WorkflowPath(ws[i].key, ""))));
    }
    assert forall i :: 0 <= i < |ws| ==> fw[i].root == ws[i].root;
    assert (forall w :: w in fw ==> w.root != "") <==> (forall i :: 0 <= i < |fw| ==> fw[i].root != "");
    assert (forall w :: w in ws ==> w.root != "") <==> (forall i :: 0 <= i < |ws| ==> ws[i].root != "");
  }

  lemma LinksNamed(h: string -> string, es: seq<Entry>, ls: seq<Link>)
    requires forall s :: HexDigest(h(s))
    ensures forall l :: l in FilledLinks(h, es, ls) ==> HexDigest(l.digest)
    ensures (forall l :: l in FilledLinks(h, es, ls) ==> LinkNamed(l)) <==> (forall l :: l in ls ==> LinkNamed(l))
  {
    hide HexDigest, SectionText, ValidKey;
    var fl := FilledLinks(h, es, ls);
    forall l | l in fl ensures HexDigest(l.digest) {
      var i :| 0 <= i < |fl| && fl[i] == l;
      assert HexDigest(h(SectionText(es, if ls[i].kind.Performer? then AgentPath(ls[i].agent, "") else WorkflowPath(ls[i].workflow, ""))));
    }
    assert forall i :: 0 <= i < |ls| ==> (LinkNamed(fl[i]) <==> LinkNamed(ls[i]));
    assert (forall l :: l in fl ==> LinkNamed(l)) <==> (forall i :: 0 <= i < |fl| ==> LinkNamed(fl[i]));
    assert (forall l :: l in ls ==> LinkNamed(l)) <==> (forall i :: 0 <= i < |ls| ==> LinkNamed(ls[i]));
  }

  /** Filling in digests changes nothing the caller answers for. */
  lemma DutyFilled(h: string -> string, es: seq<Entry>, ws: seq<WorkflowItem>, ls: seq<Link>, agents: seq<string>, files: map<string, Data>)
    ensures EnvelopeDuty(FilledWorkflows(h, es, ws), if ws == [] then [] else FilledLinks(h, es, ls), agents, files) <==> EnvelopeDuty(ws, ls, agents, files)
  {
    hide SectionText, Head, Keys, LinkDuty;
    var fw, fl := FilledWorkflows(h, es, ws), FilledLinks(h, es, ls);
    if ws != [] {
      assert forall i :: 0 <= i < |ws| ==> fw[i].key == ws[i].key;
      SameKeys(fw, ws);
      WrittenEither(ws, fw, files);
      forall i | 0 <= i < |ls| ensures LinkDuty(fw, agents, fl[i]) <==> LinkDuty(ws, agents, ls[i]) { LinkDutyFilled(h, es, ws, fw, agents, ls[i]); }
      assert (forall l :: l in fl ==> LinkDuty(fw, agents, l)) <==> (forall i :: 0 <= i < |fl| ==> LinkDuty(fw, agents, fl[i]));
      assert (forall l :: l in ls ==> LinkDuty(ws, agents, l)) <==> (forall i :: 0 <= i < |ls| ==> LinkDuty(ws, agents, ls[i]));
    }
  }

  lemma LinkDutyFilled(h: string -> string, es: seq<Entry>, ws: seq<WorkflowItem>, fw: seq<WorkflowItem>, agents: seq<string>, l: Link)
    requires Keys(fw) == Keys(ws)
    ensures LinkDuty(fw, agents, FilledLink(h, es, l)) <==> LinkDuty(ws, agents, l)
  {
    hide Keys;
  }

  lemma WrittenEither(ws: seq<WorkflowItem>, fw: seq<WorkflowItem>, files: map<string, Data>)
    requires |fw| == |ws| && Keys(fw) == Keys(ws) && forall i :: 0 <= i < |ws| ==> fw[i].key == ws[i].key
    ensures WorkflowsWritten(fw, files) <==> WorkflowsWritten(ws, files)
  {
    hide Keys, Head;
    assert (forall w :: w in fw ==> WorkflowPath(w.key, "workflow.json") in files) <==> (forall i :: 0 <= i < |fw| ==> WorkflowPath(fw[i].key, "workflow.json") in files);
    assert (forall w :: w in ws ==> WorkflowPath(w.key, "workflow.json") in files) <==> (forall i :: 0 <= i < |ws| ==> WorkflowPath(ws[i].key, "workflow.json") in files);
  }

  /** Writer and reader agree: an archive made from what the writer keeps is accepted exactly when the caller's part is met. */
  lemma Agreement(sha: Data -> string, h: string -> string, lim: Limits, entries: seq<Entry>, a: Archive,
                  ws: seq<WorkflowItem>, ls: seq<Link>, natives: seq<string>, members: seq<string>)
    requires Stored(sha, entries, a.files, a.files.Keys, None) && TotalSize(entries) <= lim.maxArchive && a.manifestBytes <= lim.maxMetadata
    requires AllShaped(sha, lim, a.manifest.extUsed, a.files, {}) && ExtFilesKnown(a.files.Keys, a.manifest.extUsed)
    requires AgentsKept(a.manifest.agents, a.files, natives) && GroupKept(a.files, members) && WorkflowsKept(ws)
    requires FewAgents(a.manifest.kind, a.manifest.agents)
    requires Complete(a.manifest.kind, a.manifest.agents, a.files.Keys, natives, members, ws != []) && Declared(a.manifest.exts, a.manifest.extUsed)
    requires a.manifest.entries == Sort(entries) && a.manifest.workflows == FilledWorkflows(h, a.manifest.entries, ws)
    requires a.manifest.links == if ws == [] then [] else FilledLinks(h, a.manifest.entries, ls)
    requires Hashes(sha, h)
    requires a.manifests == 1 ==> forall i, j :: 0 <= i < j < |a.signatures| ==> a.signatures[i] != a.signatures[j]
    ensures Accepted(sha, h, a, lim) <==> DutiesMet(lim, a)
    ensures DutiesMet(lim, a) <==>
      && a.manifests == 1 && a.manifest.strict && |a.files| + |a.signatures| <= lim.maxEntries + 64
      && DocumentDuty(a.files) && ContextDuty(a.files, a.manifest.extUsed) && EnvelopeDuty(ws, ls, a.manifest.agents, a.files)
      && NamesDuty(ws, ls) && a.size <= lim.maxArchive
  {
    hide AllShaped, ExtFilesKnown, AgentsKept, GroupKept, WorkflowsKept, Complete, Declared, EntryOk, EnvelopeOk, SemanticsOk, ListingOk, ManifestOk;
    hide Hashes, DocumentDuty, ContextDuty, EnvelopeDuty, NamesDuty, SchemaOk, HexDigest, Sort, Size, ValidEntryPath, Reserved, TotalSize, Listed, FilledWorkflow, FilledLink;
    SortKeepsEntries(entries);
    SortKeepsSize(entries);
    ListingAgrees(sha, entries, a);
    assert forall e :: e in a.manifest.entries ==> e.path in a.files && Size(a.files[e.path]) == e.bytes && sha(a.files[e.path]) == e.sha;
    EntriesAgree(sha, lim, a);
    SemanticsAgree(sha, lim, a, natives, members);
    EnvelopeAgrees(h, a.manifest, ws, ls, a.files);
    NamesAgree(sha, h, a.manifest, a.files, ws, ls);
    DutyFilled(h, a.manifest.entries, ws, ls, a.manifest.agents, a.files);
    assert forall p :: p in a.files ==> ValidEntryPath(p);
  }

  /**
   The byte search is weaker than the reader's walk: a line that hides an undeclared extension behind an escaped key
   passes every check of the writer, and no reader opens the archive it is in.
   */
  lemma HiddenExtensionRefused(sha: Data -> string, h: string -> string, lim: Limits, a: Archive, p: string, l: Line, id: string)
    requires p in a.files && IsContext(p) && a.files[p].Context? && l in a.files[p].lines
    requires l.exts.Some? && id in l.exts.value && id !in a.manifest.extUsed
    ensures !Accepted(sha, h, a, lim)
  {
    hide SemanticsOk, EnvelopeOk, ManifestOk;
    ContextHasNoSchema(p);
    if ListingOk(a) {
      assert Listed(a.manifest, p);
      var i :| 0 <= i < |a.manifest.entries| && a.manifest.entries[i].path == p;
      assert !ContextOk(a.manifest, p, a.files[p], lim);
      assert !EntryOk(sha, a, a.manifest.entries[i], lim);
    }
  }
}
