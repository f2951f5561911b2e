/** A PAF archive as its reader sees it: entry names, decoded contents, the manifest and every check `Open` makes on them. */
module PafArchive {
  import opened Basics
  import opened PafDigest

  const MANIFEST_PATH := "manifest.json"
  const GROUP_PATH := "group.json"
  const SIGNATURES := "signatures/"
  const ATTACHMENTS := "attachments/"
  const EXT := "ext/"
  const AGENTS := "agents/"
  const WORKFLOWS := "workflows/"

  // ----- names -----

  /** The part before the first '/'. */
  function Head(s: string): (h: string)
    ensures |h| <= |s| && h == s[..|h|] && '/' !in h
    ensures |h| == |s| || s[|h|] == '/'
  {
    if s == [] || s[0] == '/' then [] else [s[0]] + Head(s[1..])
  }

  predicate HasSlash(s: string) {
    |Head(s)| < |s|
  }

  /** The part behind the first '/'. */
  function Tail(s: string): string {
    if HasSlash(s) then s[|Head(s)| + 1..] else []
  }

  predicate NameChar(c: char) {
    'A' <= c <= 'Z' || 'a' <= c <= 'z' || '0' <= c <= '9' || c in {'.', '_', '-'}
  }

  predicate ValidSegments(s: string)
    decreases |s|
  {
    var seg := Head(s);
    && seg != [] && seg != "." && seg != ".." && (forall c :: c in seg ==> NameChar(c))
    && (HasSlash(s) ==> ValidSegments(Tail(s)))
  }

  /** `ValidEntryPath`. */
  predicate ValidEntryPath(s: string) {
    0 < |s| <= 255 && ValidSegments(s)
  }

  predicate ValidKey(k: string) {
    1 <= |k| <= 64 && forall c :: c in k ==> 'a' <= c <= 'z' || '0' <= c <= '9' || c == '-'
  }

  function AgentPath(key: string, rel: string): string { AGENTS + key + "/" + rel }

  function WorkflowPath(key: string, rel: string): string { WORKFLOWS + key + "/" + rel }

  /** `splitAgentPath`: the agent a path belongs to. */
  function AgentOf(p: string): Option<string> {
    if AGENTS <= p && HasSlash(p[|AGENTS|..]) then Some(Head(p[|AGENTS|..])) else None
  }

  function AgentFile(p: string): string {
    if AgentOf(p).Some? then Tail(p[|AGENTS|..]) else []
  }

  datatype Schema = NoSchema | PrivacySchema | GroupSchema | AgentSchema | EnvironmentSchema | LossesSchema

  /** `metadataSchema`. */
  function SchemaOf(p: string): Schema {
    if p == PRIVACY_PATH then PrivacySchema
    else if p == GROUP_PATH then GroupSchema
    else if AgentOf(p).None? || !ValidKey(AgentOf(p).value) then NoSchema
    else if AgentFile(p) == "agent.json" then AgentSchema
    else if AgentFile(p) == "environment.json" then EnvironmentSchema
    else if AgentFile(p) == "context/losses.json" then LossesSchema
    else NoSchema
  }

  predicate IsContext(p: string) {
    AgentOf(p).Some? && AgentFile(p) in {"context/transcript.jsonl", "context/full.jsonl"}
  }

  predicate Reserved(p: string) {
    p == MANIFEST_PATH || SIGNATURES <= p
  }

  // ----- contents -----

  /** One context line: whether it passes the line checks, its size, the extensions it uses (None when they are
      malformed) and the attachments it names. `literal` says that an "extensions" key is spelled out, so that a
      byte search finds it. */
  datatype Line = Line(header: bool, valid: bool, bytes: nat, literal: bool, exts: Option<set<string>>, attachments: seq<string>)

  /** A file's content, decoded. A document knows the schemas it meets, whether it is `strict` (no key occurs twice,
      payloads of known extensions pass theirs), and what it refers to. A context starts with its header line. */
  datatype Data =
    | Json(bytes: nat, schemas: set<Schema>, strict: bool, exts: Option<set<string>>, members: seq<string>, native: Option<string>)
    | Context(full: bool, lines: seq<Line>)
    | Raw(text: string)

  function LineBytes(ls: seq<Line>): nat {
    if ls == [] then 0 else LineBytes(ls[..|ls| - 1]) + ls[|ls| - 1].bytes
  }

  function Size(d: Data): nat {
    match d
    case Json(n, _, _, _, _, _) => n
    case Context(_, lines) => LineBytes(lines)
    case Raw(text) => |text|
  }

  datatype Limits = Limits(maxArchive: nat, maxMetadata: nat, maxRecord: nat, maxEntries: nat)

  datatype Kind = KindAgent | KindGroup | KindBundle

  /** `needs` are the features a workflow requires of its reader. */
  datatype WorkflowItem = WorkflowItem(key: string, root: string, needs: seq<string>, digest: string)

  datatype LinkType = Performer | Carries | OtherLink(name: string)

  datatype Link = Link(kind: LinkType, workflow: string, agent: string, role: string, digest: string)

  datatype Manifest = Manifest(
    kind: Kind, extUsed: set<string>, exts: Option<set<string>>, strict: bool,
    agents: seq<string>, workflows: seq<WorkflowItem>, links: seq<Link>, entries: seq<Entry>)

  /** `manifests` counts the manifest.json files in the container and `manifestBytes` is the encoded size of the last;
      `files` leaves out the manifest and the signatures; `size` is the size of the container itself. */
  datatype Archive = Archive(manifest: Manifest, manifests: nat, manifestBytes: nat, files: map<string, Data>, signatures: seq<string>, size: nat)

  // ----- the reader -----

  predicate Listed(m: Manifest, p: string) {
    exists i :: 0 <= i < |m.entries| && m.entries[i].path == p
  }

  function TotalSize(es: seq<Entry>): nat {
    if es == [] then 0 else es[0].bytes + TotalSize(es[1..])
  }

  /** The first check of `Open` and `IndexZip`: the container rules, apart from the byte layout. */
  predicate ContainerOk(a: Archive, lim: Limits) {
    && a.size <= lim.maxArchive && a.manifests == 1 && |a.files| + 1 + |a.signatures| <= lim.maxEntries + 1 + 64
    && (forall p :: p in a.files ==> ValidEntryPath(p))
    && (forall i, j :: 0 <= i < j < |a.signatures| ==> a.signatures[i] != a.signatures[j])
    && TotalSize(a.manifest.entries) <= lim.maxArchive && a.manifestBytes <= lim.maxMetadata
  }

  predicate HexDigest(s: string) {
    |s| == 64 && forall c :: c in s ==> '0' <= c <= '9' || 'a' <= c <= 'f'
  }

  predicate LinkNamed(l: Link) {
    ValidKey(l.workflow) && ValidKey(l.agent) && (l.kind.OtherLink? ==> l.kind.name != "")
  }

  /** The manifest schema's rules for entries, workflows and links. */
  predicate SchemaOk(m: Manifest) {
    && (forall e :: e in m.entries ==> HexDigest(e.sha))
    && (forall w :: w in m.workflows ==> w.root != "" && HexDigest(w.digest))
    && (forall l :: l in m.links ==> LinkNamed(l) && HexDigest(l.digest))
  }

  /** An agent file is of one agent. */
  predicate FewAgents(kind: Kind, agents: seq<string>) {
    kind == KindAgent ==> |agents| <= 1
  }

  /** The manifest schema's rules for agents. */
  predicate ManifestOk(m: Manifest) {
    && FewAgents(m.kind, m.agents)
    && m.agents != [] && (forall k :: k in m.agents ==> ValidKey(k))
    && (forall i, j :: 0 <= i < j < |m.agents| ==> m.agents[i] != m.agents[j])
  }

  /** `verifyEntries` up to the entries themselves. */
  predicate ListingOk(a: Archive) {
    && DistinctPaths(a.manifest.entries)
    && (forall e :: e in a.manifest.entries ==> !Reserved(e.path) && e.path in a.files)
    && (forall p :: p in a.files ==> Listed(a.manifest, p))
  }

  /** `checkDeclared` on the extensions a document uses. */
  predicate Declared(exts: Option<set<string>>, used: set<string>) {
    exts.Some? && exts.value <= used
  }

  /** A header line first, and only there. */
  predicate Headed(ls: seq<Line>) {
    ls != [] && forall i :: 0 <= i < |ls| ==> (ls[i].header <==> i == 0)
  }

  /** `checkContext`. */
  predicate ContextOk(m: Manifest, p: string, d: Data, lim: Limits) {
    && d.Context? && d.full == (AgentFile(p) == "context/full.jsonl") && Headed(d.lines)
    && forall l :: l in d.lines ==>
      && l.valid && l.bytes <= lim.maxRecord && Declared(l.exts, m.extUsed)
      && forall h :: h in l.attachments ==> Listed(m, ATTACHMENTS + h)
  }

  /** `verifyEntry`. */
  predicate EntryOk(sha: Data -> string, a: Archive, e: Entry, lim: Limits)
    requires e.path in a.files
  {
    var d := a.files[e.path];
    && Size(d) == e.bytes && sha(d) == e.sha
    && (SchemaOf(e.path) != NoSchema ==>
          && d.Json? && d.bytes <= lim.maxMetadata && d.strict
          && SchemaOf(e.path) in d.schemas && Declared(d.exts, a.manifest.extUsed))
    && (SchemaOf(e.path) == NoSchema && IsContext(e.path) ==> ContextOk(a.manifest, e.path, d, lim))
  }

  /** The agents' part of `checkSemantics`. */
  predicate AgentOk(a: Archive, key: string) {
    && AgentPath(key, "agent.json") in a.files && AgentPath(key, "environment.json") in a.files
    && var d := a.files[AgentPath(key, "agent.json")];
    && (d.Json? && d.native.Some? ==> AgentPath(key, "native/") <= d.native.value && Listed(a.manifest, d.native.value))
    && (Listed(a.manifest, AgentPath(key, "context/transcript.jsonl")) ==> AgentPath(key, "context/losses.json") in a.files)
  }

  /** `checkSemantics` without the envelope. */
  predicate SemanticsOk(a: Archive) {
    var m := a.manifest;
    && (m.kind == KindGroup <==> GROUP_PATH in a.files)
    && (m.kind == KindBundle ==> m.workflows != [])
    && (forall k :: k in m.agents ==> AgentOk(a, k))
    && (GROUP_PATH in a.files && a.files[GROUP_PATH].Json? ==> forall k :: k in a.files[GROUP_PATH].members ==> k in m.agents)
    && (forall e :: e in m.entries ==>
          && (AgentOf(e.path).Some? ==> AgentOf(e.path).value in m.agents)
          && (EXT <= e.path ==> Head(e.path[|EXT|..]) in m.extUsed)
          && (ATTACHMENTS <= e.path ==> e.path[|ATTACHMENTS|..] == e.sha))
    && m.strict && Declared(m.exts, m.extUsed)
  }

  function Keys(ws: seq<WorkflowItem>): set<string> {
    set w | w in ws :: w.key
  }

  function DigestOf(ws: seq<WorkflowItem>, key: string): string {
    if ws == [] then "" else if ws[0].key == key then ws[0].digest else DigestOf(ws[1..], key)
  }

  predicate WorkflowOk(h: string -> string, m: Manifest, w: WorkflowItem) {
    && ValidKey(w.key) && Listed(m, WorkflowPath(w.key, "workflow.json"))
    && w.digest == h(SectionText(m.entries, WorkflowPath(w.key, "")))
  }

  /** `h` hashes the digest text. */
  predicate LinkOk(h: string -> string, m: Manifest, l: Link) {
    l.kind.OtherLink? ||
    (&& l.workflow in Keys(m.workflows) && l.agent in m.agents
     && (l.kind.Performer? ==> l.role != "")
     && l.digest == if l.kind.Performer? then h(SectionText(m.entries, AgentPath(l.agent, ""))) else DigestOf(m.workflows, l.workflow))
  }

  predicate OnePerformerPerRole(ls: seq<Link>) {
    forall i, j :: 0 <= i < j < |ls| && ls[i].kind.Performer? && ls[j].kind.Performer? ==>
      ls[i].workflow != ls[j].workflow || ls[i].role != ls[j].role
  }

  /** `checkEnvelope`. */
  predicate EnvelopeOk(h: string -> string, m: Manifest) {
    if m.workflows == [] then m.links == []
    else
      && (forall i, j :: 0 <= i < j < |m.workflows| ==> m.workflows[i].key != m.workflows[j].key)
      && (forall w :: w in m.workflows ==> WorkflowOk(h, m, w))
      && (forall e :: e in m.entries && WORKFLOWS <= e.path ==> Head(e.path[|WORKFLOWS|..]) in Keys(m.workflows))
      && (forall l :: l in m.links ==> LinkOk(h, m, l))
      && OnePerformerPerRole(m.links)
  }

  /** What `Open` checks before it looks at signatures, for a manifest of a version and with features this reader knows. */
  predicate Accepted(sha: Data -> string, h: string -> string, a: Archive, lim: Limits) {
    && ContainerOk(a, lim) && ManifestOk(a.manifest) && SchemaOk(a.manifest) && ListingOk(a)
    && (forall e :: e in a.manifest.entries ==> EntryOk(sha, a, e, lim))
    && SemanticsOk(a) && EnvelopeOk(h, a.manifest)
  }

  /** `checkEnvelope` as the reader runs it. */
  method CheckEnvelope(h: string -> string, m: Manifest) returns (ok: bool)
    ensures ok == EnvelopeOk(h, m)
  {
    hide LinkOk, WorkflowOk, OnePerformerPerRole, DigestOf, Head;
    if m.workflows == [] { return m.links == []; }
    var items := CheckWorkflows(h, m);
    if items.None? { return false; }
    for i := 0 to |m.entries|
      invariant forall k :: 0 <= k < i && WORKFLOWS <= m.entries[k].path ==> Head(m.entries[k].path[|WORKFLOWS|..]) in items.value
    {
      assert m.entries[i] in m.entries;
      if WORKFLOWS <= m.entries[i].path && Head(m.entries[i].path[|WORKFLOWS|..]) !in items.value { return false; }
    }
    ok := CheckLinks(h, m, items.value);
  }

  /** The workflow items, by key. */
  method CheckWorkflows(h: string -> string, m: Manifest) returns (r: Option<map<string, WorkflowItem>>)
    ensures r.Some? <==>
      && (forall i, j :: 0 <= i < j < |m.workflows| ==> m.workflows[i].key != m.workflows[j].key)
      && (forall w :: w in m.workflows ==> WorkflowOk(h, m, w))
    ensures r.Some? ==> r.value.Keys == Keys(m.workflows)
    ensures r.Some? ==> forall key :: key in r.value ==> r.value[key].digest == DigestOf(m.workflows, key)
  {
    hide WorkflowOk, DigestOf, Keys, ByKey;
    var items: map<string, WorkflowItem> := map[];
    assert m.workflows[..0] == [];
    ByKeyNone();
    for i := 0 to |m.workflows|
      invariant ByKey(m.workflows[..i], items)
      invariant forall k :: 0 <= k < i ==> WorkflowOk(h, m, m.workflows[k])
    {
      var w := m.workflows[i];
      assert w in m.workflows;
      ByKeyStep(m.workflows, i, items);
      if !WorkflowOk(h, m, w) || w.key in items { return None; }
      items := items[w.key := w];
    }
    assert m.workflows[..|m.workflows|] == m.workflows;
    ByKeyDone(m.workflows, items);
    r := Some(items);
  }

  /** The items by their keys, which are distinct. */
  ghost predicate ByKey(ws: seq<WorkflowItem>, items: map<string, WorkflowItem>) {
    && items.Keys == (set k | 0 <= k < |ws| :: ws[k].key)
    && (forall k :: 0 <= k < |ws| ==> items[ws[k].key] == ws[k])
    && (forall i, j :: 0 <= i < j < |ws| ==> ws[i].key != ws[j].key)
  }

  lemma ByKeyNone()
    ensures ByKey([], map[])
  {
  }

  lemma ByKeyStep(ws: seq<WorkflowItem>, i: nat, items: map<string, WorkflowItem>)
    requires i < |ws| && ByKey(ws[..i], items)
    ensures ws[i].key !in items ==> ByKey(ws[..i + 1], items[ws[i].key := ws[i]])
    ensures ws[i].key in items ==> exists k :: 0 <= k < i && ws[k].key == ws[i].key
  {
    var a, b := ws[..i], ws[..i + 1];
    assert b[i] == ws[i] && forall k :: 0 <= k < i ==> b[k] == a[k] == ws[k];
    if ws[i].key !in items {
      var more := items[ws[i].key := ws[i]];
      forall key | key in more ensures key in set k | 0 <= k < |b| :: b[k].key {
        if key != ws[i].key {
          var k :| 0 <= k < |a| && a[k].key == key;
          assert b[k].key == key;
        }
      }
    } else {
      var k :| 0 <= k < |a| && a[k].key == ws[i].key;
      assert ws[k].key == ws[i].key;
    }
  }

  lemma ByKeyDone(ws: seq<WorkflowItem>, items: map<string, WorkflowItem>)
    requires ByKey(ws, items)
    ensures items.Keys == Keys(ws) && (forall key :: key in items ==> items[key].digest == DigestOf(ws, key))
    ensures forall i, j :: 0 <= i < j < |ws| ==> ws[i].key != ws[j].key
  {
    hide DigestOf;
    ItemKeys(ws);
    forall key | key in items ensures items[key].digest == DigestOf(ws, key) {
      var k :| 0 <= k < |ws| && ws[k].key == key;
      FirstItem(ws, key);
    }
  }

  lemma ItemKeys(ws: seq<WorkflowItem>)
    ensures Keys(ws) == set k | 0 <= k < |ws| :: ws[k].key
  {
  }

  lemma {:induction false} FirstItem(ws: seq<WorkflowItem>, key: string)
    requires key in Keys(ws)
    ensures forall k :: 0 <= k < |ws| && ws[k].key == key && (forall j :: 0 <= j < k ==> ws[j].key != key) ==>
      ws[k].digest == DigestOf(ws, key)
  {
    if ws != [] && ws[0].key != key {
      assert ws == [ws[0]] + ws[1..];
      FirstItem(ws[1..], key);
      forall k | 0 <= k < |ws| && ws[k].key == key && (forall j :: 0 <= j < k ==> ws[j].key != key)
        ensures ws[k].digest == DigestOf(ws, key)
      {
        assert ws[1..][k - 1] == ws[k];
        forall j | 0 <= j < k - 1 ensures ws[1..][j].key != key { assert ws[1..][j] == ws[j + 1]; }
      }
    }
  }

  /** The links, with the performers' slots taken so far. */
  method CheckLinks(h: string -> string, m: Manifest, items: map<string, WorkflowItem>) returns (ok: bool)
    requires items.Keys == Keys(m.workflows)
    requires forall key :: key in items ==> items[key].digest == DigestOf(m.workflows, key)
    ensures ok == ((forall l :: l in m.links ==> LinkOk(h, m, l)) && OnePerformerPerRole(m.links))
  {
    hide LinkOk, Keys, DigestOf;
    var roles: set<(string, string)> := {};
    for i := 0 to |m.links|
      invariant forall k :: 0 <= k < i ==> LinkOk(h, m, m.links[k])
      invariant forall k :: 0 <= k < i && m.links[k].kind.Performer? ==> (m.links[k].workflow, m.links[k].role) in roles
      invariant forall s :: s in roles ==> exists k :: 0 <= k < i && m.links[k].kind.Performer? && (m.links[k].workflow, m.links[k].role) == s
      invariant forall k, l :: 0 <= k < l < i && m.links[k].kind.Performer? && m.links[l].kind.Performer? ==>
        m.links[k].workflow != m.links[l].workflow || m.links[k].role != m.links[l].role
    {
      var l := m.links[i];
      assert l in m.links;
      var fine := CheckLink(h, m, items, l);
      if !fine { return false; }
      if l.kind.Performer? {
        if (l.workflow, l.role) in roles { return false; }
        roles := roles + {(l.workflow, l.role)};
      }
    }
    ok := true;
  }

  method CheckLink(h: string -> string, m: Manifest, items: map<string, WorkflowItem>, l: Link) returns (ok: bool)
    requires items.Keys == Keys(m.workflows)
    requires forall key :: key in items ==> items[key].digest == DigestOf(m.workflows, key)
    ensures ok == LinkOk(h, m, l)
  {
    hide Keys, SectionText, DigestOf;
    if l.kind.OtherLink? { return true; }
    if l.workflow !in items || l.agent !in m.agents { return false; }
    var want := items[l.workflow].digest;
    if l.kind.Performer? {
      want := SectionDigest(h, m.entries, AgentPath(l.agent, ""));
      if l.role == "" { return false; }
    }
    ok := l.digest == want;
  }
}
