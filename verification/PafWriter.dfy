/** The streaming PAF writer, call by call. */
module PafWriter {
  import opened Basics
  import opened PafDigest
  import opened PafArchive
  import opened PafAgreement

  /** `DefaultLimits().MaxMetadataBytes` of the workflow format. */
  const MAX_WORKFLOW_FILE: nat := 0x10_0000

  datatype Declaration = Declaration(version: string, system: string, spec: string)

  // ----- extension ids and versions -----

  predicate Digit(c: char) { '0' <= c <= '9' }

  predicate LabelChar(c: char) { 'a' <= c <= 'z' || Digit(c) }

  /** `extensionIDRE`: labels of letters, digits and inner hyphens, separated by dots. `inside` is false where a label starts. */
  predicate Labels(s: string, inside: bool) {
    if s == [] then inside
    else if s[0] == '.' then inside && Labels(s[1..], false)
    else (LabelChar(s[0]) || (inside && s[0] == '-')) && Labels(s[1..], true)
  }

  /** `ValidExtensionID`: a dotted id, or the documented one. */
  predicate WriterMayUse(id: string) {
    |id| <= 128 && Labels(id, false) && ('.' in id || id == "tclaude")
  }

  /** `strconv.Atoi` on digits, which refuses what does not fit 64 bits. */
  function Number(s: string): (n: nat)
    requires forall c :: c in s ==> Digit(c)
  {
    if s == [] then 0 else
      assert Digit(s[|s| - 1]);
      10 * Number(s[..|s| - 1]) + (s[|s| - 1] as int - '0' as int)
  }

  predicate ValidNumber(s: string) {
    s != [] && (forall c :: c in s ==> Digit(c)) && Number(s) <= 0x7fff_ffff_ffff_ffff
  }

  /** `ParseVersion`: two numbers and a dot. */
  predicate ValidVersion(v: string) {
    exists i :: 0 <= i < |v| && v[i] == '.' && ValidNumber(v[..i]) && ValidNumber(v[i + 1..])
  }

  lemma NoVersion()
    ensures !ValidVersion("")
  {
  }

  /** Paths whose content the format defines. */
  predicate Special(p: string) {
    SchemaOf(p) != NoSchema || IsContext(p) || ATTACHMENTS <= p
  }

  class Writer {
    const sha: Data -> string
    const h: string -> string
    const limits: Limits
    const kind: Kind
    var total: nat
    var entries: seq<Entry>
    var seen: set<string>
    var agents: seq<string>
    /** The entry being written. One whose write failed stays open: its handle is gone. */
    var open: Option<string>
    /** The lines of an open context, which its caller still holds. */
    var context: Option<Data>
    var closed: bool
    var extUsed: set<string>
    var extSeen: set<string>
    var manExt: Extensions
    var natives: seq<string>
    var members: seq<string>
    var workflows: seq<WorkflowItem>
    var links: seq<Link>
    /** What the container holds so far. */
    var files: map<string, Data>
    var manifests: nat
    var signatures: seq<string>
    /** Paths of the format's own that were written by another call than theirs. */
    ghost var stray: set<string>

    constructor (sha: Data -> string, h: string -> string, limits: Limits, kind: Kind)
      ensures Good() && !closed && stray == {} && seen == {} && total == 0
      ensures this.sha == sha && this.h == h && this.limits == limits && this.kind == kind
      ensures entries == [] && files == map[] && agents == [] && workflows == [] && links == [] && open.None?
      ensures natives == [] && members == [] && extUsed == {} && extSeen == {} && manExt == Extensions(Some({}), true)
      ensures manifests == 0 && signatures == []
    {
      this.sha, this.h, this.limits, this.kind := sha, h, limits, kind;
      total, entries, seen, agents, open, context, closed := 0, [], {}, [], None, None, false;
      extUsed, extSeen, manExt := {}, {}, Extensions(Some({}), true);
      natives, members, workflows, links := [], [], [], [];
      files, manifests, signatures, stray := map[], 0, [], {};
    }

    // ----- the invariant -----

    ghost predicate Filed()
      reads this`entries, this`files, this`seen, this`open
    {
      Stored(sha, entries, files, seen, open)
    }

    ghost predicate Bounded()
      reads this`entries, this`total, this`open, this`context
    {
      && total <= limits.maxArchive
      && (open.None? ==> context.None? && total == TotalSize(entries))
      && (context.Some? ==> total == TotalSize(entries) + Size(context.value))
    }

    ghost predicate Formed()
      reads this`files, this`seen, this`extUsed, this`extSeen, this`stray, this`open, this`context
    {
      && AllShaped(sha, limits, extUsed + extSeen, files, stray)
      && ExtFilesKnown(seen, extUsed + extSeen)
      && (context.Some? && open.Some? ==>
            context.value.Context? && AGENTS <= open.value && Shaped(sha, limits, extUsed + extSeen, open.value, context.value))
    }

    ghost predicate Peopled()
      reads this`agents, this`files, this`natives, this`members, this`workflows, this`stray
    {
      AgentsKept(agents, files, natives) && FewAgents(kind, agents) && (GROUP_PATH !in stray ==> GroupKept(files, members)) && WorkflowsKept(workflows)
    }

    ghost predicate Good()
      reads this`entries, this`files, this`seen, this`open, this`total, this`context, this`extUsed, this`extSeen, this`stray
      reads this`agents, this`natives, this`members, this`workflows, this`manifests, this`signatures
    {
      Filed() && Bounded() && Formed() && Peopled() && (manifests == 0 ==> signatures == [])
    }

    lemma ContextIsAgents()
      requires Good() && open.Some? && context.Some?
      ensures AGENTS <= open.value
    {
    }

    lemma FilesAreSeen()
      requires Good()
      ensures files.Keys <= seen
    {
    }

    /** What the invariant says once every used extension is declared. */
    lemma Kept()
      requires Good() && stray == {} && open.None? && extSeen <= extUsed
      ensures seen == files.Keys && Stored(sha, entries, files, files.Keys, None) && TotalSize(entries) <= limits.maxArchive
      ensures AllShaped(sha, limits, extUsed, files, {}) && ExtFilesKnown(files.Keys, extUsed)
      ensures AgentsKept(agents, files, natives) && FewAgents(kind, agents) && GroupKept(files, members) && WorkflowsKept(workflows)
      ensures manifests == 0 ==> signatures == []
    {
      assert extUsed + extSeen == extUsed;
    }

    // ----- entries -----

    predicate CanCreate(path: string)
      reads this`closed, this`open, this`seen, this`entries
    {
      && !closed && open.None? && ValidEntryPath(path) && !Reserved(path)
      && path !in seen && |entries| < limits.maxEntries
    }

    /** `Create`. */
    method Create(path: string) returns (ok: bool)
      modifies this`seen, this`open, this`extSeen
      ensures ok == old(CanCreate(path))
      ensures ok ==> open == Some(path) && seen == old(seen) + {path}
      ensures ok && EXT <= path ==> extSeen == old(extSeen) + {Head(path[|EXT|..])}
      ensures !ok ==> open == old(open) && seen == old(seen)
      ensures !ok || !(EXT <= path) ==> extSeen == old(extSeen)
      ensures old(Good()) ==> Good()
    {
      hide AllShaped, Shaped, AgentsKept, GroupKept, WorkflowsKept, TotalSize, Size, ValidEntryPath, Reserved, Head;
      if closed || open.Some? { return false; }
      if !ValidEntryPath(path) || Reserved(path) { return false; }
      if path in seen { return false; }
      if |entries| >= limits.maxEntries { return false; }
      ghost var was := extUsed + extSeen;
      if EXT <= path { extSeen := extSeen + {Head(path[|EXT|..])}; }
      seen := seen + {path};
      open := Some(path);
      KnownGrows(sha, limits, was, extUsed + extSeen, files, stray);
      ok := true;
    }

    /** What a file at `path` must be for the writer's promises to hold of it. */
    ghost predicate Fits(path: string, d: Data)
      reads this`extUsed, this`extSeen, this`members, this`stray
    {
      path in stray ||
      (&& Shaped(sha, limits, extUsed + extSeen, path, d)
       && (path == GROUP_PATH && d.Json? ==> forall k :: k in d.members ==> k in members))
    }

    /** `entryWriter.Close`. */
    method Finish(path: string, mediaType: string, d: Data)
      requires open == Some(path)
      modifies this`open, this`context, this`entries, this`files
      ensures open.None? && context.None? && files == old(files)[path := d]
      ensures entries == old(entries) + [Entry(path, Size(d), sha(d), mediaType)]
      ensures old(Good()) && Fits(path, d) && total == TotalSize(old(entries)) + Size(d) ==> Good()
    {
      hide Stored, Shaped, AgentsKept, GroupKept, WorkflowsKept, ExtFilesKnown, TotalSize, Size;
      ghost var good := Good() && Fits(path, d) && total == TotalSize(entries) + Size(d);
      ghost var es, fs := entries, files;
      SizeAppend(entries, Entry(path, Size(d), sha(d), mediaType));
      open, context := None, None;
      entries := entries + [Entry(path, Size(d), sha(d), mediaType)];
      files := files[path := d];
      if good {
        FiledGrows(sha, es, fs, seen, path, d, mediaType);
        GroupGrows(fs, path, d, members, stray);
        AgentsGrow(agents, fs, path, d, natives);
      }
    }

    /** `WriteFile`, as the writer's own calls use it. An entry that does not fit stays open. */
    method Put(path: string, mediaType: string, d: Data) returns (ok: bool)
      modifies this`seen, this`open, this`context, this`extSeen, this`entries, this`files, this`total
      ensures ok == (old(CanCreate(path)) && old(total) + Size(d) <= limits.maxArchive)
      ensures ok ==> open.None? && files == old(files)[path := d] && seen == old(seen) + {path}
      ensures ok ==> entries == old(entries) + [Entry(path, Size(d), sha(d), mediaType)] && total == old(total) + Size(d)
      ensures !ok ==> files == old(files) && entries == old(entries) && total == old(total)
      ensures !ok ==> open == if old(CanCreate(path)) then Some(path) else old(open)
      ensures old(seen) <= seen && extSeen == old(extSeen) + if old(CanCreate(path)) && EXT <= path then {Head(path[|EXT|..])} else {}
      ensures old(Good()) && (ok ==> Fits(path, d)) ==> Good()
    {
      hide Stored, AllShaped, Shaped, AgentsKept, GroupKept, WorkflowsKept, ExtFilesKnown, TotalSize, Size, ValidEntryPath, Reserved, Head;
      ok := Create(path);
      if !ok { return; }
      if total + Size(d) > limits.maxArchive { return false; }
      total := total + Size(d);
      Finish(path, mediaType, d);
    }

    /** A path of the format's own is being written by another call than its own. */
    ghost method Mark(path: string)
      modifies this`stray
      ensures stray == old(stray) + {path}
      ensures old(Good()) ==> Good()
    {
      hide Stored, Shaped, AgentsKept, GroupKept, WorkflowsKept, ExtFilesKnown, TotalSize, Size;
      stray := stray + {path};
    }

    /** `WriteFile`, as other callers use it. */
    method WriteFile(path: string, mediaType: string, d: Data) returns (ok: bool)
      modifies this`seen, this`open, this`context, this`extSeen, this`entries, this`files, this`total, this`stray
      ensures ok == (old(CanCreate(path)) && old(total) + Size(d) <= limits.maxArchive)
      ensures ok ==> files == old(files)[path := d] && entries == old(entries) + [Entry(path, Size(d), sha(d), mediaType)]
      ensures !ok ==> files == old(files) && entries == old(entries)
      ensures stray == old(stray) + if old(CanCreate(path)) && Special(path) then {path} else {}
      ensures old(Good()) ==> Good()
    {
      hide Good, Shaped, Special, Size, ValidEntryPath, Reserved, Head;
      if CanCreate(path) && Special(path) { Mark(path); }
      ok := Put(path, mediaType, d);
      assert !Special(path) ==> Fits(path, d) by { PlainFits(sha, limits, extUsed + extSeen, path, d); }
    }

    /** What `WriteJSON` demands of a document, wherever it goes. */
    predicate Admissible(path: string, d: Data)
      requires d.Json?
    {
      d.bytes <= limits.maxMetadata && (SchemaOf(path) != NoSchema ==> SchemaOf(path) in d.schemas) && d.exts.Some?
    }

    /** `WriteJSON`. The ids a document uses and a group's members are on record even when the write then fails. */
    method WriteJSON(path: string, d: Data) returns (ok: bool)
      requires d.Json?
      modifies this`seen, this`open, this`context, this`extSeen, this`entries, this`files, this`total, this`stray, this`members
      ensures ok == (Admissible(path, d) && old(CanCreate(path)) && old(total) + d.bytes <= limits.maxArchive)
      ensures ok ==> files == old(files)[path := d] && entries == old(entries) + [Entry(path, d.bytes, sha(d), "application/json")]
      ensures ok ==> open.None? && seen == old(seen) + {path} && total == old(total) + d.bytes
      ensures ok ==> extSeen == old(extSeen) + d.exts.value + if EXT <= path then {Head(path[|EXT|..])} else {}
      ensures !ok ==> files == old(files) && entries == old(entries)
      ensures old(seen) <= seen && (path != GROUP_PATH ==> members == old(members))
      ensures stray == old(stray) || (stray == old(stray) + {path} && (IsContext(path) || ATTACHMENTS <= path))
      ensures old(Good()) ==> Good()
    {
      hide Good, Shaped, ValidEntryPath, Reserved, Head, SchemaOf, IsContext;
      if d.bytes > limits.maxMetadata { return false; }
      if SchemaOf(path) != NoSchema && SchemaOf(path) !in d.schemas { return false; }
      if d.exts.None? { return false; }
      NoteExtensions(d.exts.value);
      if path == GROUP_PATH { NoteMembers(d.members); }
      if CanCreate(path) && (IsContext(path) || ATTACHMENTS <= path) { Mark(path); }
      ok := Put(path, "application/json", d);
      assert ok ==> Fits(path, d) by { DocumentFits(sha, limits, extUsed + extSeen, path, d); }
    }

    /** `collectExtensionIDs`. */
    method NoteExtensions(ids: set<string>)
      modifies this`extSeen
      ensures extSeen == old(extSeen) + ids
      ensures old(Good()) ==> Good()
    {
      hide Stored, AgentsKept, GroupKept, WorkflowsKept, TotalSize, ValidEntryPath, Reserved, Head, SchemaOf, IsContext;
      KnownGrows(sha, limits, extUsed + extSeen, extUsed + extSeen + ids, files, stray);
      extSeen := extSeen + ids;
      assert extUsed + extSeen == extUsed + old(extSeen) + ids;
    }

    method NoteMembers(more: seq<string>)
      modifies this`members
      ensures members == old(members) + more
      ensures old(Good()) ==> Good()
    {
      hide Stored, AllShaped, Shaped, AgentsKept, WorkflowsKept, ExtFilesKnown, TotalSize;
      members := members + more;
    }

    /** `AddAttachment`: content is stored once, under its hash. */
    method AddAttachment(d: Data, mediaType: string) returns (r: Option<string>)
      modifies this`seen, this`open, this`context, this`extSeen, this`entries, this`files, this`total
      ensures r.Some? <==> ATTACHMENTS + sha(d) in old(seen) || (old(CanCreate(ATTACHMENTS + sha(d))) && old(total) + Size(d) <= limits.maxArchive)
      ensures r.Some? ==> r.value == sha(d) && ATTACHMENTS + r.value in seen
      ensures ATTACHMENTS + sha(d) in old(seen) ==> files == old(files)
      ensures r.Some? && ATTACHMENTS + sha(d) !in old(seen) ==> files == old(files)[ATTACHMENTS + sha(d) := d]
      ensures old(Good()) ==> Good()
    {
      hide Stored, Shaped, AgentsKept, GroupKept, WorkflowsKept, ExtFilesKnown, TotalSize, Size, ValidEntryPath, Reserved, Head;
      var path := ATTACHMENTS + sha(d);
      if path !in seen {
        var ok := Put(path, mediaType, d);
        assert Fits(path, d) by { AttachmentFits(sha, limits, extUsed + extSeen, d); }
        if !ok { return None; }
      }
      r := Some(sha(d));
    }

    predicate AgentAdmissible(key: string, named: bool, a: Data)
      reads this`agents
    {
      && ValidKey(key) && key !in agents && (kind == KindAgent ==> agents == []) && named
      && (a.Json? && a.native.Some? ==> AgentPath(key, "native/") <= a.native.value)
    }

    predicate AgentFits(key: string, a: Data, env: Data)
      requires a.Json? && env.Json?
      reads this`closed, this`open, this`seen, this`entries, this`total
    {
      var p, q := AgentPath(key, "agent.json"), AgentPath(key, "environment.json");
      && Admissible(p, a) && Admissible(q, env) && CanCreate(p) && CanCreate(q)
      && |entries| + 2 <= limits.maxEntries && total + a.bytes + env.bytes <= limits.maxArchive
    }

    /** `AddAgent`. An agent one of whose two files fails is not added, and its directory then makes `Close` refuse. */
    method AddAgent(key: string, named: bool, a: Data, env: Data) returns (ok: bool)
      requires a.Json? && env.Json?
      modifies this`seen, this`open, this`context, this`extSeen, this`entries, this`files, this`total, this`stray, this`members, this`agents, this`natives
      ensures ok == old(AgentAdmissible(key, named, a) && AgentFits(key, a, env))
      ensures ok ==> agents == old(agents) + [key]
      ensures ok ==> natives == old(natives) + if a.native.Some? then [a.native.value] else []
      ensures ok ==> AgentWritten(key, a, env)
      ensures !ok ==> agents == old(agents) && natives == old(natives)
      ensures stray == old(stray) && members == old(members)
      ensures old(Good()) ==> Good()
    {
      hide Stored, AllShaped, Shaped, AgentsKept, GroupKept, WorkflowsKept, ExtFilesKnown, TotalSize, AgentFits, ValidKey;
      if !AgentAdmissible(key, named, a) { return false; }
      ok := WriteAgentFiles(key, a, env);
      if !ok { return; }
      ghost var was := natives;
      agents := agents + [key];
      if a.native.Some? { natives := natives + [a.native.value]; }
      AgentPathsDiffer(key, "agent.json", "environment.json");
      if AgentsKept(old(agents), files, was) { AgentJoins(old(agents), key, files, was, natives, a); }
    }

    /** Both files of an agent were written, and nothing else. */
    twostate predicate AgentWritten(key: string, a: Data, env: Data)
      requires a.Json? && env.Json?
      reads this
    {
      var p, q := AgentPath(key, "agent.json"), AgentPath(key, "environment.json");
      && files == old(files)[p := a][q := env] && seen == old(seen) + {p, q} && open.None? && total == old(total) + a.bytes + env.bytes
      && |entries| == |old(entries)| + 2
      && a.exts.Some? && env.exts.Some? && extSeen == old(extSeen) + a.exts.value + env.exts.value
    }

    method WriteAgentFiles(key: string, a: Data, env: Data) returns (ok: bool)
      requires ValidKey(key) && a.Json? && env.Json?
      modifies this`seen, this`open, this`context, this`extSeen, this`entries, this`files, this`total, this`stray, this`members
      ensures ok == old(AgentFits(key, a, env))
      ensures ok ==> AgentWritten(key, a, env)
      ensures stray == old(stray) && members == old(members)
      ensures old(Good()) ==> Good()
    {
      hide Good, ValidEntryPath, Reserved, SchemaOf, Head, HasSlash, Tail, AgentOf, AgentFile;
      AgentPathSplits(key, "agent.json");
      AgentPathSplits(key, "environment.json");
      AgentNotAttachment(AgentPath(key, "agent.json"));
      AgentNotAttachment(AgentPath(key, "environment.json"));
      AgentPathsDiffer(key, "agent.json", "environment.json");
      ok := WriteJSON(AgentPath(key, "agent.json"), a);
      if !ok { return; }
      ok := WriteJSON(AgentPath(key, "environment.json"), env);
    }

    /** `DeclareExtension`. */
    method DeclareExtension(id: string, d: Declaration) returns (ok: bool)
      modifies this`extUsed
      ensures ok == (WriterMayUse(id) && d.system != "" && d.spec != "" && ValidVersion(d.version))
      ensures extUsed == old(extUsed) + if ok then {id} else {}
      ensures old(Good()) ==> Good()
    {
      hide Stored, AgentsKept, GroupKept, WorkflowsKept, TotalSize, ValidEntryPath, Reserved, Head, SchemaOf, IsContext, WriterMayUse, ValidVersion;
      if !WriterMayUse(id) { return false; }
      if d.version == "" || d.system == "" || d.spec == "" { assert d.version == "" ==> !ValidVersion(d.version) by { NoVersion(); } return false; }
      if !ValidVersion(d.version) { return false; }
      KnownGrows(sha, limits, extUsed + extSeen, extUsed + {id} + extSeen, files, stray);
      extUsed := extUsed + {id};
      ok := true;
    }

    method SetManifestExtensions(e: Extensions)
      modifies this`manExt
      ensures manExt == e
      ensures old(Good()) ==> Good()
    {
      manExt := e;
    }

    /** `AddWorkflow`: records a workflow whose entries are still to be written. */
    method AddWorkflow(key: string, root: string, needs: seq<string>) returns (ok: bool)
      modifies this`workflows
      ensures ok == (ValidKey(key) && key !in Keys(old(workflows)))
      ensures workflows == old(workflows) + if ok then [WorkflowItem(key, root, needs, "")] else []
      ensures old(Good()) ==> Good()
    {
      hide Stored, AllShaped, Shaped, AgentsKept, GroupKept, ExtFilesKnown, TotalSize, ValidKey;
      if !ValidKey(key) || key in Keys(workflows) { return false; }
      workflows := workflows + [WorkflowItem(key, root, needs, "")];
      ok := true;
    }

    method AddLink(l: Link)
      modifies this`links
      ensures links == old(links) + [l]
      ensures old(Good()) ==> Good()
    {
      links := links + [l];
    }

    predicate LineFits(l: Line)
      reads this`total
    {
      l.bytes <= limits.maxRecord && (l.literal ==> l.exts.Some?) && total + l.bytes <= limits.maxArchive
    }

    /** The ids a byte search finds in a line. */
    function FoundIn(l: Line): set<string> {
      if l.literal && l.exts.Some? then l.exts.value else {}
    }

    /** `extScanWriter.Write` onto the open entry, which then holds `next`: the record limit, the byte search for an
        extension key, and the archive limit. */
    method WriteLine(l: Line, next: Data) returns (ok: bool)
      modifies this`extSeen, this`total, this`context
      ensures ok == old(LineFits(l))
      ensures total == old(total) + if ok then l.bytes else 0
      ensures context == if ok then Some(next) else old(context)
      ensures old(extSeen) <= extSeen && (ok ==> extSeen == old(extSeen) + FoundIn(l))
      ensures old(Good()) && (ok ==> Continues(l, next) && old(Bounds(l, next))) ==> Good()
    {
      hide Filed, Peopled, AllShaped, Shaped, ExtFilesKnown, TotalSize, Size;
      if l.bytes > limits.maxRecord { return false; }
      if l.literal {
        if l.exts.None? { return false; }
        NoteExtensions(l.exts.value);
      }
      if total + l.bytes > limits.maxArchive { return false; }
      total := total + l.bytes;
      context := Some(next);
      ok := true;
    }

    /** `next` may be what the open entry holds. */
    ghost predicate Continues(l: Line, next: Data)
      reads this`open, this`extUsed, this`extSeen
    {
      open.Some? && next.Context? && AGENTS <= open.value && Shaped(sha, limits, extUsed + extSeen, open.value, next)
    }

    /** The bytes so far, with one more line, are those of `next`. */
    ghost predicate Bounds(l: Line, next: Data)
      reads this`total, this`entries
    {
      total + l.bytes == TotalSize(entries) + Size(next)
    }

    /** `CreateContext`: starts a context file with its header line. */
    method CreateContext(key: string, full: bool, header: Line) returns (ok: bool)
      requires header.header
      modifies this`seen, this`open, this`context, this`extSeen, this`total
      ensures ok == old(CanCreate(ContextPath(key, full)) && LineFits(header))
      ensures ok ==> context == Some(Context(full, [header])) && open == Some(ContextPath(key, full)) && seen == old(seen) + {ContextPath(key, full)}
      ensures ok ==> total == old(total) + header.bytes && extSeen == old(extSeen) + FoundIn(header)
      ensures !ok ==> context == old(context)
      ensures old(Good()) ==> Good()
    {
      hide Filed, Formed, Peopled, AllShaped, Shaped, ExtFilesKnown, TotalSize, ValidEntryPath, Reserved, IsContext, Head;
      var path := ContextPath(key, full);
      AgentPathsDiffer(key, ContextFile(full), "");
      assert LineBytes([header]) == header.bytes;
      ok := Create(path);
      if !ok { return; }
      ok := WriteLine(header, Context(full, [header]));
      if ok { ContextFits(sha, limits, extUsed + extSeen, key, full, [header]); }
    }

    /** `ContextWriter.Write`: one more line of the open context, which is no second header; one that is refused leaves the
        context as it was. */
    method AddLine(l: Line) returns (ok: bool)
      modifies this`extSeen, this`total, this`context
      ensures ok == old(context.Some? && context.value.Context? && !l.header && LineFits(l))
      ensures ok ==> context == Some(Context(old(context.value.full), old(context.value.lines) + [l]))
      ensures ok ==> total == old(total) + l.bytes && extSeen == old(extSeen) + FoundIn(l)
      ensures !ok ==> context == old(context)
      ensures old(Good()) ==> Good()
    {
      hide Filed, Peopled, AllShaped, Shaped, ExtFilesKnown, TotalSize;
      if context.None? || !context.value.Context? || l.header { return false; }
      ghost var known, was := extUsed + extSeen, context.value;
      var lines := context.value.lines + [l];
      assert lines[..|lines| - 1] == context.value.lines;
      ok := WriteLine(l, Context(context.value.full, lines));
      if ok && open.Some? { LineShapes(sha, limits, known, extUsed + extSeen, open.value, was, l); }
    }

    method CloseContext()
      modifies this`open, this`context, this`entries, this`files
      ensures old(open.Some? && context.Some?) ==> open.None? && context.None? && files == old(files)[old(open.value) := old(context.value)]
      ensures old(open.None? || context.None?) ==> open == old(open) && context == old(context) && entries == old(entries) && files == old(files)
      ensures old(Good()) ==> Good()
    {
      hide Stored, AllShaped, AgentsKept, GroupKept, WorkflowsKept, ExtFilesKnown, TotalSize;
      if open.Some? && context.Some? {
        Finish(open.value, "application/jsonl", context.value);
      }
    }

    /** The files fit, all of them: in size and number, under valid names that are new and distinct. */
    predicate EmbedFits(key: string, content: seq<File>)
      reads this`closed, this`open, this`seen, this`entries, this`total
    {
      content == [] ||
      (&& !closed && open.None? && |entries| + |content| <= limits.maxEntries && total + TextBytes(content) <= limits.maxArchive
       && NamesFit(seen, key, content))
    }

    /** `pwf.WriteEmbedded`, from the bundle's files on. */
    method WriteEmbedded(key: string, root: string, needs: seq<string>, content: seq<File>) returns (ok: bool)
      modifies this`seen, this`open, this`context, this`extSeen, this`entries, this`files, this`total, this`workflows
      ensures ok == (ValidKey(key) && key !in Keys(old(workflows)) && old(EmbedFits(key, content)))
      ensures ok ==> workflows == old(workflows) + [WorkflowItem(key, root, needs, "")]
      ensures ok ==> extSeen == old(extSeen) && (content != [] ==> open.None?)
      ensures old(Good()) && ok ==> Embedded(old(files), files, key, content)
      ensures old(Good()) ==> Good()
    {
      hide Good, ValidKey, Embedded, NamesFit;
      ok := AddWorkflow(key, root, needs);
      if !ok { return; }
      ok := PutFiles(key, content);
    }

    method PutFiles(key: string, content: seq<File>) returns (ok: bool)
      modifies this`seen, this`open, this`context, this`extSeen, this`entries, this`files, this`total
      ensures ok == old(EmbedFits(key, content))
      ensures ok ==> extSeen == old(extSeen) && (content != [] ==> open.None?)
      ensures old(Good()) && ok ==> Embedded(old(files), files, key, content)
      ensures old(Good()) ==> Good()
    {
      hide Good, Embedded, NamesFit, ValidEntryPath;
      ghost var good := Good();
      ok := true;
      assert content[..0] == [];
      EmbeddedNone(files, seen, key);
      for i := 0 to |content|
        invariant ok && (good ==> Good())
        invariant extSeen == old(extSeen) && closed == old(closed) && (if i == 0 then open == old(open) else open.None?)
        invariant i > 0 ==> old(!closed && open.None?) && |entries| <= limits.maxEntries && total <= limits.maxArchive
        invariant |entries| == |old(entries)| + i && total == old(total) + TextBytes(content[..i])
        invariant seen == old(seen) + Paths(key, content[..i]) && NamesFit(old(seen), key, content[..i])
        invariant good ==> Embedded(old(files), files, key, content[..i])
      {
        if good { FilesAreSeen(); }
        ghost var fs := files;
        TextBytesGrow(content, i);
        NamesFitStep(old(seen), key, content, i);
        ok := PutFile(key, content[i]);
        if !ok { return; }
        if good { EmbeddedStep(old(files), fs, key, content, i); }
      }
      assert content[..|content|] == content;
    }

    /** One file of an embedded workflow. */
    method PutFile(key: string, f: File) returns (ok: bool)
      modifies this`seen, this`open, this`context, this`extSeen, this`entries, this`files, this`total
      ensures ok == old(!closed && open.None? && FileFits(seen, key, f) && |entries| < limits.maxEntries && total + |f.text| <= limits.maxArchive)
      ensures ok ==> open.None? && files == old(files)[WorkflowPath(key, f.name) := Raw(f.text)] && seen == old(seen) + {WorkflowPath(key, f.name)}
      ensures ok ==> |entries| == |old(entries)| + 1 && total == old(total) + |f.text| && extSeen == old(extSeen)
      ensures old(Good()) ==> Good()
    {
      hide Good, ValidEntryPath, Shaped;
      var path := WorkflowPath(key, f.name);
      WorkflowNotSpecial(key, f.name);
      if |f.text| > MAX_WORKFLOW_FILE { return false; }
      ok := Put(path, f.mediaType, Raw(f.text));
      assert Fits(path, Raw(f.text)) by { PlainFits(sha, limits, extUsed + extSeen, path, Raw(f.text)); }
    }

    // ----- closing -----

    /** What the writer leaves to its callers, in the state in which `Close` is called. */
    predicate Duties(sizes: Sizes, keys: seq<string>)
      reads this`files, this`extUsed, this`manExt, this`workflows, this`links, this`agents, this`manifests, this`entries
    {
      && manifests == 0 && manExt.strict && |files| + |keys| <= limits.maxEntries + 64
      && DocumentDuty(files) && ContextDuty(files, extUsed) && EnvelopeDuty(workflows, links, agents, files)
      && NamesDuty(workflows, links) && sizes.container(ManifestNow(), 1, files, keys) <= limits.maxArchive
    }

    predicate Closable()
      reads this`closed, this`open, this`agents, this`seen, this`natives, this`members, this`workflows, this`manExt, this`extSeen, this`extUsed
    {
      && !closed && open.None? && Complete(kind, agents, seen, natives, members, workflows != [])
      && Declared(manExt.ids, extUsed) && extSeen <= extUsed
    }

    function ManifestNow(): Manifest
      reads this`entries, this`agents, this`workflows, this`links, this`extUsed, this`manExt
    {
      var es := Sort(entries);
      Manifest(kind, extUsed, manExt.ids, manExt.strict, agents, FilledWorkflows(h, es, workflows),
        if workflows == [] then [] else FilledLinks(h, es, links), es)
    }

    /**
     `Close`. What it finishes is accepted by the reader exactly when its callers did their part.
     */
    method Close(sizes: Sizes, keys: seq<string>) returns (r: Option<Archive>)
      modifies this`entries, this`workflows, this`links, this`extSeen, this`closed, this`manifests, this`signatures
      ensures r.Some? <==> old(Closable()) && sizes.manifest(old(ManifestNow())) <= limits.maxMetadata && Distinct(keys)
      ensures r.Some? ==> r.value.manifest == old(ManifestNow()) && r.value.files == files && closed
      ensures r.Some? ==> r.value.signatures == old(signatures) + keys && r.value.manifests == old(manifests) + 1
      ensures r.Some? ==> r.value.size == sizes.container(r.value.manifest, r.value.manifests, files, r.value.signatures)
      ensures r.Some? ==> r.value.manifestBytes == sizes.manifest(r.value.manifest)
      ensures r.Some? && old(Good()) && stray == {} && Hashes(sha, h) ==> (Accepted(sha, h, r.value, limits) <==> old(Duties(sizes, keys)))
      ensures r.Some? && old(Good()) && stray == {} && Hashes(sha, h) ==> (old(Duties(sizes, keys)) <==> DutiesMet(limits, r.value))
      ensures old(Good()) ==> Good()
    {
      hide Good, Accepted, Duties, DutiesMet, Complete, ManifestNow, Closable, Declared, Hashes;
      var ready := Check();
      if !ready { return None; }
      r := Conclude(sizes, keys);
    }

    /** The rest of `Close`, behind its checks. */
    method Conclude(sizes: Sizes, keys: seq<string>) returns (r: Option<Archive>)
      requires !closed && open.None? && Complete(kind, agents, seen, natives, members, workflows != [])
      requires Declared(manExt.ids, extUsed) && extSeen <= extUsed
      modifies this`entries, this`workflows, this`links, this`closed, this`manifests, this`signatures
      ensures r.Some? <==> sizes.manifest(old(ManifestNow())) <= limits.maxMetadata && Distinct(keys)
      ensures r.Some? ==> r.value.manifest == old(ManifestNow()) && r.value.files == files && closed
      ensures r.Some? ==> r.value.signatures == old(signatures) + keys && r.value.manifests == old(manifests) + 1
      ensures r.Some? ==> r.value.size == sizes.container(r.value.manifest, r.value.manifests, files, r.value.signatures)
      ensures r.Some? ==> r.value.manifestBytes == sizes.manifest(r.value.manifest)
      ensures r.Some? && old(Good()) && stray == {} && Hashes(sha, h) ==> (Accepted(sha, h, r.value, limits) <==> old(Duties(sizes, keys)))
      ensures r.Some? && old(Good()) && stray == {} && Hashes(sha, h) ==> (old(Duties(sizes, keys)) <==> DutiesMet(limits, r.value))
      ensures old(Good()) ==> Good()
    {
      hide Good, Accepted, DutiesMet, Complete, DocumentDuty, ContextDuty, EnvelopeDuty, NamesDuty, Hashes, Sort, FilledWorkflows, FilledLinks, ExtFilesKnown, AllShaped;
      hide AgentsKept, FewAgents, GroupKept, WorkflowsKept, Stored, TotalSize, Declared;
      ghost var good := Good() && stray == {};
      if good { Kept(); }
      ghost var es, ws, ls := entries, workflows, links;
      assert signatures == [] ==> signatures + keys == keys;
      var m := Seal();
      if sizes.manifest(m) > limits.maxMetadata { return None; }
      var done := Emit(keys);
      if !done { return None; }
      closed := true;
      var a := Archive(m, manifests, sizes.manifest(m), files, signatures, sizes.container(m, manifests, files, signatures));
      r := Some(a);
      if good && Hashes(sha, h) { Agreement(sha, h, limits, es, a, ws, ls, natives, members); }
    }

    method Check() returns (ok: bool)
      modifies this`extSeen
      ensures ok == old(Closable())
      ensures ok ==> Complete(kind, agents, seen, natives, members, workflows != []) && Declared(manExt.ids, extUsed) && extSeen <= extUsed
      ensures ok ==> open.None? && !closed
      ensures old(Good()) ==> Good()
    {
      hide Good, Complete;
      if closed || open.Some? || !Complete(kind, agents, seen, natives, members, workflows != []) { return false; }
      if manExt.ids.None? { return false; }
      NoteExtensions(manExt.ids.value);
      ok := extSeen <= extUsed;
    }

    /** The manifest: entries sorted in place, and every digest filled in. */
    method Seal() returns (m: Manifest)
      modifies this`entries, this`workflows, this`links
      ensures m == old(ManifestNow())
      ensures old(Good()) ==> Good()
    {
      hide Stored, TotalSize, AllShaped, Shaped, AgentsKept, GroupKept, ExtFilesKnown, Sort, WorkflowsKept, FilledWorkflows, FilledLinks;
      if Good() {
        StoredSorted(sha, entries, files, seen, open);
        FilledKept(h, Sort(entries), workflows);
      }
      SortKeepsSize(entries);
      entries := Sort(entries);
      ghost var envelope := workflows != [];
      if workflows != [] {
        FillWorkflows();
        FillLinks();
      }
      m := Manifest(kind, extUsed, manExt.ids, manExt.strict, agents, workflows, if workflows == [] then [] else links, entries);
      assert !envelope ==> FilledWorkflows(h, entries, []) == [] by { NoWorkflows(h, entries); }
    }

    method FillWorkflows()
      modifies this`workflows
      ensures workflows == FilledWorkflows(h, entries, old(workflows)) && |workflows| == |old(workflows)|
    {
      hide SectionText;
      for i := 0 to |workflows|
        invariant |workflows| == |old(workflows)|
        invariant forall k :: 0 <= k < i ==> workflows[k] == FilledWorkflow(h, entries, old(workflows)[k])
        invariant forall k :: i <= k < |workflows| ==> workflows[k] == old(workflows)[k]
      {
        var digest := SectionDigest(h, entries, WorkflowPath(workflows[i].key, ""));
        workflows := workflows[i := workflows[i].(digest := digest)];
      }
    }

    method FillLinks()
      modifies this`links
      ensures links == FilledLinks(h, entries, old(links))
    {
      hide SectionText;
      for i := 0 to |links|
        invariant |links| == |old(links)|
        invariant forall k :: 0 <= k < i ==> links[k] == FilledLink(h, entries, old(links)[k])
        invariant forall k :: i <= k < |links| ==> links[k] == old(links)[k]
      {
        var l := links[i];
        var digest: string;
        if l.kind.Performer? {
          digest := SectionDigest(h, entries, AgentPath(l.agent, ""));
        } else {
          digest := SectionDigest(h, entries, WorkflowPath(l.workflow, ""));
        }
        links := links[i := l.(digest := digest)];
      }
    }

    /** The manifest and the signatures reach the container. */
    method Emit(keys: seq<string>) returns (ok: bool)
      modifies this`signatures, this`manifests
      ensures ok == Distinct(keys) && manifests == old(manifests) + 1
      ensures ok ==> signatures == old(signatures) + keys
      ensures old(Good()) ==> Good()
    {
      hide Filed, Bounded, Formed, Peopled;
      manifests := manifests + 1;
      var ids: set<string> := {};
      for i := 0 to |keys|
        invariant ids == set k | 0 <= k < i :: keys[k]
        invariant Distinct(keys[..i]) && signatures == old(signatures) + keys[..i] && manifests == old(manifests) + 1
      {
        if keys[i] in ids { return false; }
        ids := ids + {keys[i]};
        signatures := signatures + [keys[i]];
      }
      assert keys[..|keys|] == keys;
      ok := true;
    }
  }

  /** One call on a writer. */
  datatype Call =
    | WritesJson(path: string, doc: Data)
    | WritesFile(path: string, mediaType: string, data: Data)
    | Attaches(data: Data, mediaType: string)
    | AddsAgent(key: string, named: bool, agent: Data, env: Data)
    | StartsContext(key: string, full: bool, header: Line)
    | WritesLine(line: Line)
    | EndsContext
    | Embeds(key: string, root: string, needs: seq<string>, content: seq<File>)
    | AddsWorkflow(key: string, root: string, needs: seq<string>)
    | Links(link: Link)
    | Declares(id: string, declaration: Declaration)
    | SetsExtensions(exts: Extensions)

  /** Calls that write a path of the format's own go through the call made for it. */
  predicate Proper(c: Call) {
    match c
    case WritesJson(path, _) => !IsContext(path) && !(ATTACHMENTS <= path)
    case WritesFile(path, _, _) => !Special(path)
    case _ => true
  }

  predicate WellTyped(c: Call) {
    match c
    case WritesJson(_, doc) => doc.Json?
    case AddsAgent(_, _, agent, env) => agent.Json? && env.Json?
    case StartsContext(_, _, header) => header.header
    case _ => true
  }

  /** Workflow sections are written as sections: by `WriteEmbedded`, from a bundle that holds a workflow.json. */
  predicate Sectioned(c: Call) {
    match c
    case WritesJson(path, _) => !(WORKFLOWS <= path)
    case WritesFile(path, _, _) => !(WORKFLOWS <= path)
    case Embeds(_, _, _, content) => exists i :: 0 <= i < |content| && content[i].name == "workflow.json"
    case AddsWorkflow(_, _, _) => false
    case _ => true
  }

  method Perform(w: Writer, c: Call) returns (ok: bool)
    requires WellTyped(c)
    modifies w
    ensures old(w.Good()) ==> w.Good()
    ensures Proper(c) ==> w.stray == old(w.stray)
    ensures old(w.Good()) && old(WorkflowsWritten(w.workflows, w.files)) && ok && Sectioned(c) ==> WorkflowsWritten(w.workflows, w.files)
  {
    hide Writer.Good, Shaped, IsContext, SchemaOf, Size, Reserved, ValidEntryPath, Head, Keys, ValidKey, Embedded, WriterMayUse, ValidVersion, Writer.EmbedFits, Writer.AgentFits;
    ok := true;
    match c
    case WritesJson(path, doc) => ok := w.WriteJSON(path, doc);
    case WritesFile(path, mediaType, data) => ok := w.WriteFile(path, mediaType, data);
    case Attaches(data, mediaType) =>
      var ref := w.AddAttachment(data, mediaType);
      ok := ref.Some?;
      NotAWorkflow(ATTACHMENTS + w.sha(data));
    case AddsAgent(key, named, agent, env) =>
      ok := w.AddAgent(key, named, agent, env);
      NotAWorkflow(AgentPath(key, "agent.json"));
      NotAWorkflow(AgentPath(key, "environment.json"));
    case StartsContext(key, full, header) => ok := w.CreateContext(key, full, header);
    case WritesLine(line) => ok := w.AddLine(line);
    case EndsContext =>
      if w.open.Some? {
        if w.Good() && w.context.Some? { w.ContextIsAgents(); }
        NotAWorkflow(w.open.value);
      }
      w.CloseContext();
    case Embeds(key, root, needs, content) =>
      ghost var ws, fs := w.workflows, w.files;
      ghost var good := w.Good();
      ok := w.WriteEmbedded(key, root, needs, content);
      if ok && good && Sectioned(c) && WorkflowsWritten(ws, fs) { SectionJoins(ws, fs, w.files, key, root, needs, content); }
    case AddsWorkflow(key, root, needs) => ok := w.AddWorkflow(key, root, needs);
    case Links(link) => w.AddLink(link);
    case Declares(id, declaration) => ok := w.DeclareExtension(id, declaration);
    case SetsExtensions(exts) => w.SetManifestExtensions(exts);
  }

  lemma NotAWorkflow(p: string)
    ensures ATTACHMENTS <= p || AGENTS <= p ==> !(WORKFLOWS <= p)
  {
    assert WORKFLOWS[0] == 'w' && ATTACHMENTS[0] == 'a' && AGENTS[0] == 'a';
  }

  lemma SectionJoins(ws: seq<WorkflowItem>, files: map<string, Data>, more: map<string, Data>, key: string, root: string, needs: seq<string>, content: seq<File>)
    requires ValidKey(key) && WorkflowsWritten(ws, files) && Embedded(files, more, key, content)
    requires exists i :: 0 <= i < |content| && content[i].name == "workflow.json"
    ensures WorkflowsWritten(ws + [WorkflowItem(key, root, needs, "")], more)
  {
    hide Head, ValidKey;
    forall p | p in more && p !in files ensures WORKFLOWS <= p && Head(p[|WORKFLOWS|..]) == key {
      var i :| 0 <= i < |content| && p == WorkflowPath(key, content[i].name);
      WorkflowPathSplits(key, content[i].name);
    }
    var item := WorkflowItem(key, root, needs, "");
    assert item in ws + [item];
    assert Keys(ws + [item]) == Keys(ws) + {key};
  }

  /**
   Writer implies reader, over whole runs: whatever calls were made and however many of them failed, an archive that
   `Close` finishes passes every check of the reader exactly when the callers' part is met. Of that part, embedding
   workflows with `WriteEmbedded` alone, without a failure, already meets what concerns the workflow sections.
   */
  method Build(sha: Data -> string, h: string -> string, limits: Limits, kind: Kind, calls: seq<Call>,
               sizes: Sizes, keys: seq<string>) returns (r: Option<Archive>, failed: bool)
    requires Hashes(sha, h) && forall i :: 0 <= i < |calls| ==> WellTyped(calls[i])
    ensures r.Some? && (forall i :: 0 <= i < |calls| ==> Proper(calls[i])) ==>
      (Accepted(sha, h, r.value, limits) <==> DutiesMet(limits, r.value))
    ensures r.Some? && !failed && (forall i :: 0 <= i < |calls| ==> Sectioned(calls[i])) ==>
      WorkflowsWritten(r.value.manifest.workflows, r.value.files)
  {
    hide Writer.Good, Accepted, Writer.Duties, DutiesMet, Proper, Sectioned, Sort, SectionText;
    failed := false;
    var w := new Writer(sha, h, limits, kind);
    for i := 0 to |calls|
      invariant fresh(w) && w.Good()
      invariant (forall k :: 0 <= k < i ==> Proper(calls[k])) ==> w.stray == {}
      invariant !failed && (forall k :: 0 <= k < i ==> Sectioned(calls[k])) ==> WorkflowsWritten(w.workflows, w.files)
    {
      var ok := Perform(w, calls[i]);
      failed := failed || !ok;
    }
    ghost var ws := w.workflows;
    r := w.Close(sizes, keys);
    if r.Some? && WorkflowsWritten(ws, w.files) { WrittenFilled(h, r.value.manifest.entries, ws, w.files); }
  }

  lemma WrittenFilled(h: string -> string, es: seq<Entry>, ws: seq<WorkflowItem>, files: map<string, Data>)
    requires WorkflowsWritten(ws, files)
    ensures WorkflowsWritten(FilledWorkflows(h, es, ws), files)
  {
    hide Head, SectionText;
    var filled := FilledWorkflows(h, es, ws);
    SameKeys(filled, ws);
    forall w | w in filled ensures WorkflowPath(w.key, "workflow.json") in files {
      var i :| 0 <= i < |filled| && filled[i] == w;
      assert ws[i] in ws;
    }
  }

  lemma NoWorkflows(h: string -> string, es: seq<Entry>)
    ensures FilledWorkflows(h, es, []) == []
  {
  }

  lemma StoredSorted(sha: Data -> string, es: seq<Entry>, files: map<string, Data>, seen: set<string>, open: Option<string>)
    requires Stored(sha, es, files, seen, open)
    ensures Stored(sha, Sort(es), files, seen, open)
  {
    hide Sort, Size, ValidEntryPath, Reserved;
    SortKeepsEntries(es);
  }

  lemma FilledKept(h: string -> string, es: seq<Entry>, ws: seq<WorkflowItem>)
    requires WorkflowsKept(ws)
    ensures WorkflowsKept(FilledWorkflows(h, es, ws))
  {
    hide SectionText, ValidKey;
    var filled := FilledWorkflows(h, es, ws);
    forall w | w in filled ensures ValidKey(w.key) {
      var i :| 0 <= i < |filled| && filled[i] == w;
      assert ws[i] in ws;
    }
  }

  predicate Distinct(keys: seq<string>) {
    forall i, j :: 0 <= i < j < |keys| ==> keys[i] != keys[j]
  }

  // ----- the files of an embedded workflow -----

  predicate FileFits(seen: set<string>, key: string, f: File) {
    |f.text| <= MAX_WORKFLOW_FILE && ValidEntryPath(WorkflowPath(key, f.name)) && WorkflowPath(key, f.name) !in seen
  }

  predicate NamesFit(seen: set<string>, key: string, content: seq<File>) {
    && (forall i :: 0 <= i < |content| ==> FileFits(seen, key, content[i]))
    && (forall i, j :: 0 <= i < j < |content| ==> WorkflowPath(key, content[i].name) != WorkflowPath(key, content[j].name))
  }

  function Paths(key: string, content: seq<File>): set<string> {
    set i | 0 <= i < |content| :: WorkflowPath(key, content[i].name)
  }

  /** From `before` to `after`, exactly these files were added. */
  predicate Embedded(before: map<string, Data>, after: map<string, Data>, key: string, content: seq<File>) {
    && before.Keys <= after.Keys && (forall p :: p in before ==> after[p] == before[p])
    && (forall i :: 0 <= i < |content| ==> WorkflowPath(key, content[i].name) in after.Keys && after[WorkflowPath(key, content[i].name)] == Raw(content[i].text))
    && (forall p :: p in after && p !in before ==> exists i :: 0 <= i < |content| && p == WorkflowPath(key, content[i].name))
  }

  lemma EmbeddedNone(files: map<string, Data>, seen: set<string>, key: string)
    ensures Embedded(files, files, key, []) && NamesFit(seen, key, []) && Paths(key, []) == {}
  {
  }

  lemma NamesFitStep(seen: set<string>, key: string, content: seq<File>, i: nat)
    requires i < |content| && NamesFit(seen, key, content[..i])
    ensures NamesFit(seen, key, content[..i + 1]) <==> FileFits(seen + Paths(key, content[..i]), key, content[i])
    ensures NamesFit(seen, key, content) ==> FileFits(seen + Paths(key, content[..i]), key, content[i])
    ensures Paths(key, content[..i + 1]) == Paths(key, content[..i]) + {WorkflowPath(key, content[i].name)}
  {
    hide ValidEntryPath, Paths;
    PathsHold(key, content, i);
    var a, b := content[..i], content[..i + 1];
    assert forall k :: 0 <= k < i ==> b[k] == a[k] == content[k];
    assert b[i] == content[i];
  }

  lemma PathsHold(key: string, content: seq<File>, i: nat)
    requires i < |content|
    ensures forall p :: p in Paths(key, content[..i]) <==> exists k :: 0 <= k < i && p == WorkflowPath(key, content[k].name)
    ensures Paths(key, content[..i + 1]) == Paths(key, content[..i]) + {WorkflowPath(key, content[i].name)}
  {
    var a, b := content[..i], content[..i + 1];
    assert b[i] == content[i] && forall k :: 0 <= k < i ==> b[k] == a[k] == content[k];
    forall p | p in Paths(key, a) ensures exists k :: 0 <= k < i && p == WorkflowPath(key, content[k].name) {
      var k :| 0 <= k < |a| && p == WorkflowPath(key, a[k].name);
      assert a[k] == content[k];
    }
    forall k | 0 <= k < i ensures WorkflowPath(key, content[k].name) in Paths(key, a) { assert a[k] == content[k]; }
    forall p | p in Paths(key, b) ensures p in Paths(key, a) || p == WorkflowPath(key, content[i].name) {
      var k :| 0 <= k < |b| && p == WorkflowPath(key, b[k].name);
      if k < i { assert a[k] == b[k]; }
    }
    forall p | p in Paths(key, a) ensures p in Paths(key, b) {
      var k :| 0 <= k < |a| && p == WorkflowPath(key, a[k].name);
      assert b[k] == a[k];
    }
  }

  lemma EmbeddedStep(before: map<string, Data>, files: map<string, Data>, key: string, content: seq<File>, i: nat)
    requires i < |content| && Embedded(before, files, key, content[..i]) && WorkflowPath(key, content[i].name) !in files
    ensures Embedded(before, files[WorkflowPath(key, content[i].name) := Raw(content[i].text)], key, content[..i + 1])
  {
    var a, b := content[..i], content[..i + 1];
    assert forall k :: 0 <= k < i ==> b[k] == a[k];
    assert b[i] == content[i];
    var more := files[WorkflowPath(key, content[i].name) := Raw(content[i].text)];
    forall p | p in more && p !in before ensures exists k :: 0 <= k < |b| && p == WorkflowPath(key, b[k].name) {
      if p in files {
        var k :| 0 <= k < |a| && p == WorkflowPath(key, a[k].name);
        assert b[k] == a[k];
      }
    }
  }

  function TextBytes(content: seq<File>): nat {
    if content == [] then 0 else TextBytes(content[..|content| - 1]) + |content[|content| - 1].text|
  }

  lemma {:induction false} TextBytesGrow(content: seq<File>, i: nat)
    requires i < |content|
    ensures TextBytes(content[..i + 1]) == TextBytes(content[..i]) + |content[i].text| && TextBytes(content[..i + 1]) <= TextBytes(content)
    decreases |content| - i
  {
    assert content[..i + 1][..i] == content[..i];
    if i + 1 < |content| { TextBytesGrow(content, i + 1); } else { assert content[..i + 1] == content; }
  }

  lemma WorkflowNotSpecial(k: string, rel: string)
    ensures !Special(WorkflowPath(k, rel)) && !Reserved(WorkflowPath(k, rel)) && !(EXT <= WorkflowPath(k, rel))
  {
    assert MANIFEST_PATH[0] == 'm' && SIGNATURES[0] == 's' && EXT[0] == 'e';
    assert WorkflowPath(k, rel)[0] == 'w' && ATTACHMENTS[0] == 'a' && AGENTS[0] == 'a' && GROUP_PATH[0] == 'g' && PRIVACY_PATH[0] == 'p';
  }

  lemma LineShapes(sha: Data -> string, lim: Limits, known: set<string>, more: set<string>, p: string, d: Data, l: Line)
    requires d.Context? && known <= more && !l.header && l.bytes <= lim.maxRecord && (l.literal ==> Declared(l.exts, more))
    ensures AGENTS <= p && Shaped(sha, lim, known, p, d) ==> Shaped(sha, lim, more, p, Context(d.full, d.lines + [l]))
  {
    hide SchemaOf, IsContext, AgentFile;
    AgentNotAttachment(p);
  }

  /** A context lands where the reader looks for one of its scope, whatever the key. */
  lemma ContextFits(sha: Data -> string, lim: Limits, known: set<string>, key: string, full: bool, lines: seq<Line>)
    requires Headed(lines) && forall l :: l in lines ==> l.bytes <= lim.maxRecord && (l.literal ==> Declared(l.exts, known))
    ensures Shaped(sha, lim, known, ContextPath(key, full), Context(full, lines))
  {
    hide AgentOf, AgentFile, ValidKey;
    AgentNotAttachment(ContextPath(key, full));
    assert ContextPath(key, full)[0] == 'a' && PRIVACY_PATH[0] == 'p' && GROUP_PATH[0] == 'g';
    ContextName(key, full);
  }

  function ContextFile(full: bool): string {
    if full then "context/full.jsonl" else "context/transcript.jsonl"
  }

  lemma ContextName(key: string, full: bool)
    ensures var file := AgentFile(ContextPath(key, full));
      && file !in {"agent.json", "environment.json", "context/losses.json"}
      && (file in {"context/full.jsonl", "context/transcript.jsonl"} ==> file == ContextFile(full))
  {
    hide Head, HasSlash, Tail;
    var p, rel := ContextPath(key, full), ContextFile(full);
    assert p[|AGENTS|..] == key + "/" + rel;
    if '/' !in key {
      HeadOf(key, rel);
      assert rel[|rel| - 1] == 'l';
    } else {
      TailKeepsEnd(key, rel);
      SameEnd(Tail(key + "/" + rel), full);
    }
  }

  lemma SameEnd(t: string, full: bool)
    requires var rel := ContextFile(full); |t| > |rel| && t[|t| - |rel|..] == rel
    ensures t !in {"agent.json", "environment.json", "context/losses.json", "context/full.jsonl", "context/transcript.jsonl"}
  {
    var rel := ContextFile(full);
    var end := t[|t| - |rel|..];
    assert end[|rel| - 1] == 'l' && end[|rel| - 7] == if full then 'l' else 't';
    assert t[|t| - 1] == end[|rel| - 1] && t[|t| - 7] == end[|rel| - 7];
  }

  lemma TailKeepsEnd(key: string, rel: string)
    requires '/' in key
    ensures var t := Tail(key + "/" + rel);
      |t| > |rel| && t[|t| - |rel|..] == rel
  {
    var s := key + "/" + rel;
    var i :| 0 <= i < |key| && key[i] == '/';
    assert s[i] == '/' && |Head(s)| <= i;
    assert Tail(s) == s[|Head(s)| + 1..];
  }

  function ContextPath(key: string, full: bool): string {
    AgentPath(key, ContextFile(full))
  }

  lemma AgentNotAttachment(p: string)
    ensures AGENTS <= p ==> !(ATTACHMENTS <= p)
  {
    assert AGENTS[1] == 'g' && ATTACHMENTS[1] == 't';
  }

  lemma AgentPathsDiffer(k: string, rel: string, other: string)
    requires rel != other
    ensures AgentPath(k, rel) != AgentPath(k, other) && AgentPath(k, rel) != GROUP_PATH && AgentPath(k, other) != GROUP_PATH
    ensures !(EXT <= AgentPath(k, rel)) && !(EXT <= AgentPath(k, other))
  {
    var n := |AGENTS + k + "/"|;
    assert AgentPath(k, rel)[n..] == rel && AgentPath(k, other)[n..] == other;
    assert AGENTS[0] == 'a' && GROUP_PATH[0] == 'g' && EXT[0] == 'e';
  }

  lemma AgentJoins(agents: seq<string>, key: string, files: map<string, Data>, was: seq<string>, natives: seq<string>, a: Data)
    requires AgentsKept(agents, files, was) && key !in agents && ValidKey(key)
    requires AgentPath(key, "agent.json") in files && files[AgentPath(key, "agent.json")] == a && AgentPath(key, "environment.json") in files
    requires was <= natives
    requires a.Json? && a.native.Some? ==> AgentPath(key, "native/") <= a.native.value && a.native.value in natives
    ensures AgentsKept(agents + [key], files, natives)
  {
    forall k | k in agents ensures AgentKept(k, files, natives) {
      assert AgentKept(k, files, was);
    }
  }

  lemma DocumentFits(sha: Data -> string, lim: Limits, known: set<string>, path: string, d: Data)
    requires d.Json? && d.bytes <= lim.maxMetadata && (SchemaOf(path) != NoSchema ==> SchemaOf(path) in d.schemas)
    requires Declared(d.exts, known)
    ensures !IsContext(path) && !(ATTACHMENTS <= path) ==> Shaped(sha, lim, known, path, d)
  {
  }

  lemma AttachmentFits(sha: Data -> string, lim: Limits, known: set<string>, d: Data)
    ensures Shaped(sha, lim, known, ATTACHMENTS + sha(d), d) && ATTACHMENTS + sha(d) != GROUP_PATH
  {
    var p := ATTACHMENTS + sha(d);
    assert p[0] == 'a' && p[1] == 't' && AGENTS[1] == 'g' && PRIVACY_PATH[0] == 'p' && GROUP_PATH[0] == 'g';
  }

  lemma PlainFits(sha: Data -> string, lim: Limits, known: set<string>, path: string, d: Data)
    ensures !Special(path) ==> Shaped(sha, lim, known, path, d) && path != GROUP_PATH
  {
  }

  /** A new file keeps the listing. */
  lemma FiledGrows(sha: Data -> string, es: seq<Entry>, files: map<string, Data>, seen: set<string>, path: string, d: Data, mediaType: string)
    requires Stored(sha, es, files, seen, Some(path))
    ensures path !in files && Stored(sha, es + [Entry(path, Size(d), sha(d), mediaType)], files[path := d], seen, None)
  {
    hide ValidEntryPath, Size;
    var e := Entry(path, Size(d), sha(d), mediaType);
    var more := files[path := d];
    forall p | p in more ensures exists x :: x in es + [e] && x.path == p {
      if p == path { assert e in es + [e]; }
    }
  }

  lemma GroupGrows(files: map<string, Data>, path: string, d: Data, members: seq<string>, stray: set<string>)
    requires path in stray || (path == GROUP_PATH && d.Json? ==> forall k :: k in d.members ==> k in members)
    requires GROUP_PATH !in stray ==> GroupKept(files, members)
    ensures GROUP_PATH !in stray ==> GroupKept(files[path := d], members)
  {
  }

  lemma AgentsGrow(agents: seq<string>, files: map<string, Data>, path: string, d: Data, natives: seq<string>)
    requires path !in files && AgentsKept(agents, files, natives)
    ensures AgentsKept(agents, files[path := d], natives)
  {
    forall k | k in agents ensures AgentKept(k, files[path := d], natives) {
      assert AgentKept(k, files, natives);
    }
  }

  /** Shapes are kept when more extensions become known. */
  lemma KnownGrows(sha: Data -> string, lim: Limits, known: set<string>, more: set<string>, files: map<string, Data>, stray: set<string>)
    requires known <= more
    ensures AllShaped(sha, lim, known, files, stray) ==> AllShaped(sha, lim, more, files, stray)
  {
    forall p | AllShaped(sha, lim, known, files, stray) && p in files && p !in stray ensures Shaped(sha, lim, more, p, files[p]) {
      ShapeGrows(sha, lim, known, more, p, files[p]);
    }
  }

  lemma ShapeGrows(sha: Data -> string, lim: Limits, known: set<string>, more: set<string>, p: string, d: Data)
    requires known <= more && Shaped(sha, lim, known, p, d)
    ensures Shaped(sha, lim, more, p, d)
  {
  }
}
