/** An archive the writer finishes and no reader opens: an undeclared extension behind an escaped key. */
module PafHidden {
  import opened Basics
  import opened PafDigest
  import opened PafArchive
  import opened PafAgreement
  import opened PafWriter
  import opened PafRewrite

  const AGENT := Json(1, {AgentSchema}, true, Some({}), [], None)
  const ENVIRONMENT := Json(1, {EnvironmentSchema}, true, Some({}), [], None)
  const LOSSES := Json(1, {LossesSchema}, true, Some({}), [], None)
  const HEADER := Line(true, true, 1, false, Some({}), [])
  const ID := "org.example"

  /** A line whose "extensions" key is not spelled out. */
  const HIDDEN := Line(false, true, 1, false, Some({ID}), [])

  predicate Segment(s: string) {
    s != [] && s != "." && s != ".." && forall c :: c in s ==> NameChar(c)
  }

  lemma SegmentsJoin(seg: string, rest: string)
    requires Segment(seg) && ValidSegments(rest)
    ensures ValidSegments(seg + "/" + rest)
  {
    assert '/' !in seg;
    HeadOf(seg, rest);
  }

  lemma OneSegment(s: string)
    requires Segment(s)
    ensures ValidSegments(s)
  {
    NoSlash(s);
  }

  lemma AgentPathValid(k: string, rel: string)
    requires ValidKey(k) && ValidSegments(rel) && |rel| <= 100
    ensures ValidEntryPath(AgentPath(k, rel)) && !Reserved(AgentPath(k, rel))
  {
    hide ValidSegments, Reserved;
    assert k[0] in k && k[0] != '.' && forall c :: c in k ==> NameChar(c);
    SegmentsJoin(k, rel);
    SegmentsJoin("agents", k + "/" + rel);
    assert AgentPath(k, rel) == "agents" + "/" + (k + "/" + rel);
    AgentPathFree(k, rel);
  }

  lemma AgentPathFree(k: string, rel: string)
    ensures !Reserved(AgentPath(k, rel))
  {
    assert AgentPath(k, rel)[0] == 'a' && MANIFEST_PATH[0] == 'm' && SIGNATURES[0] == 's';
  }

  lemma KeyA()
    ensures ValidKey("a")
  {
  }

  /** The four files of the archive. */
  predicate Used(rel: string) {
    rel == "agent.json" || rel == "environment.json" || rel == "context/losses.json" || rel == "context/transcript.jsonl"
  }

  lemma UsedSegments(rel: string)
    requires Used(rel)
    ensures ValidSegments(rel) && |rel| <= 100
  {
    hide ValidSegments;
    if rel == "agent.json" {
      AgentSegments();
    } else if rel == "environment.json" {
      EnvironmentSegments();
    } else if rel == "context/losses.json" {
      LossesSegments();
    } else {
      TranscriptSegments();
    }
  }

  lemma AgentSegments()
    ensures ValidSegments("agent.json")
  {
    hide ValidSegments;
    OneSegment("agent.json");
  }

  lemma EnvironmentSegments()
    ensures ValidSegments("environment.json")
  {
    hide ValidSegments;
    OneSegment("environment.json");
  }

  lemma LossesSegments()
    ensures ValidSegments("context/losses.json")
  {
    hide ValidSegments;
    OneSegment("losses.json");
    SegmentsJoin("context", "losses.json");
    assert "context/losses.json" == "context" + "/" + "losses.json";
  }

  lemma TranscriptSegments()
    ensures ValidSegments("context/transcript.jsonl")
  {
    hide ValidSegments;
    OneSegment("transcript.jsonl");
    SegmentsJoin("context", "transcript.jsonl");
    assert "context/transcript.jsonl" == "context" + "/" + "transcript.jsonl";
  }

  function P(rel: string): string { AgentPath("a", rel) }

  lemma Name(rel: string)
    requires Used(rel)
    ensures ValidEntryPath(P(rel)) && !Reserved(P(rel)) && AgentOf(P(rel)) == Some("a") && AgentFile(P(rel)) == rel
    ensures P(rel) != GROUP_PATH && P(rel) != PRIVACY_PATH && !(EXT <= P(rel)) && !(ATTACHMENTS <= P(rel))
  {
    hide ValidSegments, ValidEntryPath, AgentOf, AgentFile, Reserved, Used;
    KeyA();
    UsedSegments(rel);
    AgentPathValid("a", rel);
    AgentPathSplits("a", rel);
    AgentPathsDiffer("a", rel, rel + "x");
    AgentNotAttachment(P(rel));
    assert P(rel)[0] == 'a' && PRIVACY_PATH[0] == 'p';
  }

  lemma Schemas()
    ensures SchemaOf(P("agent.json")) == AgentSchema && SchemaOf(P("environment.json")) == EnvironmentSchema
    ensures SchemaOf(P("context/losses.json")) == LossesSchema && IsContext(P("context/transcript.jsonl"))
  {
    hide AgentOf, AgentFile, ValidEntryPath, ValidSegments;
    KeyA();
    Name("agent.json");
    Name("environment.json");
    Name("context/losses.json");
    Name("context/transcript.jsonl");
    Apart();
  }

  lemma Apart()
    ensures "agent.json" != "environment.json" && |"environment.json"| != |"context/losses.json"| && |"agent.json"| != |"context/losses.json"|
  {
  }

  lemma Different(a: string, b: string)
    requires a != b
    ensures P(a) != P(b)
  {
    AgentPathsDiffer("a", a, b);
  }

  /** The agent, its two files and its losses. */
  method Start(sha: Data -> string, h: string -> string, limits: Limits) returns (w: Writer)
    requires limits.maxEntries >= 4 && limits.maxArchive >= 5 && limits.maxMetadata >= 1 && limits.maxRecord >= 1
    ensures fresh(w) && w.Good() && w.stray == {} && w.limits == limits && w.sha == sha && w.h == h && w.kind == KindAgent
    ensures !w.closed && w.open.None? && w.agents == ["a"] && w.natives == [] && w.members == [] && w.workflows == []
    ensures w.seen == {P("agent.json"), P("environment.json"), P("context/losses.json")} && |w.entries| == 3 && w.total == 3
    ensures w.extSeen == {} && w.extUsed == {} && w.manExt == Extensions(Some({}), true)
  {
    hide Writer.Good, P;
    w := new Writer(sha, h, limits, KindAgent);
    AddA(w);
    WriteLosses(w);
  }

  method AddA(w: Writer)
    requires w.Good() && !w.closed && w.open.None? && w.entries == [] && w.total == 0 && w.seen == {} && w.agents == [] && w.natives == [] && w.extSeen == {}
    requires w.limits.maxEntries >= 4 && w.limits.maxArchive >= 5 && w.limits.maxMetadata >= 1
    modifies w`seen, w`open, w`context, w`extSeen, w`entries, w`files, w`total, w`stray, w`members, w`agents, w`natives
    ensures w.Good() && w.stray == old(w.stray) && w.members == old(w.members) && w.open.None? && w.agents == ["a"] && w.natives == [] && w.extSeen == {}
    ensures w.seen == {P("agent.json"), P("environment.json")} && |w.entries| == 2 && w.total == 2
  {
    hide Writer.Good, ValidEntryPath, SchemaOf, Reserved, AgentOf, AgentFile, ValidKey, IsContext, AgentPath;
    KeyA();
    Name("agent.json");
    Name("environment.json");
    Schemas();
    Different("agent.json", "environment.json");
    var ok := w.AddAgent("a", true, AGENT, ENVIRONMENT);
    assert ok;
  }

  method WriteLosses(w: Writer)
    requires w.Good() && !w.closed && w.open.None? && |w.entries| < w.limits.maxEntries && w.total + 1 <= w.limits.maxArchive && w.limits.maxMetadata >= 1
    requires w.seen == {P("agent.json"), P("environment.json")}
    modifies w`seen, w`open, w`context, w`extSeen, w`entries, w`files, w`total, w`stray, w`members
    ensures w.Good() && w.stray == old(w.stray) && w.members == old(w.members) && w.open.None? && w.extSeen == old(w.extSeen)
    ensures w.seen == old(w.seen) + {P("context/losses.json")} && |w.entries| == |old(w.entries)| + 1 && w.total == old(w.total) + 1
  {
    hide Writer.Good, ValidEntryPath, SchemaOf, Reserved, AgentOf, AgentFile, IsContext, P;
    Name("context/losses.json");
    Schemas();
    NoContextThere();
    Different("agent.json", "context/losses.json");
    Different("environment.json", "context/losses.json");
    assert w.Admissible(P("context/losses.json"), LOSSES);
    var ok := w.WriteJSON(P("context/losses.json"), LOSSES);
    assert ok;
  }

  lemma NoContextThere()
    ensures !IsContext(P("context/losses.json"))
  {
    hide AgentOf, AgentFile, ValidEntryPath, ValidSegments, P;
    Name("context/losses.json");
  }

  /** The context, with the line that hides its extension. */
  method WriteContext(w: Writer)
    requires w.Good() && !w.closed && w.open.None? && |w.entries| < w.limits.maxEntries && w.total + 2 <= w.limits.maxArchive && w.limits.maxRecord >= 1
    requires w.seen == {P("agent.json"), P("environment.json"), P("context/losses.json")}
    modifies w`seen, w`open, w`context, w`extSeen, w`entries, w`files, w`total
    ensures w.Good() && w.open.None? && w.extSeen == old(w.extSeen) && w.seen == old(w.seen) + {P("context/transcript.jsonl")}
    ensures P("context/transcript.jsonl") in w.files && w.files[P("context/transcript.jsonl")] == Context(false, [HEADER, HIDDEN])
  {
    hide Writer.Good, ValidEntryPath, Reserved, AgentOf, AgentFile, P;
    Spelled();
    Name("context/transcript.jsonl");
    Different("agent.json", "context/transcript.jsonl");
    Different("environment.json", "context/transcript.jsonl");
    Different("context/losses.json", "context/transcript.jsonl");
    var ok := w.CreateContext("a", false, HEADER);
    assert ok;
    ok := w.AddLine(HIDDEN);
    assert ok;
    assert [HEADER] + [HIDDEN] == [HEADER, HIDDEN];
    w.CloseContext();
  }

  /** The writer finishes the archive: every one of its checks passes. No reader opens it. */
  method FinishHidden(sha: Data -> string, h: string -> string, limits: Limits, sizes: Sizes) returns (r: Option<Archive>)
    requires limits.maxEntries >= 4 && limits.maxArchive >= 5 && limits.maxMetadata >= 1 && limits.maxRecord >= 1
    requires forall m :: sizes.manifest(m) <= limits.maxMetadata
    ensures r.Some? && !Accepted(sha, h, r.value, limits)
  {
    hide Writer.Good, Accepted, SchemaOf, AgentOf, AgentFile, IsContext, P, Complete, Hashes, Writer.Duties, DutiesMet, Sort;
    var w := Start(sha, h, limits);
    WriteContext(w);
    Complete4(w.seen);
    Schemas();
    r := w.Close(sizes, []);
    assert r.Some?;
    assert HIDDEN in [HEADER, HIDDEN];
    HiddenExtensionRefused(sha, h, limits, r.value, P("context/transcript.jsonl"), HIDDEN, ID);
  }

  lemma Spelled()
    ensures P("context/transcript.jsonl") == ContextPath("a", false)
  {
  }

  lemma Complete4(seen: set<string>)
    requires seen == {P("agent.json"), P("environment.json"), P("context/losses.json"), P("context/transcript.jsonl")}
    ensures Complete(KindAgent, ["a"], seen, [], [], false)
  {
    hide ValidEntryPath, SchemaOf, Reserved, AgentOf, AgentFile, IsContext;
    Name("agent.json");
    Name("environment.json");
    Name("context/losses.json");
    Name("context/transcript.jsonl");
  }
}
