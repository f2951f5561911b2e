/** The names an archive may use, said of their characters and segments. */
module PafNames {
  import opened Basics
  import opened PafDigest
  import opened PafArchive
  import opened PafAgreement
  import opened PafWriter

  // ----- keys -----

  /** Keys: up to 64 lower-case letters, digits and hyphens, by character code. */
  lemma KeysExactly(k: string)
    ensures ValidKey(k) <==>
      1 <= |k| <= 64 && forall i :: 0 <= i < |k| ==> 97 <= k[i] as int <= 122 || 48 <= k[i] as int <= 57 || k[i] as int == 45
  {
    if ValidKey(k) {
      forall i | 0 <= i < |k| ensures 97 <= k[i] as int <= 122 || 48 <= k[i] as int <= 57 || k[i] as int == 45 { assert k[i] in k; }
    }
  }

  // ----- entry paths -----

  /** `s[i..j]` is what stands between two separators, or between one and an end. */
  predicate Segment(s: string, i: nat, j: nat) {
    && i <= j <= |s| && '/' !in s[i..j]
    && (i == 0 || s[i - 1] == '/') && (j == |s| || s[j] == '/')
  }

  predicate Plain(seg: string) {
    seg != "" && seg != "." && seg != ".."
    && forall i :: 0 <= i < |seg| ==> 65 <= seg[i] as int <= 90 || 97 <= seg[i] as int <= 122 || 48 <= seg[i] as int <= 57 || seg[i] in {'.', '_', '-'}
  }

  ghost predicate AllPlain(s: string) {
    forall i: nat, j: nat :: i <= j <= |s| && Segment(s, i, j) ==> Plain(s[i..j])
  }

  lemma FirstSegment(s: string)
    ensures Segment(s, 0, |Head(s)|) && s[0..|Head(s)|] == Head(s)
  {
  }

  /** Behind a separator, segments are those of the rest. */
  lemma LaterSegment(s: string, n: nat, i: nat, j: nat)
    requires 0 < n <= |s| && s[n - 1] == '/'
    ensures n <= i <= j ==> (Segment(s, i, j) <==> Segment(s[n..], i - n, j - n))
    ensures n <= i <= j <= |s| ==> s[i..j] == s[n..][i - n..j - n]
  {
    if n <= i <= j <= |s| {
      var rest := s[n..];
      assert rest[i - n..j - n] == s[i..j];
      assert i > n ==> rest[i - n - 1] == s[i - 1];
      assert j < |s| ==> rest[j - n] == s[j];
    }
  }

  /** A segment starts the string, or behind the first separator. */
  lemma SegmentPlace(s: string, i: nat, j: nat)
    requires Segment(s, i, j)
    ensures (i == 0 && j == |Head(s)|) || (HasSlash(s) && i > |Head(s)|)
  {
  }

  lemma PlainExactly(seg: string)
    ensures Plain(seg) <==> seg != [] && seg != "." && seg != ".." && forall c :: c in seg ==> NameChar(c)
  {
    if Plain(seg) {
      forall c | c in seg ensures NameChar(c) { var i :| 0 <= i < |seg| && seg[i] == c; }
    } else if seg != [] && seg != "." && seg != ".." && forall c :: c in seg ==> NameChar(c) {
      forall i | 0 <= i < |seg| ensures NameChar(seg[i]) { assert seg[i] in seg; }
    }
  }

  /** Valid segments are exactly those of which every one is plain: nothing is empty, and nothing leads out of the archive. */
  lemma {:induction false} SegmentsExactly(s: string)
    ensures ValidSegments(s) <==> AllPlain(s)
    decreases |s|
  {
    hide Plain, Segment, Head;
    FirstSegment(s);
    PlainExactly(Head(s));
    if HasSlash(s) {
      var n := |Head(s)| + 1;
      SegmentsExactly(Tail(s));
      if AllPlain(s) {
        forall i: nat, j: nat | i <= j <= |Tail(s)| && Segment(Tail(s), i, j) ensures Plain(Tail(s)[i..j]) {
          LaterSegment(s, n, i + n, j + n);
        }
      }
      if Plain(Head(s)) && AllPlain(Tail(s)) {
        forall i: nat, j: nat | i <= j <= |s| && Segment(s, i, j) ensures Plain(s[i..j]) {
          SegmentPlace(s, i, j);
          if i > |Head(s)| { LaterSegment(s, n, i, j); }
        }
      }
    } else if Plain(Head(s)) {
      forall i: nat, j: nat | i <= j <= |s| && Segment(s, i, j) ensures Plain(s[i..j]) {
        SegmentPlace(s, i, j);
      }
    }
  }

  /** Entry paths: up to 255 characters in plain segments. */
  lemma PathsExactly(s: string)
    ensures ValidEntryPath(s) <==> 0 < |s| <= 255 && AllPlain(s)
  {
    SegmentsExactly(s);
  }

  // ----- names with a meaning -----

  lemma ReservedExactly(p: string)
    ensures Reserved(p) <==> p == "manifest.json" || "signatures/" <= p
  {
  }

  /** Where the reader looks for the documents and contexts of an agent. */
  lemma AgentFiles(key: string)
    requires ValidKey(key)
    ensures forall rel :: AgentPath(key, rel) == "agents/" + key + "/" + rel
    ensures SchemaOf(AgentPath(key, "agent.json")) == AgentSchema && SchemaOf(AgentPath(key, "environment.json")) == EnvironmentSchema
    ensures SchemaOf(AgentPath(key, "context/losses.json")) == LossesSchema
    ensures IsContext(AgentPath(key, "context/transcript.jsonl")) && IsContext(AgentPath(key, "context/full.jsonl"))
  {
    AgentPathSplits(key, "agent.json");
    AgentPathSplits(key, "environment.json");
    AgentPathSplits(key, "context/losses.json");
    AgentPathSplits(key, "context/transcript.jsonl");
    AgentPathSplits(key, "context/full.jsonl");
    hide AgentOf, AgentFile, ValidKey;
    OtherFiles(key);
  }

  /** None of these is shared by all agents. */
  lemma OtherFiles(key: string)
    ensures forall rel :: AgentPath(key, rel) != PRIVACY_PATH && AgentPath(key, rel) != GROUP_PATH
  {
    assert AGENTS[0] == 'a' && PRIVACY_PATH[0] == 'p' && GROUP_PATH[0] == 'g';
    forall rel ensures AgentPath(key, rel) != PRIVACY_PATH && AgentPath(key, rel) != GROUP_PATH { assert AgentPath(key, rel)[0] == 'a'; }
  }

  lemma SharedFiles()
    ensures SchemaOf("privacy.json") == PrivacySchema && SchemaOf("group.json") == GroupSchema
  {
  }

  // ----- extension ids -----

  /** Lower-case letters, digits, hyphens and dots; a dot is neither first nor last, and a label starts with a letter or digit. */
  ghost predicate Dotted(id: string, inside: bool) {
    && (forall i :: 0 <= i < |id| ==> LabelChar(id[i]) || id[i] == '-' || id[i] == '.')
    && (if id == [] then inside else inside || LabelChar(id[0]))
    && (forall i :: 0 <= i < |id| && id[i] == '.' ==> i + 1 < |id| && LabelChar(id[i + 1]))
  }

  lemma {:induction false} LabelsExactly(id: string, inside: bool)
    ensures Labels(id, inside) <==> Dotted(id, inside)
  {
    if id != [] {
      var rest := id[1..];
      LabelsExactly(rest, id[0] != '.');
      assert forall i :: 0 <= i < |rest| ==> rest[i] == id[i + 1];
      if Dotted(rest, id[0] != '.') && Labels(id, inside) {
        forall i | 0 <= i < |id| ensures LabelChar(id[i]) || id[i] == '-' || id[i] == '.' { assert i > 0 ==> rest[i - 1] == id[i]; }
        forall i | 0 <= i < |id| && id[i] == '.' ensures i + 1 < |id| && LabelChar(id[i + 1]) { assert i > 0 ==> rest[i - 1] == id[i]; }
      }
    }
  }

  /** The ids a writer may declare: dotted ones of up to 128 characters, and the documented one. */
  lemma IdsExactly(id: string)
    ensures WriterMayUse(id) <==> 0 < |id| <= 128 && Dotted(id, false) && ('.' in id || id == "tclaude")
    ensures WriterMayUse("tclaude")
  {
    LabelsExactly(id, false);
    LabelsExactly("tclaude", false);
  }
}
