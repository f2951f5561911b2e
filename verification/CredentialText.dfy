/** The text a credential backup is stored as, and the size rules it is read back under. */
module CredentialText {
  import opened Basics

  const MAX_BYTES := 18 * 1024
  const MAX_BACKUP := 64 * 1024

  /** One credential file as a backup remembers it. */
  datatype SavedFile = SavedFile(name: string, exists_: bool, data: Bytes)

  datatype Backup = Backup(createdAt: string, harness: string, files: seq<SavedFile>)

  /** The credential files of a harness (`location`), or none when it has no file credentials. */
  function Names(harness: string): seq<string> {
    if harness == "claude" then [".credentials.json"]
    else if harness == "codex" || harness == "opencode" || harness == "pi" then ["auth.json"]
    else if harness == "gemini" then ["oauth_creds.json", "google_accounts.json"]
    else []
  }

  /** Which files hold a harness's credentials; any other harness has none. */
  lemma NamesTable(harness: string)
    ensures Names("claude") == [".credentials.json"] && Names("codex") == Names("opencode") == Names("pi") == ["auth.json"]
    ensures Names("gemini") == ["oauth_creds.json", "google_accounts.json"]
    ensures Names(harness) != [] <==> harness in {"claude", "codex", "opencode", "pi", "gemini"}
  {
    assert "claude"[1] != "codex"[1] && |"opencode"| != |"codex"| && |"pi"| != |"codex"| && "gemini"[0] != "claude"[0] && |"gemini"| != |"codex"|;
  }

  const ALPHABET := "ABCDEFGHIJKLMNOPQRSTUVWXYZabcdefghijklmnopqrstuvwxyz0123456789+/"

  function Digit(v: int): char {
    ALPHABET[v % 64]
  }

  /** One group of up to three bytes. */
  function Group(a: int, b: Option<int>, c: Option<int>): (s: string)
    ensures |s| == 4
  {
    [Digit(a / 4),
     Digit(a * 16 + (if b.Some? then b.value / 16 else 0)),
     if b.Some? then Digit(b.value * 4 + (if c.Some? then c.value / 64 else 0)) else '=',
     if c.Some? then Digit(c.value) else '=']
  }

  function Base64(d: Bytes): string {
    if |d| == 0 then []
    else if |d| == 1 then Group(d[0] as int, None, None)
    else if |d| == 2 then Group(d[0] as int, Some(d[1] as int), None)
    else Group(d[0] as int, Some(d[1] as int), Some(d[2] as int)) + Base64(d[3..])
  }

  lemma {:induction false} Base64Size(d: Bytes)
    ensures |Base64(d)| == 4 * ((|d| + 2) / 3)
  {
    hide Group;
    if |d| > 2 { Base64Size(d[3..]); }
  }

  function FileText(f: SavedFile): string {
    "{\"name\":\"" + f.name + "\",\"exists\":" + (if f.exists_ then "true" else "false")
    + (if f.data == [] then "" else ",\"data\":\"" + Base64(f.data) + "\"") + "}"
  }

  function FilesText(fs: seq<SavedFile>): string {
    if fs == [] then "" else FileText(fs[0]) + (if |fs| == 1 then "" else "," + FilesText(fs[1..]))
  }

  function Encode(b: Backup): string {
    "{\"created_at\":\"" + b.createdAt + "\",\"harness\":\"" + b.harness + "\",\"files\":[" + FilesText(b.files) + "]}"
  }

  predicate DistinctNames(fs: seq<SavedFile>) {
    forall i, j :: 0 <= i < j < |fs| ==> fs[i].name != fs[j].name
  }

  function Total(fs: seq<SavedFile>): nat {
    if fs == [] then 0 else |fs[0].data| + Total(fs[1..])
  }

  /** What `readBackup` demands of the stored text and of what it decodes to. */
  predicate Readable(b: Backup) {
    && |Encode(b)| <= 65536
    && Names(b.harness) != []
    && DistinctNames(b.files)
    && (forall i :: 0 <= i < |b.files| ==> b.files[i].name in Names(b.harness) && (!b.files[i].exists_ ==> b.files[i].data == []))
    && b.files != [] && Total(b.files) <= |Names(b.harness)| * 18432
  }

  /** What the code saves: distinct files of the harness, each within the per-file limit. */
  predicate Saveable(b: Backup) {
    && |b.createdAt| <= 30   // RFC 3339 with nanoseconds, in UTC
    && b.files != [] && DistinctNames(b.files)
    && forall i :: 0 <= i < |b.files| ==>
      && b.files[i].name in Names(b.harness)
      && |b.files[i].data| <= MAX_BYTES
      && (!b.files[i].exists_ ==> b.files[i].data == [])
  }

  /** `readBackup`'s rules, checked one file after the other. */
  method CheckBackup(b: Backup) returns (ok: bool)
    ensures ok == Readable(b)
  {
    if |Encode(b)| > MAX_BACKUP || Names(b.harness) == [] { return false; }
    var seen: set<string> := {};
    var total := 0;
    for i := 0 to |b.files|
      invariant seen == set k | 0 <= k < i :: b.files[k].name
      invariant forall k, l :: 0 <= k < l < i ==> b.files[k].name != b.files[l].name
      invariant forall k :: 0 <= k < i ==> b.files[k].name in Names(b.harness) && (!b.files[k].exists_ ==> b.files[k].data == [])
      invariant total + Total(b.files[i..]) == Total(b.files)
    {
      var f := b.files[i];
      assert b.files[i..][1..] == b.files[i + 1..];
      if f.name !in Names(b.harness) || f.name in seen || (!f.exists_ && |f.data| != 0) { return false; }
      seen := seen + {f.name};
      total := total + |f.data|;
    }
    ok := b.files != [] && total <= |Names(b.harness)| * MAX_BYTES;
  }

  lemma FewFiles(b: Backup)
    requires Saveable(b)
    ensures |b.files| <= |Names(b.harness)| <= 2
    ensures |b.harness| <= 8
  {
    assert b.files[0].name in Names(b.harness);
    Pigeonhole(b.files, Names(b.harness));
  }

  /** Files with distinct names out of a list are no more than the list. */
  lemma {:induction false} Pigeonhole(fs: seq<SavedFile>, names: seq<string>)
    requires DistinctNames(fs) && forall i :: 0 <= i < |fs| ==> fs[i].name in names
    ensures |fs| <= |names|
  {
    if fs != [] {
      var last := |fs| - 1;
      var k :| 0 <= k < |names| && names[k] == fs[last].name;
      var others := names[..k] + names[k + 1..];
      forall i | 0 <= i < last ensures fs[..last][i].name in others {
        var m :| 0 <= m < |names| && names[m] == fs[i].name;
        assert others[if m < k then m else m - 1] == names[m];
      }
      Pigeonhole(fs[..last], others);
    }
  }

  lemma FileTextSize(f: SavedFile, harness: string)
    requires f.name in Names(harness) && |f.data| <= MAX_BYTES
    ensures |FileText(f)| <= 24576 + 80
  {
    hide Base64;
    Base64Size(f.data);
  }

  /** Every backup the code can save is read back: the 64 KiB bound holds with room to spare. */
  lemma SavedIsReadable(b: Backup)
    requires Saveable(b)
    ensures Readable(b)
  {
    hide FileText, Names;
    FewFiles(b);
    FileTextSize(b.files[0], b.harness);
    if |b.files| == 2 { FileTextSize(b.files[1], b.harness); }
    FilesTextSize(b.files);
  }

  lemma FilesTextSize(fs: seq<SavedFile>)
    requires 1 <= |fs| <= 2
    ensures |FilesText(fs)| == |FileText(fs[0])| + if |fs| == 2 then 1 + |FileText(fs[1])| else 0
    ensures Total(fs) == |fs[0].data| + if |fs| == 2 then |fs[1].data| else 0
  {
    hide FileText;
    if |fs| == 2 { assert fs[1..] == [fs[1]]; }
  }
}
