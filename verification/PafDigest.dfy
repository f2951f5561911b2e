/**
 The digests a PAF manifest carries: rows of "<sha256>  <path>\n", sorted by path, without privacy.json.
 File contents and paths are byte strings, written here as `string`.
 */
module PafDigest {
  import opened Basics

  const PRIVACY_PATH := "privacy.json"

  /** One manifest entry. */
  datatype Entry = Entry(path: string, bytes: nat, sha: string, mediaType: string)

  // ----- byte order -----

  predicate Before(a: string, b: string) {
    if b == [] then false
    else if a == [] then true
    else a[0] < b[0] || (a[0] == b[0] && Before(a[1..], b[1..]))
  }

  /** The strings agree up to place `k`, where the first has the smaller byte. */
  predicate SmallerAt(a: string, b: string, k: nat) {
    k < |a| && k < |b| && a[..k] == b[..k] && a[k] as int < b[k] as int
  }

  /** Byte order: a proper prefix comes first, and otherwise the first difference decides. */
  ghost predicate ByteOrder(a: string, b: string) {
    (|a| < |b| && b[..|a|] == a) || exists k: nat :: SmallerAt(a, b, k)
  }

  /** The comparison of strings is byte order. */
  lemma {:induction false} BeforeIsByteOrder(a: string, b: string)
    ensures Before(a, b) <==> ByteOrder(a, b)
  {
    if a != [] && b != [] {
      if a[0] < b[0] { assert SmallerAt(a, b, 0); }
      BeforeIsByteOrder(a[1..], b[1..]);
      if a[0] == b[0] {
        if k: nat :| SmallerAt(a[1..], b[1..], k) {
          assert a[..k + 1] == [a[0]] + a[1..][..k] && b[..k + 1] == [b[0]] + b[1..][..k];
          assert SmallerAt(a, b, k + 1);
        }
        if k: nat :| SmallerAt(a, b, k) {
          assert k > 0 && a[1..][..k - 1] == a[..k][1..] && b[1..][..k - 1] == b[..k][1..];
          assert SmallerAt(a[1..], b[1..], k - 1);
        }
        assert |a| < |b| && b[..|a|] == a ==> b[1..][..|a| - 1] == a[1..];
        assert |a| < |b| && b[1..][..|a| - 1] == a[1..] ==> b[..|a|] == [b[0]] + a[1..] == a;
      }
    }
  }

  lemma {:induction false} BeforeTotal(a: string, b: string)
    ensures a == b || Before(a, b) || Before(b, a)
  {
    if a != [] && b != [] && a[0] == b[0] {
      BeforeTotal(a[1..], b[1..]);
      if a[1..] == b[1..] { assert a == [a[0]] + a[1..] && b == [b[0]] + b[1..]; }
    }
  }

  lemma {:induction false} BeforeStrict(a: string, b: string)
    requires Before(a, b)
    ensures a != b && !Before(b, a)
  {
    if a != [] && a[0] == b[0] { BeforeStrict(a[1..], b[1..]); }
  }

  lemma {:induction false} BeforeTransitive(a: string, b: string, c: string)
    requires Before(a, b) && Before(b, c)
    ensures Before(a, c)
  {
    if a != [] && a[0] == b[0] == c[0] { BeforeTransitive(a[1..], b[1..], c[1..]); }
  }

  // ----- sorting -----

  predicate Ordered(rows: seq<Entry>) {
    forall i, j :: 0 <= i < j < |rows| ==> Before(rows[i].path, rows[j].path)
  }

  predicate DistinctPaths(es: seq<Entry>) {
    forall i, j :: 0 <= i < j < |es| ==> es[i].path != es[j].path
  }

  function Insert(e: Entry, rows: seq<Entry>): seq<Entry> {
    if rows == [] then [e]
    else if Before(rows[0].path, e.path) then [rows[0]] + Insert(e, rows[1..])
    else [e] + rows
  }

  function Sort(es: seq<Entry>): seq<Entry> {
    if es == [] then [] else Insert(es[0], Sort(es[1..]))
  }

  lemma {:induction false} InsertMultiset(e: Entry, rows: seq<Entry>)
    ensures multiset(Insert(e, rows)) == multiset(rows) + multiset{e}
  {
    if rows != [] {
      assert rows == [rows[0]] + rows[1..];
      InsertMultiset(e, rows[1..]);
    }
  }

  lemma {:induction false} InsertOrdered(e: Entry, rows: seq<Entry>)
    requires Ordered(rows) && forall i :: 0 <= i < |rows| ==> rows[i].path != e.path
    ensures Ordered(Insert(e, rows))
  {
    if rows != [] {
      if Before(rows[0].path, e.path) {
        var rest := Insert(e, rows[1..]);
        InsertOrdered(e, rows[1..]);
        InsertMultiset(e, rows[1..]);
        forall i | 0 <= i < |rest| ensures Before(rows[0].path, rest[i].path) {
          assert rest[i] in multiset(rest);
          assert rest[i] == e || rest[i] in rows[1..];
        }
      } else {
        BeforeTotal(e.path, rows[0].path);
        forall i | 0 < i < |rows| ensures Before(e.path, rows[i].path) {
          BeforeTransitive(e.path, rows[0].path, rows[i].path);
        }
      }
    }
  }

  /** The rows of a digest are exactly the entries, in byte order of their paths. */
  lemma SortedByPath(es: seq<Entry>)
    requires DistinctPaths(es)
    ensures multiset(Sort(es)) == multiset(es)
    ensures forall i, j :: 0 <= i < j < |Sort(es)| ==> ByteOrder(Sort(es)[i].path, Sort(es)[j].path)
  {
    hide Before, ByteOrder;
    SortSorts(es);
    var rows := Sort(es);
    forall i, j | 0 <= i < j < |rows| ensures ByteOrder(rows[i].path, rows[j].path) {
      BeforeIsByteOrder(rows[i].path, rows[j].path);
    }
  }

  lemma {:induction false} SortSorts(es: seq<Entry>)
    ensures multiset(Sort(es)) == multiset(es)
    ensures DistinctPaths(es) ==> Ordered(Sort(es))
  {
    if es != [] {
      var rest := Sort(es[1..]);
      SortSorts(es[1..]);
      InsertMultiset(es[0], rest);
      assert es == [es[0]] + es[1..];
      if DistinctPaths(es) {
        forall i | 0 <= i < |rest| ensures rest[i].path != es[0].path {
          assert rest[i] in multiset(rest);
          assert rest[i] in es[1..];
        }
        InsertOrdered(es[0], rest);
      }
    }
  }

  /** Two ordered lists with the same rows are the same list. */
  lemma {:induction false} OrderedUnique(a: seq<Entry>, b: seq<Entry>)
    requires Ordered(a) && Ordered(b)
    requires forall x :: x in a <==> x in b
    ensures a == b
  {
    assert (a == [] || a[0] in a) && (b == [] || b[0] in b);
    if a != [] {
      var i :| 0 <= i < |b| && b[i] == a[0];
      var j :| 0 <= j < |a| && a[j] == b[0];
      if i > 0 && j > 0 { BeforeStrict(a[0].path, a[j].path); }
      assert a[0] == b[0];
      forall x ensures x in a[1..] <==> x in b[1..] {
        if x in a[1..] { RestHasNoHead(a, x); }
        if x in b[1..] { RestHasNoHead(b, x); }
      }
      OrderedUnique(a[1..], b[1..]);
      assert a == [a[0]] + a[1..] && b == [b[0]] + b[1..];
    }
  }

  lemma RestHasNoHead(a: seq<Entry>, x: Entry)
    requires Ordered(a) && a != [] && x in a[1..]
    ensures x != a[0] && x in a
  {
    var k :| 0 <= k < |a[1..]| && a[1..][k] == x;
    assert a[k + 1] == x;
    BeforeStrict(a[0].path, a[k + 1].path);
  }

  // ----- the digest text -----

  function Render(rows: seq<Entry>): string {
    if rows == [] then [] else rows[0].sha + "  " + rows[0].path + "\n" + Render(rows[1..])
  }

  /** What is hashed: every entry except privacy.json. */
  function Content(es: seq<Entry>): seq<Entry> {
    if es == [] then []
    else (if es[0].path == PRIVACY_PATH then [] else [es[0]]) + Content(es[1..])
  }

  function Under(es: seq<Entry>, prefix: string): seq<Entry> {
    if es == [] then []
    else (if prefix <= es[0].path then [es[0]] else []) + Under(es[1..], prefix)
  }

  function ContentText(es: seq<Entry>): string {
    Render(Sort(Content(es)))
  }

  function SectionText(es: seq<Entry>, prefix: string): string {
    ContentText(Under(es, prefix))
  }

  /** These rows are what a digest covers: the entries other than privacy.json, each once, in byte order of their paths. */
  ghost predicate Covers(rows: seq<Entry>, es: seq<Entry>) {
    && (forall e :: e in rows <==> e in es && e.path != "privacy.json")
    && (forall i, j :: 0 <= i < j < |rows| ==> ByteOrder(rows[i].path, rows[j].path))
  }

  lemma RowsCovered(es: seq<Entry>)
    requires DistinctPaths(es)
    ensures Covers(Sort(Content(es)), es)
  {
    hide ByteOrder, Sort, Content;
    ContentKeeps(es);
    SortedByPath(Content(es));
    SameElements(Sort(Content(es)), Content(es));
  }

  lemma SameElements(a: seq<Entry>, b: seq<Entry>)
    requires multiset(a) == multiset(b)
    ensures forall e :: e in a <==> e in b
  {
    forall e ensures e in a <==> e in b {
      assert e in multiset(a) <==> e in multiset(b);
    }
  }

  /** A row of the text: hash, two spaces, path, line feed, between the rows before it and the rows behind it. */
  lemma {:induction false} RowText(rows: seq<Entry>, i: nat)
    requires i < |rows|
    ensures Render(rows) == Render(rows[..i]) + rows[i].sha + [' ', ' '] + rows[i].path + ['\n'] + Render(rows[i + 1..])
  {
    if i > 0 {
      RowText(rows[1..], i - 1);
      assert rows[1..][..i - 1] == rows[..i][1..] && rows[1..][i..] == rows[i + 1..];
    }
  }

  /** `ContentDigest`: filter, sort, write the rows to a buffer, hash. `h` is SHA-256 in hexadecimal. */
  method ContentDigest(h: string -> string, entries: seq<Entry>) returns (digest: string)
    ensures digest == h(ContentText(entries))
    ensures DistinctPaths(entries) ==> exists rows :: Covers(rows, entries) && digest == h(Render(rows))
  {
    var rows: seq<Entry> := [];
    for i := 0 to |entries|
      invariant rows + Content(entries[i..]) == Content(entries)
    {
      if entries[i].path != PRIVACY_PATH { rows := rows + [entries[i]]; }
    }
    assert rows == Content(entries);
    rows := Sort(rows);
    var text := "";
    for i := 0 to |rows|
      invariant text + Render(rows[i..]) == Render(rows)
    {
      text := text + (rows[i].sha + "  " + rows[i].path + "\n");
    }
    assert text == Render(rows);
    digest := h(text);
    if DistinctPaths(entries) { RowsCovered(entries); }
  }

  /** `SectionDigest`. */
  method SectionDigest(h: string -> string, entries: seq<Entry>, prefix: string) returns (digest: string)
    ensures digest == h(SectionText(entries, prefix))
    ensures DistinctPaths(entries) ==> exists part, rows ::
      (forall e :: e in part <==> e in entries && prefix <= e.path) && Covers(rows, part) && digest == h(Render(rows))
  {
    var rows: seq<Entry> := [];
    for i := 0 to |entries|
      invariant rows + Under(entries[i..], prefix) == Under(entries, prefix)
    {
      if prefix <= entries[i].path { rows := rows + [entries[i]]; }
    }
    assert rows == Under(entries, prefix);
    UnderKeeps(entries, prefix);
    digest := ContentDigest(h, rows);
  }

  // ----- canonicity -----

  /** Rows the text can be read back from: a 64-character hash, and a path without line breaks. */
  predicate ValidRow(e: Entry) {
    |e.sha| == 64 && '\n' !in e.path
  }

  predicate ValidRows(es: seq<Entry>) {
    DistinctPaths(es) && forall e :: e in es ==> ValidRow(e)
  }

  /** The paths and hashes a list of entries commits to. */
  ghost function Committed(es: seq<Entry>): set<(string, string)> {
    set e | e in es && e.path != PRIVACY_PATH :: (e.path, e.sha)
  }

  ghost function Pairs(es: seq<Entry>): set<(string, string)> {
    set e | e in es :: (e.path, e.sha)
  }

  lemma {:induction false} LineBreak(p: string, x: string, q: string, y: string)
    requires '\n' !in p && '\n' !in q && p + "\n" + x == q + "\n" + y
    ensures p == q && x == y
  {
    var l, r := p + "\n" + x, q + "\n" + y;
    assert l[0] == (if p == [] then '\n' else p[0]) && r[0] == (if q == [] then '\n' else q[0]);
    if p != [] && q != [] {
      assert l[1..] == p[1..] + "\n" + x && r[1..] == q[1..] + "\n" + y;
      LineBreak(p[1..], x, q[1..], y);
      assert p == [p[0]] + p[1..] && q == [q[0]] + q[1..];
    } else {
      assert l[1..] == x && r[1..] == y;
    }
  }

  predicate SameRows(a: seq<Entry>, b: seq<Entry>) {
    |a| == |b| && forall i :: 0 <= i < |a| ==> a[i].path == b[i].path && a[i].sha == b[i].sha
  }

  lemma SameFields(s: string, x: string, t: string, y: string)
    requires |s| == |t| && s + "  " + x == t + "  " + y
    ensures s == t && x == y
  {
    var l, r := s + "  " + x, t + "  " + y;
    assert s == l[..|s|] && t == r[..|s|];
    assert x == l[|s| + 2..] && y == r[|s| + 2..];
  }

  lemma SameRowsStep(a: seq<Entry>, b: seq<Entry>)
    requires a != [] && b != []
    ensures SameRows(a, b) <==> a[0].path == b[0].path && a[0].sha == b[0].sha && SameRows(a[1..], b[1..])
  {
    assert forall i :: 0 < i < |a| ==> a[i] == a[1..][i - 1];
    assert forall i :: 0 < i < |b| ==> b[i] == b[1..][i - 1];
    assert forall i :: 0 <= i < |a[1..]| ==> a[1..][i] == a[i + 1];
    assert forall i :: 0 <= i < |b[1..]| ==> b[1..][i] == b[i + 1];
  }

  /** The text determines its rows. */
  lemma {:induction false} RenderInjective(a: seq<Entry>, b: seq<Entry>)
    requires forall e :: e in a || e in b ==> ValidRow(e)
    ensures Render(a) == Render(b) <==> SameRows(a, b)
  {
    if a != [] && b != [] {
      hide SameRows;
      var x, y := a[0], b[0];
      assert x in a && y in b;
      RenderInjective(a[1..], b[1..]);
      SameRowsStep(a, b);
      var rx, ry := x.path + "\n" + Render(a[1..]), y.path + "\n" + Render(b[1..]);
      assert Render(a) == x.sha + "  " + rx && Render(b) == y.sha + "  " + ry;
      if Render(a) == Render(b) {
        SameFields(x.sha, rx, y.sha, ry);
        LineBreak(x.path, Render(a[1..]), y.path, Render(b[1..]));
      }
    }
  }

  lemma {:induction false} ContentKeeps(es: seq<Entry>)
    ensures forall e :: e in Content(es) <==> e in es && e.path != PRIVACY_PATH
    ensures DistinctPaths(es) ==> DistinctPaths(Content(es))
  {
    if es != [] {
      ContentKeeps(es[1..]);
      assert es == [es[0]] + es[1..];
      if DistinctPaths(es) {
        assert forall i :: 0 <= i < |Content(es[1..])| ==> Content(es[1..])[i] in es[1..];
      }
    }
  }

  lemma {:induction false} UnderKeeps(es: seq<Entry>, prefix: string)
    ensures forall e :: e in Under(es, prefix) <==> e in es && prefix <= e.path
    ensures DistinctPaths(es) ==> DistinctPaths(Under(es, prefix))
  {
    if es != [] {
      UnderKeeps(es[1..], prefix);
      assert es == [es[0]] + es[1..];
      if DistinctPaths(es) {
        assert forall i :: 0 <= i < |Under(es[1..], prefix)| ==> Under(es[1..], prefix)[i] in es[1..];
      }
    }
  }

  /** What is hashed: its rows, in order. */
  lemma HashedRows(es: seq<Entry>)
    requires ValidRows(es)
    ensures Ordered(Sort(Content(es)))
    ensures forall e :: e in Sort(Content(es)) <==> e in es && e.path != PRIVACY_PATH
  {
    ContentKeeps(es);
    SortSorts(Content(es));
    forall e ensures e in Sort(Content(es)) <==> e in Content(es) {
      assert e in multiset(Sort(Content(es))) <==> e in multiset(Content(es));
    }
  }

  lemma {:induction false} OrderedRowsUnique(a: seq<Entry>, b: seq<Entry>)
    requires Ordered(a) && Ordered(b)
    requires Pairs(a) == Pairs(b)
    ensures SameRows(a, b)
  {
    var a' := seq(|a|, i requires 0 <= i < |a| => Entry(a[i].path, 0, a[i].sha, ""));
    var b' := seq(|b|, i requires 0 <= i < |b| => Entry(b[i].path, 0, b[i].sha, ""));
    StripKeeps(a, a', b);
    StripKeeps(b, b', a);
    OrderedUnique(a', b');
    assert forall i :: 0 <= i < |a'| ==> a'[i].path == a[i].path && a'[i].sha == a[i].sha;
    assert forall i :: 0 <= i < |b'| ==> b'[i].path == b[i].path && b'[i].sha == b[i].sha;
  }

  lemma StripKeeps(a: seq<Entry>, a': seq<Entry>, b: seq<Entry>)
    requires |a'| == |a| && forall i :: 0 <= i < |a| ==> a'[i] == Entry(a[i].path, 0, a[i].sha, "")
    requires Ordered(a)
    ensures Ordered(a')
    ensures forall x :: x in a' <==> x.bytes == 0 && x.mediaType == "" && (x.path, x.sha) in Pairs(a)
  {
    forall x: Entry | x.bytes == 0 && x.mediaType == "" && (x.path, x.sha) in Pairs(a)
      ensures x in a'
    {
      var e :| e in a && (e.path, e.sha) == (x.path, x.sha);
      var i :| 0 <= i < |a| && a[i] == e;
      assert a'[i] == x;
    }
  }

  /**
   Canonicity: two lists of entries have the same digest text exactly when they commit to the same
   paths and hashes, whatever their order and whatever privacy.json holds.
   */
  lemma DigestCanonical(es: seq<Entry>, fs: seq<Entry>)
    requires ValidRows(es) && ValidRows(fs)
    ensures ContentText(es) == ContentText(fs) <==> Committed(es) == Committed(fs)
  {
    var a, b := Sort(Content(es)), Sort(Content(fs));
    HashedRows(es);
    HashedRows(fs);
    RenderInjective(a, b);
    assert Pairs(a) == Committed(es);
    assert Pairs(b) == Committed(fs);
    if Committed(es) == Committed(fs) { OrderedRowsUnique(a, b); }
    if SameRows(a, b) { SameRowsSet(a, b); }
  }

  lemma SameRowsSet(a: seq<Entry>, b: seq<Entry>)
    requires SameRows(a, b)
    ensures Pairs(a) == Pairs(b)
  {
    forall e | e in a ensures (e.path, e.sha) in Pairs(b) {
      var i :| 0 <= i < |a| && a[i] == e;
      assert b[i] in b;
    }
    forall e | e in b ensures (e.path, e.sha) in Pairs(a) {
      var i :| 0 <= i < |b| && b[i] == e;
      assert a[i] in a;
    }
  }

  /** Entries that commit to the same rows have the same section digests too. */
  lemma SectionsFollow(es: seq<Entry>, fs: seq<Entry>, prefix: string)
    requires ValidRows(es) && ValidRows(fs) && Committed(es) == Committed(fs)
    ensures SectionText(es, prefix) == SectionText(fs, prefix)
  {
    UnderKeeps(es, prefix);
    UnderKeeps(fs, prefix);
    forall row ensures row in Committed(Under(es, prefix)) <==> row in Committed(Under(fs, prefix)) {
      CommittedUnder(es, prefix, row);
      CommittedUnder(fs, prefix, row);
    }
    DigestCanonical(Under(es, prefix), Under(fs, prefix));
  }

  lemma CommittedUnder(es: seq<Entry>, prefix: string, row: (string, string))
    ensures row in Committed(Under(es, prefix)) <==> row in Committed(es) && prefix <= row.0
  {
    UnderKeeps(es, prefix);
  }
}
