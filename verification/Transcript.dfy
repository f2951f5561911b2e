/**
 Transcripts and their context files. Inline media goes to a content-addressed store and comes back through a
 cache with two budgets; whatever is dropped on either way is counted in a loss report.
 */
module Transcript {
  import opened Basics

  /** The transcript's media: inline data, or where to find it. */
  datatype Media = Media(mediaType: string, data: Bytes, path: string, url: string, name: string)

  /** A context line's media. */
  datatype Stored = Stored(mediaType: string, attachment: string, url: string, path: string, name: string)

  datatype Block<M> = Block(kind: string, text: string, opaqueState: Option<(string, string)>, callId: string, name: string,
                            input: string, freeform: bool, isError: bool, media: seq<M>)

  datatype Entry<M> = Entry(id: string, role: string, origin: string, time: string, model: string, author: string, blocks: seq<Block<M>>)

  datatype Line = EntryLine(entry: Entry<Stored>) | Boundary(kind: string) | Unknown(kind: string)

  const TEXT := "text"
  const SUMMARY := "summary"
  const MEDIA := "media"
  const TOOL_CALL := "tool_call"
  const TOOL_RESULT := "tool_result"

  predicate Known(kind: string) {
    kind in {TEXT, "thinking", TOOL_CALL, TOOL_RESULT, MEDIA, SUMMARY}
  }

  /** Everything `f` makes something of, in order. */
  function Collect<A, B>(f: A -> Option<B>, s: seq<A>): seq<B> {
    if s == [] then []
    else (match f(s[0]) case Some(x) => [x] case None => []) + Collect(f, s[1..])
  }

  function Sum<A>(f: A -> nat, s: seq<A>): nat {
    if s == [] then 0 else f(s[0]) + Sum(f, s[1..])
  }

  lemma {:induction false} CollectMore<A, B>(f: A -> Option<B>, s: seq<A>, x: A)
    ensures Collect(f, s + [x]) == Collect(f, s) + match f(x) case Some(y) => [y] case None => []
  {
    if s == [] {
      assert s + [x] == [x];
    } else {
      assert (s + [x])[1..] == s[1..] + [x];
      CollectMore(f, s[1..], x);
    }
  }

  lemma {:induction false} CollectSplit<A, B>(f: A -> Option<B>, a: seq<A>, b: seq<A>)
    ensures Collect(f, a + b) == Collect(f, a) + Collect(f, b)
  {
    if a == [] {
      assert a + b == b;
    } else {
      assert (a + b)[1..] == a[1..] + b;
      CollectSplit(f, a[1..], b);
    }
  }

  lemma {:induction false} SumSplit<A>(f: A -> nat, a: seq<A>, b: seq<A>)
    ensures Sum(f, a + b) == Sum(f, a) + Sum(f, b)
  {
    if a == [] {
      assert a + b == b;
    } else {
      assert (a + b)[1..] == a[1..] + b;
      SumSplit(f, a[1..], b);
    }
  }

  lemma Nothing<A, B>(f: A -> Option<B>, g: A -> nat)
    ensures Collect(f, []) == [] && Sum(g, []) == 0
  {
  }

  lemma {:induction false} SumMore<A>(f: A -> nat, s: seq<A>, x: A)
    ensures Sum(f, s + [x]) == Sum(f, s) + f(x)
  {
    if s == [] {
      assert s + [x] == [x];
    } else {
      assert (s + [x])[1..] == s[1..] + [x];
      SumMore(f, s[1..], x);
    }
  }

  /** Doing `g` to what `f` made is doing `h`. */
  lemma {:induction false} CollectChain<A, B, C>(f: A -> Option<B>, g: B -> Option<C>, h: A -> Option<C>, s: seq<A>)
    requires forall x :: x in s ==> match f(x) case Some(y) => g(y) == h(x) case None => h(x).None?
    ensures Collect(g, Collect(f, s)) == Collect(h, s)
  {
    if s != [] {
      assert s[0] in s;
      CollectChain(f, g, h, s[1..]);
      var rest := Collect(f, s[1..]);
      match f(s[0])
      case Some(y) => assert ([y] + rest)[1..] == rest;
      case None => assert [] + rest == rest;
    }
  }

  lemma {:induction false} CollectFrom<A, B>(f: A -> Option<B>, s: seq<A>, y: B)
    requires y in Collect(f, s)
    ensures exists x :: x in s && f(x) == Some(y)
  {
    if f(s[0]) != Some(y) { CollectFrom(f, s[1..], y); }
  }

  // ----- references -----

  const PREFIX := "sha256:"

  predicate ValidHash(h: string) {
    |h| == 64 && forall c :: c in h ==> '0' <= c <= '9' || 'a' <= c <= 'f'
  }

  /** `AttachmentPath`: the hash a reference names. */
  function HashOf(ref: string): Option<string> {
    if PREFIX <= ref && ValidHash(ref[|PREFIX|..]) then Some(ref[|PREFIX|..]) else None
  }

  // ----- losses -----

  datatype LossKind = MediaDropped | UnknownRecord

  datatype Loss = Loss(kind: LossKind, count: int, detail: string)

  function Count(items: seq<Loss>, kind: LossKind): int {
    if items == [] then 0 else (if items[0].kind == kind then items[0].count else 0) + Count(items[1..], kind)
  }

  lemma {:induction false} CountSplit(a: seq<Loss>, b: seq<Loss>, kind: LossKind)
    ensures Count(a + b, kind) == Count(a, kind) + Count(b, kind)
  {
    if a == [] {
      assert a + b == b;
    } else {
      assert (a + b)[1..] == a[1..] + b;
      CountSplit(a[1..], b, kind);
    }
  }

  /** One item for each kind and detail. */
  predicate Merged(items: seq<Loss>) {
    forall i, j :: 0 <= i < j < |items| ==> items[i].kind != items[j].kind || items[i].detail != items[j].detail
  }

  class LossReport {
    var items: seq<Loss>

    constructor ()
      ensures items == []
    {
      items := [];
    }

    /** `Add`: a repeated kind and detail adds to the item it already has. */
    method Add(kind: LossKind, n: int, detail: string)
      modifies this
      ensures Count(items, kind) == Count(old(items), kind) + if n > 0 then n else 0
      ensures forall k :: k != kind ==> Count(items, k) == Count(old(items), k)
      ensures old(Merged(items)) ==> Merged(items)
    {
      if n <= 0 { return; }
      for i := 0 to |items|
        invariant items == old(items)
        invariant forall k :: 0 <= k < i ==> items[k].kind != kind || items[k].detail != detail
      {
        if items[i].kind == kind && items[i].detail == detail {
          var more := items[i].(count := items[i].count + n);
          forall k ensures Count(items[i := more], k) == Count(items, k) + if k == kind then n else 0 {
            assert items == items[..i] + ([items[i]] + items[i + 1..]);
            assert items[i := more] == items[..i] + ([more] + items[i + 1..]);
            CountSplit(items[..i], [items[i]] + items[i + 1..], k);
            CountSplit(items[..i], [more] + items[i + 1..], k);
          }
          items := items[i := more];
          return;
        }
      }
      forall k ensures Count(items + [Loss(kind, n, detail)], k) == Count(items, k) + if k == kind then n else 0 {
        CountSplit(items, [Loss(kind, n, detail)], k);
      }
      items := items + [Loss(kind, n, detail)];
    }
  }

  // ----- writing -----

  function StoreMedia(sha: Bytes -> string, m: Media): Option<Stored> {
    if m.data != [] then Some(Stored(m.mediaType, PREFIX + sha(m.data), "", "", m.name))
    else if m.url != "" then Some(Stored(m.mediaType, "", m.url, "", m.name))
    else if m.path != "" then Some(Stored(m.mediaType, "", "", m.path, m.name))
    else None
  }

  function StoringMedia(sha: Bytes -> string): Media -> Option<Stored> { m => StoreMedia(sha, m) }

  /** A text or summary block without text. */
  predicate Blank(b: Block<Media>) {
    b.kind in {TEXT, SUMMARY} && b.text == ""
  }

  function WithMedia<M, N>(b: Block<M>, media: seq<N>): Block<N> {
    Block(b.kind, b.text, b.opaqueState, b.callId, b.name, b.input, b.freeform, b.isError, media)
  }

  function WithBlocks<M, N>(e: Entry<M>, blocks: seq<Block<N>>): Entry<N> {
    Entry(e.id, e.role, e.origin, e.time, e.model, e.author, blocks)
  }

  function StoreBlock(sha: Bytes -> string, b: Block<Media>): Option<Block<Stored>> {
    var media := Collect(StoringMedia(sha), b.media);
    if Blank(b) || (b.kind == MEDIA && media == []) then None else Some(WithMedia(b, media))
  }

  function StoringBlock(sha: Bytes -> string): Block<Media> -> Option<Block<Stored>> { b => StoreBlock(sha, b) }

  function StoreEntry(sha: Bytes -> string, e: Entry<Media>): Option<Line> {
    var blocks := Collect(StoringBlock(sha), e.blocks);
    if blocks == [] then None else Some(EntryLine(WithBlocks(e, blocks)))
  }

  function StoringEntry(sha: Bytes -> string): Entry<Media> -> Option<Line> { e => StoreEntry(sha, e) }

  /** The lines of a context file, after its header. */
  function Lines(sha: Bytes -> string, t: seq<Entry<Media>>): seq<Line> {
    Collect(StoringEntry(sha), t)
  }

  /** Media that leads nowhere. */
  predicate Lost(m: Media) {
    m.data == [] && m.url == "" && m.path == ""
  }

  function One(m: Media): nat { if Lost(m) then 1 else 0 }

  function LostIn(b: Block<Media>): nat { if Blank(b) then 0 else Sum(One, b.media) }

  function LostInEntry(e: Entry<Media>): nat { Sum(LostIn, e.blocks) }

  function Empty(sha: Bytes -> string): Entry<Media> -> nat { e => if StoreEntry(sha, e).None? then 1 else 0 }

  /** `lineFromEntryWith`, for media stored under its hash. */
  method LineFromEntry(sha: Bytes -> string, e: Entry<Media>) returns (line: Option<Line>, dropped: nat)
    ensures line == StoreEntry(sha, e) && dropped == LostInEntry(e)
  {
    dropped := 0;
    var blocks: seq<Block<Stored>> := [];
    for j := 0 to |e.blocks|
      invariant blocks == Collect(StoringBlock(sha), e.blocks[..j]) && dropped == Sum(LostIn, e.blocks[..j])
    {
      var b := e.blocks[j];
      assert e.blocks[..j + 1] == e.blocks[..j] + [b];
      CollectMore(StoringBlock(sha), e.blocks[..j], b);
      SumMore(LostIn, e.blocks[..j], b);
      if !Blank(b) {
        var media: seq<Stored> := [];
        ghost var was := dropped;
        for k := 0 to |b.media|
          invariant media == Collect(StoringMedia(sha), b.media[..k]) && dropped == was + Sum(One, b.media[..k])
        {
          var m := b.media[k];
          assert b.media[..k + 1] == b.media[..k] + [m];
          CollectMore(StoringMedia(sha), b.media[..k], m);
          SumMore(One, b.media[..k], m);
          if m.data != [] {
            media := media + [Stored(m.mediaType, PREFIX + sha(m.data), "", "", m.name)];
          } else if m.url != "" {
            media := media + [Stored(m.mediaType, "", m.url, "", m.name)];
          } else if m.path != "" {
            media := media + [Stored(m.mediaType, "", "", m.path, m.name)];
          } else {
            dropped := dropped + 1;
          }
        }
        assert b.media[..|b.media|] == b.media;
        if b.kind != MEDIA || media != [] { blocks := blocks + [WithMedia(b, media)]; }
      }
    }
    assert e.blocks[..|e.blocks|] == e.blocks;
    line := if blocks == [] then None else Some(EntryLine(WithBlocks(e, blocks)));
  }

  /** Inline data, wherever it occurs. */
  ghost function Inline(ms: seq<Media>): set<Bytes> {
    set m | m in ms && m.data != [] :: m.data
  }

  ghost function InBlocks(bs: seq<Block<Media>>): set<Bytes> {
    set b, m | b in bs && m in b.media && m.data != [] :: m.data
  }

  ghost function InEntries(t: seq<Entry<Media>>): set<Bytes> {
    set e, b, m | e in t && b in e.blocks && m in b.media && m.data != [] :: m.data
  }

  /** Every content lies under its hash. */
  predicate Addressed(sha: Bytes -> string, store: map<string, Bytes>) {
    forall k :: k in store ==> sha(store[k]) == k
  }

  predicate CollisionFree(sha: Bytes -> string, contents: set<Bytes>) {
    forall x, y :: x in contents && y in contents && sha(x) == sha(y) ==> x == y
  }

  /** Inline data, in the order it is stored. */
  function InlineOf(m: Media): Option<Bytes> { if m.data == [] then None else Some(m.data) }

  function BlocksInline(bs: seq<Block<Media>>): seq<Bytes> {
    if bs == [] then [] else Collect(InlineOf, bs[0].media) + BlocksInline(bs[1..])
  }

  function EntriesInline(t: seq<Entry<Media>>): seq<Bytes> {
    if t == [] then [] else BlocksInline(t[0].blocks) + EntriesInline(t[1..])
  }

  /** The bytes a store grows by: content whose hash it has costs nothing. */
  function NewBytes(sha: Bytes -> string, hashes: set<string>, ds: seq<Bytes>): nat
    decreases |ds|
  {
    if ds == [] then 0
    else (if sha(ds[0]) in hashes then 0 else |ds[0]|) + NewBytes(sha, hashes + {sha(ds[0])}, ds[1..])
  }

  /** From `before` to `after`, a store has grown by contents of `more` alone. */
  ghost predicate Grew(sha: Bytes -> string, before: map<string, Bytes>, after: map<string, Bytes>, more: set<Bytes>) {
    && (forall k :: k in before ==> k in after && after[k] == before[k])
    && after.Values <= before.Values + more
    && (Addressed(sha, before) ==> Addressed(sha, after))
  }

  lemma GrewOn(sha: Bytes -> string, a: map<string, Bytes>, b: map<string, Bytes>, c: map<string, Bytes>, x: set<Bytes>, y: set<Bytes>)
    requires Grew(sha, a, b, x) && Grew(sha, b, c, y) && y <= x
    ensures Grew(sha, a, c, x) && b.Keys <= c.Keys
  {
  }

  lemma GrewNot(sha: Bytes -> string, a: map<string, Bytes>, x: set<Bytes>)
    ensures Grew(sha, a, a, x)
  {
  }

  lemma NoBytes(sha: Bytes -> string, hashes: set<string>)
    ensures NewBytes(sha, hashes, []) == 0
  {
  }

  lemma NothingInline()
    ensures Inline([]) == {} && InBlocks([]) == {} && InEntries([]) == {}
  {
  }

  lemma MediumInline(ms: seq<Media>, k: nat)
    requires k < |ms|
    ensures (if ms[k].data == [] then {} else {ms[k].data}) <= Inline(ms)
    ensures Inline(ms[..k + 1]) == Inline(ms[..k]) + if ms[k].data == [] then {} else {ms[k].data}
  {
    assert ms[..k + 1] == ms[..k] + [ms[k]];
  }

  lemma BlockInline(bs: seq<Block<Media>>, j: nat)
    requires j < |bs|
    ensures Inline(bs[j].media) <= InBlocks(bs)
    ensures InBlocks(bs[..j + 1]) == InBlocks(bs[..j]) + Inline(bs[j].media)
  {
    assert bs[..j + 1] == bs[..j] + [bs[j]];
  }

  lemma EntryInline(t: seq<Entry<Media>>, i: nat)
    requires i < |t|
    ensures InBlocks(t[i].blocks) <= InEntries(t)
    ensures InEntries(t[..i + 1]) == InEntries(t[..i]) + InBlocks(t[i].blocks)
  {
    assert t[..i + 1] == t[..i] + [t[i]];
  }

  /** The archive being written, as `WriteTranscript` uses it. */
  class Sink {
    const sha: Bytes -> string
    const encoded: Line -> nat
    const maxArchive: nat
    const maxRecord: nat
    var store: map<string, Bytes>
    var total: nat
    var lines: seq<Line>

    constructor (sha: Bytes -> string, encoded: Line -> nat, maxArchive: nat, maxRecord: nat)
      ensures this.sha == sha && this.encoded == encoded && this.maxArchive == maxArchive && this.maxRecord == maxRecord
      ensures store == map[] && lines == [] && total == 0
    {
      this.sha, this.encoded, this.maxArchive, this.maxRecord := sha, encoded, maxArchive, maxRecord;
      store, total, lines := map[], 0, [];
    }

    /** The store has grown by contents of `more` alone. */
    twostate predicate Grown(more: set<Bytes>)
      reads this`store
    {
      Grew(sha, old(store), store, more)
    }

    /** `AddAttachment`. */
    method AddAttachment(d: Bytes) returns (ok: bool)
      modifies this`store, this`total
      ensures ok == (sha(d) in old(store) || old(total) + |d| <= maxArchive)
      ensures ok ==> store.Keys == old(store).Keys + {sha(d)} && total == old(total) + if sha(d) in old(store) then 0 else |d|
      ensures Grown({d}) && (old(total) <= maxArchive ==> total <= maxArchive)
    {
      var h := sha(d);
      if h !in store {
        if total + |d| > maxArchive { return false; }
        total := total + |d|;
        store := store[h := d];
      }
      ok := true;
    }

    /** The bytes used, with those still to come. */
    ghost function Used(ds: seq<Bytes>): nat
      reads this`store, this`total
    {
      total + NewBytes(sha, store.Keys, ds)
    }

    /** Stores one medium's inline data, if any; `rest` is what comes behind it. */
    method AddOne(m: Media, ghost rest: seq<Bytes>) returns (ok: bool)
      modifies this`store, this`total
      ensures Grown(if m.data == [] then {} else {m.data}) && (old(total) <= maxArchive ==> total <= maxArchive)
      ensures ok && m.data != [] ==> sha(m.data) in store
      ensures ok ==> Used(rest) == old(Used((if m.data == [] then [] else [m.data]) + rest))
      ensures !ok ==> old(Used((if m.data == [] then [] else [m.data]) + rest)) > maxArchive
    {
      if m.data == [] {
        assert [] + rest == rest;
        return true;
      }
      assert ([m.data] + rest)[1..] == rest;
      ok := AddAttachment(m.data);
    }

    /** Stores the inline data of some media. */
    method AddMedia(ms: seq<Media>, ghost rest: seq<Bytes>) returns (ok: bool)
      modifies this`store, this`total
      ensures Grown(Inline(ms)) && (old(total) <= maxArchive ==> total <= maxArchive)
      ensures ok ==> forall d :: d in Inline(ms) ==> sha(d) in store
      ensures ok ==> Used(rest) == old(Used(Collect(InlineOf, ms) + rest))
      ensures !ok ==> old(Used(Collect(InlineOf, ms) + rest)) > maxArchive
    {
      hide NewBytes, Grew, Inline;
      GrewNot(sha, store, Inline(ms));
      assert ms[..0] == [] && ms[0..] == ms;
      NothingInline();
      for k := 0 to |ms|
        invariant Grown(Inline(ms)) && (old(total) <= maxArchive ==> total <= maxArchive)
        invariant forall d :: d in Inline(ms[..k]) ==> sha(d) in store
        invariant Used(Collect(InlineOf, ms[k..]) + rest) == old(Used(Collect(InlineOf, ms) + rest))
      {
        ghost var st := store;
        assert ms[k..][1..] == ms[k + 1..];
        ghost var more := Collect(InlineOf, ms[k + 1..]) + rest;
        assert Collect(InlineOf, ms[k..]) + rest == (if ms[k].data == [] then [] else [ms[k].data]) + more;
        MediumInline(ms, k);
        ok := AddOne(ms[k], more);
        GrewOn(sha, old(store), st, store, Inline(ms), if ms[k].data == [] then {} else {ms[k].data});
        if !ok { return; }
      }
      assert ms[..|ms|] == ms && Collect(InlineOf, ms[|ms|..]) + rest == rest;
      ok := true;
    }

    method AddBlocks(bs: seq<Block<Media>>, ghost rest: seq<Bytes>) returns (ok: bool)
      modifies this`store, this`total
      ensures Grown(InBlocks(bs)) && (old(total) <= maxArchive ==> total <= maxArchive)
      ensures ok ==> forall d :: d in InBlocks(bs) ==> sha(d) in store
      ensures ok ==> Used(rest) == old(Used(BlocksInline(bs) + rest))
      ensures !ok ==> old(Used(BlocksInline(bs) + rest)) > maxArchive
    {
      hide Collect, NewBytes, Grew, Inline, InBlocks;
      GrewNot(sha, store, InBlocks(bs));
      assert bs[..0] == [] && bs[0..] == bs;
      NothingInline();
      for j := 0 to |bs|
        invariant Grown(InBlocks(bs)) && (old(total) <= maxArchive ==> total <= maxArchive)
        invariant forall d :: d in InBlocks(bs[..j]) ==> sha(d) in store
        invariant Used(BlocksInline(bs[j..]) + rest) == old(Used(BlocksInline(bs) + rest))
      {
        ghost var st := store;
        assert bs[j..][1..] == bs[j + 1..];
        ghost var more := BlocksInline(bs[j + 1..]) + rest;
        assert BlocksInline(bs[j..]) + rest == Collect(InlineOf, bs[j].media) + more;
        BlockInline(bs, j);
        ok := AddMedia(bs[j].media, more);
        GrewOn(sha, old(store), st, store, InBlocks(bs), Inline(bs[j].media));
        if !ok { return; }
      }
      assert bs[..|bs|] == bs && BlocksInline(bs[|bs|..]) + rest == rest;
      ok := true;
    }

    /** The attachments of a transcript: they are all stored exactly when the new ones fit. */
    method AddAll(t: seq<Entry<Media>>) returns (ok: bool)
      modifies this`store, this`total
      ensures Grown(InEntries(t)) && (old(total) <= maxArchive ==> total <= maxArchive)
      ensures ok ==> forall d :: d in InEntries(t) ==> sha(d) in store
      ensures ok ==> total == old(Used(EntriesInline(t)))
      ensures !ok ==> old(Used(EntriesInline(t))) > maxArchive
    {
      hide BlocksInline, InBlocks, InEntries, Grew, NewBytes;
      GrewNot(sha, store, InEntries(t));
      assert t[..0] == [] && t[0..] == t;
      NothingInline();
      for i := 0 to |t|
        invariant Grown(InEntries(t)) && (old(total) <= maxArchive ==> total <= maxArchive)
        invariant forall d :: d in InEntries(t[..i]) ==> sha(d) in store
        invariant Used(EntriesInline(t[i..])) == old(Used(EntriesInline(t)))
      {
        ghost var st := store;
        assert t[i..][1..] == t[i + 1..];
        EntryInline(t, i);
        ok := AddBlocks(t[i].blocks, EntriesInline(t[i + 1..]));
        GrewOn(sha, old(store), st, store, InEntries(t), InBlocks(t[i].blocks));
        if !ok { return; }
      }
      assert t[..|t|] == t;
      NoBytes(sha, store.Keys);
      ok := true;
    }

    /** `extScanWriter.Write`: the record limit and the archive limit. */
    method WriteLine(l: Line) returns (ok: bool)
      modifies this`lines, this`total
      ensures ok == (encoded(l) <= maxRecord && old(total) + encoded(l) <= maxArchive)
      ensures lines == old(lines) + if ok then [l] else []
      ensures total == old(total) + if ok then encoded(l) else 0
    {
      if encoded(l) > maxRecord || total + encoded(l) > maxArchive { return false; }
      total := total + encoded(l);
      lines := lines + [l];
      ok := true;
    }
  }

  predicate WithinRecord(sink: Sink, ls: seq<Line>) {
    forall l :: l in ls ==> sink.encoded(l) <= sink.maxRecord
  }

  /** `WriteTranscript`: attachments first, then the header and one line per entry; losses are counted on the way. It
      succeeds exactly when the harness is named, no line is over the record limit, and everything fits. */
  method WriteTranscript(sink: Sink, harness: string, headerBytes: nat, t: seq<Entry<Media>>, losses: LossReport) returns (ok: bool)
    requires sink.total <= sink.maxArchive
    modifies sink, losses
    ensures ok <==>
      && harness != "" && headerBytes <= sink.maxRecord && WithinRecord(sink, Lines(sink.sha, t))
      && old(sink.Used(EntriesInline(t))) + headerBytes + Sum(sink.encoded, Lines(sink.sha, t)) <= sink.maxArchive
    ensures sink.Grown(InEntries(t))
    ensures ok ==> sink.lines == Lines(sink.sha, t) && forall d :: d in InEntries(t) ==> sink.sha(d) in sink.store
    ensures ok ==> Count(losses.items, MediaDropped) == Count(old(losses.items), MediaDropped) + Sum(LostInEntry, t)
    ensures ok ==> Count(losses.items, UnknownRecord) == Count(old(losses.items), UnknownRecord) + Sum(Empty(sink.sha), t)
    ensures old(Merged(losses.items)) ==> Merged(losses.items)
  {
    hide InEntries, Count, Merged, LostInEntry, Empty, Lines, EntriesInline, NewBytes;
    ok := sink.AddAll(t);
    if !ok { return; }
    if harness == "" { return false; }
    sink.lines := [];
    if headerBytes > sink.maxRecord || sink.total + headerBytes > sink.maxArchive { return false; }
    sink.total := sink.total + headerBytes;
    ok := WriteLines(sink, t, losses);
  }

  method WriteLines(sink: Sink, t: seq<Entry<Media>>, losses: LossReport) returns (ok: bool)
    requires sink.lines == [] && sink.total <= sink.maxArchive
    modifies sink`lines, sink`total, losses
    ensures ok <==> WithinRecord(sink, Lines(sink.sha, t)) && old(sink.total) + Sum(sink.encoded, Lines(sink.sha, t)) <= sink.maxArchive
    ensures ok ==> sink.lines == Lines(sink.sha, t)
    ensures ok ==> Count(losses.items, MediaDropped) == Count(old(losses.items), MediaDropped) + Sum(LostInEntry, t)
    ensures ok ==> Count(losses.items, UnknownRecord) == Count(old(losses.items), UnknownRecord) + Sum(Empty(sink.sha), t)
    ensures old(Merged(losses.items)) ==> Merged(losses.items)
  {
    hide Count, Merged, LostInEntry, StoreEntry, Sum, Collect;
    ghost var sha := sink.sha;
    assert t[..0] == [];
    Nothing(StoringEntry(sha), LostInEntry);
    Nothing(StoringEntry(sha), Empty(sha));
    NothingSummed(sink.encoded);
    for i := 0 to |t|
      invariant sink.lines == Lines(sha, t[..i]) && WithinRecord(sink, sink.lines)
      invariant sink.total == old(sink.total) + Sum(sink.encoded, sink.lines) && sink.total <= sink.maxArchive
      invariant Count(losses.items, MediaDropped) == Count(old(losses.items), MediaDropped) + Sum(LostInEntry, t[..i])
      invariant Count(losses.items, UnknownRecord) == Count(old(losses.items), UnknownRecord) + Sum(Empty(sha), t[..i])
      invariant old(Merged(losses.items)) ==> Merged(losses.items)
    {
      assert t[..i + 1] == t[..i] + [t[i]];
      CollectMore(StoringEntry(sha), t[..i], t[i]);
      SumMore(LostInEntry, t[..i], t[i]);
      SumMore(Empty(sha), t[..i], t[i]);
      var line, dropped := LineFromEntry(sink.sha, t[i]);
      losses.Add(MediaDropped, dropped, "");
      if line.None? {
        losses.Add(UnknownRecord, 1, "empty entry");
      } else {
        SumMore(sink.encoded, sink.lines, line.value);
        LinesBehind(sink, t, i, line.value);
        ok := sink.WriteLine(line.value);
        if !ok { return; }
      }
    }
    assert t[..|t|] == t;
    ok := true;
  }

  lemma NothingSummed<A>(f: A -> nat)
    ensures Sum(f, []) == 0
  {
  }

  /** A written line is one of all the lines, and they take at least the bytes so far. */
  lemma LinesBehind(sink: Sink, t: seq<Entry<Media>>, i: nat, line: Line)
    requires i < |t| && StoreEntry(sink.sha, t[i]) == Some(line)
    ensures line in Lines(sink.sha, t)
    ensures Sum(sink.encoded, Lines(sink.sha, t[..i])) + sink.encoded(line) <= Sum(sink.encoded, Lines(sink.sha, t))
  {
    hide StoreEntry;
    var f := StoringEntry(sink.sha);
    assert t == t[..i] + [t[i]] + t[i + 1..];
    CollectSplit(f, t[..i] + [t[i]], t[i + 1..]);
    CollectMore(f, t[..i], t[i]);
    var done, rest := Lines(sink.sha, t[..i]), Collect(f, t[i + 1..]);
    SumSplit(sink.encoded, done + [line], rest);
    SumMore(sink.encoded, done, line);
    assert Lines(sink.sha, t) == done + [line] + rest;
  }

  // ----- what a line must be -----

  predicate MediaOk(m: Stored) {
    && (if m.attachment != "" then m.url == "" && m.path == "" else (m.url == "") != (m.path == ""))
    && (m.attachment != "" ==> HashOf(m.attachment).Some?)
  }

  /** `Block.check`. */
  predicate BlockOk(b: Block<Stored>) {
    && b.kind != "" && (b.kind == TOOL_CALL ==> b.callId != "" && b.name != "") && (b.kind == TOOL_RESULT ==> b.callId != "")
    && (b.kind == MEDIA ==> b.media != [])
    && forall m :: m in b.media ==> MediaOk(m)
  }

  /** `Line.check`. */
  predicate LineOk(l: Line) {
    match l
    case EntryLine(e) => e.role in {"user", "assistant"} && e.origin != "" && e.blocks != [] && forall b :: b in e.blocks ==> BlockOk(b)
    case Boundary(kind) => kind != ""
    case Unknown(kind) => kind != ""
  }

  /** The part of the line rules an entry answers for itself: its names. */
  predicate NamedBlock(b: Block<Media>) {
    b.kind != "" && (b.kind == TOOL_CALL ==> b.callId != "" && b.name != "") && (b.kind == TOOL_RESULT ==> b.callId != "")
  }

  predicate Named(sha: Bytes -> string, e: Entry<Media>) {
    && e.role in {"user", "assistant"} && e.origin != ""
    && forall b :: b in e.blocks && StoreBlock(sha, b).Some? ==> NamedBlock(b)
  }

  lemma StoredMediaOk(sha: Bytes -> string, ms: seq<Media>)
    requires forall d :: ValidHash(sha(d))
    ensures forall x :: x in Collect(StoringMedia(sha), ms) ==> MediaOk(x)
  {
    forall x | x in Collect(StoringMedia(sha), ms) ensures MediaOk(x) {
      CollectFrom(StoringMedia(sha), ms, x);
      var m :| m in ms && StoreMedia(sha, m) == Some(x);
      if m.data != [] { assert (PREFIX + sha(m.data))[|PREFIX|..] == sha(m.data); }
    }
  }

  /** What the writer makes of an entry passes the line rules exactly when the entry is named properly. */
  lemma StoredLineOk(sha: Bytes -> string, e: Entry<Media>)
    requires forall d :: ValidHash(sha(d))
    ensures StoreEntry(sha, e).Some? ==> (LineOk(StoreEntry(sha, e).value) <==> Named(sha, e))
  {
    var blocks := Collect(StoringBlock(sha), e.blocks);
    forall b | b in e.blocks && StoreBlock(sha, b).Some?
      ensures StoreBlock(sha, b).value in blocks && (BlockOk(StoreBlock(sha, b).value) <==> NamedBlock(b))
    {
      StoredMediaOk(sha, b.media);
      CollectAll(StoringBlock(sha), e.blocks, b);
    }
    forall x | x in blocks ensures exists b :: b in e.blocks && StoreBlock(sha, b) == Some(x) {
      CollectFrom(StoringBlock(sha), e.blocks, x);
      var b :| b in e.blocks && StoringBlock(sha)(b) == Some(x);
    }
  }

  lemma {:induction false} CollectAll<A, B>(f: A -> Option<B>, s: seq<A>, x: A)
    requires x in s && f(x).Some?
    ensures f(x).value in Collect(f, s)
  {
    if s[0] != x { CollectAll(f, s[1..], x); }
  }

  // ----- the media cache -----

  datatype Budget = Budget(item: nat, total: nat)

  /** What `ReadTranscript` makes of its options. */
  function Effective(maxMedia: int, maxTotal: int): Budget {
    Budget(if maxMedia <= 0 then 0x400_0000 else maxMedia, if maxTotal <= 0 then 0x1000_0000 else maxTotal)
  }

  /** Each reference tried so far with what it gave, and the bytes loaded. */
  datatype Cache = Cache(data: map<string, Option<Bytes>>, total: nat)

  function Get(store: map<string, Bytes>, lim: Budget, c: Cache, ref: string): Cache {
    if ref in c.data || HashOf(ref).None? then c
    else
      var h := HashOf(ref).value;
      if h !in store || |store[h]| > lim.item || c.total + |store[h]| > lim.total then Cache(c.data[ref := None], c.total)
      else Cache(c.data[ref := Some(store[h])], c.total + |store[h]|)
  }

  function Lookup(c: Cache, ref: string): Option<Bytes> {
    if ref in c.data then c.data[ref] else None
  }

  function Load(store: map<string, Bytes>, lim: Budget, c: Cache, refs: seq<string>): Cache
    decreases |refs|
  {
    if refs == [] then c else Load(store, lim, Get(store, lim, c, refs[0]), refs[1..])
  }

  class MediaCache {
    const store: map<string, Bytes>
    const lim: Budget
    var data: map<string, Option<Bytes>>
    var total: nat

    constructor (store: map<string, Bytes>, lim: Budget)
      ensures this.store == store && this.lim == lim && State() == Cache(map[], 0)
    {
      this.store, this.lim, data, total := store, lim, map[], 0;
    }

    function State(): Cache
      reads this
    {
      Cache(data, total)
    }

    /** `mediaCache.get`. */
    method Fetch(ref: string) returns (r: Option<Bytes>)
      modifies this
      ensures State() == Get(store, lim, old(State()), ref) && r == Lookup(State(), ref)
      ensures HashOf(ref).Some? ==> ref in State().data
    {
      if ref in data { return data[ref]; }
      var h := HashOf(ref);
      if h.None? { return None; }
      if h.value !in store || |store[h.value]| > lim.item || total + |store[h.value]| > lim.total {
        data := data[ref := None];
        return None;
      }
      data := data[ref := Some(store[h.value])];
      total := total + |store[h.value]|;
      r := Some(store[h.value]);
    }
  }

  /** What a reference gave once it gives for good. */
  lemma {:induction false} Sticky(store: map<string, Bytes>, lim: Budget, c: Cache, refs: seq<string>, ref: string)
    requires ref in c.data
    ensures ref in Load(store, lim, c, refs).data && Lookup(Load(store, lim, c, refs), ref) == Lookup(c, ref)
    decreases |refs|
  {
    if refs != [] { Sticky(store, lim, Get(store, lim, c, refs[0]), refs[1..], ref); }
  }

  // ----- reading -----

  function ReadMedia(c: Cache, m: Stored): Option<Media> {
    if m.attachment == "" then Some(Media(m.mediaType, [], m.path, m.url, m.name))
    else match Lookup(c, m.attachment)
      case Some(d) => Some(Media(m.mediaType, d, m.path, m.url, m.name))
      case None => None
  }

  function ReadingMedia(c: Cache): Stored -> Option<Media> { m => ReadMedia(c, m) }

  /** The stand-in for a block of an unknown kind. */
  function Unsupported(b: Block<Stored>): Block<Media> {
    var note := "[unsupported content: " + b.kind + " block]";
    Block(TEXT, if b.text == "" then note else note + "\n" + b.text, None, "", "", "", false, false, [])
  }

  function ReadBlock(c: Cache, b: Block<Stored>): Block<Media> {
    if Known(b.kind) then WithMedia(b, Collect(ReadingMedia(c), b.media)) else Unsupported(b)
  }

  function ReadingBlock(c: Cache): Block<Stored> -> Option<Block<Media>> { b => Some(ReadBlock(c, b)) }

  function ReadLine(c: Cache, l: Line): Option<Entry<Media>> {
    if l.EntryLine? then Some(WithBlocks(l.entry, Collect(ReadingBlock(c), l.entry.blocks))) else None
  }

  function ReadingLine(c: Cache): Line -> Option<Entry<Media>> { l => ReadLine(c, l) }

  function RefOf(m: Stored): Option<string> { if m.attachment == "" then None else Some(m.attachment) }

  function BlockRefs(b: Block<Stored>): seq<string> {
    if Known(b.kind) then Collect(RefOf, b.media) else []
  }

  function BlocksRefs(bs: seq<Block<Stored>>): seq<string> {
    if bs == [] then [] else BlockRefs(bs[0]) + BlocksRefs(bs[1..])
  }

  function LineRefs(l: Line): seq<string> {
    if l.EntryLine? then BlocksRefs(l.entry.blocks) else []
  }

  /** The references of a file, in the order they are read. */
  function Refs(ls: seq<Line>): seq<string> {
    if ls == [] then [] else LineRefs(ls[0]) + Refs(ls[1..])
  }

  function Drop(c: Cache): Stored -> nat { m => if ReadMedia(c, m).None? then 1 else 0 }

  function BlockDrops(c: Cache): Block<Stored> -> nat { (b: Block<Stored>) => if Known(b.kind) then Sum(Drop(c), b.media) else 0 }

  function LineDrops(c: Cache): Line -> nat { (l: Line) => if l.EntryLine? then Sum(BlockDrops(c), l.entry.blocks) else 0 }

  function Strange(b: Block<Stored>): nat { if Known(b.kind) then 0 else 1 }

  function LineStrange(l: Line): nat {
    match l
    case EntryLine(e) => Sum(Strange, e.blocks)
    case Boundary(_) => 0
    case Unknown(_) => 1
  }

  /** One medium of `blockToTranscript`. `rest` are the references still to come, and `last` is the cache they will leave. */
  method MediaToTranscript(cache: MediaCache, m: Stored, losses: LossReport, ghost rest: seq<string>, ghost last: Cache) returns (tm: Option<Media>)
    requires MediaOk(m) && last == Load(cache.store, cache.lim, cache.State(), (if m.attachment == "" then [] else [m.attachment]) + rest)
    modifies cache, losses
    ensures tm == ReadMedia(last, m) && last == Load(cache.store, cache.lim, cache.State(), rest)
    ensures Count(losses.items, MediaDropped) == Count(old(losses.items), MediaDropped) + Drop(last)(m)
    ensures Count(losses.items, UnknownRecord) == Count(old(losses.items), UnknownRecord)
  {
    hide Count, Merged, Get;
    if m.attachment == "" {
      assert [] + rest == rest;
      return Some(Media(m.mediaType, [], m.path, m.url, m.name));
    }
    assert ([m.attachment] + rest)[1..] == rest;
    var d := cache.Fetch(m.attachment);
    Sticky(cache.store, cache.lim, cache.State(), rest, m.attachment);
    if d.None? {
      losses.Add(MediaDropped, 1, "");
      return None;
    }
    tm := Some(Media(m.mediaType, d.value, m.path, m.url, m.name));
  }

  /** `blockToTranscript`. */
  method BlockToTranscript(cache: MediaCache, b: Block<Stored>, losses: LossReport, ghost rest: seq<string>, ghost last: Cache)
    returns (tb: Block<Media>)
    requires BlockOk(b) && last == Load(cache.store, cache.lim, cache.State(), BlockRefs(b) + rest)
    modifies cache, losses
    ensures tb == ReadBlock(last, b) && last == Load(cache.store, cache.lim, cache.State(), rest)
    ensures Count(losses.items, MediaDropped) == Count(old(losses.items), MediaDropped) + BlockDrops(last)(b)
    ensures Count(losses.items, UnknownRecord) == Count(old(losses.items), UnknownRecord) + Strange(b)
  {
    hide Count, Merged, Load, MediaOk, Known;
    if Known(b.kind) {
      var media := MediasToTranscript(cache, b.media, losses, rest, last);
      return WithMedia(b, media);
    }
    losses.Add(UnknownRecord, 1, "paf block kind " + b.kind);
    assert [] + rest == rest;
    tb := Unsupported(b);
  }

  method MediasToTranscript(cache: MediaCache, ms: seq<Stored>, losses: LossReport, ghost rest: seq<string>, ghost last: Cache)
    returns (media: seq<Media>)
    requires (forall m :: m in ms ==> MediaOk(m)) && last == Load(cache.store, cache.lim, cache.State(), Collect(RefOf, ms) + rest)
    modifies cache, losses
    ensures media == Collect(ReadingMedia(last), ms) && last == Load(cache.store, cache.lim, cache.State(), rest)
    ensures Count(losses.items, MediaDropped) == Count(old(losses.items), MediaDropped) + Sum(Drop(last), ms)
    ensures Count(losses.items, UnknownRecord) == Count(old(losses.items), UnknownRecord)
  {
    hide Count, Merged, Load, MediaOk, ReadMedia, Sum;
    assert ms[..0] == [] && ms[0..] == ms;
    Nothing(ReadingMedia(last), Drop(last));
    media := [];
    for k := 0 to |ms|
      invariant last == Load(cache.store, cache.lim, cache.State(), Collect(RefOf, ms[k..]) + rest)
      invariant media == Collect(ReadingMedia(last), ms[..k])
      invariant Count(losses.items, MediaDropped) == Count(old(losses.items), MediaDropped) + Sum(Drop(last), ms[..k])
      invariant Count(losses.items, UnknownRecord) == Count(old(losses.items), UnknownRecord)
    {
      var m := ms[k];
      assert m in ms && ms[..k + 1] == ms[..k] + [m] && ms[k..][1..] == ms[k + 1..];
      CollectMore(ReadingMedia(last), ms[..k], m);
      SumMore(Drop(last), ms[..k], m);
      ghost var more := Collect(RefOf, ms[k + 1..]) + rest;
      assert Collect(RefOf, ms[k..]) + rest == (if m.attachment == "" then [] else [m.attachment]) + more;
      var tm := MediaToTranscript(cache, m, losses, more, last);
      if tm.Some? { media := media + [tm.value]; }
    }
    assert ms[..|ms|] == ms;
    assert Collect(RefOf, ms[|ms|..]) + rest == rest;
  }

  method EntryToTranscript(cache: MediaCache, e: Entry<Stored>, losses: LossReport, ghost rest: seq<string>, ghost last: Cache)
    returns (te: Entry<Media>)
    requires (forall b :: b in e.blocks ==> BlockOk(b)) && last == Load(cache.store, cache.lim, cache.State(), BlocksRefs(e.blocks) + rest)
    modifies cache, losses
    ensures te == WithBlocks(e, Collect(ReadingBlock(last), e.blocks)) && last == Load(cache.store, cache.lim, cache.State(), rest)
    ensures Count(losses.items, MediaDropped) == Count(old(losses.items), MediaDropped) + Sum(BlockDrops(last), e.blocks)
    ensures Count(losses.items, UnknownRecord) == Count(old(losses.items), UnknownRecord) + Sum(Strange, e.blocks)
  {
    hide Count, Merged, Get, BlockOk, Load, ReadBlock, BlockRefs, Strange, BlockDrops, Collect, Sum;
    assert e.blocks[..0] == [] && e.blocks[0..] == e.blocks;
    Nothing(ReadingBlock(last), BlockDrops(last));
    Nothing(ReadingBlock(last), Strange);
    var blocks: seq<Block<Media>> := [];
    for k := 0 to |e.blocks|
      invariant last == Load(cache.store, cache.lim, cache.State(), BlocksRefs(e.blocks[k..]) + rest)
      invariant blocks == Collect(ReadingBlock(last), e.blocks[..k])
      invariant Count(losses.items, MediaDropped) == Count(old(losses.items), MediaDropped) + Sum(BlockDrops(last), e.blocks[..k])
      invariant Count(losses.items, UnknownRecord) == Count(old(losses.items), UnknownRecord) + Sum(Strange, e.blocks[..k])
    {
      var b := e.blocks[k];
      assert b in e.blocks && BlockOk(b);
      assert e.blocks[..k + 1] == e.blocks[..k] + [b];
      assert e.blocks[k..][1..] == e.blocks[k + 1..];
      CollectMore(ReadingBlock(last), e.blocks[..k], b);
      SumMore(BlockDrops(last), e.blocks[..k], b);
      SumMore(Strange, e.blocks[..k], b);
      ghost var more := BlocksRefs(e.blocks[k + 1..]) + rest;
      assert BlocksRefs(e.blocks[k..]) + rest == BlockRefs(b) + more;
      var tb := BlockToTranscript(cache, b, losses, more, last);
      blocks := blocks + [tb];
    }
    assert e.blocks[..|e.blocks|] == e.blocks;
    assert BlocksRefs(e.blocks[|e.blocks|..]) + rest == rest;
    te := WithBlocks(e, blocks);
  }

  /** `ReadTranscript`, from an archive's attachments and the lines of one of its context files. */
  method ReadTranscript(store: map<string, Bytes>, ls: seq<Line>, maxMedia: int, maxTotal: int, losses: LossReport) returns (r: Result<seq<Entry<Media>>>)
    requires losses.items == []
    modifies losses
    ensures r.Ok? <==> forall l :: l in ls ==> LineOk(l)
    // an option that is not positive stands for 64 MiB an item, and for 256 MiB in all
    ensures var last := Load(store, Budget(if maxMedia <= 0 then 67108864 else maxMedia, if maxTotal <= 0 then 268435456 else maxTotal), Cache(map[], 0), Refs(ls));
      r.Ok? ==>
        && r.value == Collect(ReadingLine(last), ls)
        && Count(losses.items, MediaDropped) == Sum(LineDrops(last), ls)
        && Count(losses.items, UnknownRecord) == Sum(LineStrange, ls)
  {
    hide Merged, Get, Load, LineOk, BlockOk, LineStrange, LineRefs, Collect, Sum, LineDrops;
    var cache := new MediaCache(store, Effective(maxMedia, maxTotal));
    ghost var last := Load(store, Effective(maxMedia, maxTotal), Cache(map[], 0), Refs(ls));
    var entries: seq<Entry<Media>> := [];
    assert ls[..0] == [] && ls[0..] == ls;
    Nothing(ReadingLine(last), LineDrops(last));
    Nothing(ReadingLine(last), LineStrange);
    for k := 0 to |ls|
      invariant forall i :: 0 <= i < k ==> LineOk(ls[i])
      invariant last == Load(cache.store, cache.lim, cache.State(), Refs(ls[k..]))
      invariant entries == Collect(ReadingLine(last), ls[..k])
      invariant Count(losses.items, MediaDropped) == Sum(LineDrops(last), ls[..k])
      invariant Count(losses.items, UnknownRecord) == Sum(LineStrange, ls[..k])
    {
      var l := ls[k];
      assert l in ls && ls[..k + 1] == ls[..k] + [l] && ls[k..][1..] == ls[k + 1..];
      CollectMore(ReadingLine(last), ls[..k], l);
      SumMore(LineDrops(last), ls[..k], l);
      SumMore(LineStrange, ls[..k], l);
      if !LineOk(l) { return Err; }
      var te := LineToTranscript(cache, l, losses, Refs(ls[k + 1..]), last);
      if te.Some? { entries := entries + [te.value]; }
    }
    assert ls[..|ls|] == ls;
    r := Ok(entries);
  }

  method LineToTranscript(cache: MediaCache, l: Line, losses: LossReport, ghost rest: seq<string>, ghost last: Cache) returns (te: Option<Entry<Media>>)
    requires LineOk(l) && last == Load(cache.store, cache.lim, cache.State(), LineRefs(l) + rest)
    modifies cache, losses
    ensures te == ReadLine(last, l) && last == Load(cache.store, cache.lim, cache.State(), rest)
    ensures Count(losses.items, MediaDropped) == Count(old(losses.items), MediaDropped) + LineDrops(last)(l)
    ensures Count(losses.items, UnknownRecord) == Count(old(losses.items), UnknownRecord) + LineStrange(l)
  {
    hide Count, Merged, Get, BlockOk, Load;
    assert [] + rest == rest;
    match l
    case EntryLine(e) =>
      var entry := EntryToTranscript(cache, e, losses, rest, last);
      te := Some(entry);
    case Boundary(_) => te := None;
    case Unknown(kind) =>
      losses.Add(UnknownRecord, 1, "paf line type " + kind);
      te := None;
  }
}
