/** What survives a transcript's way into an archive and back, and what the loss reports say of the rest. */
module TranscriptRoundTrip {
  import opened Basics
  import opened Transcript

  // ----- the normalised transcript -----

  /** Inline data is preferred over a URL, and a URL over a path; media that leads nowhere goes. */
  function NormalMedia(m: Media): Option<Media> {
    if m.data != [] then Some(m.(url := "", path := ""))
    else if m.url != "" then Some(m.(path := ""))
    else if m.path != "" then Some(m)
    else None
  }

  /** Blank blocks and media blocks without media go. */
  function NormalBlock(b: Block<Media>): Option<Block<Media>> {
    var media := Collect(NormalMedia, b.media);
    if (b.kind in {"text", "summary"} && b.text == "") || (b.kind == "media" && media == []) then None else Some(b.(media := media))
  }

  /** The kinds of blocks a reader knows. */
  lemma KindsKnown(kind: string)
    ensures Known(kind) <==> kind in ["text", "thinking", "tool_call", "tool_result", "media", "summary"]
  {
  }

  /** Entries without blocks go. */
  function NormalEntry(e: Entry<Media>): Option<Entry<Media>> {
    var blocks := Collect(NormalBlock, e.blocks);
    if blocks == [] then None else Some(e.(blocks := blocks))
  }

  function Normal(t: seq<Entry<Media>>): seq<Entry<Media>> { Collect(NormalEntry, t) }

  // ----- budgets -----

  function Content(store: map<string, Bytes>, ref: string): Option<Bytes> {
    var h := HashOf(ref);
    if h.Some? && h.value in store then Some(store[h.value]) else None
  }

  function SizeOf(store: map<string, Bytes>, ref: string): nat {
    match Content(store, ref) case Some(d) => |d| case None => 0
  }

  /** The bytes of the references not tried yet, each counted once. */
  function Need(store: map<string, Bytes>, refs: seq<string>, tried: set<string>): nat {
    if refs == [] then 0
    else if refs[0] in tried then Need(store, refs[1..], tried)
    else SizeOf(store, refs[0]) + Need(store, refs[1..], tried + {refs[0]})
  }

  /** Each attachment fits the item budget, and all of them, counted once, the total. */
  predicate Sufficient(store: map<string, Bytes>, lim: Budget, refs: seq<string>) {
    (forall r :: r in refs ==> SizeOf(store, r) <= lim.item) && Need(store, refs, {}) <= lim.total
  }

  /** What the cache holds is what the store holds. */
  predicate Sound(store: map<string, Bytes>, c: Cache) {
    forall r :: r in c.data ==> c.data[r].Some? && c.data[r] == Content(store, r)
  }

  lemma {:induction false} BudgetsFrom(store: map<string, Bytes>, lim: Budget, c: Cache, refs: seq<string>)
    requires Sound(store, c) && c.total <= lim.total && forall r :: r in refs ==> Content(store, r).Some?
    ensures (forall r :: r in refs ==> Lookup(Load(store, lim, c, refs), r).Some?) <==>
      (forall r :: r in refs && r !in c.data ==> SizeOf(store, r) <= lim.item) && c.total + Need(store, refs, c.data.Keys) <= lim.total
    ensures (forall r :: r in refs ==> Lookup(Load(store, lim, c, refs), r).Some?) ==>
      forall r :: r in refs ==> Lookup(Load(store, lim, c, refs), r) == Content(store, r)
    decreases |refs|
  {
    if refs != [] {
      var ref, rest, next := refs[0], refs[1..], Get(store, lim, c, refs[0]);
      assert refs == [ref] + rest && ref in refs && Content(store, ref).Some?;
      Sticky(store, lim, next, rest, ref);
      if ref in c.data {
        BudgetsFrom(store, lim, c, rest);
      } else if SizeOf(store, ref) <= lim.item && c.total + SizeOf(store, ref) <= lim.total {
        assert next.data.Keys == c.data.Keys + {ref};
        BudgetsFrom(store, lim, next, rest);
      }
    }
  }

  /** Every reference is delivered exactly when the budgets suffice. */
  lemma Budgets(store: map<string, Bytes>, lim: Budget, refs: seq<string>)
    requires forall r :: r in refs ==> Content(store, r).Some?
    ensures var last := Load(store, lim, Cache(map[], 0), refs);
      && ((forall r :: r in refs ==> Lookup(last, r).Some?) <==> Sufficient(store, lim, refs))
      && (Sufficient(store, lim, refs) ==> forall r :: r in refs ==> Lookup(last, r) == Content(store, r))
  {
    var none: map<string, Option<Bytes>> := map[];
    assert none.Keys == {};
    BudgetsFrom(store, lim, Cache(map[], 0), refs);
  }

  // ----- collecting -----

  /** Two ways that keep the same things give the same list exactly when they agree on each. */
  lemma {:induction false} CollectSame<A(!new), B>(f: A -> Option<B>, g: A -> Option<B>, s: seq<A>)
    requires forall x :: x in s ==> (f(x).None? <==> g(x).None?)
    ensures |Collect(f, s)| == |Collect(g, s)|
    ensures Collect(f, s) == Collect(g, s) <==> forall x :: x in s ==> f(x) == g(x)
  {
    if s != [] {
      assert s[0] in s && s == [s[0]] + s[1..];
      CollectSame(f, g, s[1..]);
      var a, b := Collect(f, s[1..]), Collect(g, s[1..]);
      assert [] + a == a && [] + b == b;
      if f(s[0]).Some? {
        assert ([f(s[0]).value] + a)[0] == f(s[0]).value && ([f(s[0]).value] + a)[1..] == a;
        assert ([g(s[0]).value] + b)[0] == g(s[0]).value && ([g(s[0]).value] + b)[1..] == b;
      }
    }
  }

  lemma {:induction false} CollectLength<A(!new), B, C>(f: A -> Option<B>, g: A -> Option<C>, s: seq<A>)
    requires forall x :: x in s ==> (f(x).None? <==> g(x).None?)
    ensures |Collect(f, s)| == |Collect(g, s)|
  {
    if s != [] {
      assert s[0] in s;
      CollectLength(f, g, s[1..]);
    }
  }

  // ----- references -----

  lemma {:induction false} RefInBlocks(bs: seq<Block<Stored>>, b: Block<Stored>, ref: string)
    requires b in bs && ref in BlockRefs(b)
    ensures ref in BlocksRefs(bs)
  {
    if bs[0] != b { RefInBlocks(bs[1..], b, ref); }
  }

  lemma {:induction false} RefInLines(ls: seq<Line>, l: Line, ref: string)
    requires l in ls && ref in LineRefs(l)
    ensures ref in Refs(ls)
  {
    if ls[0] != l { RefInLines(ls[1..], l, ref); }
  }

  lemma {:induction false} BlocksRefsFrom(bs: seq<Block<Stored>>, ref: string)
    requires ref in BlocksRefs(bs)
    ensures exists b :: b in bs && ref in BlockRefs(b)
  {
    if ref in BlockRefs(bs[0]) { assert bs[0] in bs; } else { BlocksRefsFrom(bs[1..], ref); }
  }

  lemma {:induction false} RefsFrom(ls: seq<Line>, ref: string)
    requires ref in Refs(ls)
    ensures exists l :: l in ls && ref in LineRefs(l)
  {
    if ref in LineRefs(ls[0]) { assert ls[0] in ls; } else { RefsFrom(ls[1..], ref); }
  }

  lemma StoredRef(sha: Bytes -> string, d: Bytes)
    requires ValidHash(sha(d))
    ensures HashOf(PREFIX + sha(d)) == Some(sha(d)) && PREFIX + sha(d) == "sha256:" + sha(d)
  {
    assert (PREFIX + sha(d))[|PREFIX|..] == sha(d);
  }

  /** The store delivers what the transcript holds. */
  predicate Holds(sha: Bytes -> string, store: map<string, Bytes>, contents: set<Bytes>) {
    forall d :: d in contents ==> sha(d) in store && store[sha(d)] == d
  }

  lemma RefFromBlock(sha: Bytes -> string, b: Block<Media>, ref: string)
    requires StoreBlock(sha, b).Some? && ref in BlockRefs(StoreBlock(sha, b).value)
    ensures exists m :: m in b.media && m.data != [] && ref == PREFIX + sha(m.data)
  {
    hide Known, Collect, Blank;
    var media := Collect(StoringMedia(sha), b.media);
    CollectFrom(RefOf, media, ref);
    var x :| x in media && RefOf(x) == Some(ref);
    CollectFrom(StoringMedia(sha), b.media, x);
    var m :| m in b.media && StoringMedia(sha)(m) == Some(x);
  }

  lemma RefFromEntry(sha: Bytes -> string, e: Entry<Media>, ref: string)
    requires StoreEntry(sha, e).Some? && ref in LineRefs(StoreEntry(sha, e).value)
    ensures exists b :: b in e.blocks && StoreBlock(sha, b).Some? && ref in BlockRefs(StoreBlock(sha, b).value)
  {
    hide StoreBlock, BlockRefs;
    var blocks := Collect(StoringBlock(sha), e.blocks);
    BlocksRefsFrom(blocks, ref);
    var x :| x in blocks && ref in BlockRefs(x);
    CollectFrom(StoringBlock(sha), e.blocks, x);
    var b :| b in e.blocks && StoringBlock(sha)(b) == Some(x);
  }

  /** Every reference of the written lines is in the store. */
  lemma WrittenPresent(sha: Bytes -> string, store: map<string, Bytes>, t: seq<Entry<Media>>, ref: string)
    requires (forall d :: ValidHash(sha(d))) && Holds(sha, store, InEntries(t)) && ref in Refs(Lines(sha, t))
    ensures exists d :: d in InEntries(t) && ref == PREFIX + sha(d) && Content(store, ref) == Some(d)
  {
    hide ValidHash, HashOf, LineRefs, BlockRefs, StoreBlock, StoreEntry;
    RefsFrom(Lines(sha, t), ref);
    var l :| l in Lines(sha, t) && ref in LineRefs(l);
    CollectFrom(StoringEntry(sha), t, l);
    var e :| e in t && StoringEntry(sha)(e) == Some(l);
    RefFromEntry(sha, e, ref);
    var b :| b in e.blocks && StoreBlock(sha, b).Some? && ref in BlockRefs(StoreBlock(sha, b).value);
    RefFromBlock(sha, b, ref);
    var m :| m in b.media && m.data != [] && ref == PREFIX + sha(m.data);
    assert m.data in InEntries(t);
    StoredRef(sha, m.data);
  }

  /** The bytes of these contents, each counted once. */
  ghost function TotalOf(contents: set<Bytes>): nat {
    if contents == {} then 0 else var d :| d in contents; |d| + TotalOf(contents - {d})
  }

  lemma {:induction false} TotalWithout(contents: set<Bytes>, d: Bytes)
    requires d in contents
    ensures TotalOf(contents) == |d| + TotalOf(contents - {d})
  {
    var c :| c in contents && TotalOf(contents) == |c| + TotalOf(contents - {c});
    if c != d {
      TotalWithout(contents - {c}, d);
      TotalWithout(contents - {d}, c);
      assert contents - {c} - {d} == contents - {d} - {c};
    }
  }

  /** References need no more than the contents they stand for. */
  lemma {:induction false} NeedWithin(sha: Bytes -> string, store: map<string, Bytes>, refs: seq<string>, tried: set<string>, contents: set<Bytes>)
    requires forall r :: r in refs && r !in tried ==> exists d :: d in contents && r == PREFIX + sha(d) && Content(store, r) == Some(d)
    ensures Need(store, refs, tried) <= TotalOf(contents)
    decreases |refs|
  {
    hide Content;
    if refs != [] {
      var ref, rest := refs[0], refs[1..];
      assert refs == [ref] + rest;
      if ref in tried {
        NeedWithin(sha, store, rest, tried, contents);
      } else {
        assert ref in refs;
        var d :| d in contents && ref == PREFIX + sha(d) && Content(store, ref) == Some(d);
        forall r | r in rest && r !in tried + {ref} ensures exists c :: c in contents - {d} && r == PREFIX + sha(c) && Content(store, r) == Some(c) {
          assert r in refs;
          var c :| c in contents && r == PREFIX + sha(c) && Content(store, r) == Some(c);
          assert c != d;
        }
        NeedWithin(sha, store, rest, tried + {ref}, contents - {d});
        TotalWithout(contents, d);
      }
    }
  }

  /** Budgets that hold every item, and all of them together, suffice. */
  lemma EnoughForAll(sha: Bytes -> string, store: map<string, Bytes>, lim: Budget, t: seq<Entry<Media>>)
    requires (forall d :: ValidHash(sha(d))) && Holds(sha, store, InEntries(t))
    requires (forall d :: d in InEntries(t) ==> |d| <= lim.item) && TotalOf(InEntries(t)) <= lim.total
    ensures Sufficient(store, lim, Refs(Lines(sha, t)))
  {
    hide ValidHash, Holds, InEntries, Lines, Refs, TotalOf, Content;
    var refs := Refs(Lines(sha, t));
    forall r | r in refs ensures exists d :: d in InEntries(t) && r == PREFIX + sha(d) && Content(store, r) == Some(d) {
      WrittenPresent(sha, store, t, r);
    }
    NeedWithin(sha, store, refs, {}, InEntries(t));
    forall r | r in refs ensures SizeOf(store, r) <= lim.item {
      var d :| d in InEntries(t) && r == PREFIX + sha(d) && Content(store, r) == Some(d);
    }
  }

  /** Inline data of a kept block of a known kind is among the references. */
  lemma InlineReferenced(sha: Bytes -> string, t: seq<Entry<Media>>, e: Entry<Media>, b: Block<Media>, m: Media)
    requires e in t && b in e.blocks && m in b.media && m.data != [] && StoreBlock(sha, b).Some? && Known(b.kind)
    ensures PREFIX + sha(m.data) in Refs(Lines(sha, t))
  {
    var ref := PREFIX + sha(m.data);
    var sb := StoreBlock(sha, b).value;
    CollectAll(StoringMedia(sha), b.media, m);
    assert StoringMedia(sha)(m).value in sb.media;
    CollectAll(RefOf, sb.media, StoringMedia(sha)(m).value);
    CollectAll(StoringBlock(sha), e.blocks, b);
    var l := StoreEntry(sha, e);
    RefInBlocks(l.value.entry.blocks, sb, ref);
    CollectAll(StoringEntry(sha), t, e);
    RefInLines(Lines(sha, t), l.value, ref);
  }

  // ----- there and back -----

  predicate Delivered(sha: Bytes -> string, c: Cache, m: Media) {
    m.data != [] ==> Lookup(c, PREFIX + sha(m.data)) == Some(m.data)
  }

  /** A block of a known kind comes back as its normal form, and no other block does. */
  lemma BlockBack(sha: Bytes -> string, c: Cache, b: Block<Media>)
    requires Known(b.kind) && StoreBlock(sha, b).Some? ==> forall m :: m in b.media ==> Delivered(sha, c, m)
    ensures StoreBlock(sha, b).None? <==> NormalBlock(b).None?
    ensures StoreBlock(sha, b).Some? ==> (Some(ReadBlock(c, StoreBlock(sha, b).value)) == NormalBlock(b) <==> Known(b.kind))
  {
    hide Lookup;
    CollectLength(StoringMedia(sha), NormalMedia, b.media);
    if StoreBlock(sha, b).Some? && Known(b.kind) {
      forall m | m in b.media
        ensures match StoringMedia(sha)(m) case Some(x) => ReadingMedia(c)(x) == NormalMedia(m) case None => NormalMedia(m).None?
      {
        assert Delivered(sha, c, m);
      }
      CollectChain(StoringMedia(sha), ReadingMedia(c), NormalMedia, b.media);
    }
  }

  /** The whole way of one block, and of one entry. */
  function BlockReturned(sha: Bytes -> string, c: Cache): Block<Media> -> Option<Block<Media>> {
    (b: Block<Media>) => match StoreBlock(sha, b) case Some(x) => Some(ReadBlock(c, x)) case None => None
  }

  function EntryReturned(sha: Bytes -> string, c: Cache): Entry<Media> -> Option<Entry<Media>> {
    (e: Entry<Media>) => match StoreEntry(sha, e) case Some(l) => ReadLine(c, l) case None => None
  }

  predicate KnownEntry(sha: Bytes -> string, e: Entry<Media>) {
    forall b :: b in e.blocks && StoreBlock(sha, b).Some? ==> Known(b.kind)
  }

  lemma EntryBack(sha: Bytes -> string, c: Cache, e: Entry<Media>)
    requires forall b, m :: b in e.blocks && Known(b.kind) && StoreBlock(sha, b).Some? && m in b.media ==> Delivered(sha, c, m)
    ensures EntryReturned(sha, c)(e).None? <==> NormalEntry(e).None?
    ensures EntryReturned(sha, c)(e) == NormalEntry(e) <==> KnownEntry(sha, e)
  {
    hide StoreBlock, NormalBlock, ReadBlock, Delivered;
    forall b | b in e.blocks
      ensures StoreBlock(sha, b).None? <==> NormalBlock(b).None?
      ensures StoreBlock(sha, b).Some? ==> (Some(ReadBlock(c, StoreBlock(sha, b).value)) == NormalBlock(b) <==> Known(b.kind))
    {
      BlockBack(sha, c, b);
    }
    CollectLength(StoringBlock(sha), NormalBlock, e.blocks);
    CollectChain(StoringBlock(sha), ReadingBlock(c), BlockReturned(sha, c), e.blocks);
    CollectSame(BlockReturned(sha, c), NormalBlock, e.blocks);
    assert (forall b :: b in e.blocks ==> BlockReturned(sha, c)(b) == NormalBlock(b)) <==> KnownEntry(sha, e);
  }

  /**
   The round trip: when the store holds the inline data and the budgets suffice, reading what was written gives the
   normalised transcript if and only if every kept block is of a known kind.
   */
  lemma RoundTrip(sha: Bytes -> string, store: map<string, Bytes>, lim: Budget, t: seq<Entry<Media>>)
    requires (forall d :: ValidHash(sha(d))) && Holds(sha, store, InEntries(t)) && Sufficient(store, lim, Refs(Lines(sha, t)))
    ensures var last := Load(store, lim, Cache(map[], 0), Refs(Lines(sha, t)));
      Collect(ReadingLine(last), Lines(sha, t)) == Normal(t) <==> forall e :: e in t ==> KnownEntry(sha, e)
  {
    hide StoreEntry, NormalEntry, ReadLine, KnownEntry, ValidHash, StoreBlock, Known, InEntries, Sufficient, Load;
    var refs := Refs(Lines(sha, t));
    var last := Load(store, lim, Cache(map[], 0), refs);
    forall r | r in refs ensures Content(store, r).Some? { WrittenPresent(sha, store, t, r); }
    Budgets(store, lim, refs);
    forall e | e in t
      ensures EntryReturned(sha, last)(e).None? <==> NormalEntry(e).None?
      ensures EntryReturned(sha, last)(e) == NormalEntry(e) <==> KnownEntry(sha, e)
    {
      EntryDelivered(sha, store, last, t, e);
      EntryBack(sha, last, e);
    }
    CollectChain(StoringEntry(sha), ReadingLine(last), EntryReturned(sha, last), t);
    CollectSame(EntryReturned(sha, last), NormalEntry, t);
  }

  lemma EntryDelivered(sha: Bytes -> string, store: map<string, Bytes>, last: Cache, t: seq<Entry<Media>>, e: Entry<Media>)
    requires (forall d :: ValidHash(sha(d))) && Holds(sha, store, InEntries(t)) && e in t
    requires forall r :: r in Refs(Lines(sha, t)) ==> Lookup(last, r) == Content(store, r)
    ensures forall b, m :: b in e.blocks && Known(b.kind) && StoreBlock(sha, b).Some? && m in b.media ==> Delivered(sha, last, m)
  {
    hide StoreBlock, Known, ValidHash, Lookup, Refs, Lines;
    forall b, m | b in e.blocks && Known(b.kind) && StoreBlock(sha, b).Some? && m in b.media ensures Delivered(sha, last, m) {
      if m.data != [] {
        InlineReferenced(sha, t, e, b, m);
        StoredRef(sha, m.data);
        assert m.data in InEntries(t);
      }
    }
  }

  // ----- conservation -----

  lemma {:induction false} SumAdds<A(!new)>(f: A -> nat, g: A -> nat, h: A -> nat, all: A -> nat, s: seq<A>)
    requires forall x :: x in s ==> f(x) + g(x) + h(x) == all(x)
    ensures Sum(f, s) + Sum(g, s) + Sum(h, s) == Sum(all, s)
  {
    if s != [] {
      assert s[0] in s;
      SumAdds(f, g, h, all, s[1..]);
    }
  }

  /** Counting what `g` made of a list. */
  lemma {:induction false} SumCollect<A(!new), B>(f: B -> nat, g: A -> Option<B>, h: A -> nat, s: seq<A>)
    requires forall x :: x in s ==> h(x) == match g(x) case Some(y) => f(y) case None => 0
    ensures Sum(f, Collect(g, s)) == Sum(h, s)
  {
    if s != [] {
      assert s[0] in s;
      SumCollect(f, g, h, s[1..]);
      var rest := Collect(g, s[1..]);
      match g(s[0])
      case Some(y) => assert ([y] + rest)[1..] == rest;
      case None => assert [] + rest == rest;
    }
  }

  /** Whatever is not kept is missed. */
  lemma {:induction false} CollectMisses<A(!new), B>(f: A -> Option<B>, miss: A -> nat, s: seq<A>)
    requires forall x :: x in s ==> miss(x) == if f(x).None? then 1 else 0
    ensures |Collect(f, s)| + Sum(miss, s) == |s|
  {
    if s != [] {
      assert s[0] in s;
      CollectMisses(f, miss, s[1..]);
    }
  }

  function MediaOf(b: Block<Media>): nat { |b.media| }

  function MediaOfEntry(e: Entry<Media>): nat { Sum(MediaOf, e.blocks) }

  function StoredOf(b: Block<Stored>): nat { |b.media| }

  function StoredOfLine(l: Line): nat { if l.EntryLine? then Sum(StoredOf, l.entry.blocks) else 0 }

  /** Media of a blank block: it goes with the block, and no loss is recorded. */
  function Silent(b: Block<Media>): nat { if Blank(b) then |b.media| else 0 }

  function SilentEntry(e: Entry<Media>): nat { Sum(Silent, e.blocks) }

  /** Media of a block whose kind the reader does not know: the block is recorded as a loss, not its media. */
  function Unread(b: Block<Stored>): nat { if Known(b.kind) then 0 else |b.media| }

  function UnreadLine(l: Line): nat { if l.EntryLine? then Sum(Unread, l.entry.blocks) else 0 }

  function BlockKeeps(sha: Bytes -> string): Block<Media> -> nat {
    (b: Block<Media>) => match StoreBlock(sha, b) case Some(x) => StoredOf(x) case None => 0
  }

  function EntryKeeps(sha: Bytes -> string): Entry<Media> -> nat {
    (e: Entry<Media>) => match StoreEntry(sha, e) case Some(l) => StoredOfLine(l) case None => 0
  }

  /** Writing: every medium is in the lines, recorded as dropped, or part of a blank block. */
  lemma WritingConserves(sha: Bytes -> string, t: seq<Entry<Media>>)
    ensures Sum(StoredOfLine, Lines(sha, t)) + Sum(LostInEntry, t) + Sum(SilentEntry, t) == Sum(MediaOfEntry, t)
    ensures |Lines(sha, t)| + Sum(Empty(sha), t) == |t|
  {
    hide StoreEntry, StoredOfLine;
    CollectMisses(StoringEntry(sha), Empty(sha), t);
    SumCollect(StoredOfLine, StoringEntry(sha), EntryKeeps(sha), t);
    forall e | e in t ensures EntryKeeps(sha)(e) + LostInEntry(e) + SilentEntry(e) == MediaOfEntry(e) {
      EntryConserves(sha, e);
    }
    SumAdds(EntryKeeps(sha), LostInEntry, SilentEntry, MediaOfEntry, t);
  }

  lemma EntryConserves(sha: Bytes -> string, e: Entry<Media>)
    ensures EntryKeeps(sha)(e) + LostInEntry(e) + SilentEntry(e) == MediaOfEntry(e)
  {
    hide StoreBlock, Blank;
    SumCollect(StoredOf, StoringBlock(sha), BlockKeeps(sha), e.blocks);
    forall b | b in e.blocks ensures BlockKeeps(sha)(b) + LostIn(b) + Silent(b) == MediaOf(b) {
      BlockConserves(sha, b);
    }
    SumAdds(BlockKeeps(sha), LostIn, Silent, MediaOf, e.blocks);
  }

  lemma BlockConserves(sha: Bytes -> string, b: Block<Media>)
    ensures BlockKeeps(sha)(b) + LostIn(b) + Silent(b) == MediaOf(b)
  {
    CollectMisses(StoringMedia(sha), One, b.media);
  }

  function BlockReads(c: Cache): Block<Stored> -> nat { (b: Block<Stored>) => MediaOf(ReadBlock(c, b)) }

  function LineReads(c: Cache): Line -> nat {
    (l: Line) => match ReadLine(c, l) case Some(e) => MediaOfEntry(e) case None => 0
  }

  /** Reading: every medium of the lines is in the transcript, recorded as dropped, or part of a block of an unknown kind. */
  lemma ReadingConserves(c: Cache, ls: seq<Line>)
    ensures Sum(MediaOfEntry, Collect(ReadingLine(c), ls)) + Sum(LineDrops(c), ls) + Sum(UnreadLine, ls) == Sum(StoredOfLine, ls)
  {
    hide ReadLine, MediaOfEntry;
    SumCollect(MediaOfEntry, ReadingLine(c), LineReads(c), ls);
    forall l | l in ls ensures LineReads(c)(l) + LineDrops(c)(l) + UnreadLine(l) == StoredOfLine(l) {
      LineConserves(c, l);
    }
    SumAdds(LineReads(c), LineDrops(c), UnreadLine, StoredOfLine, ls);
  }

  lemma LineConserves(c: Cache, l: Line)
    ensures LineReads(c)(l) + LineDrops(c)(l) + UnreadLine(l) == StoredOfLine(l)
  {
    if l.EntryLine? {
      SumCollect(MediaOf, ReadingBlock(c), BlockReads(c), l.entry.blocks);
      forall b | b in l.entry.blocks ensures BlockReads(c)(b) + BlockDrops(c)(b) + Unread(b) == StoredOf(b) {
        CollectMisses(ReadingMedia(c), Drop(c), b.media);
      }
      SumAdds(BlockReads(c), BlockDrops(c), Unread, StoredOf, l.entry.blocks);
    }
  }

  // ----- end to end -----

  lemma {:induction false} CollectFull<A(!new), B>(f: A -> Option<B>, s: seq<A>)
    requires forall x :: x in s ==> f(x).Some?
    ensures |Collect(f, s)| == |s|
  {
    if s != [] {
      assert s[0] in s;
      CollectFull(f, s[1..]);
    }
  }

  /** The written lines can be read exactly when every kept entry is named properly. */
  lemma WrittenReadable(sha: Bytes -> string, t: seq<Entry<Media>>)
    requires forall d :: ValidHash(sha(d))
    ensures (forall l :: l in Lines(sha, t) ==> LineOk(l)) <==> forall e :: e in t && StoreEntry(sha, e).Some? ==> Named(sha, e)
    ensures forall l :: l in Lines(sha, t) ==> l.EntryLine?
  {
    hide LineOk, Named, ValidHash, StoreBlock;
    forall e | e in t && StoreEntry(sha, e).Some?
      ensures StoreEntry(sha, e).value in Lines(sha, t) && (LineOk(StoreEntry(sha, e).value) <==> Named(sha, e))
    {
      CollectAll(StoringEntry(sha), t, e);
      StoredLineOk(sha, e);
    }
    forall l | l in Lines(sha, t) ensures exists e :: e in t && StoreEntry(sha, e) == Some(l) {
      CollectFrom(StoringEntry(sha), t, l);
      var e :| e in t && StoringEntry(sha)(e) == Some(l);
    }
  }

  /** Without collisions, content found under its hash is the content. */
  lemma StoreHolds(sha: Bytes -> string, store: map<string, Bytes>, before: set<Bytes>, contents: set<Bytes>)
    requires Addressed(sha, store) && store.Values <= before + contents && CollisionFree(sha, before + contents)
    requires forall d :: d in contents ==> sha(d) in store
    ensures Holds(sha, store, contents)
  {
    forall d | d in contents ensures store[sha(d)] == d {
      assert store[sha(d)] in store.Values;
    }
  }

  /** Each of these contents is within one bound, and all of them, counted once, within the other. */
  ghost predicate Small(contents: set<Bytes>, item: nat, total: nat) {
    (forall d :: d in contents ==> |d| <= item) && TotalOf(contents) <= total
  }

  /**
   A transcript written to an archive and read back. What is recorded and what comes back add up to what was given,
   whatever the budgets; with enough of them the transcript comes back in its normal form.
   */
  method Convey(sink: Sink, harness: string, headerBytes: nat, t: seq<Entry<Media>>, maxMedia: int, maxTotal: int)
    returns (written: bool, r: Result<seq<Entry<Media>>>, sent: LossReport, got: LossReport)
    requires (forall d :: ValidHash(sink.sha(d))) && Addressed(sink.sha, sink.store)
    requires CollisionFree(sink.sha, sink.store.Values + InEntries(t)) && sink.total <= sink.maxArchive
    modifies sink
    ensures written ==> (r.Ok? <==> forall e :: e in t && StoreEntry(sink.sha, e).Some? ==> Named(sink.sha, e))
    // enough: within the options that are positive, and within 64 MiB an item and 256 MiB in all where they are not
    ensures written && r.Ok? && Small(InEntries(t), if maxMedia <= 0 then 67108864 else maxMedia, if maxTotal <= 0 then 268435456 else maxTotal) ==>
      (r.value == Normal(t) <==> forall e :: e in t ==> KnownEntry(sink.sha, e))
    ensures var lim := Budget(if maxMedia <= 0 then 67108864 else maxMedia, if maxTotal <= 0 then 268435456 else maxTotal);
      written && r.Ok? && Sufficient(sink.store, lim, Refs(sink.lines)) ==>
      (r.value == Normal(t) <==> forall e :: e in t ==> KnownEntry(sink.sha, e))
    ensures written && r.Ok? ==>
      Sum(MediaOfEntry, t) == Sum(MediaOfEntry, r.value) + Count(sent.items, MediaDropped) + Count(got.items, MediaDropped)
        + Sum(SilentEntry, t) + Sum(UnreadLine, sink.lines)
    ensures written && r.Ok? ==> |t| == |r.value| + Count(sent.items, UnknownRecord)
    // both reports account for all lost media exactly when no medium goes with a block that is skipped or not understood
    ensures written && r.Ok? ==>
      (Sum(MediaOfEntry, t) - Sum(MediaOfEntry, r.value) == Count(sent.items, MediaDropped) + Count(got.items, MediaDropped) <==>
         NoneBlank(t) && NoneUnread(sink.sha, t))
  {
    hide Named, StoreEntry, KnownEntry, LineOk, ValidHash, InEntries, Count, LostInEntry, Empty, Sufficient;
    hide MediaOfEntry, SilentEntry, UnreadLine, LineDrops, LineStrange, Load, Merged, NoneBlank, NoneUnread, WithinRecord, EntriesInline, NewBytes;
    ghost var before := sink.store.Values;
    r := Err;
    sent := new LossReport();
    got := new LossReport();
    assert Count([], MediaDropped) == 0 && Count([], UnknownRecord) == 0 by { NothingCounted(); }
    written := WriteTranscript(sink, harness, headerBytes, t, sent);
    if !written { return; }
    r := ReadTranscript(sink.store, sink.lines, maxMedia, maxTotal, got);
    WrittenReadable(sink.sha, t);
    WritingConserves(sink.sha, t);
    StoreHolds(sink.sha, sink.store, before, InEntries(t));
    ghost var lim := Budget(if maxMedia <= 0 then 67108864 else maxMedia, if maxTotal <= 0 then 268435456 else maxTotal);
    ghost var last := Load(sink.store, lim, Cache(map[], 0), Refs(sink.lines));
    ReadingConserves(last, sink.lines);
    CollectFull(ReadingLine(last), sink.lines);
    SilentExactly(t);
    UnreadExactly(sink.sha, t);
    if Small(InEntries(t), lim.item, lim.total) { EnoughForAll(sink.sha, sink.store, lim, t); }
    if Sufficient(sink.store, lim, Refs(sink.lines)) { RoundTrip(sink.sha, sink.store, lim, t); }
  }

  lemma NothingCounted()
    ensures Count([], MediaDropped) == 0 && Count([], UnknownRecord) == 0
  {
  }

  lemma {:induction false} SumZero<A(!new)>(f: A -> nat, s: seq<A>)
    ensures Sum(f, s) == 0 <==> forall x :: x in s ==> f(x) == 0
  {
    if s != [] {
      assert s[0] in s && s == [s[0]] + s[1..];
      SumZero(f, s[1..]);
    }
  }

  /** No blank block carries media. */
  ghost predicate NoneBlank(t: seq<Entry<Media>>) {
    forall e, b :: e in t && b in e.blocks && Blank(b) ==> b.media == []
  }

  /** No kept block of an unknown kind carries media that is stored. */
  ghost predicate NoneUnread(sha: Bytes -> string, t: seq<Entry<Media>>) {
    forall e, b :: e in t && b in e.blocks && StoreBlock(sha, b).Some? && !Known(b.kind) ==> StoreBlock(sha, b).value.media == []
  }

  lemma SilentExactly(t: seq<Entry<Media>>)
    ensures Sum(SilentEntry, t) == 0 <==> NoneBlank(t)
  {
    hide Blank;
    SumZero(SilentEntry, t);
    forall e | e in t ensures SilentEntry(e) == 0 <==> forall b :: b in e.blocks && Blank(b) ==> b.media == [] {
      SumZero(Silent, e.blocks);
      assert (forall b :: b in e.blocks ==> Silent(b) == 0) <==> (forall b :: b in e.blocks && Blank(b) ==> b.media == []);
    }
  }

  lemma UnreadExactly(sha: Bytes -> string, t: seq<Entry<Media>>)
    ensures Sum(UnreadLine, Lines(sha, t)) == 0 <==> NoneUnread(sha, t)
  {
    hide StoreBlock, Known, StoreEntry;
    SumCollect(UnreadLine, StoringEntry(sha), EntryUnread(sha), t);
    SumZero(EntryUnread(sha), t);
    forall e | e in t
      ensures EntryUnread(sha)(e) == 0 <==> forall b :: b in e.blocks && StoreBlock(sha, b).Some? && !Known(b.kind) ==> StoreBlock(sha, b).value.media == []
    {
      EntryUnreadExactly(sha, e);
    }
  }

  function EntryUnread(sha: Bytes -> string): Entry<Media> -> nat {
    (e: Entry<Media>) => match StoreEntry(sha, e) case Some(l) => UnreadLine(l) case None => 0
  }

  function BlockUnread(sha: Bytes -> string): Block<Media> -> nat {
    (b: Block<Media>) => match StoreBlock(sha, b) case Some(x) => Unread(x) case None => 0
  }

  lemma EntryUnreadExactly(sha: Bytes -> string, e: Entry<Media>)
    ensures EntryUnread(sha)(e) == 0 <==> forall b :: b in e.blocks && StoreBlock(sha, b).Some? && !Known(b.kind) ==> StoreBlock(sha, b).value.media == []
  {
    hide Known;
    SumCollect(Unread, StoringBlock(sha), BlockUnread(sha), e.blocks);
    SumZero(BlockUnread(sha), e.blocks);
    assert (forall b :: b in e.blocks ==> BlockUnread(sha)(b) == 0) <==>
      (forall b :: b in e.blocks && StoreBlock(sha, b).Some? && !Known(b.kind) ==> StoreBlock(sha, b).value.media == []);
  }

  /** The media a write leaves out is all on record if and only if no blank block carries media. */
  lemma RecordedExactly(sha: Bytes -> string, t: seq<Entry<Media>>)
    ensures Sum(MediaOfEntry, t) - Sum(StoredOfLine, Lines(sha, t)) == Sum(LostInEntry, t) <==> NoneBlank(t)
  {
    hide Lines, StoredOfLine, LostInEntry, MediaOfEntry, Blank;
    WritingConserves(sha, t);
    SilentExactly(t);
  }

  /** An entry of one blank block that carries media: nothing is written, and nothing is recorded as dropped. */
  lemma SilentLoss(sha: Bytes -> string, e: Entry<Media>, b: Block<Media>)
    requires e.blocks == [b] && Blank(b)
    ensures Lines(sha, [e]) == [] && Sum(LostInEntry, [e]) == 0 && Sum(MediaOfEntry, [e]) == |b.media|
  {
    assert [] + [e] == [e] && [] + [b] == [b];
    CollectMore(StoringBlock(sha), [], b);
    CollectMore(StoringEntry(sha), [], e);
    SumMore(LostIn, [], b);
    SumMore(MediaOf, [], b);
    SumMore(LostInEntry, [], e);
    SumMore(MediaOfEntry, [], e);
  }
}
