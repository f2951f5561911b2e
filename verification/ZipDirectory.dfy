/**
 The ZIP central directory (sections 4.3.12, 4.3.14, 4.3.15, 4.3.16 and 4.5.3 of PKWARE's
 APPNOTE.TXT): the parser that finds every entry's local header, and the layout it must invert.
 */
module ZipDirectory {
  import opened Basics
  import opened LittleEndian

  const SIG_CENTRAL := 0x02014b50
  const SIG_END := 0x06054b50
  const SIG_END64 := 0x06064b50
  const SIG_LOCATOR := 0x07064b50
  const MARK16 := 0xffff
  const MARK32 := 0xffffffff
  const MAX_DIRECTORY := 0x4000_0000

  /** Go's conversion of a 64-bit unsigned number to a signed one. */
  function Signed(v: nat): int
  {
    if v < 0x8000_0000_0000_0000 then v else v - 0x1_0000_0000_0000_0000
  }

  // ----- what the parser computes -----

  /** The last position at or below `p` that holds the end record's signature. */
  function FindEnd(tail: Bytes, p: int): (end: int)
    requires -1 <= p && p + 22 <= |tail|
    ensures -1 <= end <= p
    ensures end >= 0 ==> Read(tail, end, 4) == SIG_END
    ensures forall q :: end < q <= p && q >= 0 ==> Read(tail, q, 4) != SIG_END
    decreases p + 1
  {
    if p < 0 then -1
    else if Read(tail, p, 4) == SIG_END then p
    else FindEnd(tail, p - 1)
  }

  /** Drops the 8-byte numbers that stand for overflowed sizes. */
  function SkipWide(f: Bytes, usize: nat, csize: nat): Result<Bytes> {
    if usize == MARK32 && |f| < 8 then Err
    else
      var g := if usize == MARK32 then f[8..] else f;
      if csize == MARK32 && |g| < 8 then Err
      else Ok(if csize == MARK32 then g[8..] else g)
  }

  /** The offset held in the ZIP64 extra fields, or `off` when there is none; the last one wins. */
  function WideOffset(extra: Bytes, usize: nat, csize: nat, off: nat): Result<nat> {
    if |extra| < 4 then Ok(off)
    else
      var id, n := Read(extra, 0, 2), Read(extra, 2, 2);
      if 4 + n > |extra| then Err
      else if id != 1 then WideOffset(extra[4 + n..], usize, csize, off)
      else
        match SkipWide(extra[4..4 + n], usize, csize)
        case Err => Err
        case Ok(f) => if |f| < 8 then Err else WideOffset(extra[4 + n..], usize, csize, Read(f, 0, 8))
  }

  /** Reads `count` headers from the start of `cd`. */
  function ParseHeaders(cd: Bytes, count: nat, out: map<Bytes, int>): Result<map<Bytes, int>> {
    if count == 0 then Ok(out)
    else if |cd| < 46 || Read(cd, 0, 4) != SIG_CENTRAL then Err
    else
      var nameLen, extraLen, commentLen := Read(cd, 28, 2), Read(cd, 30, 2), Read(cd, 32, 2);
      if 46 + nameLen + extraLen + commentLen > |cd| then Err
      else
        var name := cd[46..46 + nameLen];
        var off := HeaderOffset(cd, nameLen, extraLen);
        if off.Err? || name in out then Err
        else ParseHeaders(cd[46 + nameLen + extraLen + commentLen..], count - 1, out[name := Signed(off.value)])
  }

  function HeaderOffset(h: Bytes, nameLen: nat, extraLen: nat): Result<nat>
    requires 46 + nameLen + extraLen <= |h|
  {
    var off := Read(h, 42, 4);
    if off != MARK32 then Ok(off)
    else WideOffset(h[46 + nameLen..46 + nameLen + extraLen], Read(h, 24, 4), Read(h, 20, 4), off)
  }

  datatype EndRecord = EndRecord(count: nat, size: nat, offset: nat)

  /** The end record at `at`, or the ZIP64 record its locator points to. */
  function ParseEnd(ra: Bytes, at: nat): Result<EndRecord>
    requires at + 22 <= |ra|
  {
    var count, size, offset := Read(ra, at + 10, 2), Read(ra, at + 12, 4), Read(ra, at + 16, 4);
    if count != MARK16 && size != MARK32 && offset != MARK32 then Ok(EndRecord(count, size, offset))
    else if at < 20 || Read(ra, at - 20, 4) != SIG_LOCATOR then Err
    else
      var rec := Signed(Read(ra, at - 12, 8));
      if rec < 0 || rec > |ra| - 56 || Read(ra, rec, 4) != SIG_END64 then Err
      else Ok(EndRecord(Read(ra, rec + 32, 8), Read(ra, rec + 40, 8), Read(ra, rec + 48, 8)))
  }

  function ParseDirectory(ra: Bytes, entries: nat): Result<map<Bytes, int>> {
    var tail := if |ra| <= 22 + 65535 then ra else ra[|ra| - 22 - 65535..];
    var end := if |tail| < 22 then -1 else FindEnd(tail, |tail| - 22);
    if end < 0 then Err
    else
      match ParseEnd(ra, |ra| - |tail| + end)
      case Err => Err
      case Ok(e) =>
        if e.offset > |ra| || e.size > |ra| - e.offset || e.size > MAX_DIRECTORY then Err
        else if e.count > e.size / 46 || e.count > entries then Err
        else ParseHeaders(ra[e.offset..e.offset + e.size], e.count, map[])
  }

  // ----- what it refuses -----

  /** The four signatures, as bytes. */
  lemma Signatures(b: Bytes, at: nat)
    requires at + 4 <= |b|
    ensures Read(b, at, 4) == SIG_CENTRAL <==> b[at..at + 4] == [0x50, 0x4b, 0x01, 0x02]
    ensures Read(b, at, 4) == SIG_END <==> b[at..at + 4] == [0x50, 0x4b, 0x05, 0x06]
    ensures Read(b, at, 4) == SIG_END64 <==> b[at..at + 4] == [0x50, 0x4b, 0x06, 0x06]
    ensures Read(b, at, 4) == SIG_LOCATOR <==> b[at..at + 4] == [0x50, 0x4b, 0x06, 0x07]
  {
    var found := b[at..at + 4];
    assert Decode([0x50, 0x4b, 0x01, 0x02]) == SIG_CENTRAL by { FourBytes([0x50, 0x4b, 0x01, 0x02]); }
    assert Decode([0x50, 0x4b, 0x05, 0x06]) == SIG_END by { FourBytes([0x50, 0x4b, 0x05, 0x06]); }
    assert Decode([0x50, 0x4b, 0x06, 0x06]) == SIG_END64 by { FourBytes([0x50, 0x4b, 0x06, 0x06]); }
    assert Decode([0x50, 0x4b, 0x06, 0x07]) == SIG_LOCATOR by { FourBytes([0x50, 0x4b, 0x06, 0x07]); }
    hide Decode;
    DecodesOnce(found, [0x50, 0x4b, 0x01, 0x02]);
    DecodesOnce(found, [0x50, 0x4b, 0x05, 0x06]);
    DecodesOnce(found, [0x50, 0x4b, 0x06, 0x06]);
    DecodesOnce(found, [0x50, 0x4b, 0x06, 0x07]);
  }

  lemma FourBytes(s: Bytes)
    requires |s| == 4
    ensures Decode(s) == s[0] as int + 0x100 * s[1] as int + 0x1_0000 * s[2] as int + 0x100_0000 * s[3] as int
  {
    assert Decode(s[1..]) == s[1] as int + 256 * Decode(s[1..][1..]);
    assert Decode(s[1..][1..]) == s[2] as int + 256 * Decode(s[1..][1..][1..]);
    assert Decode(s[1..][1..][1..]) == s[3] as int;
  }

  lemma {:induction false} DecodesOnce(s: Bytes, t: Bytes)
    requires |s| == |t|
    ensures Decode(s) == Decode(t) <==> s == t
  {
    if s != [] {
      DecodesOnce(s[1..], t[1..]);
      assert s == [s[0]] + s[1..] && t == [t[0]] + t[1..];
    }
  }

  /** A directory header is refused unless it starts with its signature and all it announces is there. */
  lemma HeaderRefused(cd: Bytes, count: nat, out: map<Bytes, int>)
    requires count > 0
    requires |cd| < 46 || cd[..4] != [0x50, 0x4b, 0x01, 0x02]
      || 46 + Read(cd, 28, 2) + Read(cd, 30, 2) + Read(cd, 32, 2) > |cd| || cd[46..46 + Read(cd, 28, 2)] in out
    ensures ParseHeaders(cd, count, out).Err?
  {
    hide Decode, WideOffset;
    if |cd| >= 46 { Signatures(cd, 0); }
  }

  predicate EndMark(b: Bytes, q: nat)
    requires q + 4 <= |b|
  {
    b[q..q + 4] == [0x50, 0x4b, 0x05, 0x06]
  }

  /** Without an end record among the last bytes there is no directory. */
  lemma NoEndRefused(ra: Bytes, entries: nat)
    requires forall q :: 0 <= q <= |ra| - 22 && q >= |ra| - 22 - 65535 ==> !EndMark(ra, q)
    ensures ParseDirectory(ra, entries).Err?
  {
    hide Decode, ParseEnd, ParseHeaders;
    var tail := if |ra| <= 22 + 65535 then ra else ra[|ra| - 22 - 65535..];
    var skip := |ra| - |tail|;
    forall q | 0 <= q <= |tail| - 22 ensures Read(tail, q, 4) != SIG_END {
      Signatures(tail, q);
      assert tail[q..q + 4] == ra[skip + q..skip + q + 4];
      assert !EndMark(ra, skip + q);
    }
  }

  // ----- the parser -----

  method ScanExtra(extra0: Bytes, usize: nat, csize: nat, off0: nat) returns (r: Result<nat>)
    ensures r == WideOffset(extra0, usize, csize, off0)
  {
    var extra, off := extra0, off0;
    while |extra| >= 4
      invariant WideOffset(extra, usize, csize, off) == WideOffset(extra0, usize, csize, off0)
      decreases |extra|
    {
      var id, n := Read(extra, 0, 2), Read(extra, 2, 2);
      if 4 + n > |extra| { return Err; }
      if id == 1 {
        var f := extra[4..4 + n];
        if usize == MARK32 {
          if |f| < 8 { return Err; }
          f := f[8..];
        }
        if csize == MARK32 {
          if |f| < 8 { return Err; }
          f := f[8..];
        }
        if |f| < 8 { return Err; }
        off := Read(f, 0, 8);
      }
      extra := extra[4 + n..];
    }
    r := Ok(off);
  }

  method ScanHeaders(cd: Bytes, count: nat) returns (r: Result<map<Bytes, int>>)
    ensures r == ParseHeaders(cd, count, map[])
  {
    hide Decode, WideOffset;
    var out: map<Bytes, int> := map[];
    var p := 0;
    for i := 0 to count
      invariant 0 <= p <= |cd|
      invariant ParseHeaders(cd[p..], count - i, out) == ParseHeaders(cd, count, map[])
    {
      var h := cd[p..];
      if p + 46 > |cd| || Read(h, 0, 4) != SIG_CENTRAL { return Err; }
      var nameLen, extraLen, commentLen := Read(h, 28, 2), Read(h, 30, 2), Read(h, 32, 2);
      if p + 46 + nameLen + extraLen + commentLen > |cd| { return Err; }
      var name := h[46..46 + nameLen];
      var off := Read(h, 42, 4);
      if off == MARK32 {
        var wide := ScanExtra(h[46 + nameLen..46 + nameLen + extraLen], Read(h, 24, 4), Read(h, 20, 4), off);
        if wide.Err? { return Err; }
        off := wide.value;
      }
      if name in out { return Err; }
      out := out[name := Signed(off)];
      p := p + 46 + nameLen + extraLen + commentLen;
      assert h[46 + nameLen + extraLen + commentLen..] == cd[p..];
    }
    r := Ok(out);
  }

  /** `localHeaderOffsets`. `entries` is how many entries the archive library itself read. */
  method LocalHeaderOffsets(ra: Bytes, entries: nat) returns (r: Result<map<Bytes, int>>)
    ensures r == ParseDirectory(ra, entries)
  {
    hide ParseEnd, ParseHeaders, Decode;
    var tailLen := if |ra| < 22 + 65535 then |ra| else 22 + 65535;
    var tail := ra[|ra| - tailLen..];
    assert |ra| <= 22 + 65535 ==> tail == ra;
    var end, p := -1, |tail| - 22;
    while p >= 0
      invariant p + 22 <= |tail| && (|tail| >= 22 ==> -1 <= p)
      invariant end == -1
      invariant |tail| >= 22 ==> FindEnd(tail, p) == FindEnd(tail, |tail| - 22)
      decreases p + 1
    {
      if Read(tail, p, 4) == SIG_END {
        end := p;
        break;
      }
      p := p - 1;
    }
    if end < 0 { return Err; }
    var parsed := ParseEnd(ra, |ra| - tailLen + end);
    if parsed.Err? { return Err; }
    var e := parsed.value;
    if e.offset > |ra| || e.size > |ra| - e.offset || e.size > MAX_DIRECTORY { return Err; }
    if e.count > e.size / 46 || e.count > entries { return Err; }
    r := ScanHeaders(ra[e.offset..e.offset + e.size], e.count);
  }
}
