/** Archives laid out as APPNOTE.TXT prescribes, and the proof that the parser inverts the layout. */
module ZipLayout {
  import opened Basics
  import opened LittleEndian
  import opened ZipDirectory

  /** One extra field other than ZIP64's. */
  datatype Field = Field(id: nat, data: Bytes)

  /** One central directory header. A `wide` number is stored in the ZIP64 extra field (4.5.3). */
  datatype Header = Header(
    name: Bytes, comment: Bytes,
    usize: nat, csize: nat, offset: nat,
    wideUsize: bool, wideCsize: bool, wideOffset: bool, disk: Bytes,
    before: seq<Field>, after: seq<Field>,   // other extra fields around it
    versions: Bytes, attributes: Bytes)      // the 16 and 8 bytes the parser never looks at

  predicate ValidField(f: Field) {
    f.id < 0x1_0000 && f.id != 1 && |f.data| < 0x1_0000
  }

  predicate Fits(v: nat, wide: bool) {
    if wide then v < 0x1_0000_0000_0000_0000 else v < MARK32
  }

  predicate ValidHeader(h: Header) {
    && Fits(h.usize, h.wideUsize) && Fits(h.csize, h.wideCsize) && Fits(h.offset, h.wideOffset)
    && |h.disk| <= 4 && |h.versions| == 16 && |h.attributes| == 8
    && (forall i :: 0 <= i < |h.before| ==> ValidField(h.before[i]))
    && (forall i :: 0 <= i < |h.after| ==> ValidField(h.after[i]))
    && |h.name| < 0x1_0000 && |Extra(h)| < 0x1_0000 && |h.comment| < 0x1_0000
  }

  function Fields(fs: seq<Field>): Bytes {
    if fs == [] then []
    else Encode(2, fs[0].id) + Encode(2, |fs[0].data|) + fs[0].data + Fields(fs[1..])
  }

  function Wide(v: nat, wide: bool): Bytes {
    if wide then Encode(8, v) else []
  }

  function Narrow(v: nat, wide: bool): nat {
    if wide then MARK32 else v
  }

  function WideData(h: Header): Bytes {
    Wide(h.usize, h.wideUsize) + Wide(h.csize, h.wideCsize) + Wide(h.offset, h.wideOffset) + h.disk
  }

  function WideField(h: Header): Bytes {
    if h.wideUsize || h.wideCsize || h.wideOffset
    then Encode(2, 1) + Encode(2, |WideData(h)|) + WideData(h)
    else []
  }

  function Extra(h: Header): Bytes {
    Fields(h.before) + (WideField(h) + Fields(h.after))
  }

  /** 4.3.12, up to the name. */
  function Fixed(h: Header): (b: Bytes)
    requires ValidHeader(h)
    ensures |b| == 46
  {
    Encode(4, SIG_CENTRAL) + h.versions
    + Encode(4, Narrow(h.csize, h.wideCsize)) + Encode(4, Narrow(h.usize, h.wideUsize))
    + Encode(2, |h.name|) + Encode(2, |Extra(h)|) + Encode(2, |h.comment|)
    + h.attributes + Encode(4, Narrow(h.offset, h.wideOffset))
  }

  function Directory(hs: seq<Header>): Bytes
    requires forall i :: 0 <= i < |hs| ==> ValidHeader(hs[i])
  {
    if hs == [] then []
    else Fixed(hs[0]) + hs[0].name + Extra(hs[0]) + hs[0].comment + Directory(hs[1..])
  }

  // ----- fields -----

  /** What the parser reads at the start of an extra field. */
  lemma FieldRead(id: nat, data: Bytes, tail: Bytes)
    requires id < 0x1_0000 && |data| < 0x1_0000
    ensures var extra := Encode(2, id) + Encode(2, |data|) + data + tail;
      && Read(extra, 0, 2) == id && Read(extra, 2, 2) == |data|
      && extra[4..4 + |data|] == data && extra[4 + |data|..] == tail
  {
    hide Decode, Encode;
    var extra := Encode(2, id) + Encode(2, |data|) + data + tail;
    Ranges();
    assert extra[0..2] == Encode(2, id) && extra[2..4] == Encode(2, |data|);
    DecodeEncode(2, id);
    DecodeEncode(2, |data|);
  }

  /** A run of other fields is skipped. */
  lemma {:induction false} SkipFields(fs: seq<Field>, rest: Bytes, usize: nat, csize: nat, off: nat)
    requires forall i :: 0 <= i < |fs| ==> ValidField(fs[i])
    ensures WideOffset(Fields(fs) + rest, usize, csize, off) == WideOffset(rest, usize, csize, off)
  {
    if fs == [] {
      assert Fields(fs) + rest == rest;
    } else {
      var f, tail := fs[0], Fields(fs[1..]) + rest;
      assert Fields(fs) + rest == Encode(2, f.id) + Encode(2, |f.data|) + f.data + tail;
      FieldRead(f.id, f.data, tail);
      SkipFields(fs[1..], rest, usize, csize, off);
    }
  }

  /** The offset stands in the ZIP64 data behind the sizes that overflowed. */
  lemma WideDataRead(h: Header)
    requires ValidHeader(h) && h.wideOffset
    ensures var f := SkipWide(WideData(h), Narrow(h.usize, h.wideUsize), Narrow(h.csize, h.wideCsize));
      f.Ok? && |f.value| >= 8 && Read(f.value, 0, 8) == h.offset
  {
    hide Decode, Encode, Read, SkipWide;
    var u, c := Wide(h.usize, h.wideUsize), Wide(h.csize, h.wideCsize);
    var f := Encode(8, h.offset) + h.disk;
    Regroup(u, c, Encode(8, h.offset), h.disk);
    WideSkipped(h, f);
    Ranges();
    NumberRead([], 8, h.offset, h.disk);
    assert [] + Encode(8, h.offset) + h.disk == f;
  }

  lemma Regroup(a: Bytes, b: Bytes, c: Bytes, d: Bytes)
    ensures a + b + c + d == a + (b + (c + d))
  {
  }

  /** The sizes that overflowed are skipped. */
  lemma WideSkipped(h: Header, f: Bytes)
    requires ValidHeader(h)
    ensures SkipWide(Wide(h.usize, h.wideUsize) + (Wide(h.csize, h.wideCsize) + f), Narrow(h.usize, h.wideUsize), Narrow(h.csize, h.wideCsize)) == Ok(f)
  {
    hide Encode;
    var u, c := Wide(h.usize, h.wideUsize), Wide(h.csize, h.wideCsize);
    assert (u + (c + f))[|u|..] == c + f && (c + f)[|c|..] == f;
    assert |u| == 0 ==> u + (c + f) == c + f;
    assert |c| == 0 ==> c + f == f;
  }

  /** The ZIP64 field yields the offset behind the sizes that overflowed. */
  lemma WideFieldRead(h: Header, rest: Bytes, off: nat)
    requires ValidHeader(h) && h.wideOffset
    ensures WideOffset(WideField(h) + rest, Narrow(h.usize, h.wideUsize), Narrow(h.csize, h.wideCsize), off)
         == WideOffset(rest, Narrow(h.usize, h.wideUsize), Narrow(h.csize, h.wideCsize), h.offset)
  {
    hide Decode, Encode, WideData, SkipWide, Narrow, Read;
    WideDataRead(h);
    WideDataSize(h);
    FieldRead(1, WideData(h), rest);
    assert WideField(h) + rest == Encode(2, 1) + Encode(2, |WideData(h)|) + WideData(h) + rest;
  }

  lemma WideDataSize(h: Header)
    requires ValidHeader(h) && h.wideOffset
    ensures |WideData(h)| < 0x1_0000
  {
    hide Encode;
  }

  lemma HeaderOffsetRead(h: Header, bytes: Bytes)
    requires ValidHeader(h) && 46 + |h.name| + |Extra(h)| <= |bytes|
    requires bytes[46 + |h.name|..46 + |h.name| + |Extra(h)|] == Extra(h)
    requires Read(bytes, 42, 4) == Narrow(h.offset, h.wideOffset)
    requires Read(bytes, 24, 4) == Narrow(h.usize, h.wideUsize) && Read(bytes, 20, 4) == Narrow(h.csize, h.wideCsize)
    ensures HeaderOffset(bytes, |h.name|, |Extra(h)|) == Ok(h.offset)
  {
    if h.wideOffset {
      var u, c := Narrow(h.usize, h.wideUsize), Narrow(h.csize, h.wideCsize);
      SkipFields(h.before, WideField(h) + Fields(h.after), u, c, MARK32);
      WideFieldRead(h, Fields(h.after), MARK32);
      SkipFields(h.after, [], u, c, h.offset);
      assert Fields(h.after) + [] == Fields(h.after);
    }
  }

  // ----- headers -----

  /** Each number of a header is read back, whatever follows the header. */
  lemma FixedRead(h: Header, rest: Bytes)
    requires ValidHeader(h)
    ensures var b := Fixed(h) + rest;
      && Read(b, 0, 4) == SIG_CENTRAL
      && Read(b, 20, 4) == Narrow(h.csize, h.wideCsize) && Read(b, 24, 4) == Narrow(h.usize, h.wideUsize)
      && Read(b, 28, 2) == |h.name| && Read(b, 30, 2) == |Extra(h)| && Read(b, 32, 2) == |h.comment|
      && Read(b, 42, 4) == Narrow(h.offset, h.wideOffset)
  {
    var b := Fixed(h) + rest;
    var sig, cs, us := Encode(4, SIG_CENTRAL), Encode(4, Narrow(h.csize, h.wideCsize)), Encode(4, Narrow(h.usize, h.wideUsize));
    var nl, xl, cl := Encode(2, |h.name|), Encode(2, |Extra(h)|), Encode(2, |h.comment|);
    var off := Encode(4, Narrow(h.offset, h.wideOffset));
    Ranges();
    assert b[0..4] == sig && b[20..24] == cs && b[24..28] == us;
    assert b[28..30] == nl && b[30..32] == xl && b[32..34] == cl && b[42..46] == off;
    DecodeEncode(4, SIG_CENTRAL);
    DecodeEncode(4, Narrow(h.csize, h.wideCsize));
    DecodeEncode(4, Narrow(h.usize, h.wideUsize));
    DecodeEncode(2, |h.name|);
    DecodeEncode(2, |Extra(h)|);
    DecodeEncode(2, |h.comment|);
    DecodeEncode(4, Narrow(h.offset, h.wideOffset));
  }

  /** The map the directory describes. */
  function Offsets(hs: seq<Header>): map<Bytes, int> {
    if hs == [] then map[] else Offsets(hs[1..])[hs[0].name := Signed(hs[0].offset)]
  }

  predicate DistinctNames(hs: seq<Header>) {
    forall i, j :: 0 <= i < j < |hs| ==> hs[i].name != hs[j].name
  }

  predicate Unused(hs: seq<Header>, out: map<Bytes, int>) {
    forall i :: 0 <= i < |hs| ==> hs[i].name !in out
  }

  lemma OneHeader(h: Header, rest: Bytes, count: nat, out: map<Bytes, int>)
    requires ValidHeader(h)
    ensures ParseHeaders(Fixed(h) + h.name + Extra(h) + h.comment + rest, count + 1, out)
         == if h.name in out then Err else ParseHeaders(rest, count, out[h.name := Signed(h.offset)])
  {
    hide Decode, Fixed, Extra, WideOffset;
    var cd := Fixed(h) + h.name + Extra(h) + h.comment + rest;
    FixedRead(h, h.name + Extra(h) + h.comment + rest);
    assert cd == Fixed(h) + (h.name + Extra(h) + h.comment + rest);
    assert cd[46..46 + |h.name|] == h.name;
    assert cd[46 + |h.name|..46 + |h.name| + |Extra(h)|] == Extra(h);
    assert cd[46 + |h.name| + |Extra(h)| + |h.comment|..] == rest;
    HeaderOffsetRead(h, cd);
  }

  /** The headers of a directory are read back exactly when their names are new and distinct. */
  lemma {:induction false} HeadersRead(hs: seq<Header>, out: map<Bytes, int>)
    requires forall i :: 0 <= i < |hs| ==> ValidHeader(hs[i])
    ensures ParseHeaders(Directory(hs), |hs|, out)
         == if DistinctNames(hs) && Unused(hs, out) then Ok(out + Offsets(hs)) else Err
  {
    hide Decode, WideOffset, HeaderOffset, Fixed, Extra, DistinctNames, Unused;
    if hs == [] {
      NoHeaders(out);
    } else {
      var h, hs' := hs[0], hs[1..];
      OneHeader(h, Directory(hs'), |hs'|, out);
      NamesStep(hs, out);
      if h.name !in out { HeadersRead(hs', out[h.name := Signed(h.offset)]); }
    }
  }

  lemma NoHeaders(out: map<Bytes, int>)
    ensures DistinctNames([]) && Unused([], out) && out + Offsets([]) == out
  {
  }

  lemma NamesStep(hs: seq<Header>, out: map<Bytes, int>)
    requires hs != []
    ensures var out' := out[hs[0].name := Signed(hs[0].offset)];
      && (DistinctNames(hs) && Unused(hs, out) <==>
            hs[0].name !in out && DistinctNames(hs[1..]) && Unused(hs[1..], out'))
      && (Unused(hs[1..], out') ==> out' + Offsets(hs[1..]) == out + Offsets(hs))
  {
    hide Signed, Offsets;
    var out' := out[hs[0].name := Signed(hs[0].offset)];
    if hs[0].name !in out && DistinctNames(hs[1..]) && Unused(hs[1..], out') { NamesBack(hs, out, out'); }
    if DistinctNames(hs) && Unused(hs, out) {
      forall i, j | 0 <= i < j < |hs[1..]| ensures hs[1..][i].name != hs[1..][j].name { assert hs[i + 1].name != hs[j + 1].name; }
      forall j | 0 <= j < |hs[1..]| ensures hs[1..][j].name !in out' { assert hs[0].name != hs[j + 1].name; }
    }
    if Unused(hs[1..], out') { OffsetsStep(hs, out); }
  }

  lemma OffsetsStep(hs: seq<Header>, out: map<Bytes, int>)
    requires hs != [] && Unused(hs[1..], out[hs[0].name := Signed(hs[0].offset)])
    ensures out[hs[0].name := Signed(hs[0].offset)] + Offsets(hs[1..]) == out + Offsets(hs)
  {
    hide Signed, Unused;
    var name, at, rest := hs[0].name, Signed(hs[0].offset), Offsets(hs[1..]);
    assert name !in rest by { FirstUnused(hs, out); }
    assert out[name := at] + rest == out + rest[name := at];
  }

  lemma FirstUnused(hs: seq<Header>, out: map<Bytes, int>)
    requires hs != [] && Unused(hs[1..], out[hs[0].name := Signed(hs[0].offset)])
    ensures hs[0].name !in Offsets(hs[1..])
  {
    hide Signed, Offsets;
    OffsetNames(hs[1..]);
  }

  lemma NamesBack(hs: seq<Header>, out: map<Bytes, int>, out': map<Bytes, int>)
    requires hs != [] && hs[0].name !in out && out' == out[hs[0].name := Signed(hs[0].offset)]
    requires DistinctNames(hs[1..]) && Unused(hs[1..], out')
    ensures DistinctNames(hs) && Unused(hs, out)
  {
    forall j | 0 < j < |hs| ensures hs[j].name !in out' { assert hs[1..][j - 1].name !in out'; }
    forall i, j | 0 <= i < j < |hs| ensures hs[i].name != hs[j].name {
      if i > 0 { assert hs[1..][i - 1].name != hs[1..][j - 1].name; }
    }
  }

  lemma {:induction false} OffsetNames(hs: seq<Header>)
    ensures Offsets(hs).Keys == set i | 0 <= i < |hs| :: hs[i].name
  {
    if hs != [] {
      OffsetNames(hs[1..]);
      assert forall j :: 0 < j < |hs| ==> hs[j] == hs[1..][j - 1];
      assert forall j :: 0 <= j < |hs[1..]| ==> hs[1..][j] == hs[j + 1];
    }
  }

  /** Each entry's own offset is what its name maps to. */
  lemma {:induction false} OffsetOfEntry(hs: seq<Header>, k: nat)
    requires DistinctNames(hs) && k < |hs|
    ensures hs[k].name in Offsets(hs) && Offsets(hs)[hs[k].name] == Signed(hs[k].offset)
  {
    if k > 0 {
      assert hs[1..][k - 1] == hs[k];
      OffsetOfEntry(hs[1..], k - 1);
    }
  }

  // ----- whole archives -----

  /** An archive with no comment: local data, directory, an optional ZIP64 tail and the end record. */
  datatype Archive = Archive(
    local: Bytes, headers: seq<Header>,
    zip64: bool,                                       // whether the ZIP64 records are written (4.3.14, 4.3.15)
    wideCount: bool, wideSize: bool, wideStart: bool,  // which end record numbers are marked as overflowed
    gap: Bytes,                                        // the ZIP64 record's extensible data sector
    disks: Bytes, record: Bytes, locator: Bytes)       // bytes the parser never looks at

  predicate ValidArchive(a: Archive) {
    && (forall i :: 0 <= i < |a.headers| ==> ValidHeader(a.headers[i]))
    && |a.disks| == 6 && |a.record| == 28 && |a.locator| == 4
    && |a.local| + |Directory(a.headers)| < 0x8000_0000_0000_0000
    && |a.headers| < 0x8000_0000_0000_0000
    && (a.zip64 <==> a.wideCount || a.wideSize || a.wideStart)
    && (!a.wideCount ==> |a.headers| < MARK16)
    && (!a.wideSize ==> |Directory(a.headers)| < MARK32)
    && (!a.wideStart ==> |a.local| < MARK32)
  }

  /** The ZIP64 end record and its locator. */
  function Tail64(a: Archive): Bytes
    requires ValidArchive(a)
  {
    var cd := Directory(a.headers);
    if a.zip64 then
      Encode(4, SIG_END64) + a.record + Encode(8, |a.headers|) + Encode(8, |cd|) + Encode(8, |a.local|) + a.gap
      + (Encode(4, SIG_LOCATOR) + a.locator + Encode(8, |a.local| + |cd|) + a.locator)
    else []
  }

  function End(a: Archive): (b: Bytes)
    requires ValidArchive(a)
    ensures |b| == 22
  {
    Encode(4, SIG_END) + a.disks
    + Encode(2, if a.wideCount then MARK16 else |a.headers|)
    + Encode(4, if a.wideSize then MARK32 else |Directory(a.headers)|)
    + Encode(4, if a.wideStart then MARK32 else |a.local|)
    + Encode(2, 0)
  }

  function Layout(a: Archive): Bytes
    requires ValidArchive(a)
  {
    a.local + Directory(a.headers) + Tail64(a) + End(a)
  }

  lemma EndRead(a: Archive, before: Bytes)
    requires ValidArchive(a)
    ensures var b, at := before + End(a), |before|;
      && Read(b, at, 4) == SIG_END
      && Read(b, at + 10, 2) == (if a.wideCount then MARK16 else |a.headers|)
      && Read(b, at + 12, 4) == (if a.wideSize then MARK32 else |Directory(a.headers)|)
      && Read(b, at + 16, 4) == (if a.wideStart then MARK32 else |a.local|)
  {
    hide Decode, Encode, Directory, Read;
    var n, s, o := if a.wideCount then MARK16 else |a.headers|,
      if a.wideSize then MARK32 else |Directory(a.headers)|, if a.wideStart then MARK32 else |a.local|;
    var f0, f1, f2, f3 := Encode(4, SIG_END), Encode(2, n), Encode(4, s), Encode(4, o);
    var rest := Encode(2, 0);
    Ranges();
    assert before + End(a) == before + f0 + (a.disks + f1 + f2 + f3 + rest);
    NumberRead(before, 4, SIG_END, a.disks + f1 + f2 + f3 + rest);
    assert before + End(a) == (before + f0 + a.disks) + f1 + (f2 + f3 + rest);
    NumberRead(before + f0 + a.disks, 2, n, f2 + f3 + rest);
    assert before + End(a) == (before + f0 + a.disks + f1) + f2 + (f3 + rest);
    NumberRead(before + f0 + a.disks + f1, 4, s, f3 + rest);
    assert before + End(a) == (before + f0 + a.disks + f1 + f2) + f3 + rest;
    NumberRead(before + f0 + a.disks + f1 + f2, 4, o, rest);
  }

  /** A field is read where it was put. */
  lemma NumberRead(pre: Bytes, width: nat, v: nat, post: Bytes)
    requires v < Range(width)
    ensures Read(pre + Encode(width, v) + post, |pre|, width) == v
  {
    hide Decode, Encode;
    assert (pre + Encode(width, v) + post)[|pre|..|pre| + width] == Encode(width, v);
    DecodeEncode(width, v);
  }

  lemma Tail64Fields(a: Archive)
    requires ValidArchive(a) && a.zip64
    ensures var t, cd := Tail64(a), Directory(a.headers);
      && |t| >= 76
      && Read(t, 0, 4) == SIG_END64
      && Read(t, 32, 8) == |a.headers| && Read(t, 40, 8) == |cd| && Read(t, 48, 8) == |a.local|
      && Read(t, |t| - 20, 4) == SIG_LOCATOR && Read(t, |t| - 12, 8) == |a.local| + |cd|
  {
    hide Decode, Encode, Directory, Read;
    var cd, t := Directory(a.headers), Tail64(a);
    var f0, f1, f2, f3 := Encode(4, SIG_END64), Encode(8, |a.headers|), Encode(8, |cd|), Encode(8, |a.local|);
    var l0, l1 := Encode(4, SIG_LOCATOR), Encode(8, |a.local| + |cd|);
    var loc := l0 + a.locator + l1 + a.locator;
    var rec := f0 + a.record + f1 + f2 + f3 + a.gap;
    Ranges();
    assert t == rec + loc;
    assert t == [] + f0 + (a.record + f1 + f2 + f3 + a.gap + loc);
    NumberRead([], 4, SIG_END64, a.record + f1 + f2 + f3 + a.gap + loc);
    assert t == (f0 + a.record) + f1 + (f2 + f3 + a.gap + loc);
    NumberRead(f0 + a.record, 8, |a.headers|, f2 + f3 + a.gap + loc);
    assert t == (f0 + a.record + f1) + f2 + (f3 + a.gap + loc);
    NumberRead(f0 + a.record + f1, 8, |cd|, f3 + a.gap + loc);
    assert t == (f0 + a.record + f1 + f2) + f3 + (a.gap + loc);
    NumberRead(f0 + a.record + f1 + f2, 8, |a.local|, a.gap + loc);
    assert t == rec + l0 + (a.locator + l1 + a.locator);
    NumberRead(rec, 4, SIG_LOCATOR, a.locator + l1 + a.locator);
    assert t == (rec + l0 + a.locator) + l1 + a.locator;
    NumberRead(rec + l0 + a.locator, 8, |a.local| + |cd|, a.locator);
  }

  /** Numbers inside the middle part of a byte string are read where that part starts. */
  lemma ReadInside(x: Bytes, y: Bytes, z: Bytes, at: nat, width: nat)
    requires at + width <= |y|
    ensures Read(x + y + z, |x| + at, width) == Read(y, at, width)
  {
    assert (x + y + z)[|x| + at..|x| + at + width] == y[at..at + width];
  }

  lemma EndParsed(a: Archive)
    requires ValidArchive(a)
    ensures |Layout(a)| >= 22
    ensures Read(Layout(a), |Layout(a)| - 22, 4) == SIG_END
    ensures ParseEnd(Layout(a), |Layout(a)| - 22) == Ok(EndRecord(|a.headers|, |Directory(a.headers)|, |a.local|))
  {
    hide Decode, Directory, End, Tail64;
    var ra, cd, t := Layout(a), Directory(a.headers), Tail64(a);
    EndRead(a, a.local + cd + t);
    if a.zip64 {
      Tail64Fields(a);
      var x, z := a.local + cd, End(a);
      ReadInside(x, t, z, 0, 4);
      ReadInside(x, t, z, 32, 8);
      ReadInside(x, t, z, 40, 8);
      ReadInside(x, t, z, 48, 8);
      ReadInside(x, t, z, |t| - 20, 4);
      ReadInside(x, t, z, |t| - 12, 8);
    }
  }

  /** The search for the end record finds it where the file ends with it. */
  lemma EndInTail(ra: Bytes, tail: Bytes)
    requires |ra| >= 22 && Read(ra, |ra| - 22, 4) == SIG_END && tail == if |ra| <= 22 + 65535 then ra else ra[|ra| - 22 - 65535..]
    ensures FindEnd(tail, |tail| - 22) == |tail| - 22
  {
    hide Decode;
    assert tail[|tail| - 22..|tail| - 18] == ra[|ra| - 22..|ra| - 18];
  }

  /**
   The round trip: a laid-out archive is parsed to exactly its name-to-offset map, unless names repeat
   or the directory is over the parser's one-gigabyte limit, and then it is refused.
   */
  lemma LayoutParsed(a: Archive)
    requires ValidArchive(a)
    ensures ParseDirectory(Layout(a), |a.headers|)
         == if DistinctNames(a.headers) && |Directory(a.headers)| <= 1073741824
            then Ok(Offsets(a.headers)) else Err
  {
    hide Decode, Encode, Directory, End, Tail64, ParseEnd, ParseHeaders, Offsets, DistinctNames;
    var ra, cd := Layout(a), Directory(a.headers);
    var tail := if |ra| <= 22 + 65535 then ra else ra[|ra| - 22 - 65535..];
    EndParsed(a);
    EndInTail(ra, tail);
    assert ra[|a.local|..|a.local| + |cd|] == cd;
    DirectorySize(a.headers);
    HeadersRead(a.headers, map[]);
    assert map[] + Offsets(a.headers) == Offsets(a.headers);
  }

  lemma {:induction false} DirectorySize(hs: seq<Header>)
    requires forall i :: 0 <= i < |hs| ==> ValidHeader(hs[i])
    ensures 46 * |hs| <= |Directory(hs)|
  {
    if hs != [] { DirectorySize(hs[1..]); }
  }
}
