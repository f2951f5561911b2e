/** Unsigned little-endian numbers, as ZIP records store them. */
module LittleEndian {
  import opened Basics

  function Decode(s: Bytes): nat {
    if |s| == 0 then 0 else s[0] as int + 256 * Decode(s[1..])
  }

  function Encode(width: nat, v: nat): (s: Bytes)
    ensures |s| == width
  {
    if width == 0 then [] else [(v % 256) as byte] + Encode(width - 1, v / 256)
  }

  function Range(width: nat): nat {
    if width == 0 then 1 else 256 * Range(width - 1)
  }

  lemma {:induction false} DecodeEncode(width: nat, v: nat)
    requires v < Range(width)
    ensures Decode(Encode(width, v)) == v
  {
    if width > 0 {
      assert Encode(width, v)[1..] == Encode(width - 1, v / 256);
      DecodeEncode(width - 1, v / 256);
    }
  }

  lemma Ranges()
    ensures Range(2) == 0x1_0000 && Range(4) == 0x1_0000_0000 && Range(8) == 0x1_0000_0000_0000_0000
  {
    assert Range(3) == 256 * Range(2);
    assert Range(5) == 256 * Range(4);
    assert Range(6) == 256 * Range(5);
    assert Range(7) == 256 * Range(6);
  }

  /** The `width`-byte number at offset `at`. */
  function Read(b: Bytes, at: nat, width: nat): nat
    requires at + width <= |b|
  {
    Decode(b[at..at + width])
  }
}
