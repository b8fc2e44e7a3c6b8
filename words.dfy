/** Little-endian conversion between bytes and words, the `u32::from_le_bytes` that
    `write_page` applies to each half of an 8-byte chunk. */
module Words {
  import opened FlashTypes

  /** 256 to the power n: one more than the largest n-byte value. */
  function Pow256(n: nat): (p: nat)
    ensures p >= 1
  {
    if n == 0 then 1 else 256 * Pow256(n - 1)
  }

  /** The unsigned value of a little-endian byte string (least significant byte first). */
  function FromLeBytes(bs: seq<uint8>): (v: nat)
    ensures v < Pow256(|bs|)
  {
    if bs == [] then 0 else bs[0] + 256 * FromLeBytes(bs[1..])
  }

  /** `u32::from_le_bytes` on a four-byte slice. */
  function LeWord(bs: seq<uint8>): (w: uint32)
    requires |bs| == 4
    ensures w == FromLeBytes(bs)
  {
    assert Pow256(4) == 0x1_0000_0000;
    FromLeBytes(bs)
  }

  /** `u32::to_le_bytes`: the four bytes of w, least significant first. */
  function LeBytes(w: uint32): (bs: seq<uint8>)
    ensures |bs| == 4
  {
    var q1 := w / 256;
    var q2 := q1 / 256;
    [w % 256, q1 % 256, q2 % 256, q2 / 256]
  }

  /** Splitting a byte string splits its value: the high part is scaled by the width of the low part. */
  lemma {:induction false} FromLeBytesAppend(a: seq<uint8>, b: seq<uint8>)
    ensures FromLeBytes(a + b) == FromLeBytes(a) + Pow256(|a|) * FromLeBytes(b)
    decreases |a|
  {
    if a == [] {
      assert a + b == b;
    } else {
      assert (a + b)[1..] == a[1..] + b;
      FromLeBytesAppend(a[1..], b);
      ScaleByByte(FromLeBytes(a[1..]), Pow256(|a| - 1), FromLeBytes(b));
    }
  }

  lemma ScaleByByte(x: nat, p: nat, y: nat)
    ensures 256 * (x + p * y) == 256 * x + (256 * p) * y
  {
  }

  /** Reading back the bytes of a word gives the word. */
  lemma LeWordOfLeBytes(w: uint32)
    ensures LeWord(LeBytes(w)) == w
  {
    var bs := LeBytes(w);
    var q1 := w / 256;
    var q2 := q1 / 256;
    assert w == w % 256 + 256 * q1;
    assert q1 == q1 % 256 + 256 * q2;
    assert q2 == q2 % 256 + 256 * (q2 / 256);
    assert q2 / 256 < 256;
    assert bs[3..][1..] == [];
    assert bs[1..][1..] == bs[2..];
    assert bs[2..][1..] == bs[3..];
    var b1: int, b2: int, b3: int := bs[1], bs[2], bs[3];
    assert FromLeBytes(bs[3..]) == b3;
    assert FromLeBytes(bs[2..]) == b2 + 256 * b3;
    assert FromLeBytes(bs[1..]) == b1 + 256 * (b2 + 256 * b3);
  }

  /** The four bytes of a word read back from those bytes are the bytes themselves, so
      `LeWord` loses nothing: distinct chunks give distinct words. */
  lemma LeBytesOfLeWord(bs: seq<uint8>)
    requires |bs| == 4
    ensures LeBytes(LeWord(bs)) == bs
  {
    var w := LeWord(bs);
    var h3: nat := bs[3];
    var h2: nat := bs[2] + 256 * h3;
    var h1: nat := bs[1] + 256 * h2;
    assert bs[1..][1..] == bs[2..];
    assert bs[2..][1..] == bs[3..];
    assert bs[3..][1..] == [];
    assert FromLeBytes(bs[3..]) == h3;
    assert FromLeBytes(bs[2..]) == h2;
    assert FromLeBytes(bs[1..]) == h1;
    assert w == bs[0] + 256 * h1;
    DivModByte(bs[0], h1);
    DivModByte(bs[1], h2);
    DivModByte(bs[2], h3);
  }

  /** The least significant byte and the rest of a number, taken apart again. */
  lemma DivModByte(lo: uint8, hi: nat)
    ensures (lo + 256 * hi) % 256 == lo && (lo + 256 * hi) / 256 == hi
  {
  }

  lemma LeWordInjective(a: seq<uint8>, b: seq<uint8>)
    requires |a| == 4 && |b| == 4
    ensures LeWord(a) == LeWord(b) <==> a == b
  {
    if LeWord(a) == LeWord(b) {
      LeBytesOfLeWord(a);
      LeBytesOfLeWord(b);
    }
  }
}
