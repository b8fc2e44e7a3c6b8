/** What programming does to flash contents: the words `write_page` derives from its
    byte buffer, their placement at consecutive word addresses, and the 64-bit `read`
    of two adjacent words. Flash is a map from the byte address of a word to the word;
    an address the map does not hold reads as erased. */
module Programming {
  import opened FlashTypes
  import opened Words

  /** The k-th little-endian word of a byte buffer. */
  function DataWord(data: seq<uint8>, k: nat): uint32
    requires 4 * k + 4 <= |data|
  {
    LeWord(data[4 * k..4 * k + 4])
  }

  lemma DataWordShift(data: seq<uint8>, j: nat)
    requires 8 <= |data| && 4 * j + 4 <= |data| - 8
    ensures DataWord(data[8..], j) == DataWord(data, j + 2)
  {
    assert data[8..][4 * j..4 * j + 4] == data[4 * (j + 2)..4 * (j + 2) + 4];
  }

  /** The words `write_page` stores for `data`: for every whole 8-byte chunk, its first and
      its second four bytes as little-endian words. Trailing bytes after the last whole
      chunk produce nothing. */
  function ChunkWords(data: seq<uint8>): (ws: seq<uint32>)
    ensures |ws| == 2 * (|data| / 8)
    decreases |data|
  {
    if |data| < 8 then [] else [DataWord(data, 0), DataWord(data, 1)] + ChunkWords(data[8..])
  }

  /** The k-th stored word is the k-th little-endian word of the buffer. */
  lemma {:induction false} ChunkWordsAt(data: seq<uint8>, k: nat)
    requires k < |ChunkWords(data)|
    ensures 4 * k + 4 <= |data| && ChunkWords(data)[k] == DataWord(data, k)
    decreases |data|
  {
    if k >= 2 {
      ChunkWordsAt(data[8..], k - 2);
      DataWordShift(data, k - 2);
    }
  }

  /** Whether a is one of the n word addresses starting at base. */
  predicate Written(base: nat, n: nat, a: nat) {
    base <= a < base + 4 * n && (a - base) % 4 == 0
  }

  /** Flash after storing ws at base, base + 4, base + 8, ...: the first word at base, the
      rest from the next word address on. */
  function StoreWords(m: map<nat, uint32>, base: nat, ws: seq<uint32>): map<nat, uint32>
    decreases |ws|
  {
    if ws == [] then m else StoreWords(m[base := ws[0]], base + 4, ws[1..])
  }

  /** Each stored word lands at its own address, every other address keeps its word, and
      no address outside the written range appears. */
  lemma {:induction false} StoreWordsContents(m: map<nat, uint32>, base: nat, ws: seq<uint32>)
    ensures forall a: nat :: Written(base, |ws|, a) ==> a in StoreWords(m, base, ws) && StoreWords(m, base, ws)[a] == ws[(a - base) / 4]
    ensures forall a: nat :: a in m && !Written(base, |ws|, a) ==> a in StoreWords(m, base, ws) && StoreWords(m, base, ws)[a] == m[a]
    ensures forall a: nat :: a in StoreWords(m, base, ws) ==> a in m || Written(base, |ws|, a)
    decreases |ws|
  {
    if ws != [] {
      StoreWordsContents(m[base := ws[0]], base + 4, ws[1..]);
      assert !Written(base + 4, |ws| - 1, base);
      assert forall a: nat :: Written(base, |ws|, a) && a != base ==>
        Written(base + 4, |ws| - 1, a) && (a - base) / 4 == (a - (base + 4)) / 4 + 1;
    }
  }

  /** The word flash holds at a. */
  function WordAt(m: map<nat, uint32>, a: nat): uint32 {
    if a in m then m[a] else ERASED_WORD
  }

  /** A 64-bit read at a: the word at a is the low half, the word at a + 4 the high half. */
  function ReadDouble(m: map<nat, uint32>, a: nat): (v: uint64)
    ensures v % 0x1_0000_0000 == WordAt(m, a) && v / 0x1_0000_0000 == WordAt(m, a + 4)
  {
    WordAt(m, a) + 0x1_0000_0000 * WordAt(m, a + 4)
  }

  /** Appending one whole chunk to a buffer of whole chunks appends its two words. */
  lemma {:induction false} ChunkWordsAppend(d: seq<uint8>, c: seq<uint8>)
    requires |d| % 8 == 0 && |c| == 8
    ensures ChunkWords(d + c) == ChunkWords(d) + [LeWord(c[0..4]), LeWord(c[4..8])]
    decreases |d|
  {
    if d == [] {
      assert d + c == c;
      assert c[8..] == [];
      assert c[0..4] == c[4 * 0..4 * 0 + 4] && c[4..8] == c[4 * 1..4 * 1 + 4];
    } else {
      assert (d + c)[8..] == d[8..] + c;
      ChunkWordsAppend(d[8..], c);
      assert (d + c)[0..4] == d[0..4] && (d + c)[4..8] == d[4..8];
    }
  }

  /** The bytes after the last whole chunk do not change which words are stored. */
  lemma {:induction false} ChunkWordsDropsTail(data: seq<uint8>)
    ensures ChunkWords(data) == ChunkWords(data[..|data| / 8 * 8])
    decreases |data|
  {
    var t := data[..|data| / 8 * 8];
    if |data| >= 8 {
      var rest := data[8..];
      assert |rest| / 8 * 8 == |data| / 8 * 8 - 8;
      assert t[8..] == rest[..|rest| / 8 * 8];
      assert t[0..4] == data[0..4] && t[4..8] == data[4..8];
      ChunkWordsDropsTail(rest);
    }
  }

  /** Storing one more word is storing the others, then that word at the next address. */
  lemma {:induction false} StoreWordsAppend(m: map<nat, uint32>, base: nat, ws: seq<uint32>, w: uint32)
    ensures StoreWords(m, base, ws + [w]) == StoreWords(m, base, ws)[base + 4 * |ws| := w]
    decreases |ws|
  {
    if ws == [] {
      assert [] + [w] == [w];
    } else {
      assert (ws + [w])[1..] == ws[1..] + [w];
      StoreWordsAppend(m[base := ws[0]], base + 4, ws[1..], w);
    }
  }

  /** The word StoreWords leaves at the j-th address is the j-th word. */
  lemma StoredWordAt(m: map<nat, uint32>, base: nat, ws: seq<uint32>, j: nat)
    requires j < |ws|
    ensures WordAt(StoreWords(m, base, ws), base + 4 * j) == ws[j]
  {
    StoreWordsContents(m, base, ws);
    assert Written(base, |ws|, base + 4 * j) && (base + 4 * j - base) / 4 == j;
  }

  /** Two little-endian words side by side are the little-endian value of their eight bytes. */
  lemma DoubleOfWords(lo: seq<uint8>, hi: seq<uint8>)
    requires |lo| == 4 && |hi| == 4
    ensures LeWord(lo) + 0x1_0000_0000 * LeWord(hi) == FromLeBytes(lo + hi)
  {
    FromLeBytesAppend(lo, hi);
    assert Pow256(|lo|) == 0x1_0000_0000;
  }

  /** A 64-bit read at the address of stored word 2j sees words 2j and 2j + 1. */
  lemma ReadStoredPair(m: map<nat, uint32>, base: nat, ws: seq<uint32>, j: nat)
    requires 2 * j + 1 < |ws|
    ensures ReadDouble(StoreWords(m, base, ws), base + 8 * j) == ws[2 * j] as int + 0x1_0000_0000 * (ws[2 * j + 1] as int)
  {
    var r := StoreWords(m, base, ws);
    StoredWordAt(m, base, ws, 2 * j);
    StoredWordAt(m, base, ws, 2 * j + 1);
    assert base + 4 * (2 * j) == base + 8 * j;
    assert base + 4 * (2 * j + 1) == base + 8 * j + 4;
  }

  /** The two words of chunk k are the halves of its eight bytes. */
  lemma ChunkPair(data: seq<uint8>, k: nat)
    requires k < |data| / 8
    ensures 2 * k + 1 < |ChunkWords(data)|
    ensures ChunkWords(data)[2 * k] as int + 0x1_0000_0000 * (ChunkWords(data)[2 * k + 1] as int)
         == FromLeBytes(data[8 * k..8 * k + 8])
  {
    var ws := ChunkWords(data);
    var lo, hi := data[8 * k..8 * k + 4], data[8 * k + 4..8 * k + 8];
    ChunkWordsHalves(data, k);
    var a, b := ws[2 * k], ws[2 * k + 1];
    assert a == LeWord(lo) && b == LeWord(hi);
    ChunkBytes(data, 8 * k);
    DoubleOfWords(lo, hi);
  }

  /** The two words of chunk k are the little-endian values of its two halves. */
  lemma ChunkWordsHalves(data: seq<uint8>, k: nat)
    requires k < |data| / 8
    ensures 2 * k + 1 < |ChunkWords(data)|
    ensures ChunkWords(data)[2 * k] == LeWord(data[8 * k..8 * k + 4])
    ensures ChunkWords(data)[2 * k + 1] == LeWord(data[8 * k + 4..8 * k + 8])
  {
    ChunkWordsAt(data, 2 * k);
    ChunkWordsAt(data, 2 * k + 1);
    assert 4 * (2 * k) == 8 * k && 4 * (2 * k + 1) == 8 * k + 4;
  }

  lemma ChunkBytes(data: seq<uint8>, i: nat)
    requires i + 8 <= |data|
    ensures data[i..i + 8] == data[i..i + 4] + data[i + 4..i + 8]
  {
  }

  /** The 64-bit read of the k-th chunk's address, after `write_page` stored `data` from
      base, is the little-endian value of that 8-byte chunk. */
  lemma ProgramThenRead(m: map<nat, uint32>, base: nat, data: seq<uint8>, k: nat)
    requires k < |data| / 8
    ensures ReadDouble(StoreWords(m, base, ChunkWords(data)), base + 8 * k)
         == FromLeBytes(data[8 * k..8 * k + 8])
  {
    ChunkPair(data, k);
    ReadStoredPair(m, base, ChunkWords(data), k);
  }

  /** One loop step of `write_page`: storing a chunk's two words after the earlier chunks'
      words is storing the words of one more chunk. */
  lemma WrittenChunk(m: map<nat, uint32>, base: nat, data: seq<uint8>, i: nat)
    requires 8 * i + 8 <= |data|
    ensures var c := data[8 * i..8 * i + 8];
      StoreWords(m, base, ChunkWords(data[..8 * i]))[base + 8 * i := LeWord(c[0..4])][base + 8 * i + 4 := LeWord(c[4..8])]
         == StoreWords(m, base, ChunkWords(data[..8 * (i + 1)]))
  {
    var d, c := data[..8 * i], data[8 * i..8 * i + 8];
    assert d + c == data[..8 * (i + 1)];
    ChunkWordsAppend(d, c);
    var ws := ChunkWords(d);
    var w1, w2 := LeWord(c[0..4]), LeWord(c[4..8]);
    StoreWordsAppend(m, base, ws, w1);
    StoreWordsAppend(m, base, ws + [w1], w2);
    assert ws + [w1] + [w2] == ws + [w1, w2];
  }
}
