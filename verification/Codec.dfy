/**
 Byte-level formats of a disk block: little-endian 32-bit words (index tables),
 bits (the allocation bitmap) and inode records.

 Each format is a pair Encode/Decode. The kernel reads a whole block into a buffer,
 reinterprets the buffer, changes it and writes the whole buffer back, so what matters
 is that decoding an encoded buffer gives the buffer again.
 */
module Codec {

  type byte = x: int | 0 <= x < 0x100
  type half = x: int | 0 <= x < 0x1_0000
  type word = x: int | 0 <= x < 0x1_0000_0000

  const BSIZE: nat := 1024
  const WORDS_PER_BLOCK: nat := 256
  const BITS_PER_BLOCK: nat := 8192

  type Block = b: seq<byte> | |b| == BSIZE witness seq(BSIZE, i => 0)

  type Table = w: seq<word> | |w| == WORDS_PER_BLOCK witness seq(WORDS_PER_BLOCK, i => 0)
  type Bitmap = s: seq<bool> | |s| == BITS_PER_BLOCK witness seq(BITS_PER_BLOCK, i => false)

  function ZeroBlock(): (b: Block)
    ensures forall i :: 0 <= i < BSIZE ==> b[i] == 0
  {
    seq(BSIZE, i => 0)
  }

  // ----- 32-bit words -----

  /** The little-endian word at byte `i`. */
  function WordAt(b: seq<byte>, i: nat): (w: word)
    requires i + 4 <= |b|
  {
    (b[i] as int) + 0x100 * (b[i + 1] as int) + 0x1_0000 * (b[i + 2] as int) + 0x100_0000 * (b[i + 3] as int)
  }

  function WordBytes(w: word): (b: seq<byte>)
    ensures |b| == 4 && WordAt(b, 0) == w
  {
    var w1: int := w / 0x100;
    var w2: int := w1 / 0x100;
    [w % 0x100, w1 % 0x100, w2 % 0x100, w2 / 0x100]
  }

  /** The words of a block from word `k` on. */
  function WordsFrom(b: Block, k: nat): (w: seq<word>)
    requires k <= 256
    ensures |w| == 256 - k
    decreases |b| - k
  {
    if k == 256 then [] else [WordAt(b, 4 * k)] + WordsFrom(b, k + 1)
  }

  function DecodeWords(b: Block): (w: Table)
  {
    WordsFrom(b, 0)
  }

  function BytesFrom(w: Table, k: nat): (b: seq<byte>)
    requires k <= 256
    ensures |b| == 1024 - 4 * k
    decreases |w| - k
  {
    if k == 256 then [] else WordBytes(w[k]) + BytesFrom(w, k + 1)
  }

  function EncodeWords(w: Table): (b: Block)
  {
    BytesFrom(w, 0)
  }

  lemma {:induction false} WordsOfBytes(before: seq<byte>, w: Table, k: nat)
    requires k <= 256 && |before| == 4 * k
    ensures WordsFrom(before + BytesFrom(w, k), k) == w[k..]
    decreases 256 - k
  {
    var b := before + BytesFrom(w, k);
    if k < 256 {
      var h := WordBytes(w[k]);
      assert b == (before + h) + BytesFrom(w, k + 1);
      WordsOfBytes(before + h, w, k + 1);
      assert b[4 * k] == h[0] && b[4 * k + 1] == h[1] && b[4 * k + 2] == h[2] && b[4 * k + 3] == h[3];
      assert WordsFrom(b, k) == [w[k]] + WordsFrom(b, k + 1);
    }
  }

  /** A table written to a block is read back unchanged. */
  lemma WordsRoundTrip(w: Table)
    ensures DecodeWords(EncodeWords(w)) == w
  {
    WordsOfBytes([], w, 0);
    assert [] + BytesFrom(w, 0) == EncodeWords(w);
  }

  lemma {:induction false} ZeroWordsFrom(b: Block, k: nat)
    requires k <= 256
    requires forall j :: 0 <= j < BSIZE ==> b[j] == 0
    ensures forall j :: 0 <= j < 256 - k ==> WordsFrom(b, k)[j] == 0
    decreases 256 - k
  {
    if k < 256 {
      ZeroWordsFrom(b, k + 1);
    }
  }

  /** A zeroed buffer is a table of zero entries. */
  lemma ZeroWords(b: Block)
    requires forall i :: 0 <= i < BSIZE ==> b[i] == 0
    ensures forall i :: 0 <= i < 256 ==> DecodeWords(b)[i] == 0
  {
    ZeroWordsFrom(b, 0);
  }

  // ----- bits -----

  /** `x >> n` */
  function Shr(x: nat, n: nat): (y: nat)
    decreases n
  {
    if n == 0 then x else Shr(x / 2, n - 1)
  }

  /** Bit `i` of a bitmap block: bit `i % 8` of byte `i / 8`. */
  predicate TestBit(b: Block, i: nat)
    requires i < 8192
  {
    Shr(b[i / 8], i % 8) % 2 == 1
  }

  function DecodeBits(b: Block): (s: Bitmap)
  {
    seq(8192, i requires 0 <= i < 8192 => TestBit(b, i))
  }

  function BitsValue(s: seq<bool>): (x: nat)
  {
    if s == [] then 0 else (if s[0] then 1 else 0) + 2 * BitsValue(s[1..])
  }

  function Pow2(n: nat): (p: nat)
  {
    if n == 0 then 1 else 2 * Pow2(n - 1)
  }

  lemma {:induction false} BitsValueBound(s: seq<bool>)
    ensures BitsValue(s) < Pow2(|s|)
  {
    if s != [] {
      BitsValueBound(s[1..]);
    }
  }

  function PackByte(s: Bitmap, q: nat): (x: byte)
    requires q < 1024
  {
    var t := s[8 * q..8 * q + 8];
    BitsValueBound(t);
    assert Pow2(8) == 0x100 by { assert Pow2(4) == 0x10; }
    BitsValue(t)
  }

  function EncodeBits(s: Bitmap): (b: Block)
  {
    seq(1024, q requires 0 <= q < 1024 => PackByte(s, q))
  }

  lemma {:induction false} BitOfValue(s: seq<bool>, r: nat)
    requires r < |s|
    ensures Shr(BitsValue(s), r) % 2 == 1 <==> s[r]
  {
    if r > 0 {
      BitOfValue(s[1..], r - 1);
    }
  }

  /** A bitmap written to its block is read back unchanged. */
  lemma BitsRoundTrip(s: Bitmap)
    ensures DecodeBits(EncodeBits(s)) == s
  {
    var b := EncodeBits(s);
    forall i | 0 <= i < 8192
      ensures DecodeBits(b)[i] == s[i]
    {
      var q, r := i / 8, i % 8;
      assert b[q] == PackByte(s, q);
      BitOfValue(s[8 * q..8 * q + 8], r);
    }
  }

  // ----- inode records -----

  const NADDRS: nat := 14
  const INODE_WORDS: nat := 32
  const INODES_PER_BLOCK: nat := 8

  const FT_UNUSED: half := 0
  const FT_DIRECTORY: half := 1
  const FT_FILE: half := 2

  type Addrs = a: seq<word> | |a| == NADDRS witness seq(NADDRS, i => 0)

  /** The used fields of `struct dinode`; `major`, `minor` and the alignment padding are stored as zero. */
  datatype Dinode = Dinode(typ: half, nlink: half, size: word, addrs: Addrs)

  const NoAddrs: Addrs := seq(NADDRS, i => 0)

  function InodeToWords(d: Dinode): (w: seq<word>)
    ensures |w| == INODE_WORDS
  {
    [d.typ as int, 0x1_0000 * (d.nlink as int), d.size] + d.addrs + seq(15, i => 0)
  }

  function InodeFromWords(w: seq<word>): (d: Dinode)
    requires |w| == INODE_WORDS
  {
    Dinode(w[0] % 0x1_0000, w[1] / 0x1_0000, w[2], w[3..3 + NADDRS])
  }

  lemma InodeRoundTrip(d: Dinode)
    ensures InodeFromWords(InodeToWords(d)) == d
  {
    var w := InodeToWords(d);
    assert w[3..3 + NADDRS] == d.addrs;
  }

  function InodesFrom(w: Table, k: nat): (s: seq<Dinode>)
    requires k <= 8
    ensures |s| == 8 - k
    decreases |w| - k
  {
    if k == 8 then [] else [InodeFromWords(w[32 * k..32 * k + 32])] + InodesFrom(w, k + 1)
  }

  function InodeWordsFrom(s: seq<Dinode>, k: nat): (w: seq<word>)
    requires |s| == 8 && k <= 8
    ensures |w| == 256 - 32 * k
    decreases |s| - k
  {
    if k == 8 then [] else InodeToWords(s[k]) + InodeWordsFrom(s, k + 1)
  }

  lemma {:induction false} InodesOfWords(before: seq<word>, s: seq<Dinode>, k: nat)
    requires |s| == 8 && k <= 8 && |before| == 32 * k
    ensures InodesFrom(before + InodeWordsFrom(s, k), k) == s[k..]
    decreases 8 - k
  {
    if k < 8 {
      var w := before + InodeWordsFrom(s, k);
      var h := InodeToWords(s[k]);
      assert w == (before + h) + InodeWordsFrom(s, k + 1);
      InodesOfWords(before + h, s, k + 1);
      assert w[32 * k..32 * k + 32] == h;
      InodeRoundTrip(s[k]);
    }
  }

  function DecodeInodes(b: Block): (s: seq<Dinode>)
    ensures |s| == INODES_PER_BLOCK
  {
    InodesFrom(DecodeWords(b), 0)
  }

  function EncodeInodes(s: seq<Dinode>): (b: Block)
    requires |s| == INODES_PER_BLOCK
  {
    EncodeWords(InodeWordsFrom(s, 0))
  }

  /** A block of eight records written back is read as the same eight records. */
  lemma InodesRoundTrip(s: seq<Dinode>)
    requires |s| == INODES_PER_BLOCK
    ensures DecodeInodes(EncodeInodes(s)) == s
  {
    WordsRoundTrip(InodeWordsFrom(s, 0));
    InodesOfWords([], s, 0);
    assert [] + InodeWordsFrom(s, 0) == InodeWordsFrom(s, 0);
  }
}
