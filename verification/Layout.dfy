/**
 Where things live on a volume: the superblock's regions, and the index tree that hangs
 below an inode (12 direct entries, one single-indirect table, one double-indirect root
 with up to 256 second-level tables).
 */
module Layout {
  import opened Codec

  const MAXFILE: nat := 65804        // 12 + 256 + 256 * 256
  const MAXBYTES: nat := 67383296    // MAXFILE * BSIZE

  datatype Superblock = Superblock(size: nat, nblocks: nat, ninodes: nat, inodestart: nat, bmapstart: nat) {

    /** The block that holds the record of inode `i`. */
    function InodeBlock(i: nat): nat { inodestart + i / 8 }

    /**
     What the kernel relies on without checking: every inode record lies before the bitmap,
     and one bitmap block is enough for the whole volume.
     */
    predicate WellFormed() {
      && 1 < inodestart
      && inodestart + (ninodes + 7) / 8 <= bmapstart < size
      && nblocks <= size <= 8192
    }

    /** The same layout with only the records that lie before the bitmap. */
    function Fitting(): (r: Superblock)
      requires inodestart <= bmapstart
    {
      if ninodes <= 8 * (bmapstart - inodestart) then this else this.(ninodes := 8 * (bmapstart - inodestart))
    }

    predicate AreWords() {
      && size < 0x1_0000_0000 && nblocks < 0x1_0000_0000 && ninodes < 0x1_0000_0000
      && inodestart < 0x1_0000_0000 && bmapstart < 0x1_0000_0000
    }

    predicate IsMeta(b: nat) { b <= bmapstart }

    predicate IsData(b: nat) { bmapstart < b < size }
  }

  /** What the first word of a superblock has to be. */
  const MAGIC: word := 0x10203040

  /** Block 1 of a volume: the fields of the superblock as words, in this order, and zeros. */
  function EncodeSuper(magic: word, sb: Superblock): Block
    requires sb.AreWords()
  {
    EncodeWords([magic, sb.size, sb.nblocks, sb.ninodes, sb.inodestart, sb.bmapstart] + seq(250, i => 0))
  }

  /** What `fs_init` takes from block 1. */
  function DecodeSuper(b: Block): (word, Superblock) {
    var w := DecodeWords(b);
    (w[0], Superblock(w[1], w[2], w[3], w[4], w[5]))
  }

  /** The kernel reads the superblock that the builder writes. */
  lemma SuperRoundTrip(magic: word, sb: Superblock)
    requires sb.AreWords()
    ensures DecodeSuper(EncodeSuper(magic, sb)) == (magic, sb)
  {
    hide DecodeWords, EncodeWords;
    WordsRoundTrip([magic, sb.size, sb.nblocks, sb.ninodes, sb.inodestart, sb.bmapstart] + seq(250, i => 0));
  }

  /** Number of data blocks of a file of `size` bytes. */
  function Blocks(size: nat): nat { (size + 1023) / 1024 }

  /** Unsigned 32-bit addition. */
  function Add32(a: word, b: word): word { (a + b) % 0x1_0000_0000 }

  /** The kernel's overflow test. */
  lemma WrapTest(a: word, b: word)
    ensures Add32(a, b) < a <==> a + b >= 0x1_0000_0000
    ensures a + b < 0x1_0000_0000 ==> Add32(a, b) == a + b
  {
  }

  // ----- nodes of the index tree -----

  /**
   A data block is reached directly from the inode, through the single-indirect table, or through
   second-level table `j`; the tables are nodes too.
   */
  datatype Node = Direct(i: nat) | Leaf(i: nat) | DeepLeaf(j: nat, i: nat) | Single | Root | Sub(j: nat) {
    predicate IsData() { Direct? || Leaf? || DeepLeaf? }
  }

  datatype Key = Key(inum: nat, node: Node)

  /** The table that stores the address of a node: the inode itself or another node. */
  datatype Home = InInode | InTable(table: Node)

  predicate ValidNode(n: Node) {
    match n
    case Direct(i) => i < 12
    case Leaf(i) => i < 256
    case DeepLeaf(j, i) => j < 256 && i < 256
    case Sub(j) => j < 256
    case Single => true
    case Root => true
  }

  function HomeOf(n: Node): Home {
    match n
    case Direct(_) => InInode
    case Leaf(_) => InTable(Single)
    case DeepLeaf(j, _) => InTable(Sub(j))
    case Single => InInode
    case Root => InInode
    case Sub(_) => InTable(Root)
  }

  /** Position of a node's address in its home. */
  function Idx(n: Node): nat {
    match n
    case Direct(i) => i
    case Leaf(i) => i
    case DeepLeaf(_, i) => i
    case Single => 12
    case Root => 13
    case Sub(j) => j
  }

  lemma HomeInRange(n: Node)
    requires ValidNode(n)
    ensures HomeOf(n).InInode? ==> Idx(n) < NADDRS
    ensures HomeOf(n).InTable? ==> Idx(n) < WORDS_PER_BLOCK && ValidNode(HomeOf(n).table) && !HomeOf(n).table.IsData()
  {
  }

  /** No two nodes share an entry of a table. */
  lemma HomeInjective(m: Node, n: Node)
    requires ValidNode(m) && ValidNode(n)
    requires HomeOf(m) == HomeOf(n) && Idx(m) == Idx(n)
    ensures m == n
  {
  }

  // ----- file block numbers -----

  /** The node of file block `bn`. */
  function NodeOf(bn: nat): (n: Node)
    requires bn < MAXFILE
    ensures ValidNode(n) && n.IsData() && BlockNumber(n) == bn
  {
    if bn < 12 then Direct(bn)
    else if bn < 268 then Leaf(bn - 12)
    else DeepLeaf((bn - 268) / 256, (bn - 268) % 256)
  }

  function BlockNumber(n: Node): nat
    requires n.IsData()
  {
    match n
    case Direct(i) => i
    case Leaf(i) => 12 + i
    case DeepLeaf(j, i) => 268 + 256 * j + i
  }

  /** The nodes that a file of `c` data blocks needs: its data blocks and exactly the tables above them. */
  predicate Present(c: nat, n: Node) {
    match n
    case Direct(i) => i < c
    case Leaf(i) => 12 + i < c
    case DeepLeaf(j, i) => 268 + 256 * j + i < c
    case Single => 12 < c
    case Root => 268 < c
    case Sub(j) => 268 + 256 * j < c
  }

  lemma PresentNode(c: nat, bn: nat)
    requires bn < MAXFILE
    ensures Present(c, NodeOf(bn)) <==> bn < c
  {
  }

  /** The data node of file block `bn` and the tables above it. */
  function Chain(bn: nat): (s: set<Node>)
    requires bn < MAXFILE
  {
    match NodeOf(bn)
    case Direct(i) => {Direct(i)}
    case Leaf(i) => {Single, Leaf(i)}
    case DeepLeaf(j, i) => {Root, Sub(j), DeepLeaf(j, i)}
  }

  function Max(a: nat, b: nat): nat { if a < b then b else a }

  function Min(a: nat, b: nat): nat { if a < b then a else b }

  /** Mapping block `bn` of a file that maps `c >= bn` blocks adds its chain and nothing else. */
  lemma PresentGrow(c: nat, bn: nat, n: Node)
    requires bn <= c && bn < MAXFILE && ValidNode(n)
    ensures Present(Max(c, bn + 1), n) <==> Present(c, n) || n in Chain(bn)
  {
  }

  /**
   While a file is cut from `from` to `to` blocks, after blocks `[to, bn)` are gone: a second-level
   table goes with its last block, the other tables stay to the end.
   */
  predicate Remains(to: nat, from: nat, bn: nat, n: Node) {
    match n
    case Direct(i) => i < to || bn <= i < from
    case Leaf(i) => 12 + i < to || bn <= 12 + i < from
    case DeepLeaf(j, i) => 268 + 256 * j + i < to || bn <= 268 + 256 * j + i < from
    case Single => 12 < from
    case Root => 268 < from
    case Sub(j) => 268 + 256 * j < from && !(to <= 268 + 256 * j && (524 + 256 * j <= bn || from <= bn))
  }

  /** Cutting starts from the nodes of the old file. */
  lemma RemainsStart(to: nat, from: nat, n: Node)
    requires to < from
    ensures Remains(to, from, to, n) <==> Present(from, n)
  {
  }

  /** When all blocks are gone, only the two tables held by the inode may still be too many. */
  lemma RemainsEnd(to: nat, from: nat, n: Node)
    requires to < from
    ensures Remains(to, from, from, n) <==> Present(to, n) || (n == Single && 12 < from) || (n == Root && 268 < from)
  {
  }

  /** Second-level table `j` loses its last block at `bn`, or keeps one. */
  predicate LastOf(to: nat, from: nat, bn: nat, j: nat) {
    to <= 268 + 256 * j && (bn == 523 + 256 * j || bn == from - 1)
  }

  /** One step of the cut removes the block and, with a table's last block, that table. */
  lemma RemainsStep(to: nat, from: nat, bn: nat, n: Node)
    requires to <= bn < from <= MAXFILE && ValidNode(n)
    ensures Remains(to, from, bn + 1, n) <==>
              && Remains(to, from, bn, n)
              && n != NodeOf(bn)
              && !(NodeOf(bn).DeepLeaf? && n == Sub(NodeOf(bn).j) && LastOf(to, from, bn, NodeOf(bn).j))
  {
    assert BlockNumber(NodeOf(bn)) == bn;
  }

  /** A second-level table may be freed exactly when no other block of it remains. */
  lemma LastOfMeaning(to: nat, from: nat, bn: nat, j: nat, x: nat)
    requires to <= bn < from <= MAXFILE && NodeOf(bn) == DeepLeaf(j, x)
    ensures LastOf(to, from, bn, j) <==> forall y :: 0 <= y < 256 && y != x ==> !Remains(to, from, bn, DeepLeaf(j, y))
  {
    assert BlockNumber(NodeOf(bn)) == bn;
    if !LastOf(to, from, bn, j) {
      assert Remains(to, from, bn, DeepLeaf(j, if to <= 268 + 256 * j then x + 1 else 0));
    }
  }
}
