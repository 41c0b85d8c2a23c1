/**
 The image builder. It writes each file in one pass, keeping the index tables of the file in memory
 and flushing a second-level table when it moves on to the next; inode records and the bitmap are
 written last. The invariant therefore speaks of the view: the image with all that is still in
 memory written over it.
 */
module Mkfs {
  import opened Codec
  import opened Layout
  import opened Forests
  import opened Contents
  import opened Volumes
  import opened Hazards

  /** The builder's layout, `Shipped`, as far as it fits: the inode area of four blocks holds 32 of its 64 records. */
  const Image := Superblock(8192, 8185, 32, 2, 6)

  /** Block 1 of every image. */
  const FirstBlock: Block := EncodeSuper(MAGIC, Superblock(8192, 8185, 64, 2, 6))

  lemma FirstBlockIs()
    ensures DecodeSuper(FirstBlock) == (MAGIC, Shipped) && Shipped.Fitting() == Image
  {
    SuperRoundTrip(MAGIC, Shipped);
  }

  /** The tables of the file being added; `active` is the index of the buffered second-level table, or -1. */
  datatype Pending = Pending(indirectBlock: word, indirect: Table, dindirect: Table, sub: Table, active: int) {
    predicate Ok() { -1 <= active < 256 }

    function SubBlock(): word
      requires Ok()
    {
      if active == -1 then 0 else dindirect[active]
    }
  }

  function Overlay(disk: Disk, b: word, t: Table): (r: Disk)
    ensures |r| == |disk|
  {
    if 0 < b < |disk| then disk[b := EncodeWords(t)] else disk
  }

  function View(disk: Disk, bits: Bitmap, ip: Dinode, p: Pending): (v: Disk)
    requires |disk| == 8192 && p.Ok()
    ensures |v| == 8192
  {
    var v := disk[6 := EncodeBits(bits)];
    Overlay(Overlay(Overlay(v, p.indirectBlock, p.indirect), ip.addrs[13], p.dindirect), p.SubBlock(), p.sub)
  }

  /** Blocks from `free` on are untouched, those before it marked, and the superblock is in its place. */
  ghost predicate Fresh(disk: Disk, bits: Bitmap, free: nat) {
    && |disk| == 8192 && 7 <= free && disk[1] == FirstBlock
    && (forall x: nat {:trigger disk[x]} {:trigger bits[x]} :: free <= x < 8192 ==> Blank(disk[x]) && !bits[x])
    && (forall x: nat :: x < free && x < 8192 ==> bits[x])
  }

  /** The buffered tables are those of the file's tree, after `c` blocks. */
  ghost predicate Buffered(loc: map<Key, nat>, i: nat, ip: Dinode, p: Pending, c: nat) {
    && p.Ok()
    && p.indirectBlock == Expected(loc, Key(i, Single))
    && ip.addrs[13] == Expected(loc, Key(i, Root))
    && p.active == (if c <= 268 then -1 else (c - 269) / 256)
    && (p.active >= 0 ==> p.dindirect[p.active] == Expected(loc, Key(i, Sub(p.active))))
    && (c <= 12 ==> forall x :: 0 <= x < 256 ==> p.indirect[x] == 0)
    && (c <= 268 ==> forall x :: 0 <= x < 256 ==> p.dindirect[x] == 0)
  }

  /** The invariant of the block loop: file `i` has `c` blocks so far. */
  ghost predicate Adding(disk: Disk, bits: Bitmap, free: nat, ino: seq<Dinode>, f: Forest, i: nat, p: Pending, c: nat) {
    && Fresh(disk, bits, free) && i < |ino| && p.Ok()
    && Stored(Image, View(disk, bits, ino[i], p), ino, f)
    && Shaped(ino, f.loc, i, c)
    && Buffered(f.loc, i, ino[i], p, c)
  }

  // ----- reading the view -----

  predicate Apart(ip: Dinode, p: Pending)
    requires p.Ok()
  {
    var a, b, c := p.indirectBlock, ip.addrs[13], p.SubBlock();
    && (a == 0 || 6 < a < 8192) && (b == 0 || 6 < b < 8192) && (c == 0 || 6 < c < 8192)
    && (a != 0 ==> a != b && a != c) && (b != 0 ==> b != c)
  }

  /** Block `x` of the view. */
  function Shown(disk: Disk, ip: Dinode, p: Pending, x: nat): Block
    requires x < |disk| && p.Ok()
  {
    if x == p.indirectBlock then EncodeWords(p.indirect)
    else if x == ip.addrs[13] then EncodeWords(p.dindirect)
    else if x == p.SubBlock() then EncodeWords(p.sub)
    else disk[x]
  }

  /** The view has the bitmap and the buffered tables in their blocks, and the image elsewhere. */
  lemma ViewFacts(disk: Disk, bits: Bitmap, ip: Dinode, p: Pending)
    requires |disk| == 8192 && p.Ok() && Apart(ip, p)
    ensures var v := View(disk, bits, ip, p);
            && Bits(Image, v) == bits
            && (p.indirectBlock != 0 ==> DecodeWords(v[p.indirectBlock]) == p.indirect)
            && (ip.addrs[13] != 0 ==> DecodeWords(v[ip.addrs[13]]) == p.dindirect)
            && (p.SubBlock() != 0 ==> DecodeWords(v[p.SubBlock()]) == p.sub)
            && (forall x: nat {:trigger v[x]} :: 6 < x < 8192 ==> v[x] == Shown(disk, ip, p, x))
  {
    BitsRoundTrip(bits);
    WordsRoundTrip(p.indirect);
    WordsRoundTrip(p.dindirect);
    WordsRoundTrip(p.sub);
  }

  /** The buffered tables of a file being added are in blocks of their own. */
  lemma AddingApart(v: Disk, ino: seq<Dinode>, f: Forest, i: nat, p: Pending, c: nat)
    requires Stored(Image, v, ino, f) && i < |ino| && Buffered(f.loc, i, ino[i], p, c)
    ensures Apart(ino[i], p)
  {
    hide Stored;
    OwnBlock(v, ino, f, Key(i, Single));
    OwnBlock(v, ino, f, Key(i, Root));
    if p.active >= 0 {
      OwnBlock(v, ino, f, Key(i, Sub(p.active)));
    }
  }

  lemma OwnBlock(v: Disk, ino: seq<Dinode>, f: Forest, k: Key)
    requires Stored(Image, v, ino, f)
    ensures k in f.loc ==> Image.IsData(f.loc[k]) && f.loc[k] in f.owner && f.owner[f.loc[k]] == k
  {
  }

  // ----- one more node, on the view -----

  /** Marks `b` in the bitmap block. */
  function Mark(v: Disk, b: nat): (r: Disk)
    requires |v| == 8192 && b < 8192
    ensures |r| == 8192
  {
    v[6 := EncodeBits(Bits(Image, v)[b := true])]
  }

  lemma MarkFacts(v: Disk, b: nat)
    requires |v| == 8192 && b < 8192
    ensures Bits(Image, Mark(v, b)) == Bits(Image, v)[b := true]
  {
    BitsRoundTrip(Bits(Image, v)[b := true]);
  }

  lemma FreeIsUnowned(v: Disk, ino: seq<Dinode>, f: Forest, b: nat)
    requires Stored(Image, v, ino, f) && b < 8192 && !Bits(Image, v)[b]
    ensures Image.IsData(b) && b !in f.owner
  {
  }

  /** A table of the inode gets a block. */
  lemma AddTop(v: Disk, ino: seq<Dinode>, f: Forest, k: Key, b: word)
    requires Stored(Image, v, ino, f) && k.inum < |ino| && (k.node == Single || k.node == Root) && k !in f.loc
    requires b < 8192 && !Bits(Image, v)[b] && Blank(v[b])
    ensures Stored(Image, Mark(v, b), ino[k.inum := SetAddr(ino[k.inum], Idx(k.node), b)], f.Add(k, b))
    ensures Kept(v, f.loc, Mark(v, b), f.Add(k, b).loc)
  {
    FreeIsUnowned(v, ino, f, b);
    MarkFacts(v, b);
    LinkInInode(Image, v, Mark(v, b), ino, f, k, b);
    AddKept(Image, |ino|, v, Mark(v, b), f, k, b, b);
  }

  /** A second-level table gets a block, entered in the root table `t`. */
  lemma AddSub(v: Disk, ino: seq<Dinode>, f: Forest, k: Key, t: nat, b: word)
    requires Stored(Image, v, ino, f) && k.inum < |ino| && k.node.Sub? && ValidNode(k.node) && k !in f.loc
    requires TableOf(f.loc, k, t) && t < 8192
    requires b < 8192 && !Bits(Image, v)[b] && Blank(v[b])
    ensures var v' := Mark(v, b)[t := EncodeWords(DecodeWords(v[t])[k.node.j := b])];
            Stored(Image, v', ino, f.Add(k, b)) && Kept(v, f.loc, v', f.Add(k, b).loc)
  {
    FreeIsUnowned(v, ino, f, b);
    TableEntry(Image, v, ino, f, k, t);
    MarkFacts(v, b);
    WordsRoundTrip(DecodeWords(v[t])[k.node.j := b]);
    var v' := Mark(v, b)[t := EncodeWords(DecodeWords(v[t])[k.node.j := b])];
    assert f.owner[t] == Key(k.inum, Root);
    LinkInTable(Image, v, v', ino, f, k, t, b);
    AddKept(Image, |ino|, v, v', f, k, t, b);
  }

  /** The view `v'` is `v` with data block `b`, holding `data`, linked as block `bn` of file `i` in the inode. */
  lemma AddDirect(v: Disk, v': Disk, ino: seq<Dinode>, f: Forest, i: nat, bn: nat, b: word, data: Block)
    requires Stored(Image, v, ino, f) && i < |ino| && bn < 12 && Key(i, Direct(bn)) !in f.loc
    requires b < 8192 && !Bits(Image, v)[b] && Blank(v[b])
    requires |v'| == 8192 && Bits(Image, v') == Bits(Image, v)[b := true] && v'[b] == data
    requires SameData(Image, v, v', {b})
    ensures Stored(Image, v', ino[i := SetAddr(ino[i], bn, b)], f.Add(Key(i, Direct(bn)), b))
    ensures Wrote(v, f.loc, v', f.loc[Key(i, Direct(bn)) := b], i, 1024 * bn, data)
  {
    var k := Key(i, Direct(bn));
    FreeIsUnowned(v, ino, f, b);
    var w := v'[b := v[b]];
    LinkInInode(Image, v, w, ino, f, k, b);
    AddKept(Image, |ino|, v, w, f, k, b, b);
    FillBlock(v, w, v', ino[i := SetAddr(ino[i], bn, b)], f.loc, f.Add(k, b), i, bn, data);
  }

  /** The same, with the entry in index table `t`. */
  lemma AddIndirect(v: Disk, v': Disk, ino: seq<Dinode>, f: Forest, i: nat, bn: nat, t: nat, b: word, data: Block)
    requires Stored(Image, v, ino, f) && i < |ino| && bn < MAXFILE && Key(i, NodeOf(bn)) !in f.loc
    requires TableOf(f.loc, Key(i, NodeOf(bn)), t)
    requires b < 8192 && !Bits(Image, v)[b] && Blank(v[b])
    requires |v'| == 8192 && Bits(Image, v') == Bits(Image, v)[b := true] && v'[b] == data
    requires SameData(Image, v, v', {b, t}) && TableSet(v, v', t, Idx(NodeOf(bn)), b)
    ensures Stored(Image, v', ino, f.Add(Key(i, NodeOf(bn)), b))
    ensures Wrote(v, f.loc, v', f.loc[Key(i, NodeOf(bn)) := b], i, 1024 * bn, data)
  {
    var k := Key(i, NodeOf(bn));
    FreeIsUnowned(v, ino, f, b);
    PlacedHome(Image, |ino|, f.loc, Key(i, HomeOf(k.node).table));
    assert f.owner[t] == Key(i, HomeOf(k.node).table);
    var w := v'[b := v[b]];
    LinkInTable(Image, v, w, ino, f, k, t, b);
    AddKept(Image, |ino|, v, w, f, k, t, b);
    FillBlock(v, w, v', ino, f.loc, f.Add(k, b), i, bn, data);
  }

  lemma StoredInverse(v: Disk, ino: seq<Dinode>, f: Forest)
    requires Stored(Image, v, ino, f)
    ensures f.Inverse()
  {
  }

  lemma FillBlock(v: Disk, w: Disk, v': Disk, ino: seq<Dinode>, loc: map<Key, nat>, f: Forest, i: nat, bn: nat,
                  data: Block)
    requires Stored(Image, w, ino, f) && bn < MAXFILE && Key(i, NodeOf(bn)) in f.loc && Kept(v, loc, w, f.loc)
    requires f.loc[Key(i, NodeOf(bn))] < |w| && v' == w[f.loc[Key(i, NodeOf(bn))] := data]
    ensures Stored(Image, v', ino, f)
    ensures Wrote(v, loc, v', f.loc, i, 1024 * bn, data)
  {
    hide Stored, Kept, Wrote;
    var k := Key(i, NodeOf(bn));
    var o := 1024 * bn;
    assert o / 1024 == bn && o % 1024 == 0;
    StoredInverse(w, ino, f);
    DataWrite(Image, w, ino, f, k, data);
    KeptWrites(v, loc, w, f.loc, i, o);
    assert Splice(w[f.loc[k]], 0, data) == data;
    BlockWrites(w, f, i, o, data);
    WroteTrans(v, loc, w, f.loc, v', f.loc, i, o, [], data);
    assert [] + data == data;
  }

  // ----- one turn of the block loop -----

  const ZeroTable: Table := seq(256, i => 0)

  lemma AddingFree(disk: Disk, bits: Bitmap, free: nat, ino: seq<Dinode>, f: Forest, i: nat, p: Pending, c: nat, b: nat)
    requires Adding(disk, bits, free, ino, f, i, p, c) && free <= b < 8192
    ensures Apart(ino[i], p) && b !in {p.indirectBlock as int, ino[i].addrs[13] as int, p.SubBlock() as int}
    ensures Bits(Image, View(disk, bits, ino[i], p)) == bits && !bits[b]
    ensures View(disk, bits, ino[i], p)[b] == disk[b] && Blank(disk[b])
  {
    hide Stored, Shaped, View, Blank;
    var v := View(disk, bits, ino[i], p);
    AddingApart(v, ino, f, i, p, c);
    ViewFacts(disk, bits, ino[i], p);
    OwnedBit(v, ino, f, Key(i, Single));
    OwnedBit(v, ino, f, Key(i, Root));
    if p.active >= 0 {
      OwnedBit(v, ino, f, Key(i, Sub(p.active)));
    }
    var block := disk[b];
  }

  lemma OwnedBit(v: Disk, ino: seq<Dinode>, f: Forest, k: Key)
    requires Stored(Image, v, ino, f)
    ensures k in f.loc ==> Image.IsData(f.loc[k]) && Bits(Image, v)[f.loc[k]]
  {
    if k in f.loc {
      OwnedIsMarked(Image, v, ino, f, k);
    }
  }

  lemma NextAbsent(ino: seq<Dinode>, loc: map<Key, nat>, i: nat, c: nat)
    requires Shaped(ino, loc, i, c) && i < |ino| && c < MAXFILE
    ensures Key(i, NodeOf(c)) !in loc
    ensures Key(i, Single) in loc <==> 12 < c
    ensures Key(i, Root) in loc <==> 268 < c
    ensures NodeOf(c).DeepLeaf? ==> (Key(i, Sub(NodeOf(c).j)) in loc <==> NodeOf(c).i != 0)
  {
    assert BlockNumber(NodeOf(c)) == c;
  }

  lemma DirectDone(disk: Disk, bits: Bitmap, free: nat, ino: seq<Dinode>, f: Forest, i: nat, p: Pending, c: nat,
                   data: Block)
    requires Adding(disk, bits, free, ino, f, i, p, c) && c < 12 && free < 8192
    ensures var ino' := ino[i := SetAddr(ino[i], c, free)];
            var f' := f.Add(Key(i, Direct(c)), free);
            && Adding(disk[free := data], bits[free := true], free + 1, ino', f', i, p, c + 1)
            && Wrote(View(disk, bits, ino[i], p), f.loc, View(disk[free := data], bits[free := true], ino'[i], p),
                 f'.loc, i, 1024 * c, data)
  {
    hide Stored, Shaped, View, Wrote, Blank;
    var ino' := ino[i := SetAddr(ino[i], c, free)];
    var f' := f.Add(Key(i, Direct(c)), free);
    var disk', bits' := disk[free := data], bits[free := true];
    var v, v' := View(disk, bits, ino[i], p), View(disk', bits', ino'[i], p);
    AddingFree(disk, bits, free, ino, f, i, p, c, free);
    ViewFacts(disk, bits, ino[i], p);
    ViewFacts(disk', bits', ino'[i], p);
    NextAbsent(ino, f.loc, i, c);
    AddDirect(v, v', ino, f, i, c, free, data);
    ShapedGrow(ino, ino', f.loc, f'.loc, i, c, c);
  }

  lemma LeafDone(disk: Disk, bits: Bitmap, free: nat, ino: seq<Dinode>, f: Forest, i: nat, p: Pending, c: nat,
                 data: Block)
    requires Adding(disk, bits, free, ino, f, i, p, c) && 12 < c < 268 && free < 8192
    ensures var p' := p.(indirect := p.indirect[c - 12 := free]);
            var f' := f.Add(Key(i, Leaf(c - 12)), free);
            && Adding(disk[free := data], bits[free := true], free + 1, ino, f', i, p', c + 1)
            && Wrote(View(disk, bits, ino[i], p), f.loc, View(disk[free := data], bits[free := true], ino[i], p'),
                 f'.loc, i, 1024 * c, data)
  {
    hide Stored, Shaped, View, Wrote, Blank;
    var p' := p.(indirect := p.indirect[c - 12 := free]);
    var f' := f.Add(Key(i, Leaf(c - 12)), free);
    var disk', bits' := disk[free := data], bits[free := true];
    var v, v' := View(disk, bits, ino[i], p), View(disk', bits', ino[i], p');
    AddingFree(disk, bits, free, ino, f, i, p, c, free);
    ViewFacts(disk, bits, ino[i], p);
    ViewFacts(disk', bits', ino[i], p');
    NextAbsent(ino, f.loc, i, c);
    OwnedBit(v, ino, f, Key(i, Single));
    AddIndirect(v, v', ino, f, i, c, p.indirectBlock, free, data);
    ShapedGrow(ino, ino, f.loc, f'.loc, i, c, c);
  }

  lemma ViewFirstLeaf(disk: Disk, bits: Bitmap, free: nat, ip: Dinode, p: Pending, data: Block)
    requires |disk| == 8192 && p.Ok() && Apart(ip, p) && 7 <= free && free + 1 < 8192 && p.indirectBlock == 0
    requires ip.addrs[13] == 0 && p.SubBlock() == 0
    ensures var p' := p.(indirectBlock := free + 1, indirect := ZeroTable[0 := free]);
            var bits' := bits[free := true][free + 1 := true];
            var v, v' := View(disk, bits, ip, p), View(disk[free := data], bits', SetAddr(ip, 12, free + 1), p');
            && Bits(Image, v') == bits' && v'[free] == data
            && DecodeWords(v'[free + 1]) == ZeroTable[0 := free]
            && SameData(Image, v, v', {free, free + 1})
  {
    hide View;
    ViewFacts(disk, bits, ip, p);
    ViewFacts(disk[free := data], bits[free := true][free + 1 := true], SetAddr(ip, 12, free + 1),
              p.(indirectBlock := free + 1, indirect := ZeroTable[0 := free]));
  }

  lemma AddSingleAndLeaf(v: Disk, v': Disk, ino: seq<Dinode>, f: Forest, i: nat, t: word, b: word, data: Block)
    requires Stored(Image, v, ino, f) && i < |ino| && Key(i, Single) !in f.loc && Key(i, Leaf(0)) !in f.loc
    requires b < 8192 && t < 8192 && b != t
    requires !Bits(Image, v)[b] && !Bits(Image, v)[t] && Blank(v[b]) && Blank(v[t])
    requires |v'| == 8192 && Bits(Image, v') == Bits(Image, v)[b := true][t := true] && v'[b] == data
    requires DecodeWords(v'[t]) == ZeroTable[0 := b] && SameData(Image, v, v', {b, t})
    ensures var f' := f.Add(Key(i, Single), t).Add(Key(i, Leaf(0)), b);
            && Stored(Image, v', ino[i := SetAddr(ino[i], 12, t)], f')
            && Wrote(v, f.loc, v', f'.loc, i, 1024 * 12, data)
  {
    hide Stored, Wrote, Kept, Blank;
    var f0 := f.Add(Key(i, Single), t);
    var v0 := Mark(v, t);
    AddTop(v, ino, f, Key(i, Single), t);
    MarkFacts(v, t);
    FreeIsUnowned(v, ino, f, t);
    FreeIsUnowned(v, ino, f, b);
    BlankTable(v0[t]);
    assert Bits(Image, v') == Bits(Image, v0)[b := true];
    AddIndirect(v0, v', ino[i := SetAddr(ino[i], 12, t)], f0, i, 12, t, b, data);
    KeptThenWrote(v, f.loc, v0, f0.loc, v', f0.loc[Key(i, Leaf(0)) := b as int], i, 1024 * 12, data);
  }

  /** The first block of the single-indirect table: the data block, then the table, are taken. */
  lemma FirstLeafDone(disk: Disk, bits: Bitmap, free: nat, ino: seq<Dinode>, f: Forest, i: nat, p: Pending, data: Block)
    requires Adding(disk, bits, free, ino, f, i, p, 12) && free + 1 < 8192
    ensures var p' := p.(indirectBlock := free + 1, indirect := ZeroTable[0 := free]);
            var ino' := ino[i := SetAddr(ino[i], 12, free + 1)];
            var f' := f.Add(Key(i, Single), free + 1).Add(Key(i, Leaf(0)), free);
            var bits' := bits[free := true][free + 1 := true];
            && p.indirectBlock == 0
            && Adding(disk[free := data], bits', free + 2, ino', f', i, p', 13)
            && Wrote(View(disk, bits, ino[i], p), f.loc, View(disk[free := data], bits', ino'[i], p'), f'.loc, i,
                 1024 * 12, data)
  {
    hide Stored, Shaped, View, Wrote, Kept, Blank;
    var p' := p.(indirectBlock := free + 1, indirect := ZeroTable[0 := free]);
    var ino' := ino[i := SetAddr(ino[i], 12, free + 1)];
    var v := View(disk, bits, ino[i], p);
    var v' := View(disk[free := data], bits[free := true][free + 1 := true], ino'[i], p');
    AddingFree(disk, bits, free, ino, f, i, p, 12, free);
    AddingFree(disk, bits, free, ino, f, i, p, 12, free + 1);
    NextAbsent(ino, f.loc, i, 12);
    ViewFirstLeaf(disk, bits, free, ino[i], p, data);
    AddSingleAndLeaf(v, v', ino, f, i, free + 1, free, data);
    ShapedGrow(ino, ino', f.loc, f.loc[Key(i, Single) := free + 1][Key(i, Leaf(0)) := free], i, 12, 12);
  }

  lemma KeptThenWrote(v: Disk, loc: map<Key, nat>, v0: Disk, loc0: map<Key, nat>, v': Disk, loc': map<Key, nat>, i: nat,
                      o: nat, data: seq<byte>)
    requires Kept(v, loc, v0, loc0) && Wrote(v0, loc0, v', loc', i, o, data)
    ensures Wrote(v, loc, v', loc', i, o, data)
  {
    hide Kept, Wrote;
    KeptWrites(v, loc, v0, loc0, i, o);
    WroteTrans(v, loc, v0, loc0, v', loc', i, o, [], data);
    assert [] + data == data;
  }

  lemma DeepLeafDone(disk: Disk, bits: Bitmap, free: nat, ino: seq<Dinode>, f: Forest, i: nat, p: Pending, c: nat,
                     data: Block)
    requires Adding(disk, bits, free, ino, f, i, p, c) && 268 < c < MAXFILE && (c - 268) % 256 != 0 && free < 8192
    ensures var p' := p.(sub := p.sub[(c - 268) % 256 := free]);
            var f' := f.Add(Key(i, NodeOf(c)), free);
            && p.active == (c - 268) / 256
            && Adding(disk[free := data], bits[free := true], free + 1, ino, f', i, p', c + 1)
            && Wrote(View(disk, bits, ino[i], p), f.loc, View(disk[free := data], bits[free := true], ino[i], p'),
                 f'.loc, i, 1024 * c, data)
  {
    hide Stored, Shaped, View, Wrote, Blank, DecodeBits, DecodeWords, EncodeWords;
    var p' := p.(sub := p.sub[(c - 268) % 256 := free]);
    var f' := f.Add(Key(i, NodeOf(c)), free);
    var disk', bits' := disk[free := data], bits[free := true];
    var v, v' := View(disk, bits, ino[i], p), View(disk', bits', ino[i], p');
    AddingFree(disk, bits, free, ino, f, i, p, c, free);
    ViewFacts(disk, bits, ino[i], p);
    ViewFacts(disk', bits', ino[i], p');
    NextAbsent(ino, f.loc, i, c);
    assert p.active == (c - 268) / 256;
    OwnedBit(v, ino, f, Key(i, Sub(p.active)));
    AddIndirect(v, v', ino, f, i, c, p.SubBlock(), free, data);
    ShapedGrow(ino, ino, f.loc, f'.loc, i, c, c);
  }

  /** The image after the buffered second-level table, if any, is flushed. */
  function Flushed(disk: Disk, p: Pending): (r: Disk)
    requires p.Ok()
    ensures |r| == |disk|
  {
    Overlay(disk, p.SubBlock(), p.sub)
  }

  lemma BlankTable(b: Block)
    requires Blank(b)
    ensures DecodeWords(b) == ZeroTable
  {
  }

  /** The view `v'` is `v` with a second-level table in block `sub` and its first data block in `b`. */
  lemma AddSubAndLeaf(v: Disk, v': Disk, ino: seq<Dinode>, f: Forest, i: nat, j: nat, root: nat, sub: word, b: word,
                      data: Block)
    requires Stored(Image, v, ino, f) && i < |ino| && j < 256
    requires Key(i, Sub(j)) !in f.loc && Key(i, DeepLeaf(j, 0)) !in f.loc && TableOf(f.loc, Key(i, Sub(j)), root)
    requires b < 8192 && sub < 8192 && b != sub && b != root && sub != root && root < 8192
    requires !Bits(Image, v)[b] && !Bits(Image, v)[sub] && Blank(v[b]) && Blank(v[sub])
    requires |v'| == 8192 && Bits(Image, v') == Bits(Image, v)[b := true][sub := true] && v'[b] == data
    requires v'[root] == EncodeWords(DecodeWords(v[root])[j := sub]) && DecodeWords(v'[sub]) == ZeroTable[0 := b]
    requires SameData(Image, v, v', {b, sub, root})
    ensures var f' := f.Add(Key(i, Sub(j)), sub).Add(Key(i, DeepLeaf(j, 0)), b);
            Stored(Image, v', ino, f') && Wrote(v, f.loc, v', f'.loc, i, 1024 * (268 + 256 * j), data)
  {
    hide Stored, Wrote, Kept, Blank, DecodeBits, DecodeWords, EncodeWords;
    var f0 := f.Add(Key(i, Sub(j)), sub);
    var v0 := Mark(v, sub)[root := EncodeWords(DecodeWords(v[root])[j := sub])];
    AddSub(v, ino, f, Key(i, Sub(j)), root, sub);
    MarkFacts(v, sub);
    FreeIsUnowned(v, ino, f, sub);
    FreeIsUnowned(v, ino, f, b);
    TableEntry(Image, v, ino, f, Key(i, Sub(j)), root);
    assert Bits(Image, v') == Bits(Image, v)[sub := true][b := true];
    BlankTable(v0[sub]);
    assert NodeOf(268 + 256 * j) == DeepLeaf(j, 0);
    AddIndirect(v0, v', ino, f0, i, 268 + 256 * j, sub, b, data);
    KeptThenWrote(v, f.loc, v0, f0.loc, v', f0.loc[Key(i, DeepLeaf(j, 0)) := b], i, 1024 * (268 + 256 * j), data);
  }

  /** Moving on to second-level table `j`, on the view: the old table stays, flushed or not. */
  lemma ViewNextSub(disk: Disk, bits: Bitmap, free: nat, ip: Dinode, p: Pending, j: nat, data: Block)
    requires |disk| == 8192 && p.Ok() && Apart(ip, p) && 7 <= free && free + 1 < 8192 && 0 < j < 256
    requires p.active == j - 1
    requires ip.addrs[13] != 0 && p.SubBlock() != 0
    requires free !in {p.indirectBlock as int, ip.addrs[13] as int, p.SubBlock() as int}
    requires free + 1 !in {p.indirectBlock as int, ip.addrs[13] as int, p.SubBlock() as int}
    ensures var p' := p.(dindirect := p.dindirect[j := free + 1], sub := ZeroTable[0 := free], active := j);
            var bits' := bits[free := true][free + 1 := true];
            var v, v' := View(disk, bits, ip, p), View(Flushed(disk[free := data], p), bits', ip, p');
            && Bits(Image, v') == bits' && v'[free] == data
            && v'[ip.addrs[13]] == EncodeWords(DecodeWords(v[ip.addrs[13]])[j := free + 1])
            && DecodeWords(v'[free + 1]) == ZeroTable[0 := free]
            && SameData(Image, v, v', {free, free + 1, ip.addrs[13] as int})
  {
    hide View;
    var p' := p.(dindirect := p.dindirect[j := free + 1], sub := ZeroTable[0 := free], active := j);
    ViewFacts(disk, bits, ip, p);
    ViewFacts(Flushed(disk[free := data], p), bits[free := true][free + 1 := true], ip, p');
  }

  lemma NextSubShape(ino: seq<Dinode>, f: Forest, i: nat, p: Pending, j: nat, sub: word, b: word)
    requires Shaped(ino, f.loc, i, 268 + 256 * j) && i < |ino| && 0 < j < 256
    requires Buffered(f.loc, i, ino[i], p, 268 + 256 * j)
    ensures var p' := p.(dindirect := p.dindirect[j := sub], sub := ZeroTable[0 := b], active := j);
            var loc' := f.loc[Key(i, Sub(j)) := sub as int][Key(i, DeepLeaf(j, 0)) := b as int];
            p.active == j - 1 && Shaped(ino, loc', i, 269 + 256 * j) && Buffered(loc', i, ino[i], p', 269 + 256 * j)
  {
    hide Shaped;
    assert NodeOf(268 + 256 * j) == DeepLeaf(j, 0);
    var loc' := f.loc[Key(i, Sub(j)) := sub as int][Key(i, DeepLeaf(j, 0)) := b as int];
    NextAbsent(ino, f.loc, i, 268 + 256 * j);
    ShapedGrow(ino, ino, f.loc, loc', i, 268 + 256 * j, 268 + 256 * j);
  }

  /** The first block of a second-level table below an existing root: the old table is flushed. */
  lemma FirstDeepLeafDone(disk: Disk, bits: Bitmap, free: nat, ino: seq<Dinode>, f: Forest, i: nat, p: Pending, j: nat,
                          data: Block)
    requires 0 < j < 256 && Adding(disk, bits, free, ino, f, i, p, 268 + 256 * j) && free + 1 < 8192
    ensures var p' := p.(dindirect := p.dindirect[j := free + 1], sub := ZeroTable[0 := free], active := j);
            var f' := f.Add(Key(i, Sub(j)), free + 1).Add(Key(i, DeepLeaf(j, 0)), free);
            var disk', bits' := Flushed(disk[free := data], p), bits[free := true][free + 1 := true];
            && p.active == j - 1 && p.dindirect[j] == 0
            && Adding(disk', bits', free + 2, ino, f', i, p', 269 + 256 * j)
            && Wrote(View(disk, bits, ino[i], p), f.loc, View(disk', bits', ino[i], p'), f'.loc, i,
                 1024 * (268 + 256 * j), data)
  {
    hide Stored, Shaped, View, Wrote, Kept, Blank, Buffered;
    var c := 268 + 256 * j;
    assert NodeOf(c) == DeepLeaf(j, 0);
    var v := View(disk, bits, ino[i], p);
    var p' := p.(dindirect := p.dindirect[j := free + 1], sub := ZeroTable[0 := free], active := j);
    var v' := View(Flushed(disk[free := data], p), bits[free := true][free + 1 := true], ino[i], p');
    AddingFree(disk, bits, free, ino, f, i, p, c, free);
    AddingFree(disk, bits, free, ino, f, i, p, c, free + 1);
    NextAbsent(ino, f.loc, i, c);
    NextSubShape(ino, f, i, p, j, free + 1, free);
    BufferedBlocks(v, ino, f, i, p, c);
    NextSubUnused(disk, bits, free, ino, f, i, p, j);
    ViewNextSub(disk, bits, free, ino[i], p, j, data);
    AddSubAndLeaf(v, v', ino, f, i, j, ino[i].addrs[13], free + 1, free, data);
  }

  lemma NextSubUnused(disk: Disk, bits: Bitmap, free: nat, ino: seq<Dinode>, f: Forest, i: nat, p: Pending, j: nat)
    requires 0 < j < 256 && Adding(disk, bits, free, ino, f, i, p, 268 + 256 * j) && free < 8192
    ensures p.dindirect[j] == 0 && p.SubBlock() < free
  {
    hide Stored, Shaped, View, Blank;
    var v := View(disk, bits, ino[i], p);
    assert NodeOf(268 + 256 * j) == DeepLeaf(j, 0);
    AddingFree(disk, bits, free, ino, f, i, p, 268 + 256 * j, free);
    NextAbsent(ino, f.loc, i, 268 + 256 * j);
    BufferedBlocks(v, ino, f, i, p, 268 + 256 * j);
    OwnedBit(v, ino, f, Key(i, Sub(p.active)));
    OwnedBit(v, ino, f, Key(i, Root));
    ViewFacts(disk, bits, ino[i], p);
    TableEntry(Image, v, ino, f, Key(i, Sub(j)), ino[i].addrs[13]);
  }

  /** Beyond 268 blocks there is a root table and a current second-level table, with nothing after it. */
  lemma BufferedBlocks(v: Disk, ino: seq<Dinode>, f: Forest, i: nat, p: Pending, c: nat)
    requires Stored(Image, v, ino, f) && i < |ino| && Shaped(ino, f.loc, i, c) && Buffered(f.loc, i, ino[i], p, c)
    requires 268 < c < MAXFILE
    ensures Key(i, Root) in f.loc && ino[i].addrs[13] == f.loc[Key(i, Root)] != 0
    ensures p.active >= 0 && Key(i, Sub(p.active)) in f.loc && p.SubBlock() == f.loc[Key(i, Sub(p.active))] != 0
  {
    hide Stored;
    assert Key(i, Root) in f.loc && Key(i, Sub(p.active)) in f.loc;
    OwnedBit(v, ino, f, Key(i, Root));
    OwnedBit(v, ino, f, Key(i, Sub(p.active)));
  }

  // ----- the first block of the double-indirect tree -----

  lemma ViewFirstRoot(disk: Disk, bits: Bitmap, free: nat, ip: Dinode, p: Pending, data: Block)
    requires |disk| == 8192 && p.Ok() && Apart(ip, p) && 7 <= free && free + 2 < 8192 && p.active == -1
    requires ip.addrs[13] == 0
    requires p.indirectBlock !in {free, free + 1, free + 2}
    ensures var p' := p.(dindirect := ZeroTable[0 := free + 2], sub := ZeroTable[0 := free], active := 0);
            var bits' := bits[free := true][free + 1 := true][free + 2 := true];
            var v, v' := View(disk, bits, ip, p), View(disk[free := data], bits', SetAddr(ip, 13, free + 1), p');
            && Bits(Image, v') == bits' && v'[free] == data
            && v'[free + 1] == EncodeWords(ZeroTable[0 := free + 2])
            && DecodeWords(v'[free + 2]) == ZeroTable[0 := free]
            && SameData(Image, v, v', {free, free + 1, free + 2})
  {
    hide View;
    var p' := p.(dindirect := ZeroTable[0 := free + 2], sub := ZeroTable[0 := free], active := 0);
    ViewFacts(disk, bits, ip, p);
    ViewFacts(disk[free := data], bits[free := true][free + 1 := true][free + 2 := true], SetAddr(ip, 13, free + 1),
      p');
  }

  lemma AddRootSubAndLeaf(v: Disk, v': Disk, ino: seq<Dinode>, f: Forest, i: nat, root: word, sub: word, b: word,
                          data: Block)
    requires Stored(Image, v, ino, f) && i < |ino|
    requires Key(i, Root) !in f.loc && Key(i, Sub(0)) !in f.loc && Key(i, DeepLeaf(0, 0)) !in f.loc
    requires b < 8192 && sub < 8192 && root < 8192 && b != sub && b != root && sub != root
    requires !Bits(Image, v)[b] && !Bits(Image, v)[sub] && !Bits(Image, v)[root]
    requires Blank(v[b]) && Blank(v[sub]) && Blank(v[root])
    requires |v'| == 8192 && Bits(Image, v') == Bits(Image, v)[b := true][root := true][sub := true] && v'[b] == data
    requires v'[root] == EncodeWords(ZeroTable[0 := sub]) && DecodeWords(v'[sub]) == ZeroTable[0 := b]
    requires SameData(Image, v, v', {b, root, sub})
    ensures var f' := f.Add(Key(i, Root), root).Add(Key(i, Sub(0)), sub).Add(Key(i, DeepLeaf(0, 0)), b);
            && Stored(Image, v', ino[i := SetAddr(ino[i], 13, root)], f')
            && Wrote(v, f.loc, v', f'.loc, i, 1024 * 268, data)
  {
    hide Stored, Wrote, Kept, Blank;
    var f0 := f.Add(Key(i, Root), root);
    var v0 := Mark(v, root);
    AddTop(v, ino, f, Key(i, Root), root);
    MarkFacts(v, root);
    FreeIsUnowned(v, ino, f, root);
    FreeIsUnowned(v, ino, f, sub);
    FreeIsUnowned(v, ino, f, b);
    BlankTable(v0[root]);
    assert Bits(Image, v') == Bits(Image, v0)[b := true][sub := true];
    AddSubAndLeaf(v0, v', ino[i := SetAddr(ino[i], 13, root)], f0, i, 0, root, sub, b, data);
    KeptThenWrote(v, f.loc, v0, f0.loc, v', f0.loc[Key(i, Sub(0)) := sub as int][Key(i, DeepLeaf(0, 0)) := b as int], i,
      1024 * 268, data);
  }

  lemma FirstRootShape(ino: seq<Dinode>, f: Forest, i: nat, p: Pending, root: word, sub: word, b: word)
    requires Shaped(ino, f.loc, i, 268) && i < |ino| && Buffered(f.loc, i, ino[i], p, 268)
    ensures var p' := p.(dindirect := ZeroTable[0 := sub], sub := ZeroTable[0 := b], active := 0);
            var loc' := f.loc[Key(i, Root) := root as int][Key(i, Sub(0)) := sub as int]
                          [Key(i, DeepLeaf(0, 0)) := b as int];
            var ino' := ino[i := SetAddr(ino[i], 13, root)];
            p.active == -1 && Shaped(ino', loc', i, 269) && Buffered(loc', i, ino'[i], p', 269)
  {
    hide Shaped;
    var loc' := f.loc[Key(i, Root) := root as int][Key(i, Sub(0)) := sub as int][Key(i, DeepLeaf(0, 0)) := b as int];
    var ino' := ino[i := SetAddr(ino[i], 13, root)];
    NextAbsent(ino, f.loc, i, 268);
    ShapedGrow(ino, ino', f.loc, loc', i, 268, 268);
  }

  lemma FirstRootDone(disk: Disk, bits: Bitmap, free: nat, ino: seq<Dinode>, f: Forest, i: nat, p: Pending, data: Block)
    requires Adding(disk, bits, free, ino, f, i, p, 268) && free + 2 < 8192
    ensures var p' := p.(dindirect := ZeroTable[0 := free + 2], sub := ZeroTable[0 := free], active := 0);
            var ino' := ino[i := SetAddr(ino[i], 13, free + 1)];
            var f' := f.Add(Key(i, Root), free + 1).Add(Key(i, Sub(0)), free + 2).Add(Key(i, DeepLeaf(0, 0)), free);
            var bits' := bits[free := true][free + 1 := true][free + 2 := true];
            && p.active == -1 && ino[i].addrs[13] == 0
            && Adding(disk[free := data], bits', free + 3, ino', f', i, p', 269)
            && Wrote(View(disk, bits, ino[i], p), f.loc, View(disk[free := data], bits', ino'[i], p'), f'.loc, i,
                 1024 * 268, data)
  {
    hide Stored, Shaped, View, Wrote, Kept, Blank, DecodeBits, DecodeWords, EncodeWords;
    var v := View(disk, bits, ino[i], p);
    var p' := p.(dindirect := ZeroTable[0 := free + 2], sub := ZeroTable[0 := free], active := 0);
    var ino' := ino[i := SetAddr(ino[i], 13, free + 1)];
    var v' := View(disk[free := data], bits[free := true][free + 1 := true][free + 2 := true], ino'[i], p');
    AddingFree(disk, bits, free, ino, f, i, p, 268, free);
    AddingFree(disk, bits, free, ino, f, i, p, 268, free + 1);
    AddingFree(disk, bits, free, ino, f, i, p, 268, free + 2);
    NextAbsent(ino, f.loc, i, 268);
    FirstRootShape(ino, f, i, p, free + 1, free + 2, free);
    ViewFirstRoot(disk, bits, free, ino[i], p, data);
    AddRootSubAndLeaf(v, v', ino, f, i, free + 1, free + 2, free, data);
  }

  // ----- starting and finishing a file -----

  const NothingPending := Pending(0, ZeroTable, ZeroTable, ZeroTable, -1)

  const NoInode := Dinode(FT_UNUSED, 0, 0, NoAddrs)

  /** Dinode fields other than the addresses may change at any time. */
  lemma AddingFields(disk: Disk, bits: Bitmap, free: nat, ino: seq<Dinode>, f: Forest, i: nat, p: Pending, c: nat,
                     d: Dinode)
    requires Adding(disk, bits, free, ino, f, i, p, c) && d.addrs == ino[i].addrs
    ensures Adding(disk, bits, free, ino[i := d], f, i, p, c)
    ensures View(disk, bits, d, p) == View(disk, bits, ino[i], p)
  {
    var v := View(disk, bits, ino[i], p);
    StoredFrame(Image, v, v, ino, ino[i := d], f);
    ShapedExcept(ino, ino[i := d], f.loc, i, c);
  }

  lemma AddingStart(disk: Disk, bits: Bitmap, free: nat, ino: seq<Dinode>, f: Forest, i: nat)
    requires Fresh(disk, bits, free) && i < |ino| && ino[i].size == 0 && ino[i].addrs == NoAddrs
    requires Stored(Image, disk[6 := EncodeBits(bits)], ino, f) && Shaped(ino, f.loc, |ino|, 0)
    ensures Adding(disk, bits, free, ino, f, i, NothingPending, 0)
    ensures View(disk, bits, ino[i], NothingPending) == disk[6 := EncodeBits(bits)]
  {
    ShapedAt(ino, f.loc, i);
    ShapedKeys(ino, f.loc, i);
  }

  lemma ShapedKeys(ino: seq<Dinode>, loc: map<Key, nat>, i: nat)
    requires Shaped(ino, loc, i, 0) && i < |ino|
    ensures Key(i, Single) !in loc && Key(i, Root) !in loc
  {
  }

  /** Writing the buffered tables to their blocks makes the image what the view was. */
  lemma FlushIsView(disk: Disk, bits: Bitmap, ip: Dinode, p: Pending)
    requires |disk| == 8192 && p.Ok() && Apart(ip, p)
    ensures View(disk, bits, ip, p) ==
              Overlay(Overlay(Overlay(disk, p.indirectBlock, p.indirect), ip.addrs[13], p.dindirect),
                      p.SubBlock(), p.sub)[6 := EncodeBits(bits)]
  {
  }

  /** The bytes of a file grow block by block; the other files stay. */
  lemma GrowBytes(v: Disk, ino: seq<Dinode>, f: Forest, v': Disk, f': Forest, i: nat, c: nat, data: Block,
                  content: seq<byte>)
    requires Stored(Image, v, ino, f) && Shaped(ino, f.loc, i, c) && i < |ino| && c < MAXFILE
    requires Wrote(v, f.loc, v', f'.loc, i, 1024 * c, data)
    requires 1024 * c < |content| && FileBytes(v, f.loc, i, 1024 * c) == content[..1024 * c]
    requires data[..Min(1024, |content| - 1024 * c)] == content[1024 * c..Min(1024 * (c + 1), |content|)]
    ensures FileBytes(v', f'.loc, i, Min(1024 * (c + 1), |content|)) == content[..Min(1024 * (c + 1), |content|)]
  {
    var n := Min(1024 * (c + 1), |content|);
    ShapedBytes(Image, v, ino, f, i, c, i, 1024 * c);
    var s, t := FileBytes(v', f'.loc, i, n), content[..n];
    forall x: nat | x < n
      ensures s[x] == t[x]
    {
      assert s[x] == FileByte(v', f'.loc, i, x);
      if x < 1024 * c {
        assert FileBytes(v, f.loc, i, 1024 * c)[x] == content[..1024 * c][x];
      } else {
        assert data[..Min(1024, |content| - 1024 * c)][x - 1024 * c] == content[1024 * c..n][x - 1024 * c];
      }
    }
  }

  lemma GrowOthers(v: Disk, ino: seq<Dinode>, f: Forest, v': Disk, f': Forest, i: nat, c: nat, data: Block, j: nat)
    requires Stored(Image, v, ino, f) && Shaped(ino, f.loc, i, c) && j < |ino| && j != i && ino[j].size <= MAXBYTES
    requires Wrote(v, f.loc, v', f'.loc, i, 1024 * c, data)
    ensures FileBytes(v', f'.loc, j, ino[j].size) == FileBytes(v, f.loc, j, ino[j].size)
  {
    hide Stored, Shaped, Wrote, FileBytes;
    ShapedBytes(Image, v, ino, f, i, c, j, ino[j].size);
    WroteOther(v, f.loc, v', f'.loc, i, 1024 * c, data, j, ino[j].size);
  }

  /** The first `n` bytes of file `i` are in place, and the other files are as they were. */
  ghost predicate Holds(v: Disk, loc: map<Key, nat>, ino: seq<Dinode>, i: nat, s: seq<byte>, v0: Disk, loc0: map<Key,
                        nat>) {
    && FileBytes(v, loc, i, |s|) == s
    && (forall j: nat {:trigger ino[j]} :: j < |ino| && j != i ==>
         FileBytes(v, loc, j, ino[j].size) == FileBytes(v0, loc0, j, ino[j].size))
  }

  lemma HoldsStep(disk: Disk, bits: Bitmap, free: nat, ino: seq<Dinode>, f: Forest, v': Disk, f': Forest, i: nat,
                  p: Pending, c: nat,
                  data: Block, content: seq<byte>, ino': seq<Dinode>, v0: Disk, loc0: map<Key, nat>)
    requires Adding(disk, bits, free, ino, f, i, p, c) && c < MAXFILE
    requires Wrote(View(disk, bits, ino[i], p), f.loc, v', f'.loc, i, 1024 * c, data)
    requires 1024 * c < |content| && Holds(View(disk, bits, ino[i], p), f.loc, ino, i, content[..1024 * c], v0, loc0)
    requires data[..Min(1024, |content| - 1024 * c)] == content[1024 * c..Min(1024 * (c + 1), |content|)]
    requires forall x :: 0 <= x < |ino| ==> ino[x].size <= MAXBYTES
    requires |ino'| == |ino| && forall x :: 0 <= x < |ino| && x != i ==> ino'[x] == ino[x]
    ensures Holds(v', f'.loc, ino', i, content[..Min(1024 * (c + 1), |content|)], v0, loc0)
  {
    hide Stored, Shaped, Wrote, FileBytes, View;
    var v := View(disk, bits, ino[i], p);
    GrowBytes(v, ino, f, v', f', i, c, data, content);
    forall j: nat | j < |ino'| && j != i
      ensures FileBytes(v', f'.loc, j, ino'[j].size) == FileBytes(v0, loc0, j, ino'[j].size)
    {
      assert ino'[j] == ino[j];
      GrowOthers(v, ino, f, v', f', i, c, data, j);
    }
  }

  lemma BlankZero()
    ensures Blank(ZeroBlock())
  {
    ZeroWords(ZeroBlock());
  }

  lemma EmptyImage(disk: Disk, bits: Bitmap)
    requires |disk| == 8192 && disk[1] == FirstBlock && forall x :: 2 <= x < 8192 ==> disk[x] == ZeroBlock()
    requires forall x :: 0 <= x < 8192 ==> (bits[x] <==> x < 7)
    ensures Fresh(disk, bits, 7)
    ensures Bits(Image, disk[6 := EncodeBits(bits)]) == bits
  {
    hide ZeroBlock, Blank, EncodeBits, DecodeBits;
    BlankZero();
    assert forall x :: 7 <= x < 8192 ==> disk[x] == ZeroBlock();
    BitsRoundTrip(bits);
  }

  lemma EmptyForest(v: Disk, ino: seq<Dinode>)
    requires |v| == 8192 && (forall x :: 0 <= x < 8192 ==> (Bits(Image, v)[x] <==> x <= 6))
    requires forall x :: 0 <= x < |ino| ==> ino[x].addrs == NoAddrs && ino[x].size == 0
    ensures Stored(Image, v, ino, Forest(map[], map[])) && Shaped(ino, map[], |ino|, 0)
  {
    var loc: map<Key, nat> := map[];
    forall k: Key | k.inum < |ino| && ValidNode(k.node) && HomeIn(loc, k)
      ensures Entry(v, ino, loc, k) == Expected(loc, k)
    {
      assert HomeOf(k.node).InInode?;
    }
  }

  /** If no inode from `n` on owns a block, the first `n` inodes account for all blocks. */
  lemma Narrow(v: Disk, ino: seq<Dinode>, f: Forest, n: nat)
    requires Stored(Image, v, ino, f) && Shaped(ino, f.loc, |ino|, 0) && n <= |ino|
    requires forall x :: n <= x < |ino| ==> ino[x].size == 0
    ensures Stored(Image, v, ino[..n], f) && Shaped(ino[..n], f.loc, n, 0)
  {
    forall k | k in f.loc
      ensures k.inum < n
    {
      InRange(Image, |ino|, f.loc, k);
    }
    forall k: Key | k.inum < n && ValidNode(k.node) && HomeIn(f.loc, k)
      ensures Entry(v, ino[..n], f.loc, k) == Expected(f.loc, k)
    {
      assert Entry(v, ino, f.loc, k) == Expected(f.loc, k);
    }
  }

  /** Eight records to a block, four blocks: what the finished image holds as inodes. */
  lemma ImageRecords(disk: Disk, ino: seq<Dinode>)
    requires |disk| == 8192 && |ino| == 64
    requires forall k :: 0 <= k < 4 ==> DecodeInodes(disk[2 + k]) == ino[8 * k..8 * k + 8]
    ensures Records(Image, disk) == ino[..32]
  {
    forall i | 0 <= i < 32
      ensures Records(Image, disk)[i] == ino[i]
    {
      var k := i / 8;
      assert 0 <= k < 4 && i == 8 * k + i % 8;
      assert Record(Image, disk, i) == DecodeInodes(disk[2 + k])[i % 8];
    }
  }

  /**
   A finished image is consistent exactly if every file went to an inode number below 32; the record
   of a file above that is not in the image, and its blocks are lost.
   */
  lemma ImageConsistentIff(v: Disk, ino: seq<Dinode>, f: Forest, image: Disk)
    requires Stored(Image, v, ino, f) && Shaped(ino, f.loc, 64, 0) && |ino| == 64
    requires |image| == 8192 && Records(Image, image) == ino[..32]
    requires forall x: nat :: 6 <= x < 8192 ==> image[x] == v[x]
    ensures Consistent(Image, image) <==> forall x :: 32 <= x < 64 ==> ino[x].size == 0
  {
    if forall x :: 32 <= x < 64 ==> ino[x].size == 0 {
      Narrow(v, ino, f, 32);
      StoredFrame(Image, v, image, ino[..32], ino[..32], f);
      assert Consistent(Image, image);
    } else if Consistent(Image, image) {
      var x :| 32 <= x < 64 && ino[x].size != 0;
      var f' :| Stored(Image, image, Records(Image, image), f') && Shaped(Records(Image, image), f'.loc, 32, 0);
      LostBlock(v, ino, f, image, f', x);
    }
  }

  lemma LostBlock(v: Disk, ino: seq<Dinode>, f: Forest, image: Disk, f': Forest, x: nat)
    requires Stored(Image, v, ino, f) && Shaped(ino, f.loc, 64, 0) && |ino| == 64
    requires |image| == 8192 && (forall y: nat :: 6 <= y < 8192 ==> image[y] == v[y])
    requires 32 <= x < 64 && ino[x].size != 0
    ensures !Stored(Image, image, ino[..32], f')
  {
    hide Stored, Shaped;
    if Stored(Image, image, ino[..32], f') {
      var k := Key(x, Direct(0));
      ShapedKey(ino, f.loc, k);
      OwnedBit(v, ino, f, k);
      var b := f.loc[k];
      assert Bits(Image, image)[b];
      MarkedIsOwned(Image, image, ino[..32], f', b);
      var k' := f'.owner[b];
      StoredSize(v, ino, f);
      AgreeAt(Image, v, ino, f, image, ino[..32], f', k');
      OwnerOf(Image, v, ino, f, k);
      OwnerOf(Image, v, ino, f, k');
    }
  }

  lemma StoredSize(v: Disk, ino: seq<Dinode>, f: Forest)
    requires Stored(Image, v, ino, f)
    ensures |v| == 8192
  {
  }

  // ----- how many blocks a file takes -----

  /** What block `c` of a file takes: itself, and the tables that it is the first to need. */
  function Cost(c: nat): nat {
    1 + (if c == 12 || c == 268 then 1 else 0) + (if c >= 268 && (c - 268) % 256 == 0 then 1 else 0)
  }

  /** What the first `c` blocks of a file take. */
  function Need(c: nat): (n: nat)
    ensures n >= c && (c <= 12 ==> n == c)
  {
    if c == 0 then 0 else Need(c - 1) + Cost(c - 1)
  }

  lemma {:induction false} NeedGrows(a: nat, b: nat)
    requires a <= b
    ensures Need(a) <= Need(b)
  {
    if a < b {
      NeedGrows(a, b - 1);
    }
  }

  /** A file of this size fits an image whose next free block is `free`. */
  predicate FitsFrom(free: nat, size: nat) { size <= MAXBYTES && free + Need(Blocks(size)) <= 8192 }

  lemma NeedNone()
    ensures Need(0) == 0
  {
  }

  /** Where the loop of `add_file` gets to. */
  lemma FitStep(free: nat, size: nat, c: nat)
    requires 1024 * c < size
    ensures c + 1 <= Blocks(size) && Need(c + 1) == Need(c) + Cost(c)
    ensures c >= MAXFILE || free + Need(c) + Cost(c) > 8192 ==> !FitsFrom(free, size)
  {
    NeedGrows(c + 1, Blocks(size));
  }

  lemma FitEnd(free: nat, size: nat, c: nat)
    requires size <= 1024 * c < size + 1024
    ensures c == Blocks(size) && (FitsFrom(free, size) <==> size <= MAXBYTES && free + Need(c) <= 8192)
  {
  }

  /** A directory whose entries are still in memory. */
  datatype DirBuf = DirBuf(inum: nat, raw: seq<byte>)

  class Builder {
    var disk: Disk
    var bits: Bitmap
    var freeblock: nat
    var freeinode: nat
    var inodes: seq<Dinode>
    var dirs: seq<DirBuf>
    ghost var forest: Forest

    ghost predicate Valid()
      reads this
    {
      && |disk| == 8192 && Fresh(disk, bits, freeblock) && freeblock <= 8192
      && |inodes| == 64 && 2 <= freeinode && inodes[0] == NoInode
      && (forall x :: freeinode <= x < 64 ==> inodes[x] == NoInode)
      && (forall x :: 0 <= x < 64 ==> inodes[x].size <= MAXBYTES)
      && Stored(Image, disk[6 := EncodeBits(bits)], inodes, forest)
      && Shaped(inodes, forest.loc, 64, 0)
    }

    /** The image is complete, but for the records of inodes 32 to 63, for which it has no room. */
    ghost predicate Done()
      reads this
    {
      && |disk| == 8192 && |inodes| == 64 && disk[1] == FirstBlock && disk[6] == EncodeBits(bits)
      && Records(Image, disk) == inodes[..32]
      && Stored(Image, disk, inodes, forest) && Shaped(inodes, forest.loc, 64, 0)
      && (forall x :: 0 <= x < 64 ==> inodes[x].size <= MAXBYTES)
      && (forall x: nat :: x < 8192 ==> (bits[x] <==> x < freeblock))
    }

    /** An empty image: metadata marked, a root directory whose entries are in memory. */
    constructor (root: seq<byte>)
      ensures Valid() && freeinode == 2 && freeblock == 7 && dirs == [DirBuf(1, root)]
      ensures inodes[1] == Dinode(FT_DIRECTORY, 1, 0, NoAddrs)
    {
      dirs := [DirBuf(1, root)];
      disk := seq(8192, i => ZeroBlock())[1 := FirstBlock];
      bits := seq(8192, i => i < 7);
      freeblock, freeinode := 7, 2;
      inodes := seq(64, i => NoInode)[1 := Dinode(FT_DIRECTORY, 1, 0, NoAddrs)];
      forest := Forest(map[], map[]);
      new;
      hide ZeroBlock, Stored, Shaped, Fresh, EncodeBits, Bits;
      EmptyImage(disk, bits);
      EmptyForest(disk[6 := EncodeBits(bits)], inodes);
    }

    /** What the kernel will read as file `i` once the image is finished. */
    ghost function Bytes(i: nat): seq<byte>
      reads this
      requires i < |inodes| && |disk| == 8192
    {
      FileBytes(disk[6 := EncodeBits(bits)], forest.loc, i, inodes[i].size)
    }

    /** Takes the next block; false when the image is full, and then the builder exits. */
    method Balloc() returns (ok: bool, b: word)
      requires freeblock <= 8192
      modifies this`bits, this`freeblock
      ensures ok <==> old(freeblock) < 8192
      ensures ok ==> b == old(freeblock) && freeblock == old(freeblock) + 1 && bits == old(bits)[b := true]
      ensures !ok ==> freeblock == old(freeblock) && bits == old(bits)
    {
      if freeblock >= 8192 {
        return false, 0;
      }
      b := freeblock;
      freeblock := freeblock + 1;
      bits := bits[b := true];
      ok := true;
    }

    method WriteBlock(b: nat, data: Block)
      requires b < |disk|
      modifies this`disk
      ensures disk == old(disk)[b := data]
    {
      disk := disk[b := data];
    }

    ghost predicate AddingHere(i: nat, p: Pending, c: nat)
      reads this
    {
      Adding(disk, bits, freeblock, inodes, forest, i, p, c) && freeblock <= 8192
    }

    ghost function ViewHere(i: nat, p: Pending): Disk
      reads this
      requires |disk| == 8192 && i < |inodes| && p.Ok()
    {
      View(disk, bits, inodes[i], p)
    }

    /** One turn of the loop of `add_file`: block `c` of file `i`; false when the builder exits. */
    method PutBlock(i: nat, p: Pending, c: nat, data: Block) returns (ok: bool, p': Pending)
      requires AddingHere(i, p, c)
      modifies this`disk, this`bits, this`freeblock, this`inodes, this`forest
      ensures ok ==> c < MAXFILE && AddingHere(i, p', c + 1)
      ensures ok ==> Wrote(old(ViewHere(i, p)), old(forest.loc), ViewHere(i, p'), forest.loc, i, 1024 * c, data)
      ensures ok ==> |inodes| == |old(inodes)| && inodes == old(inodes)[i := old(inodes)[i].(addrs := inodes[i].addrs)]
      ensures ok <==> c < MAXFILE && old(freeblock) + Cost(c) <= 8192
      ensures ok ==> freeblock == old(freeblock) + Cost(c)
    {
      hide Adding, Wrote, View;
      p' := p;
      var db;
      ok, db := Balloc();
      if !ok { return; }
      AddingSizes(old(disk), old(bits), old(freeblock), inodes, forest, i, p, c);
      WriteBlock(db, data);
      if c < 12 {
        DirectDone(old(disk), old(bits), db, inodes, forest, i, p, c, data);
        inodes := inodes[i := SetAddr(inodes[i], c, db)];
        forest := forest.Add(Key(i, Direct(c)), db);
      } else if c - 12 < 256 {
        ok, p' := PutLeaf(i, p, c, db, data, old(disk), old(bits));
      } else if c - 268 >= 65536 {
        ok := false;
      } else {
        ok, p' := PutDeepLeaf(i, p, c, db, data, old(disk), old(bits));
      }
    }

    lemma AddingSizes(disk: Disk, bits: Bitmap, free: nat, ino: seq<Dinode>, f: Forest, i: nat, p: Pending, c: nat)
      requires Adding(disk, bits, free, ino, f, i, p, c)
      ensures |disk| == 8192 && i < |ino| && p.Ok() && 7 <= free
    {
    }

    method PutLeaf(i: nat, p: Pending, c: nat, db: word, data: Block, ghost disk0: Disk, ghost bits0: Bitmap)
      returns (ok: bool, p': Pending)
      requires Adding(disk0, bits0, db, inodes, forest, i, p, c) && 12 <= c < 268 && db < 8192
      requires disk == disk0[db := data] && bits == bits0[db := true] && freeblock == db + 1
      modifies this`bits, this`freeblock, this`inodes, this`forest
      ensures ok ==> AddingHere(i, p', c + 1)
      ensures ok ==> Wrote(View(disk0, bits0, old(inodes)[i], p), old(forest.loc), ViewHere(i, p'), forest.loc, i,
                1024 * c, data)
      ensures ok ==> |inodes| == |old(inodes)| && inodes == old(inodes)[i := old(inodes)[i].(addrs := inodes[i].addrs)]
      ensures (ok <==> db + Cost(c) <= 8192) && (ok ==> freeblock == db + Cost(c))
    {
      hide Adding, Wrote, View;
      ok, p' := true, p;
      AddingSizes(disk0, bits0, db, inodes, forest, i, p, c);
      LeafTable(disk0, bits0, db, inodes, forest, i, p, c);
      if p.indirectBlock == 0 {
        var t;
        ok, t := Balloc();
        if !ok { return; }
        FirstLeafDone(disk0, bits0, db, inodes, forest, i, p, data);
        inodes := inodes[i := SetAddr(inodes[i], 12, t)];
        p' := p'.(indirectBlock := t, indirect := ZeroTable);
        forest := forest.Add(Key(i, Single), t).Add(Key(i, Leaf(0)), db);
      } else {
        LeafDone(disk0, bits0, db, inodes, forest, i, p, c, data);
        forest := forest.Add(Key(i, Leaf(c - 12)), db);
      }
      p' := p'.(indirect := p'.indirect[c - 12 := db]);
    }

    lemma LeafTable(disk: Disk, bits: Bitmap, free: nat, ino: seq<Dinode>, f: Forest, i: nat, p: Pending, c: nat)
      requires Adding(disk, bits, free, ino, f, i, p, c) && 12 <= c < 268
      ensures p.indirectBlock == 0 <==> c == 12
    {
      hide Stored, View;
      NextAbsent(ino, f.loc, i, c);
      OwnedBit(View(disk, bits, ino[i], p), ino, f, Key(i, Single));
    }

    method PutDeepLeaf(i: nat, p: Pending, c: nat, db: word, data: Block, ghost disk0: Disk, ghost bits0: Bitmap)
      returns (ok: bool, p': Pending)
      requires Adding(disk0, bits0, db, inodes, forest, i, p, c) && 268 <= c < MAXFILE && db < 8192
      requires disk == disk0[db := data] && bits == bits0[db := true] && freeblock == db + 1
      modifies this`disk, this`bits, this`freeblock, this`inodes, this`forest
      ensures ok ==> AddingHere(i, p', c + 1)
      ensures ok ==> Wrote(View(disk0, bits0, old(inodes)[i], p), old(forest.loc), ViewHere(i, p'), forest.loc, i,
                1024 * c, data)
      ensures ok ==> |inodes| == |old(inodes)| && inodes == old(inodes)[i := old(inodes)[i].(addrs := inodes[i].addrs)]
      ensures (ok <==> db + Cost(c) <= 8192) && (ok ==> freeblock == db + Cost(c))
    {
      hide Adding, Wrote, View;
      ok, p' := true, p;
      var j, x := (c - 268) / 256, (c - 268) % 256;
      AddingSizes(disk0, bits0, db, inodes, forest, i, p, c);
      DeepTables(disk0, bits0, db, inodes, forest, i, p, c);
      if inodes[i].addrs[13] == 0 {
        var root;
        ok, root := Balloc();
        if !ok { return; }
        inodes := inodes[i := SetAddr(inodes[i], 13, root)];
        p' := p'.(dindirect := ZeroTable);
      }
      if j != p'.active {
        if p'.active != -1 && p'.dindirect[p'.active] != 0 {
          WriteBlock(p'.dindirect[p'.active], EncodeWords(p'.sub));
        }
        p' := p'.(sub := ZeroTable, active := j);
        if p'.dindirect[j] == 0 {
          var sub;
          ok, sub := Balloc();
          if !ok { return; }
          p' := p'.(dindirect := p'.dindirect[j := sub]);
        }
      }
      p' := p'.(sub := p'.sub[x := db]);
      if c == 268 {
        FirstRootDone(disk0, bits0, db, old(inodes), forest, i, p, data);
        forest := forest.Add(Key(i, Root), db + 1).Add(Key(i, Sub(0)), db + 2).Add(Key(i, DeepLeaf(0, 0)), db);
      } else if x == 0 {
        FirstDeepLeafDone(disk0, bits0, db, inodes, forest, i, p, j, data);
        forest := forest.Add(Key(i, Sub(j)), db + 1).Add(Key(i, DeepLeaf(j, 0)), db);
      } else {
        DeepLeafDone(disk0, bits0, db, inodes, forest, i, p, c, data);
        forest := forest.Add(Key(i, NodeOf(c)), db);
      }
    }

    /** Which tables of the double-indirect tree exist when block `c` is added. */
    lemma DeepTables(disk: Disk, bits: Bitmap, free: nat, ino: seq<Dinode>, f: Forest, i: nat, p: Pending, c: nat)
      requires Adding(disk, bits, free, ino, f, i, p, c) && 268 <= c < MAXFILE && free < 8192
      ensures ino[i].addrs[13] == 0 <==> c == 268
      ensures c == 268 ==> p.active == -1
      ensures c > 268 && (c - 268) % 256 != 0 ==> p.active == (c - 268) / 256
      ensures c > 268 && (c - 268) % 256 == 0 ==>
                && p.active == (c - 268) / 256 - 1 >= 0 && p.dindirect[(c - 268) / 256] == 0 && 0 < p.SubBlock() < 8192
    {
      hide Stored, View;
      var v := View(disk, bits, ino[i], p);
      NextAbsent(ino, f.loc, i, c);
      OwnedBit(v, ino, f, Key(i, Root));
      if c > 268 {
        BufferedBlocks(v, ino, f, i, p, c);
        if (c - 268) % 256 == 0 {
          NextSubUnused(disk, bits, free, ino, f, i, p, (c - 268) / 256);
        }
      }
    }

    /** Writes out what is still in memory after the last block of a file. */
    method Flush(i: nat, p: Pending, ghost c: nat)
      requires AddingHere(i, p, c)
      modifies this`disk
      ensures |disk| == 8192 && Fresh(disk, bits, freeblock)
      ensures disk[6 := EncodeBits(bits)] == old(ViewHere(i, p))
    {
      hide Stored, Shaped, View;
      ghost var v := ViewHere(i, p);
      AddingApart(v, inodes, forest, i, p, c);
      FlushIsView(disk, bits, inodes[i], p);
      PendingBelow(disk, bits, freeblock, inodes, forest, i, p, c);
      if p.indirectBlock != 0 {
        WriteBlock(p.indirectBlock, EncodeWords(p.indirect));
      }
      if inodes[i].addrs[13] != 0 {
        WriteBlock(inodes[i].addrs[13], EncodeWords(p.dindirect));
        if p.active != -1 && p.dindirect[p.active] != 0 {
          WriteBlock(p.dindirect[p.active], EncodeWords(p.sub));
        }
      }
    }

    lemma PendingBelow(disk: Disk, bits: Bitmap, free: nat, ino: seq<Dinode>, f: Forest, i: nat, p: Pending, c: nat)
      requires Adding(disk, bits, free, ino, f, i, p, c) && free <= 8192
      ensures p.indirectBlock < free && ino[i].addrs[13] < free && p.SubBlock() < free
      ensures ino[i].addrs[13] == 0 ==> p.SubBlock() == 0
    {
      hide Stored, View, Blank;
      var v := View(disk, bits, ino[i], p);
      AddingApart(v, ino, f, i, p, c);
      ViewFacts(disk, bits, ino[i], p);
      OwnedBit(v, ino, f, Key(i, Single));
      OwnedBit(v, ino, f, Key(i, Root));
      if p.active >= 0 {
        OwnedBit(v, ino, f, Key(i, Sub(p.active)));
        assert Key(i, Root) in f.loc;
      }
    }

    /**
     Adds a host file under the next inode number. `buf` is what the read buffer holds at the start:
     the builder does not clear it before the first, possibly short, read.
     */
    method AddFile(content: seq<byte>, buf: Block) returns (ok: bool, i: nat)
      requires Valid()
      modifies this
      ensures ok ==> Valid() && i == old(freeinode) < 64 && freeinode == i + 1 && inodes[i].typ == FT_FILE
      ensures ok ==> Bytes(i) == content
      ensures ok ==> forall j: nat :: j < 64 && j != i ==> inodes[j] == old(inodes)[j] && Bytes(j) == old(Bytes(j))
      ensures ok <==> old(freeinode) < 64 && FitsFrom(old(freeblock), |content|)
      ensures ok ==> freeblock == old(freeblock) + Need(Blocks(|content|)) && dirs == old(dirs)
    {
      hide Stored, Shaped, View, Adding, Wrote, FileBytes, Fresh;
      i := freeinode;
      freeinode := freeinode + 1;
      if i >= 64 {
        return false, i;
      }
      ghost var v0, loc0 := disk[6 := EncodeBits(bits)], forest.loc;
      var p;
      ok, p := AddBlocks(i, FT_FILE, content, buf, v0, loc0);
      if !ok { return; }
      AddingEnd(disk, bits, freeblock, inodes, forest, i, p, Blocks(|content|));
      Flush(i, p, Blocks(|content|));
      assert content[..|content|] == content;
    }

    lemma AddingEnd(disk: Disk, bits: Bitmap, free: nat, ino: seq<Dinode>, f: Forest, i: nat, p: Pending, c: nat)
      requires Adding(disk, bits, free, ino, f, i, p, c) && c == Blocks(ino[i].size)
      ensures Stored(Image, View(disk, bits, ino[i], p), ino, f) && Shaped(ino, f.loc, |ino|, 0)
    {
      ShapedAt(ino, f.loc, i);
    }

    /** The loop of `add_file`, over blocks that are full except perhaps the last. */
    method AddBlocks(i: nat, typ: half, content: seq<byte>, buf: Block, ghost v0: Disk, ghost loc0: map<Key, nat>)
      returns (ok: bool, p: Pending)
      requires Fresh(disk, bits, freeblock) && freeblock <= 8192 && |inodes| == 64 && i < 64
      requires inodes[i].size == 0 && inodes[i].addrs == NoAddrs
      requires forall x :: 0 <= x < 64 ==> inodes[x].size <= MAXBYTES
      requires v0 == disk[6 := EncodeBits(bits)] && loc0 == forest.loc
      requires Stored(Image, v0, inodes, forest) && Shaped(inodes, forest.loc, 64, 0)
      modifies this`disk, this`bits, this`freeblock, this`inodes, this`forest
      ensures ok <==> FitsFrom(old(freeblock), |content|)
      ensures ok ==> freeblock == old(freeblock) + Need(Blocks(|content|)) && freeinode == old(freeinode)
      ensures ok ==> && AddingHere(i, p, Blocks(|content|)) && |content| <= MAXBYTES
                     && |inodes| == 64 && inodes == old(inodes)[i := Dinode(typ, 1, |content|, inodes[i].addrs)]
                     && Holds(ViewHere(i, p), forest.loc, inodes, i, content, v0, loc0)
    {
      hide Stored, Shaped, View, Adding, Wrote, FileBytes, Fresh, Need, Cost, FitsFrom;
      assert Need(0) == 0 by { NeedNone(); }
      AddingStart(disk, bits, freeblock, inodes, forest, i);
      AddingFields(disk, bits, freeblock, inodes, forest, i, NothingPending, 0, Dinode(typ, 1, 0, NoAddrs));
      inodes := inodes[i := Dinode(typ, 1, 0, NoAddrs)];
      p := NothingPending;
      var fileBuf := buf;
      var c := 0;
      AddingSizes(disk, bits, freeblock, inodes, forest, i, p, 0);
      assert content[..0] == [];
      while 1024 * c < |content|
        invariant AddingHere(i, p, c) && |disk| == 8192 && p.Ok() && c <= MAXFILE
        invariant |inodes| == 64
        invariant inodes == old(inodes)[i := Dinode(typ, 1, Min(1024 * c, |content|), inodes[i].addrs)]
        invariant Min(1024 * c, |content|) <= MAXBYTES
        invariant 1024 * c < |content| + 1024 && c <= Blocks(|content|) && freeblock == old(freeblock) + Need(c)
        invariant Holds(ViewHere(i, p), forest.loc, inodes, i, content[..Min(1024 * c, |content|)], v0, loc0)
      {
        var n := Min(1024, |content| - 1024 * c);
        var data := content[1024 * c..1024 * c + n] + fileBuf[n..];
        assert data[..n] == content[1024 * c..1024 * c + n];
        ghost var disk1, bits1, free1, ino1, f1, p1 := disk, bits, freeblock, inodes, forest, p;
        FitStep(old(freeblock), |content|, c);
        ok, p := PutBlock(i, p, c, data);
        if !ok { return; }
        AddingSizes(disk, bits, freeblock, inodes, forest, i, p, c + 1);
        ghost var v1 := ViewHere(i, p);
        var d := inodes[i].(size := inodes[i].size + n);
        AddingFields(disk, bits, freeblock, inodes, forest, i, p, c + 1, d);
        inodes := inodes[i := d];
        HoldsStep(disk1, bits1, free1, ino1, f1, v1, forest, i, p1, c, data, content, inodes, v0, loc0);
        c := c + 1;
        fileBuf := ZeroBlock();
      }
      FitEnd(old(freeblock), |content|, c);
      assert content[..|content|] == content;
      ok := true;
    }

    /** Claims the next inode number for a directory, whose contents are written later. */
    method AddDirectory() returns (ok: bool, i: nat)
      requires Valid()
      modifies this`freeinode, this`inodes
      ensures ok ==> Valid() && i == old(freeinode) < 64 && freeinode == i + 1
      ensures ok ==> inodes == old(inodes)[i := Dinode(FT_DIRECTORY, 1, 0, NoAddrs)]
      ensures ok ==> forall j: nat :: j < 64 ==> Bytes(j) == old(Bytes(j))
      ensures ok <==> old(freeinode) < 64
    {
      hide Stored, Shaped, FileBytes, Fresh;
      i := freeinode;
      freeinode := freeinode + 1;
      if i >= 64 {
        return false, i;
      }
      inodes := inodes[i := Dinode(FT_DIRECTORY, 1, 0, NoAddrs)];
      StoredFrame(Image, disk[6 := EncodeBits(bits)], disk[6 := EncodeBits(bits)], old(inodes), inodes, forest);
      ShapedSizes(old(inodes), inodes, forest.loc);
      ok := true;
    }

    /** Writes the entries of a directory, which must fit its direct blocks. */
    method WriteDirectory(i: nat, entries: seq<byte>) returns (ok: bool)
      requires Valid() && 0 < i < freeinode && i < 64 && inodes[i] == Dinode(FT_DIRECTORY, 1, 0, NoAddrs)
      modifies this
      ensures ok ==> Valid() && freeinode == old(freeinode) && inodes[i].typ == FT_DIRECTORY && Bytes(i) == entries
      ensures ok ==> forall j: nat :: j < 64 && j != i ==> inodes[j] == old(inodes)[j] && Bytes(j) == old(Bytes(j))
      ensures ok <==> Blocks(|entries|) <= 12 && old(freeblock) + Blocks(|entries|) <= 8192
      ensures ok ==> freeblock == old(freeblock) + Blocks(|entries|) && dirs == old(dirs)
    {
      hide Stored, Shaped, View, Adding, Wrote, FileBytes, Fresh;
      if Blocks(|entries|) > 12 {
        return false;
      }
      ghost var v0, loc0 := disk[6 := EncodeBits(bits)], forest.loc;
      var p;
      ok, p := AddBlocks(i, FT_DIRECTORY, entries, ZeroBlock(), v0, loc0);
      if !ok { return; }
      AddingEnd(disk, bits, freeblock, inodes, forest, i, p, Blocks(|entries|));
      Flush(i, p, Blocks(|entries|));
    }

    /** Writes the inode records to blocks 2 to 5, and the bitmap to block 6. */
    method Finish()
      requires Valid()
      modifies this`disk
      ensures Done() && forall i: nat :: i < 64 ==> Bytes(i) == old(Bytes(i))
    {
      hide Stored, Shaped, FileBytes;
      ghost var view := disk[6 := EncodeBits(bits)];
      WriteRecords();
      WriteBlock(6, EncodeBits(bits));
      ImageRecords(disk, inodes);
      StoredImage(view, inodes, forest, disk);
      KeptImage(view, inodes, forest, disk);
      assert disk[6 := EncodeBits(bits)] == disk;
    }

    method WriteRecords()
      requires |disk| == 8192 && |inodes| == 64
      modifies this`disk
      ensures |disk| == 8192 && disk[1] == old(disk)[1] && forall x: nat :: 6 <= x < 8192 ==> disk[x] == old(disk)[x]
      ensures forall k :: 0 <= k < 4 ==> DecodeInodes(disk[2 + k]) == inodes[8 * k..8 * k + 8]
    {
      var block := 2;
      while block <= 5
        invariant 2 <= block <= 6 && |disk| == 8192 && disk[1] == old(disk)[1]
        invariant forall k :: 0 <= k < block - 2 ==> DecodeInodes(disk[2 + k]) == inodes[8 * k..8 * k + 8]
        invariant forall x: nat :: 6 <= x < 8192 ==> disk[x] == old(disk)[x]
      {
        var start := 8 * (block - 2);
        InodesRoundTrip(inodes[start..start + 8]);
        WriteBlock(block, EncodeInodes(inodes[start..start + 8]));
        block := block + 1;
      }
    }
  }

  /**
   A complete image as the kernel sees it, with 64 inodes declared. The condition is the one under which the image
   is consistent.
   */
  method Mount(b: Builder) returns (v: Volume)
    requires b.Done() && forall x :: 32 <= x < 64 ==> b.inodes[x].size == 0
    ensures fresh(v) && v.sb == Image && v.declared == 64 && v.disk == b.disk && v.Valid()
    ensures v.Inodes() == b.inodes[..32]
    ensures forall i: nat :: i < 32 ==> v.Bytes(i) == b.Bytes(i)
  {
    hide Stored, Shaped, FileBytes;
    Narrow(b.disk, b.inodes, b.forest, 32);
    v := new Volume(Image, 64, b.disk, b.forest);
    assert b.disk[6 := EncodeBits(b.bits)] == b.disk;
  }

  lemma StoredImage(view: Disk, ino: seq<Dinode>, f: Forest, disk: Disk)
    requires Stored(Image, view, ino, f) && |disk| == 8192
    requires forall x: nat :: 6 <= x < 8192 ==> disk[x] == view[x]
    ensures Stored(Image, disk, ino, f)
  {
    StoredFrame(Image, view, disk, ino, ino, f);
  }

  lemma KeptImage(view: Disk, ino: seq<Dinode>, f: Forest, disk: Disk)
    requires Stored(Image, view, ino, f) && |disk| == 8192
    requires forall x: nat :: 6 <= x < 8192 ==> disk[x] == view[x]
    ensures forall i: nat, n: nat {:trigger FileBytes(disk, f.loc, i, n)} ::
              FileBytes(disk, f.loc, i, n) == FileBytes(view, f.loc, i, n)
  {
    forall i: nat, n: nat
      ensures FileBytes(disk, f.loc, i, n) == FileBytes(view, f.loc, i, n)
    {
      var s, t := FileBytes(disk, f.loc, i, n), FileBytes(view, f.loc, i, n);
      forall o: nat | o < n
        ensures s[o] == t[o]
      {
        if HasByte(disk, f.loc, i, o) {
          PlacedHome(Image, |ino|, f.loc, Key(i, NodeOf(o / 1024)));
        }
      }
    }
  }
}
