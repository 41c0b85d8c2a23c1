/**
 One mounted volume: the block device with its bitmap, inode records and index trees, and the
 kernel routines that change them. An in-memory inode is passed as its number and its dinode;
 a routine that updates the dinode returns the new one.
 */
module Volumes {
  import opened Codec
  import opened Layout
  import opened Forests
  import opened Contents

  // ----- inode records on disk -----

  function Record(sb: Superblock, disk: Disk, i: nat): (d: Dinode)
    requires sb.InodeBlock(i) < |disk|
  {
    DecodeInodes(disk[sb.InodeBlock(i)])[i % 8]
  }

  function Records(sb: Superblock, disk: Disk): (ino: seq<Dinode>)
    requires sb.WellFormed() && |disk| == sb.size
    ensures |ino| == sb.ninodes
  {
    seq(sb.ninodes, i requires 0 <= i < sb.ninodes => Record(sb, disk, i))
  }

  /** Rewriting one record's block leaves the seven records beside it, and all others, alone. */
  lemma RecordsUpdate(sb: Superblock, disk: Disk, disk': Disk, i: nat, d: Dinode)
    requires sb.WellFormed() && |disk| == sb.size && i < sb.ninodes
    requires disk' == disk[sb.InodeBlock(i) := EncodeInodes(DecodeInodes(disk[sb.InodeBlock(i)])[i % 8 := d])]
    ensures Records(sb, disk') == Records(sb, disk)[i := d]
  {
    var recs := DecodeInodes(disk[sb.InodeBlock(i)]);
    InodesRoundTrip(recs[i % 8 := d]);
    forall j | 0 <= j < sb.ninodes
      ensures Records(sb, disk')[j] == Records(sb, disk)[i := d][j]
    {
      if sb.InodeBlock(j) == sb.InodeBlock(i) && j % 8 == i % 8 {
        assert j == i;
      }
    }
  }

  lemma RecordsFrame(sb: Superblock, disk: Disk, disk': Disk)
    requires sb.WellFormed() && |disk| == |disk'| == sb.size
    requires forall x :: 0 <= x < sb.bmapstart ==> disk'[x] == disk[x]
    ensures Records(sb, disk') == Records(sb, disk)
  {
  }

  // ----- shape and contents -----

  /** Number of blocks that inode `x` maps, when inode `i` is known to map `c`. */
  ghost function Mapped(ino: seq<Dinode>, i: nat, c: nat, x: nat): nat
    requires x < |ino|
  {
    if x == i then c else Blocks(ino[x].size)
  }

  /** No holes: a node is stored iff the number of mapped blocks calls for it. */
  ghost predicate Shaped(ino: seq<Dinode>, loc: map<Key, nat>, i: nat, c: nat) {
    forall k: Key {:trigger k in loc} :: k.inum < |ino| && ValidNode(k.node) ==>
                                           (k in loc <==> Present(Mapped(ino, i, c, k.inum), k.node))
  }

  /** A consistent volume is one on which any inode `i` maps what its size calls for. */
  lemma ShapedAt(ino: seq<Dinode>, loc: map<Key, nat>, i: nat)
    requires i < |ino|
    ensures Shaped(ino, loc, |ino|, 0) <==> Shaped(ino, loc, i, Blocks(ino[i].size))
  {
  }

  lemma ShapedExcept(ino: seq<Dinode>, ino': seq<Dinode>, loc: map<Key, nat>, i: nat, c: nat)
    requires Shaped(ino, loc, i, c) && |ino'| == |ino|
    requires forall x :: 0 <= x < |ino| && x != i ==> ino'[x] == ino[x]
    ensures Shaped(ino', loc, i, c)
  {
  }

  lemma ShapedSizes(ino: seq<Dinode>, ino': seq<Dinode>, loc: map<Key, nat>)
    requires Shaped(ino, loc, |ino|, 0) && |ino'| == |ino|
    requires forall x :: 0 <= x < |ino| ==> ino'[x].size == ino[x].size
    ensures Shaped(ino', loc, |ino'|, 0)
  {
  }

  /** A file of size zero has no addresses at all. */
  lemma EmptyInode(sb: Superblock, disk: Disk, ino: seq<Dinode>, f: Forest, i: nat)
    requires Stored(sb, disk, ino, f) && Shaped(ino, f.loc, |ino|, 0) && i < |ino| && ino[i].size == 0
    ensures ino[i].addrs == NoAddrs
  {
    forall x | 0 <= x < 14
      ensures ino[i].addrs[x] == 0
    {
      var n := if x < 12 then Direct(x) else if x == 12 then Single else Root;
      InodeEntry(sb, disk, ino, f, Key(i, n));
    }
  }

  lemma ShapedGrow(ino: seq<Dinode>, ino': seq<Dinode>, loc: map<Key, nat>, loc': map<Key, nat>, i: nat, c: nat,
                   bn: nat)
    requires Shaped(ino, loc, i, c) && i < |ino| && bn <= c && bn < MAXFILE
    requires loc'.Keys == loc.Keys + (set n | n in Chain(bn) :: Key(i, n))
    requires |ino'| == |ino| && forall x :: 0 <= x < |ino| && x != i ==> ino'[x] == ino[x]
    ensures Shaped(ino', loc', i, Max(c, bn + 1))
  {
    forall k: Key | k.inum < |ino'| && ValidNode(k.node)
      ensures k in loc' <==> Present(Mapped(ino', i, Max(c, bn + 1), k.inum), k.node)
    {
      assert k in loc' <==> k in loc || (k.inum == i && k.node in Chain(bn));
      PresentGrow(c, bn, k.node);
    }
  }

  /** The stored nodes while inode `i` is being cut (see `Remains`). */
  ghost predicate CutShape(ino: seq<Dinode>, loc: map<Key, nat>, i: nat, to: nat, from: nat, bn: nat) {
    forall k: Key {:trigger k in loc} :: k.inum < |ino| && ValidNode(k.node) ==>
      (k in loc <==> if k.inum == i then Remains(to, from, bn, k.node) else Present(Blocks(ino[k.inum].size), k.node))
  }

  lemma CutStart(ino: seq<Dinode>, loc: map<Key, nat>, i: nat, to: nat, from: nat)
    requires Shaped(ino, loc, i, from) && i < |ino| && to < from
    ensures CutShape(ino, loc, i, to, from, to)
  {
    forall k: Key | k.inum < |ino| && ValidNode(k.node)
      ensures k in loc <==>
                if k.inum == i then Remains(to, from, to, k.node) else Present(Blocks(ino[k.inum].size), k.node)
    {
      RemainsStart(to, from, k.node);
    }
  }

  /** The nodes that go when block `bn` goes. */
  ghost function CutAt(i: nat, to: nat, from: nat, bn: nat): set<Key>
    requires bn < MAXFILE
  {
    {Key(i, NodeOf(bn))} +
    (if NodeOf(bn).DeepLeaf? && LastOf(to, from, bn, NodeOf(bn).j) then {Key(i, Sub(NodeOf(bn).j))} else {})
  }

  lemma CutStep(ino: seq<Dinode>, loc: map<Key, nat>, i: nat, to: nat, from: nat, bn: nat)
    requires CutShape(ino, loc, i, to, from, bn) && to <= bn < from <= MAXFILE
    ensures CutShape(ino, loc - CutAt(i, to, from, bn), i, to, from, bn + 1)
  {
    var loc' := loc - CutAt(i, to, from, bn);
    forall k: Key | k.inum < |ino| && ValidNode(k.node)
      ensures k in loc' <==>
                if k.inum == i then Remains(to, from, bn + 1, k.node) else Present(Blocks(ino[k.inum].size), k.node)
    {
      RemainsStep(to, from, bn, k.node);
    }
  }

  /** The tables above a block that is still to be dropped are stored. */
  lemma CutChain(ino: seq<Dinode>, loc: map<Key, nat>, i: nat, to: nat, from: nat, bn: nat)
    requires CutShape(ino, loc, i, to, from, bn) && i < |ino| && to <= bn < from <= MAXFILE
    ensures NodeOf(bn).Leaf? ==> Key(i, Single) in loc
    ensures NodeOf(bn).DeepLeaf? ==> Key(i, Root) in loc && Key(i, Sub(NodeOf(bn).j)) in loc
    ensures NodeOf(bn).DeepLeaf? ==> forall y :: 0 <= y < 256 ==>
              (Key(i, DeepLeaf(NodeOf(bn).j, y)) in loc <==> Remains(to, from, bn, DeepLeaf(NodeOf(bn).j, y)))
  {
    assert BlockNumber(NodeOf(bn)) == bn;
  }

  lemma ChildlessSub(loc: map<Key, nat>, loc': map<Key, nat>, k: Key)
    requires Childless(loc, k) && loc'.Keys <= loc.Keys
    ensures Childless(loc', k)
  {
    forall q | q in loc' && q.inum == k.inum
      ensures HomeOf(q.node) != InTable(k.node)
    {
      assert q in loc;
      var b := loc[q];
    }
  }

  lemma PlacedAll(sb: Superblock, disk: Disk, ino: seq<Dinode>, f: Forest)
    requires Stored(sb, disk, ino, f)
    ensures Placed(sb, |ino|, f.loc)
  {
  }

  lemma DataChildless(loc: map<Key, nat>, k: Key)
    requires k.node.IsData()
    ensures Childless(loc, k)
  {
  }

  lemma CutEnd(sb: Superblock, ino: seq<Dinode>, loc: map<Key, nat>, i: nat, to: nat, from: nat)
    requires Placed(sb, |ino|, loc)
    requires CutShape(ino, loc, i, to, from, from) && i < |ino| && to < from
    ensures to <= 12 ==> Childless(loc, Key(i, Single))
    ensures to <= 268 ==> Childless(loc, Key(i, Root))
    ensures Shaped(ino, loc - (if to <= 12 then {Key(i, Single)} else {}) - (if to <= 268 then {Key(i, Root)} else {}),
              i, to)
  {
    forall k: Key | k.inum < |ino| && ValidNode(k.node)
      ensures k in loc <==>
                if k.inum == i
                then Present(to, k.node) || (k.node == Single && 12 < from) || (k.node == Root && 268 < from)
                else Present(Blocks(ino[k.inum].size), k.node)
    {
      RemainsEnd(to, from, k.node);
    }
  }

  // ----- effects of the primitive writes -----

  /** `balloc` took `b`: the lowest block not in use, now marked and zeroed. */
  ghost predicate Taken(sb: Superblock, disk: Disk, disk': Disk, b: nat) {
    && sb.WellFormed() && |disk| == |disk'| == sb.size
    && b < sb.nblocks && !Bits(sb, disk)[b] && (forall x: nat :: x < b ==> Bits(sb, disk)[x])
    && Bits(sb, disk') == Bits(sb, disk)[b := true]
    && Blank(disk'[b])
    && (forall x: nat :: x < sb.size && x != sb.bmapstart && x != b ==> disk'[x] == disk[x])
  }

  /** `bfree` cleared the mark of `b` and changed nothing else. */
  ghost predicate Freed(sb: Superblock, disk: Disk, disk': Disk, b: nat) {
    && sb.WellFormed() && |disk| == |disk'| == sb.size
    && b < 8192 && Bits(sb, disk)[b]
    && Bits(sb, disk') == Bits(sb, disk)[b := false]
    && (forall x: nat :: x < sb.size && x != sb.bmapstart ==> disk'[x] == disk[x])
  }

  /** `iupdate` stored `d` as record `i` and changed nothing outside the inode area. */
  ghost predicate Updated(sb: Superblock, disk: Disk, disk': Disk, i: nat, d: Dinode) {
    && sb.WellFormed() && |disk| == |disk'| == sb.size && i < sb.ninodes
    && Records(sb, disk') == Records(sb, disk)[i := d]
    && (forall x: nat :: sb.bmapstart <= x < sb.size ==> disk'[x] == disk[x])
  }

  /** `balloc`, then the new block's address stored in the inode, then `iupdate`. */
  lemma LinkedInInode(sb: Superblock, disk: Disk, disk1: Disk, disk': Disk, f: Forest, k: Key, b: word)
    requires sb.WellFormed() && |disk| == sb.size && Stored(sb, disk, Records(sb, disk), f)
    requires k.inum < sb.ninodes && ValidNode(k.node) && k !in f.loc && HomeOf(k.node).InInode?
    requires Taken(sb, disk, disk1, b)
    requires Updated(sb, disk1, disk', k.inum, SetAddr(Records(sb, disk)[k.inum], Idx(k.node), b))
    ensures Stored(sb, disk', Records(sb, disk'), f.Add(k, b))
    ensures Kept(disk, f.loc, disk', f.Add(k, b).loc)
    ensures Records(sb, disk') == Records(sb, disk)[k.inum := SetAddr(Records(sb, disk)[k.inum], Idx(k.node), b)]
  {
    RecordsFrame(sb, disk, disk1);
    LinkInInode(sb, disk, disk', Records(sb, disk), f, k, b);
    AddKept(sb, sb.ninodes, disk, disk', f, k, b, b);
  }

  /** `balloc`, then the new block's address written to index table `t`. */
  lemma LinkedInTable(sb: Superblock, disk: Disk, disk1: Disk, disk': Disk, f: Forest, k: Key, t: nat, b: word)
    requires sb.WellFormed() && |disk| == sb.size && Stored(sb, disk, Records(sb, disk), f)
    requires k.inum < sb.ninodes && ValidNode(k.node) && k !in f.loc && TableOf(f.loc, k, t)
    requires Taken(sb, disk, disk1, b)
    requires t < sb.size && Idx(k.node) < 256
    requires disk' == disk1[t := EncodeWords(DecodeWords(disk[t])[Idx(k.node) := b])]
    ensures Stored(sb, disk', Records(sb, disk'), f.Add(k, b))
    ensures Kept(disk, f.loc, disk', f.Add(k, b).loc)
    ensures Records(sb, disk') == Records(sb, disk)
  {
    assert sb.IsData(f.loc[Key(k.inum, HomeOf(k.node).table)]);
    WordsRoundTrip(DecodeWords(disk[t])[Idx(k.node) := b]);
    RecordsFrame(sb, disk, disk');
    LinkInTable(sb, disk, disk', Records(sb, disk), f, k, t, b);
    AddKept(sb, sb.ninodes, disk, disk', f, k, t, b);
  }

  /** New contents for a data block disturb neither the storage invariant nor the inode records. */
  lemma DataWrite(sb: Superblock, disk: Disk, ino: seq<Dinode>, f: Forest, k: Key, data: Block)
    requires Stored(sb, disk, ino, f) && k in f.loc && k.node.IsData() && f.loc[k] < |disk|
    ensures Stored(sb, disk[f.loc[k] := data], ino, f)
    ensures Records(sb, disk[f.loc[k] := data]) == Records(sb, disk)
  {
    assert sb.IsData(f.loc[k]) && f.owner[f.loc[k]] == k;
    StoredFrame(sb, disk, disk[f.loc[k] := data], ino, ino, f);
    RecordsFrame(sb, disk, disk[f.loc[k] := data]);
  }

  /** Storing a dinode whose addresses are those in use, such as one with a new size, moves no block. */
  lemma FieldsUpdated(sb: Superblock, disk: Disk, disk': Disk, ino: seq<Dinode>, f: Forest, i: nat, d: Dinode)
    requires Stored(sb, disk, ino, f) && Updated(sb, disk, disk', i, d)
    requires |ino| == sb.ninodes && forall x :: 0 <= x < |ino| ==> ino[x].addrs == Records(sb, disk')[x].addrs
    ensures Stored(sb, disk', Records(sb, disk'), f)
    ensures Kept(disk, f.loc, disk', f.loc) && Kept(disk', f.loc, disk, f.loc)
  {
    StoredFrame(sb, disk, disk', ino, Records(sb, disk'), f);
    assert forall k :: k in f.loc ==> sb.IsData(f.loc[k]);
  }

  lemma ShapedBytes(sb: Superblock, disk: Disk, ino: seq<Dinode>, f: Forest, i: nat, c: nat, j: nat, n: nat)
    requires Stored(sb, disk, ino, f) && Shaped(ino, f.loc, i, c) && j < |ino|
    requires n <= MAXBYTES && Blocks(n) <= Mapped(ino, i, c, j)
    ensures forall x: nat :: x < n ==> HasByte(disk, f.loc, j, x)
  {
    forall x: nat | x < n
      ensures HasByte(disk, f.loc, j, x)
    {
      PresentNode(Mapped(ino, i, c, j), x / 1024);
      assert Key(j, NodeOf(x / 1024)) in f.loc;
      PlacedHome(sb, |ino|, f.loc, Key(j, NodeOf(x / 1024)));
    }
  }

  /** If only file `i` was written, every other file has the bytes it had. */
  lemma OthersKept(sb: Superblock, disk: Disk, f: Forest, disk': Disk, f': Forest, i: nat, off: nat, src: seq<byte>)
    requires sb.WellFormed() && |disk| == |disk'| == sb.size
    requires Stored(sb, disk, Records(sb, disk), f) && Shaped(Records(sb, disk), f.loc, sb.ninodes, 0)
    requires forall j :: 0 <= j < sb.ninodes ==> Records(sb, disk)[j].size <= MAXBYTES
    requires Wrote(disk, f.loc, disk', f'.loc, i, off, src)
    ensures forall j: nat, n: nat {:trigger FileBytes(disk', f'.loc, j, n)} ::
              j < sb.ninodes && j != i && n == Records(sb, disk)[j].size ==>
              FileBytes(disk', f'.loc, j, n) == FileBytes(disk, f.loc, j, n)
  {
    forall j: nat, n: nat | j < sb.ninodes && j != i && n == Records(sb, disk)[j].size
      ensures FileBytes(disk', f'.loc, j, n) == FileBytes(disk, f.loc, j, n)
    {
      ShapedBytes(sb, disk, Records(sb, disk), f, sb.ninodes, 0, j, n);
      WroteOther(disk, f.loc, disk', f'.loc, i, off, src, j, n);
    }
  }

  /** `bfree`, then the freed block's address cleared in the inode. */
  lemma UnlinkedInInode(sb: Superblock, disk: Disk, disk': Disk, ino: seq<Dinode>, f: Forest, k: Key)
    requires Stored(sb, disk, ino, f)
    requires k in f.loc && HomeOf(k.node).InInode? && Childless(f.loc, k)
    requires Freed(sb, disk, disk', f.loc[k])
    ensures k.inum < |ino| && Idx(k.node) < NADDRS
    ensures Stored(sb, disk', ino[k.inum := SetAddr(ino[k.inum], Idx(k.node), 0)], f.Remove(k))
    ensures Kept(disk', f.Remove(k).loc, disk, f.loc)
    ensures Records(sb, disk') == Records(sb, disk)
  {
    PlacedHome(sb, |ino|, f.loc, k);
    UnlinkInInode(sb, disk, disk', ino, f, k);
    RemoveKept(sb, |ino|, disk, disk', f, k, sb.size);
    RecordsFrame(sb, disk, disk');
  }

  /** `bfree`, then the freed block's address cleared in index table `t`. */
  lemma UnlinkedInTable(sb: Superblock, disk: Disk, disk1: Disk, disk': Disk, ino: seq<Dinode>, f: Forest, k: Key,
                        t: nat)
    requires Stored(sb, disk, ino, f)
    requires k in f.loc && TableOf(f.loc, k, t) && Childless(f.loc, k)
    requires Freed(sb, disk, disk1, f.loc[k])
    requires t < sb.size && Idx(k.node) < 256
    requires disk' == disk1[t := EncodeWords(DecodeWords(disk[t])[Idx(k.node) := 0])]
    ensures Stored(sb, disk', ino, f.Remove(k))
    ensures Kept(disk', f.Remove(k).loc, disk, f.loc)
    ensures Records(sb, disk') == Records(sb, disk)
    ensures SameData(sb, disk, disk', {t}) && DecodeWords(disk'[t]) == DecodeWords(disk[t])[Idx(k.node) := 0]
  {
    PlacedHome(sb, |ino|, f.loc, k);
    TableEntry(sb, disk, ino, f, k, t);
    WordsRoundTrip(DecodeWords(disk[t])[Idx(k.node) := 0]);
    UnlinkInTable(sb, disk, disk', ino, f, k, t);
    RemoveKept(sb, |ino|, disk, disk', f, k, t);
    RecordsFrame(sb, disk, disk');
  }

  /** What an owned block's bit says, so that `bfree` does not panic on it. */
  lemma OwnedIsMarked(sb: Superblock, disk: Disk, ino: seq<Dinode>, f: Forest, k: Key)
    requires Stored(sb, disk, ino, f) && k in f.loc
    ensures sb.IsData(f.loc[k]) && Bits(sb, disk)[f.loc[k]]
  {
    assert f.loc[k] in f.owner;
  }

  /** If the stored blocks of one state are stored in another with the same contents, so are the files. */
  lemma KeptFiles(sb: Superblock, disk: Disk, ino: seq<Dinode>, f: Forest, disk': Disk, f': Forest)
    requires Stored(sb, disk, ino, f) && Shaped(ino, f.loc, |ino|, 0)
    requires forall j :: 0 <= j < |ino| ==> ino[j].size <= MAXBYTES
    requires Kept(disk, f.loc, disk', f'.loc)
    ensures forall j: nat {:trigger ino[j]} :: j < |ino| ==>
              FileBytes(disk, f.loc, j, ino[j].size) == FileBytes(disk', f'.loc, j, ino[j].size)
  {
    KeptWrites(disk, f.loc, disk', f'.loc, |ino|, 0);
    forall j: nat | j < |ino|
      ensures FileBytes(disk, f.loc, j, ino[j].size) == FileBytes(disk', f'.loc, j, ino[j].size)
    {
      ShapedBytes(sb, disk, ino, f, |ino|, 0, j, ino[j].size);
      WroteOther(disk, f.loc, disk', f'.loc, |ino|, 0, [], j, ino[j].size);
    }
  }

  /** How the scan of `ialloc` ends; `PastEnd` is behind the last record that lies before the bitmap. */
  datatype Search = Hit(i: nat) | NoneLeft | PastEnd

  class Volume {
    const sb: Superblock        // the layout, with the inode records that lie before the bitmap
    const declared: nat         // how many inodes the superblock declares
    var disk: Disk
    ghost var forest: Forest

    constructor (sb: Superblock, declared: nat, disk: Disk, ghost forest: Forest)
      ensures this.sb == sb && this.declared == declared && this.disk == disk && this.forest == forest
    {
      this.sb, this.declared, this.disk, this.forest := sb, declared, disk, forest;
    }

    ghost predicate Formatted()
      reads this
    {
      sb.WellFormed() && |disk| == sb.size && sb.ninodes <= declared
    }

    /** The superblock declares inodes whose records do not lie before the bitmap. */
    predicate Overruns() { sb.ninodes < declared && 1 < declared }

    ghost function Inodes(): (ino: seq<Dinode>)
      reads this
      requires Formatted()
      ensures |ino| == sb.ninodes
    {
      Records(sb, disk)
    }

    /** The record of inode `i`, as a freshly loaded in-memory inode has it. */
    function Load(i: nat): (d: Dinode)
      reads this
      requires Formatted() && i < sb.ninodes
      ensures d == Inodes()[i]
    {
      Record(sb, disk, i)
    }

    /** The volume is consistent, but inode `i` maps `c` blocks whatever its recorded size says. */
    ghost predicate Growing(i: nat, c: nat)
      reads this
    {
      && Formatted()
      && Stored(sb, disk, Inodes(), forest)
      && Shaped(Inodes(), forest.loc, i, c)
    }

    /** `balloc` has nothing left to give. */
    ghost predicate Full()
      reads this
      requires Formatted()
    {
      forall b: nat :: b < sb.nblocks ==> Bits(sb, disk)[b]
    }

    ghost predicate Sized()
      reads this
      requires Formatted()
    {
      forall i :: 0 <= i < sb.ninodes ==> Inodes()[i].size <= MAXBYTES
    }

    /** The invariant between operations: every inode maps exactly the blocks its size calls for. */
    ghost predicate Valid()
      reads this
      ensures Valid() ==> Formatted()
    {
      Growing(sb.ninodes, 0) && Sized()
    }

    /** The contents of file `i`. */
    ghost function Bytes(i: nat): (s: seq<byte>)
      reads this
      requires Formatted() && i < sb.ninodes
    {
      FileBytes(disk, forest.loc, i, Inodes()[i].size)
    }

    method WriteBlock(b: nat, data: Block)
      requires b < |disk|
      modifies this`disk
      ensures disk == old(disk)[b := data]
    {
      disk := disk[b := data];
    }

    /** First-fit allocation of a zeroed block. */
    method Balloc() returns (r: Outcome<word>)
      requires Formatted()
      requires forall b: nat :: sb.IsMeta(b) ==> Bits(sb, disk)[b]
      modifies this`disk
      ensures Formatted()
      ensures r.Panic? ==> disk == old(disk) && r.reason == OutOfBlocks && Full()
      ensures r.Ok? ==> Taken(sb, old(disk), disk, r.value)
    {
      var buf := DecodeBits(disk[sb.bmapstart]);
      var b := 0;
      while b < sb.nblocks
        invariant 0 <= b <= sb.nblocks
        invariant forall x :: 0 <= x < b ==> buf[x]
      {
        if !buf[b] {
          buf := buf[b := true];
          BitsRoundTrip(buf);
          WriteBlock(sb.bmapstart, EncodeBits(buf));
          WriteBlock(b, ZeroBlock());
          ZeroWords(disk[b]);
          return Ok(b);
        }
        b := b + 1;
      }
      return Panic(OutOfBlocks);
    }

    method Bfree(b: nat) returns (r: Outcome<()>)
      requires Formatted() && b < 8192
      modifies this`disk
      ensures Formatted()
      ensures r.Panic? <==> !old(Bits(sb, disk))[b]
      ensures r.Panic? ==> disk == old(disk)
      ensures r.Ok? ==> Freed(sb, old(disk), disk, b)
    {
      var buf := DecodeBits(disk[sb.bmapstart]);
      if !buf[b] {
        return Panic(FreeingFreeBlock);
      }
      buf := buf[b := false];
      BitsRoundTrip(buf);
      WriteBlock(sb.bmapstart, EncodeBits(buf));
      return Ok(());
    }

    /** Stores one dinode in the block it shares with seven others. */
    method Iupdate(i: nat, d: Dinode)
      requires Formatted() && i < sb.ninodes
      modifies this`disk
      ensures Formatted()
      ensures Updated(sb, old(disk), disk, i, d)
    {
      var block := sb.InodeBlock(i);
      var recs := DecodeInodes(disk[block]);
      RecordsUpdate(sb, disk, disk[block := EncodeInodes(recs[i % 8 := d])], i, d);
      WriteBlock(block, EncodeInodes(recs[i % 8 := d]));
    }

    // ----- bmap_alloc -----

    /** Allocates a block for node `n` and stores its address in inode `i`. */
    method AllocInInode(i: nat, d: Dinode, n: Node) returns (r: Outcome<word>, d': Dinode)
      requires Formatted() && Stored(sb, disk, Inodes(), forest)
      requires i < sb.ninodes && d == Inodes()[i] && ValidNode(n) && HomeOf(n).InInode? && Key(i, n) !in forest.loc
      modifies this
      ensures Formatted()
      ensures r.Panic? ==> r.reason == OutOfBlocks && Full()
      ensures r.Ok? ==> Stored(sb, disk, Inodes(), forest) && Kept(old(disk), old(forest.loc), disk, forest.loc)
      ensures r.Ok? ==> forest == old(forest).Add(Key(i, n), r.value)
      ensures r.Ok? ==> d' == d.(addrs := d'.addrs) && Inodes() == old(Inodes())[i := d']
    {
      d' := d;
      r := Balloc();
      if r.Ok? {
        d' := SetAddr(d, Idx(n), r.value);
        ghost var disk1 := disk;
        Iupdate(i, d');
        LinkedInInode(sb, old(disk), disk1, disk, forest, Key(i, n), r.value);
        forest := forest.Add(Key(i, n), r.value);
      }
    }

    /** Allocates a block for node `n` and stores its address in index table `t`, last read as `table`. */
    method AllocInTable(i: nat, t: nat, table: Table, n: Node) returns (r: Outcome<word>)
      requires Formatted() && Stored(sb, disk, Inodes(), forest)
      requires i < sb.ninodes && ValidNode(n) && TableOf(forest.loc, Key(i, n), t) && Key(i, n) !in forest.loc
      requires t < sb.size && Idx(n) < 256 && table == DecodeWords(disk[t])
      modifies this
      ensures Formatted()
      ensures r.Panic? ==> r.reason == OutOfBlocks && Full()
      ensures r.Ok? ==> Stored(sb, disk, Inodes(), forest) && Kept(old(disk), old(forest.loc), disk, forest.loc)
      ensures r.Ok? ==> forest == old(forest).Add(Key(i, n), r.value)
      ensures r.Ok? ==> Inodes() == old(Inodes())
    {
      r := Balloc();
      if r.Ok? {
        ghost var disk1 := disk;
        WriteBlock(t, EncodeWords(table[Idx(n) := r.value]));
        LinkedInTable(sb, old(disk), disk1, disk, forest, Key(i, n), t, r.value);
        forest := forest.Add(Key(i, n), r.value);
      }
    }

    /** The entry of node `n` in inode `i`, allocated on first use. */
    method EnsureInInode(i: nat, d: Dinode, n: Node) returns (r: Outcome<word>, d': Dinode)
      requires Formatted() && Stored(sb, disk, Inodes(), forest)
      requires i < sb.ninodes && d == Inodes()[i] && ValidNode(n) && HomeOf(n).InInode?
      modifies this
      ensures Formatted()
      ensures r.Panic? ==> r.reason == OutOfBlocks && Full()
      ensures r.Ok? ==> Stored(sb, disk, Inodes(), forest) && Kept(old(disk), old(forest.loc), disk, forest.loc)
      ensures r.Ok? ==> && forest.loc.Keys == old(forest.loc.Keys) + {Key(i, n)}
                        && forest.loc[Key(i, n)] == r.value
      ensures r.Ok? ==> d' == d.(addrs := d'.addrs) && Inodes() == old(Inodes())[i := d']
    {
      hide Stored, Kept;
      InodeEntry(sb, disk, Inodes(), forest, Key(i, n));
      var addr := d.addrs[Idx(n)];
      if addr == 0 {
        r, d' := AllocInInode(i, d, n);
      } else {
        KeptRefl(disk, forest.loc);
        r, d' := Ok(addr), d;
      }
    }

    /** The entry of node `n` of inode `i` in index table `t`, allocated on first use. */
    method EnsureInTable(i: nat, t: nat, n: Node) returns (r: Outcome<word>)
      requires Formatted() && Stored(sb, disk, Inodes(), forest)
      requires i < sb.ninodes && ValidNode(n) && TableOf(forest.loc, Key(i, n), t)
      modifies this
      ensures Formatted()
      ensures r.Panic? ==> r.reason == OutOfBlocks && Full()
      ensures r.Ok? ==> Stored(sb, disk, Inodes(), forest) && Kept(old(disk), old(forest.loc), disk, forest.loc)
      ensures r.Ok? ==> && forest.loc.Keys == old(forest.loc.Keys) + {Key(i, n)}
                        && forest.loc[Key(i, n)] == r.value
      ensures r.Ok? ==> Inodes() == old(Inodes())
    {
      hide Stored, Kept;
      TableEntry(sb, disk, Inodes(), forest, Key(i, n), t);
      var table := DecodeWords(disk[t]);
      var addr := table[Idx(n)];
      if addr == 0 {
        r := AllocInTable(i, t, table, n);
      } else {
        KeptRefl(disk, forest.loc);
        r := Ok(addr);
      }
    }

    /**
     Finds the block of file block `bn`, allocating it and any missing table above it. `c` is the
     number of blocks mapped so far; writes never skip a block, so `bn <= c`.
     */
    method BmapAlloc(i: nat, d: Dinode, bn: nat, ghost c: nat) returns (r: Outcome<word>, d': Dinode)
      requires Growing(i, c) && i < sb.ninodes && d == Inodes()[i] && bn <= c
      modifies this
      ensures Formatted()
      ensures bn >= MAXFILE ==> r == Panic(OutOfRange)
      ensures bn < MAXFILE && r.Panic? ==> r.reason == OutOfBlocks && Full()
      ensures r.Ok? ==> Growing(i, Max(c, bn + 1)) && Kept(old(disk), old(forest.loc), disk, forest.loc)
      ensures r.Ok? ==> Key(i, NodeOf(bn)) in forest.loc && forest.loc[Key(i, NodeOf(bn))] == r.value
      ensures r.Ok? ==> d' == d.(addrs := d'.addrs) && Inodes() == old(Inodes())[i := d']
    {
      hide Stored, Kept;
      d' := d;
      if bn < 12 {
        r, d' := EnsureInInode(i, d, Direct(bn));
      } else if bn - 12 < 256 {
        r, d' := EnsureLeaf(i, d, bn - 12);
      } else if bn - 268 < 65536 {
        r, d' := EnsureDeepLeaf(i, d, (bn - 268) / 256, (bn - 268) % 256);
      } else {
        return Panic(OutOfRange), d';
      }
      if r.Ok? {
        assert forest.loc.Keys == old(forest.loc.Keys) + (set n | n in Chain(bn) :: Key(i, n));
        ShapedGrow(old(Inodes()), Inodes(), old(forest.loc), forest.loc, i, c, bn);
      }
    }

    method EnsureLeaf(i: nat, d: Dinode, x: nat) returns (r: Outcome<word>, d': Dinode)
      requires Formatted() && Stored(sb, disk, Inodes(), forest)
      requires i < sb.ninodes && d == Inodes()[i] && x < 256
      modifies this
      ensures Formatted()
      ensures r.Panic? ==> r.reason == OutOfBlocks && Full()
      ensures r.Ok? ==> Stored(sb, disk, Inodes(), forest) && Kept(old(disk), old(forest.loc), disk, forest.loc)
      ensures r.Ok? ==> && forest.loc.Keys == old(forest.loc.Keys) + {Key(i, Single), Key(i, Leaf(x))}
                        && forest.loc[Key(i, Leaf(x))] == r.value
      ensures r.Ok? ==> d' == d.(addrs := d'.addrs) && Inodes() == old(Inodes())[i := d']
    {
      hide Stored, Kept;
      r, d' := EnsureInInode(i, d, Single);
      if r.Ok? {
        ghost var disk1, loc1 := disk, forest.loc;
        r := EnsureInTable(i, r.value, Leaf(x));
        if r.Ok? {
          KeptTrans(old(disk), old(forest.loc), disk1, loc1, disk, forest.loc);
        }
      }
    }

    method EnsureDeepLeaf(i: nat, d: Dinode, j: nat, x: nat) returns (r: Outcome<word>, d': Dinode)
      requires Formatted() && Stored(sb, disk, Inodes(), forest)
      requires i < sb.ninodes && d == Inodes()[i] && j < 256 && x < 256
      modifies this
      ensures Formatted()
      ensures r.Panic? ==> r.reason == OutOfBlocks && Full()
      ensures r.Ok? ==> Stored(sb, disk, Inodes(), forest) && Kept(old(disk), old(forest.loc), disk, forest.loc)
      ensures r.Ok? ==>
                && forest.loc.Keys == old(forest.loc.Keys) + {Key(i, Root), Key(i, Sub(j)), Key(i, DeepLeaf(j, x))}
                        && forest.loc[Key(i, DeepLeaf(j, x))] == r.value
      ensures r.Ok? ==> d' == d.(addrs := d'.addrs) && Inodes() == old(Inodes())[i := d']
    {
      hide Stored, Kept;
      r, d' := EnsureInInode(i, d, Root);
      if r.Ok? {
        ghost var disk1, loc1 := disk, forest.loc;
        r := EnsureInTable(i, r.value, Sub(j));
        if r.Ok? {
          KeptTrans(old(disk), old(forest.loc), disk1, loc1, disk, forest.loc);
          ghost var disk2, loc2 := disk, forest.loc;
          r := EnsureInTable(i, r.value, DeepLeaf(j, x));
          if r.Ok? {
            KeptTrans(old(disk), old(forest.loc), disk2, loc2, disk, forest.loc);
          }
        }
      }
    }

    // ----- readi -----

    /** Within its size a file has no holes: `bmap` finds every block, and there are the file's bytes. */
    lemma BmapMapped(i: nat, o: nat)
      requires Valid() && i < sb.ninodes && o < Inodes()[i].size
      ensures HasByte(disk, forest.loc, i, o)
      ensures Bmap(disk, Inodes()[i], o / 1024) == Ok(forest.loc[Key(i, NodeOf(o / 1024))])
    {
      assert Inodes()[i].size <= MAXBYTES;
      var k := Key(i, NodeOf(o / 1024));
      BmapFinds(sb, disk, Inodes(), forest, i, o / 1024);
      assert k in forest.loc;
      PlacedHome(sb, sb.ninodes, forest.loc, k);
    }

    /** The read loop: one block after the other. */
    method ReadBlocks(i: nat, d: Dinode, off: nat, len: nat) returns (r: Outcome<()>, dst: seq<byte>)
      requires Valid() && i < sb.ninodes && d == Inodes()[i] && off + len <= d.size
      ensures r.Ok? && dst == Bytes(i)[off..off + len]
    {
      hide Stored, Shaped, Bmap, FileBytes, HasByte;
      dst := [];
      r := Ok(());
      var tot := 0;
      while tot < len
        invariant 0 <= tot == |dst| <= len
        invariant dst == Bytes(i)[off..off + tot]
      {
        var o := off + tot;
        BmapMapped(i, o);
        var block := Bmap(disk, d, o / 1024);
        if block.Panic? {
          assert false;  // bmap's panics are unreachable
        }
        var p := o % 1024;
        var m := if 1024 - p > len - tot then len - tot else 1024 - p;
        ReadChunk(disk, forest.loc, i, d.size, o, m);
        dst := dst + disk[block.value][p..p + m];
        assert Bytes(i)[off..off + tot] + Bytes(i)[o..o + m] == Bytes(i)[off..off + (tot + m)];
        tot := tot + m;
      }
    }

    /**
     Reads up to `n` bytes at `off`. The result is -1 for an unused inode or a bad range, and
     otherwise the number of bytes read; it never panics.
     */
    method Readi(i: nat, d: Dinode, off: word, n: word) returns (r: Outcome<int>, dst: seq<byte>)
      requires Valid() && i < sb.ninodes && d == Inodes()[i]
      ensures r.Ok?
      ensures d.typ == FT_UNUSED || off > d.size || off + n >= 0x1_0000_0000 ==> r.value == -1
      ensures d.typ != FT_UNUSED && off <= d.size && off + n < 0x1_0000_0000 ==>
                r.value == |dst| && dst == Bytes(i)[off..Min(off + n, d.size)]
    {
      hide Stored, Shaped, FileBytes, Add32;
      WrapTest(off, n);
      if d.typ == FT_UNUSED {
        return Ok(-1), [];
      }
      if off > d.size || Add32(off, n) < off {
        return Ok(-1), [];
      }
      var len := if Add32(off, n) > d.size then d.size - off else n;
      var blocks;
      blocks, dst := ReadBlocks(i, d, off, len);
      r := Ok(len);
    }

    // ----- writei -----

    /** One turn of the write loop: `s` goes to offset `o`, inside one block. */
    method WriteChunk(i: nat, d: Dinode, o: nat, s: seq<byte>, ghost c: nat) returns (r: Outcome<()>, d': Dinode)
      requires Growing(i, c) && i < sb.ninodes && d == Inodes()[i]
      requires o / 1024 <= c && o < MAXBYTES && o % 1024 + |s| <= 1024
      modifies this
      ensures Formatted()
      ensures r.Panic? ==> r.reason == OutOfBlocks && Full()
      ensures r.Ok? ==> Growing(i, Max(c, o / 1024 + 1))
      ensures r.Ok? ==>
                Wrote(old(disk), old(forest.loc), disk, forest.loc, i, o, s) && Extends(old(forest.loc), forest.loc)
      ensures r.Ok? ==> d' == d.(addrs := d'.addrs) && Inodes() == old(Inodes())[i := d']
    {
      hide Stored, Kept, Shaped, Wrote;
      var block;
      block, d' := BmapAlloc(i, d, o / 1024, c);
      if block.Panic? {
        return Panic(block.reason), d';
      }
      KeptExtends(old(disk), old(forest.loc), disk, forest.loc);
      BlockInRange(i, o);
      KeptWrites(old(disk), old(forest.loc), disk, forest.loc, i, o);
      BlockWrites(disk, forest, i, o, s);
      WroteTrans(old(disk), old(forest.loc), disk, forest.loc,
                 disk[block.value := Splice(disk[block.value], o % 1024, s)], forest.loc, i, o, [], s);
      assert [] + s == s;
      DataWrite(sb, disk, Inodes(), forest, Key(i, NodeOf(o / 1024)), Splice(disk[block.value], o % 1024, s));
      WriteBlock(block.value, Splice(disk[block.value], o % 1024, s));
      r := Ok(());
    }

    lemma BlockInRange(i: nat, o: nat)
      requires Formatted() && Stored(sb, disk, Inodes(), forest) && o < MAXBYTES
      requires Key(i, NodeOf(o / 1024)) in forest.loc
      ensures HasByte(disk, forest.loc, i, o) && sb.IsData(forest.loc[Key(i, NodeOf(o / 1024))])
      ensures forest.Inverse()
    {
      PlacedHome(sb, sb.ninodes, forest.loc, Key(i, NodeOf(o / 1024)));
    }

    /** The write loop: one block after the other, each mapped before it is written. */
    method WriteBlocks(i: nat, d: Dinode, src: seq<byte>, off: nat) returns (r: Outcome<()>, d': Dinode)
      requires Growing(i, Blocks(d.size)) && i < sb.ninodes && d == Inodes()[i]
      requires off <= d.size && off + |src| <= MAXBYTES
      modifies this
      ensures r.Panic? ==> Formatted() && r.reason == OutOfBlocks && Full()
      ensures r.Ok? ==> Growing(i, Max(Blocks(d.size), Blocks(off + |src|)))
      ensures r.Ok? ==> d' == d.(addrs := d'.addrs) && Inodes() == old(Inodes())[i := d']
      ensures r.Ok? ==>
                Wrote(old(disk), old(forest.loc), disk, forest.loc, i, off, src) && Extends(old(forest.loc), forest.loc)
    {
      hide Stored, Kept, Shaped, Wrote, HasByte;
      d' := d;
      KeptRefl(disk, forest.loc);
      KeptWrites(disk, forest.loc, disk, forest.loc, i, off);
      assert src[..0] == [];
      var tot := 0;
      while tot < |src|
        invariant 0 <= tot <= |src|
        invariant Growing(i, Max(Blocks(d.size), Blocks(off + tot)))
        invariant d' == d.(addrs := d'.addrs) && Inodes() == old(Inodes())[i := d']
        invariant Wrote(old(disk), old(forest.loc), disk, forest.loc, i, off, src[..tot])
        invariant Extends(old(forest.loc), forest.loc)
      {
        var o := off + tot;
        var p := o % 1024;
        var m := if 1024 - p > |src| - tot then |src| - tot else 1024 - p;
        ghost var c, disk1, f1 := Max(Blocks(d.size), Blocks(o)), disk, forest;
        ShapedBytes(sb, disk, Inodes(), forest, i, c, i, o);
        var w;
        w, d' := WriteChunk(i, d', o, src[tot..tot + m], c);
        if w.Panic? {
          return Panic(w.reason), d';
        }
        assert src[..tot] + src[tot..tot + m] == src[..tot + m];
        WroteTrans(old(disk), old(forest.loc), disk1, f1.loc, disk, forest.loc, i, off, src[..tot], src[tot..tot + m]);
        tot := tot + m;
      }
      assert src[..|src|] == src;
      r := Ok(());
    }

    /**
     Writes `src` at `off`. The result is -1, and nothing changes, for a bad range; otherwise the
     file's bytes are overwritten, the file growing as needed, and no other file changes.
     */
    method Writei(i: nat, d: Dinode, src: seq<byte>, off: word) returns (r: Outcome<int>, d': Dinode)
      requires Valid() && i < sb.ninodes && d == Inodes()[i] && |src| < 0x1_0000_0000
      modifies this
      ensures off > d.size || off + |src| > MAXBYTES ==>
                r == Ok(-1) && d' == d && disk == old(disk) && forest == old(forest)
      ensures r.Panic? ==> Formatted() && r.reason == OutOfBlocks && Full()
      ensures off <= d.size && off + |src| <= MAXBYTES && r.Ok? ==>
                && r.value == |src| && Valid() && Extends(old(forest.loc), forest.loc)
                && d' == d.(size := Max(d.size, off + |src|), addrs := d'.addrs)
                && Inodes() == old(Inodes())[i := d']
                && Bytes(i) == Overwrite(old(Bytes(i)), off, src)
                && (forall j: nat :: j < sb.ninodes && j != i ==> Bytes(j) == old(Bytes(j)))
    {
      hide Stored, Kept, Shaped, Wrote, HasByte, FileBytes, Add32;
      d' := d;
      WrapTest(off, |src|);
      if off > d.size || Add32(off, |src|) < off {
        return Ok(-1), d';
      }
      if Add32(off, |src|) > MAXBYTES {
        return Ok(-1), d';
      }
      ShapedAt(Inodes(), forest.loc, i);
      ShapedBytes(sb, disk, Inodes(), forest, sb.ninodes, 0, i, d.size);
      var w;
      w, d' := WriteBlocks(i, d, src, off);
      if w.Panic? {
        return Panic(w.reason), d';
      }
      if |src| > 0 && off + |src| > d.size {
        ghost var disk1 := disk;
        ShapedBytes(sb, disk, Inodes(), forest, i, Blocks(off + |src|), i, off + |src|);
        d' := Resize(i, d', off + |src|);
        KeptWrites(disk1, forest.loc, disk, forest.loc, i, off + |src|);
        WroteTrans(old(disk), old(forest.loc), disk1, forest.loc, disk, forest.loc, i, off, src, []);
        assert src + [] == src;
      }
      ShapedAt(Inodes(), forest.loc, i);
      WroteFile(old(disk), old(forest.loc), disk, forest.loc, i, off, src, d.size);
      OthersKept(sb, old(disk), old(forest), disk, forest, i, off, src);
      r := Ok(|src|);
    }

    /** Records the new size of a file whose blocks are already mapped. */
    method Resize(i: nat, d: Dinode, size: nat) returns (d': Dinode)
      requires Growing(i, Blocks(size)) && i < sb.ninodes && d == Inodes()[i] && size <= MAXBYTES
      modifies this`disk
      ensures Growing(i, Blocks(size)) && d' == d.(size := size) && Inodes() == old(Inodes())[i := d']
      ensures Kept(old(disk), forest.loc, disk, forest.loc)
    {
      hide Stored, Kept, Shaped;
      d' := d.(size := size);
      Iupdate(i, d');
      FieldsUpdated(sb, old(disk), disk, old(Inodes()), forest, i, d');
      ShapedExcept(old(Inodes()), Inodes(), forest.loc, i, Blocks(size));
    }

    // ----- itrunc -----

    /** Frees the block of node `n`, if there is one, and clears its entry in the (in-memory) inode. */
    method DropInInode(i: nat, d: Dinode, n: Node) returns (r: Outcome<()>, d': Dinode)
      requires Formatted() && i < sb.ninodes && Stored(sb, disk, Inodes()[i := d], forest)
      requires ValidNode(n) && HomeOf(n).InInode? && Childless(forest.loc, Key(i, n))
      modifies this
      ensures r.Ok? && Formatted() && Inodes() == old(Inodes()) && d' == d.(addrs := d'.addrs)
      ensures Stored(sb, disk, Inodes()[i := d'], forest)
      ensures forest.loc == old(forest.loc) - {Key(i, n)} && Kept(disk, forest.loc, old(disk), old(forest.loc))
    {
      hide Stored, Kept, Childless;
      d' := d;
      r := Ok(());
      InodeEntry(sb, disk, Inodes()[i := d], forest, Key(i, n));
      var addr := d.addrs[Idx(n)];
      if addr != 0 {
        OwnedIsMarked(sb, disk, Inodes()[i := d], forest, Key(i, n));
        r := Bfree(addr);
        UnlinkedInInode(sb, old(disk), disk, old(Inodes())[i := d], forest, Key(i, n));
        d' := SetAddr(d, Idx(n), 0);
        forest := forest.Remove(Key(i, n));
        assert Inodes()[i := d'] == old(Inodes())[i := d][i := d'];
      } else {
        KeptRefl(disk, forest.loc);
      }
    }

    /** Frees the block of node `n`, if there is one, and clears its entry in index table `t`, last read as `table`. */
    method DropInTable(i: nat, d: Dinode, t: nat, table: Table, n: Node) returns (r: Outcome<()>, table': Table)
      requires Formatted() && i < sb.ninodes && Stored(sb, disk, Inodes()[i := d], forest)
      requires ValidNode(n) && TableOf(forest.loc, Key(i, n), t) && Childless(forest.loc, Key(i, n))
      requires t < sb.size && table == DecodeWords(disk[t])
      modifies this
      ensures r.Ok? && Formatted() && Inodes() == old(Inodes())
      ensures Stored(sb, disk, Inodes()[i := d], forest)
      ensures forest.loc == old(forest.loc) - {Key(i, n)} && Kept(disk, forest.loc, old(disk), old(forest.loc))
      ensures table' == DecodeWords(disk[t]) && SameData(sb, old(disk), disk, {t})
    {
      hide Stored, Kept, Childless;
      table' := table;
      r := Ok(());
      TableEntry(sb, disk, Inodes()[i := d], forest, Key(i, n), t);
      var addr := table[Idx(n)];
      if addr != 0 {
        OwnedIsMarked(sb, disk, Inodes()[i := d], forest, Key(i, n));
        r := Bfree(addr);
        ghost var disk1 := disk;
        table' := table[Idx(n) := 0];
        WriteBlock(t, EncodeWords(table'));
        UnlinkedInTable(sb, old(disk), disk1, disk, old(Inodes())[i := d], forest, Key(i, n), t);
        forest := forest.Remove(Key(i, n));
      } else {
        KeptRefl(disk, forest.loc);
      }
    }

    /** The kernel's scan for a used entry. */
    static method IsEmptyTable(table: Table) returns (empty: bool)
      ensures empty <==> forall x :: 0 <= x < 256 ==> table[x] == 0
    {
      var x := 0;
      while x < 256
        invariant 0 <= x <= 256
        invariant forall y :: 0 <= y < x ==> table[y] == 0
      {
        if table[x] != 0 {
          return false;
        }
        x := x + 1;
      }
      return true;
    }

    /** An index table is empty iff none of its children is stored. */
    lemma EmptyTable(ino: seq<Dinode>, i: nat, j: nat)
      requires Stored(sb, disk, ino, forest) && i < |ino| && j < 256 && Key(i, Sub(j)) in forest.loc
      requires forest.loc[Key(i, Sub(j))] < |disk|
      ensures (forall x :: 0 <= x < 256 ==> DecodeWords(disk[forest.loc[Key(i, Sub(j))]])[x] == 0) <==>
              (forall y :: 0 <= y < 256 ==> Key(i, DeepLeaf(j, y)) !in forest.loc)
    {
      var table := DecodeWords(disk[forest.loc[Key(i, Sub(j))]]);
      forall y | 0 <= y < 256
        ensures table[y] == 0 <==> Key(i, DeepLeaf(j, y)) !in forest.loc
      {
        TableEntry(sb, disk, ino, forest, Key(i, DeepLeaf(j, y)), forest.loc[Key(i, Sub(j))]);
      }
    }

    /** Frees a block below second-level table `j`, and the table itself if it became empty. */
    method DropDeepLeaf(i: nat, d: Dinode, j: nat, x: nat) returns (r: Outcome<()>)
      requires Formatted() && i < sb.ninodes && Stored(sb, disk, Inodes()[i := d], forest)
      requires j < 256 && x < 256
      requires Key(i, Root) in forest.loc && Key(i, Sub(j)) in forest.loc
      modifies this
      ensures r.Ok? && Formatted() && Inodes() == old(Inodes())
      ensures Stored(sb, disk, Inodes()[i := d], forest) && Kept(disk, forest.loc, old(disk), old(forest.loc))
      ensures forest.loc == old(forest.loc) - {Key(i, DeepLeaf(j, x))} -
                (if forall y :: 0 <= y < 256 && y != x ==> Key(i, DeepLeaf(j, y)) !in old(forest.loc)
                 then {Key(i, Sub(j))} else {})
    {
      hide Stored, Kept;
      ghost var ino := Inodes()[i := d];
      r := Ok(());
      InodeEntry(sb, disk, ino, forest, Key(i, Root));
      var root := d.addrs[13];
      if root != 0 {
        var dindirect := DecodeWords(disk[root]);
        TableEntry(sb, disk, ino, forest, Key(i, Sub(j)), root);
        var sub := dindirect[j];
        if sub != 0 {
          ghost var k := Key(i, DeepLeaf(j, x));
          OwnBlocks(ino, Key(i, Root), Key(i, Sub(j)));
          var indirect;
          r, indirect := DropInTable(i, d, sub, DecodeWords(disk[sub]), DeepLeaf(j, x));
          EmptyTable(ino, i, j);
          ghost var disk1, loc1 := disk, forest.loc;
          var empty := IsEmptyTable(indirect);
          if empty {
            assert Childless(forest.loc, Key(i, Sub(j))) by { OnlyLeaves(ino, i, j); }
            r, dindirect := DropInTable(i, d, root, dindirect, Sub(j));
            KeptTrans(disk, forest.loc, disk1, loc1, old(disk), old(forest.loc));
          }
        }
      }
    }

    lemma OwnBlocks(ino: seq<Dinode>, k: Key, k': Key)
      requires Stored(sb, disk, ino, forest) && k in forest.loc && k' in forest.loc && k != k'
      ensures forest.loc[k] != forest.loc[k'] && sb.IsData(forest.loc[k]) && sb.IsData(forest.loc[k'])
    {
      assert forest.owner[forest.loc[k]] == k && forest.owner[forest.loc[k']] == k';
    }

    lemma OnlyLeaves(ino: seq<Dinode>, i: nat, j: nat)
      requires Stored(sb, disk, ino, forest)
      requires forall y :: 0 <= y < 256 ==> Key(i, DeepLeaf(j, y)) !in forest.loc
      ensures Childless(forest.loc, Key(i, Sub(j)))
    {
      forall q | q in forest.loc && q.inum == i
        ensures HomeOf(q.node) != InTable(Sub(j))
      {
        PlacedHome(sb, |ino|, forest.loc, q);
      }
    }

    /** The volume while inode `i`, in memory `d`, is being cut. */
    ghost predicate Cutting(i: nat, d: Dinode, to: nat, from: nat, bn: nat)
      reads this
    {
      && Formatted() && i < sb.ninodes
      && Stored(sb, disk, Inodes()[i := d], forest)
      && CutShape(Inodes(), forest.loc, i, to, from, bn)
    }

    /** One turn of the cut: file block `bn` goes, and its second-level table if that was the last block. */
    method DropBlock(i: nat, d: Dinode, bn: nat, ghost to: nat, ghost from: nat) returns (r: Outcome<()>, d': Dinode)
      requires Cutting(i, d, to, from, bn) && to <= bn < from <= MAXFILE
      modifies this
      ensures r.Ok? && Cutting(i, d', to, from, bn + 1)
      ensures Inodes() == old(Inodes()) && d' == d.(addrs := d'.addrs)
      ensures Kept(disk, forest.loc, old(disk), old(forest.loc))
    {
      hide Stored, Kept, CutShape, Childless;
      d' := d;
      ghost var n := NodeOf(bn);
      CutStep(Inodes(), forest.loc, i, to, from, bn);
      CutChain(Inodes(), forest.loc, i, to, from, bn);
      DataChildless(forest.loc, Key(i, n));
      if bn < 12 {
        r, d' := DropInInode(i, d, Direct(bn));
      } else if bn - 12 < 256 {
        InodeEntry(sb, disk, Inodes()[i := d], forest, Key(i, Single));
        var t := d.addrs[12];
        var indirect;
        r, indirect := DropInTable(i, d, t, DecodeWords(disk[t]), Leaf(bn - 12));
      } else {
        LastOfMeaning(to, from, bn, n.j, n.i);
        r := DropDeepLeaf(i, d, (bn - 268) / 256, (bn - 268) % 256);
      }
      assert forest.loc == old(forest.loc) - CutAt(i, to, from, bn);
    }

    /** Drops blocks `[to, from)` and the tables that the shorter file does not need. */
    method Cut(i: nat, d: Dinode, to: nat, from: nat) returns (r: Outcome<()>, d': Dinode)
      requires Growing(i, from) && i < sb.ninodes && d == Inodes()[i] && to < from <= MAXFILE
      modifies this
      ensures r.Ok? && Formatted() && Inodes() == old(Inodes()) && d' == d.(addrs := d'.addrs)
      ensures Stored(sb, disk, Inodes()[i := d'], forest) && Shaped(Inodes(), forest.loc, i, to)
      ensures Kept(disk, forest.loc, old(disk), old(forest.loc))
    {
      hide Stored, Kept, CutShape, Shaped, Childless;
      d' := d;
      r := Ok(());
      assert Inodes()[i := d] == Inodes();
      CutStart(Inodes(), forest.loc, i, to, from);
      KeptRefl(disk, forest.loc);
      var bn := to;
      while bn < from
        invariant to <= bn <= from
        invariant r.Ok? && Cutting(i, d', to, from, bn)
        invariant Inodes() == old(Inodes()) && d' == d.(addrs := d'.addrs)
        invariant Kept(disk, forest.loc, old(disk), old(forest.loc))
      {
        ghost var disk1, loc1 := disk, forest.loc;
        r, d' := DropBlock(i, d', bn, to, from);
        KeptTrans(disk, forest.loc, disk1, loc1, old(disk), old(forest.loc));
        bn := bn + 1;
      }
      ghost var disk1, loc1 := disk, forest.loc;
      r, d' := DropTables(i, d', to, from);
      KeptTrans(disk, forest.loc, disk1, loc1, old(disk), old(forest.loc));
    }

    /** Drops the single-indirect table and the double-indirect root when the file is short enough. */
    method DropTables(i: nat, d: Dinode, to: nat, ghost from: nat) returns (r: Outcome<()>, d': Dinode)
      requires Cutting(i, d, to, from, from) && to < from <= MAXFILE
      modifies this
      ensures r.Ok? && Formatted() && Inodes() == old(Inodes()) && d' == d.(addrs := d'.addrs)
      ensures Stored(sb, disk, Inodes()[i := d'], forest) && Shaped(Inodes(), forest.loc, i, to)
      ensures Kept(disk, forest.loc, old(disk), old(forest.loc))
    {
      hide Stored, Kept, CutShape, Shaped, Childless;
      d' := d;
      r := Ok(());
      PlacedAll(sb, disk, Inodes()[i := d], forest);
      CutEnd(sb, Inodes(), forest.loc, i, to, from);
      KeptRefl(disk, forest.loc);
      if to <= 12 {
        r, d' := DropInInode(i, d', Single);
      }
      ghost var disk1, loc1 := disk, forest.loc;
      if to <= 268 {
        ChildlessSub(old(forest.loc), forest.loc, Key(i, Root));
        r, d' := DropInInode(i, d', Root);
        KeptTrans(disk, forest.loc, disk1, loc1, old(disk), old(forest.loc));
      }
      assert forest.loc == old(forest.loc) - (if to <= 12 then {Key(i, Single)} else {}) -
               (if to <= 268 then {Key(i, Root)} else {});
    }

    /**
     Cuts a file to `size` bytes; a larger size changes nothing. It never panics: every block it frees
     is marked in use. What remains is the prefix, stored where it was.
     */
    method Itrunc(i: nat, d: Dinode, size: word) returns (r: Outcome<()>, d': Dinode)
      requires Valid() && i < sb.ninodes && d == Inodes()[i]
      modifies this
      ensures r.Ok? && Valid()
      ensures size >= d.size ==> d' == d && disk == old(disk) && forest == old(forest)
      ensures size < d.size ==>
                && d' == d.(size := size, addrs := d'.addrs)
                && Inodes() == old(Inodes())[i := d']
                && Bytes(i) == old(Bytes(i))[..size]
      ensures Extends(forest.loc, old(forest.loc))
      ensures forall j: nat :: j < sb.ninodes && j != i ==> Bytes(j) == old(Bytes(j))
    {
      hide Stored, Kept, Shaped, Wrote, HasByte, FileBytes;
      d' := d;
      r := Ok(());
      if size >= d.size {
        return;
      }
      var from := (d.size + 1024 - 1) / 1024;
      var to := (size + 1024 - 1) / 1024;
      assert from == Blocks(d.size) && to == Blocks(size);
      ShapedAt(Inodes(), forest.loc, i);
      KeptRefl(disk, forest.loc);
      assert Inodes()[i := d] == Inodes();
      if to < from {
        r, d' := Cut(i, d, to, from);
      }
      d' := d'.(size := size);
      ghost var disk1 := disk;
      ghost var ino1 := Inodes()[i := d'.(size := d.size)];
      Iupdate(i, d');
      FieldsUpdated(sb, disk1, disk, ino1, forest, i, d');
      KeptTrans(disk, forest.loc, disk1, forest.loc, old(disk), old(forest.loc));
      KeptExtends(disk, forest.loc, old(disk), old(forest.loc));
      ShapedExcept(old(Inodes()), Inodes(), forest.loc, i, to);
      ShapedAt(Inodes(), forest.loc, i);
      KeptFiles(sb, disk, Inodes(), forest, old(disk), old(forest));
      assert Bytes(i) == old(Bytes(i))[..size] by {
        FilePrefix(old(disk), old(forest.loc), i, size, d.size);
      }
    }

    // ----- ialloc and removal -----

    /** Unused records own no blocks. */
    ghost predicate UnusedEmpty()
      reads this
      requires Formatted()
    {
      forall i :: 0 <= i < sb.ninodes && Inodes()[i].typ == FT_UNUSED ==> Inodes()[i].size == 0
    }

    /**
     Claims the first unused inode from number 1 on. The record is cleared without a look at what it owned, so
     the volume stays valid if that was nothing (see `Hazards.ReuseIff` for the converse). If no record that
     lies before the bitmap is unused, the scan ends, or goes on past them if the superblock declares more (see
     `Hazards.ShippedScan`).
     */
    method Ialloc(typ: half) returns (r: Search, d: Dinode)
      requires Valid()
      modifies this
      ensures Formatted() && forest == old(forest)
      ensures !r.Hit? ==> disk == old(disk) && (r.PastEnd? <==> Overruns())
      ensures !r.Hit? ==> forall x :: 1 <= x < sb.ninodes ==> old(Inodes())[x].typ != FT_UNUSED
      ensures r.Hit? ==>
                && 0 < r.i < sb.ninodes && d == Dinode(typ, 1, 0, NoAddrs)
                && (forall x :: 1 <= x < r.i ==> old(Inodes())[x].typ != FT_UNUSED)
                && old(Inodes())[r.i].typ == FT_UNUSED && Inodes() == old(Inodes())[r.i := d]
                && Updated(sb, old(disk), disk, r.i, d)
      ensures r.Hit? && old(Inodes())[r.i].size == 0 ==>
                Valid() && forall j: nat :: j < sb.ninodes ==> Bytes(j) == old(Bytes(j))
    {
      hide Stored, Kept, Shaped, FileBytes;
      d := Dinode(typ, 1, 0, NoAddrs);
      var i := 1;
      while i < declared && i < sb.ninodes
        invariant 1 <= i && (i == 1 || i <= sb.ninodes) && disk == old(disk) && forest == old(forest)
        invariant forall x :: 1 <= x < i && x < sb.ninodes ==> Inodes()[x].typ != FT_UNUSED
      {
        var dip := Record(sb, disk, i);
        assert dip == Inodes()[i];
        if dip.typ == FT_UNUSED {
          Iupdate(i, d);
          if dip.size == 0 {
            EmptyInode(sb, old(disk), old(Inodes()), forest, i);
            FieldsUpdated(sb, old(disk), disk, old(Inodes()), forest, i, d);
            ShapedSizes(old(Inodes()), Inodes(), forest.loc);
            KeptFiles(sb, disk, Inodes(), forest, old(disk), forest);
          }
          return Hit(i), d;
        }
        i := i + 1;
      }
      return if i < declared then PastEnd else NoneLeft, d;
    }

    /** The end of `fs_rm`: all blocks of the file are freed and its record is marked unused. */
    method Discard(i: nat, d: Dinode) returns (r: Outcome<()>, d': Dinode)
      requires Valid() && i < sb.ninodes && d == Inodes()[i]
      modifies this
      ensures r.Ok? && Valid() && Extends(forest.loc, old(forest.loc))
      ensures d'.typ == FT_UNUSED && d'.size == 0 && Inodes() == old(Inodes())[i := d']
      ensures Bytes(i) == [] && forall j: nat :: j < sb.ninodes && j != i ==> Bytes(j) == old(Bytes(j))
    {
      hide Stored, Kept, Shaped, FileBytes;
      r, d' := Itrunc(i, d, 0);
      ghost var disk1, ino1 := disk, Inodes();
      d' := d'.(typ := FT_UNUSED);
      Iupdate(i, d');
      FieldsUpdated(sb, disk1, disk, ino1, forest, i, d');
      ShapedSizes(ino1, Inodes(), forest.loc);
      KeptFiles(sb, disk, Inodes(), forest, disk1, forest);
    }
  }
}
