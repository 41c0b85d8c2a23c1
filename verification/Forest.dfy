/**
 The global shape of a volume: the index trees of all inodes, laid over one flat array of blocks.

 `loc` says in which block each node of each inode's tree is stored, `owner` is its inverse. That
 they are inverse to each other is the no-aliasing invariant: a block has one owner, in one place.
 */
module Forests {
  import opened Codec
  import opened Layout

  type Disk = seq<Block>

  datatype Forest = Forest(loc: map<Key, nat>, owner: map<nat, Key>) {

    ghost predicate Inverse() {
      && (forall k {:trigger loc[k]} :: k in loc ==> loc[k] in owner && owner[loc[k]] == k)
      && (forall b {:trigger owner[b]} :: b in owner ==> owner[b] in loc && loc[owner[b]] == b)
    }

    ghost function Add(k: Key, b: nat): Forest { Forest(loc[k := b], owner[b := k]) }

    ghost function Remove(k: Key): Forest
      requires k in loc
    { Forest(loc - {k}, owner - {loc[k]}) }
  }

  ghost predicate HomeIn(loc: map<Key, nat>, k: Key) {
    HomeOf(k.node).InInode? || Key(k.inum, HomeOf(k.node).table) in loc
  }

  /** Every node is stored in its own data block, below a home that is itself stored. */
  ghost predicate Placed(sb: Superblock, n: nat, loc: map<Key, nat>) {
    forall k {:trigger loc[k]} :: k in loc ==> k.inum < n && ValidNode(k.node) && sb.IsData(loc[k]) && HomeIn(loc, k)
  }

  lemma PlacedHome(sb: Superblock, n: nat, loc: map<Key, nat>, k: Key)
    requires Placed(sb, n, loc)
    ensures k in loc ==> HomeIn(loc, k) && sb.IsData(loc[k])
  {
  }

  /** The address kept for node `k` in its home: an entry of the inode or of an index table on disk. */
  ghost function Entry(disk: Disk, ino: seq<Dinode>, loc: map<Key, nat>, k: Key): word
    requires k.inum < |ino| && ValidNode(k.node) && HomeIn(loc, k)
    requires forall x :: x in loc ==> loc[x] < |disk|
  {
    HomeInRange(k.node);
    match HomeOf(k.node)
    case InInode => ino[k.inum].addrs[Idx(k.node)]
    case InTable(t) => DecodeWords(disk[loc[Key(k.inum, t)]])[Idx(k.node)]
  }

  ghost function Expected(loc: map<Key, nat>, k: Key): nat { if k in loc then loc[k] else 0 }

  function Bits(sb: Superblock, disk: Disk): (s: Bitmap)
    requires sb.bmapstart < |disk|
  {
    DecodeBits(disk[sb.bmapstart])
  }

  /** Inodes and tables hold exactly the addresses in `loc`, and zero elsewhere. */
  ghost predicate Entries(disk: Disk, ino: seq<Dinode>, loc: map<Key, nat>) {
    && (forall x :: x in loc ==> loc[x] < |disk|)
    && (forall k: Key {:trigger Entry(disk, ino, loc, k)} :: k.inum < |ino| && ValidNode(k.node) && HomeIn(loc, k) ==>
                      Entry(disk, ino, loc, k) == Expected(loc, k))
  }

  /** The bitmap marks exactly the metadata and the owned blocks. */
  ghost predicate Marked(sb: Superblock, disk: Disk, owner: map<nat, Key>) {
    && sb.bmapstart < sb.size == |disk| <= 8192
    && (forall b: nat :: b < sb.size ==> (Bits(sb, disk)[b] <==> sb.IsMeta(b) || b in owner))
  }

  /** The storage invariant of a volume whose dinodes are `ino`. */
  ghost predicate Stored(sb: Superblock, disk: Disk, ino: seq<Dinode>, f: Forest) {
    && sb.WellFormed()
    && |disk| == sb.size
    && f.Inverse()
    && Placed(sb, |ino|, f.loc)
    && Entries(disk, ino, f.loc)
    && Marked(sb, disk, f.owner)
  }

  /** Block `t` is the index table that holds the entry of `k`. */
  ghost predicate TableOf(loc: map<Key, nat>, k: Key, t: nat) {
    && HomeOf(k.node).InTable?
    && Key(k.inum, HomeOf(k.node).table) in loc
    && loc[Key(k.inum, HomeOf(k.node).table)] == t
  }

  /** An index table on disk holds the addresses of its children. */
  lemma TableEntry(sb: Superblock, disk: Disk, ino: seq<Dinode>, f: Forest, k: Key, t: nat)
    requires Stored(sb, disk, ino, f)
    requires k.inum < |ino| && ValidNode(k.node) && TableOf(f.loc, k, t)
    ensures sb.IsData(t) && Idx(k.node) < 256
    ensures DecodeWords(disk[t])[Idx(k.node)] == Expected(f.loc, k)
    ensures k in f.loc ==> sb.IsData(f.loc[k])
  {
    assert Entry(disk, ino, f.loc, k) == Expected(f.loc, k);
  }

  /** An inode holds the addresses of its direct blocks and of its two tables. */
  lemma InodeEntry(sb: Superblock, disk: Disk, ino: seq<Dinode>, f: Forest, k: Key)
    requires Stored(sb, disk, ino, f)
    requires k.inum < |ino| && ValidNode(k.node) && HomeOf(k.node).InInode?
    ensures Idx(k.node) < NADDRS
    ensures ino[k.inum].addrs[Idx(k.node)] == Expected(f.loc, k)
    ensures k in f.loc ==> sb.IsData(f.loc[k])
  {
    assert Entry(disk, ino, f.loc, k) == Expected(f.loc, k);
  }

  ghost predicate SameData(sb: Superblock, disk: Disk, disk': Disk, except: set<nat>) {
    && |disk'| == |disk| == sb.size
    && (forall x: nat :: sb.IsData(x) && x !in except ==> disk'[x] == disk[x])
  }

  /** A block of zero bytes; as an index table it has no entries. */
  ghost predicate Blank(b: Block) {
    && (forall i :: 0 <= i < BSIZE ==> b[i] == 0)
    && (forall i :: 0 <= i < 256 ==> DecodeWords(b)[i] == 0)
  }

  // ----- taking a block into the forest -----

  lemma AddPlaced(sb: Superblock, n: nat, f: Forest, k: Key, b: nat)
    requires f.Inverse() && Placed(sb, n, f.loc)
    requires k.inum < n && ValidNode(k.node) && k !in f.loc && HomeIn(f.loc, k)
    requires sb.IsData(b) && b !in f.owner
    ensures f.Add(k, b).Inverse() && Placed(sb, n, f.Add(k, b).loc)
  {
  }

  lemma RemovePlaced(sb: Superblock, n: nat, f: Forest, k: Key)
    requires f.Inverse() && Placed(sb, n, f.loc)
    requires k in f.loc && Childless(f.loc, k)
    ensures f.Remove(k).Inverse() && Placed(sb, n, f.Remove(k).loc)
  {
    var f' := f.Remove(k);
    forall q | q in f'.loc
      ensures HomeIn(f'.loc, q)
    {
      assert f.loc[q] == f'.loc[q];
    }
  }

  lemma AddMarked(sb: Superblock, disk: Disk, disk': Disk, f: Forest, k: Key, b: nat)
    requires Marked(sb, disk, f.owner) && |disk'| == |disk| && b < sb.size
    requires Bits(sb, disk') == Bits(sb, disk)[b := true]
    ensures Marked(sb, disk', f.Add(k, b).owner)
  {
  }

  lemma RemoveMarked(sb: Superblock, disk: Disk, disk': Disk, f: Forest, k: Key)
    requires Marked(sb, disk, f.owner) && |disk'| == |disk|
    requires k in f.loc && sb.IsData(f.loc[k])
    requires Bits(sb, disk') == Bits(sb, disk)[f.loc[k] := false]
    ensures Marked(sb, disk', f.Remove(k).owner)
  {
  }

  function SetAddr(d: Dinode, i: nat, b: word): Dinode
    requires i < NADDRS
  {
    d.(addrs := d.addrs[i := b])
  }

  /** The entries of the new node's own block, if it is a table, are all zero, and it has no children yet. */
  lemma FreshTable(sb: Superblock, disk': Disk, ino: seq<Dinode>, f: Forest, k: Key, b: nat, q: Key)
    requires Placed(sb, |ino|, f.loc) && k !in f.loc && b < |disk'|
    requires Blank(disk'[b])
    requires forall x :: x in f.loc ==> f.loc[x] < |disk'|
    requires q.inum < |ino| && ValidNode(q.node) && HomeOf(q.node).InTable? && Key(q.inum, HomeOf(q.node).table) == k
    ensures Entry(disk', ino, f.loc[k := b], q) == Expected(f.loc[k := b], q) || q == k
  {
    HomeInRange(q.node);
    assert q in f.loc ==> HomeIn(f.loc, q);
  }

  lemma LinkInInode(sb: Superblock, disk: Disk, disk': Disk, ino: seq<Dinode>, f: Forest, k: Key, b: word)
    requires Stored(sb, disk, ino, f)
    requires k.inum < |ino| && ValidNode(k.node) && k !in f.loc && HomeOf(k.node).InInode?
    requires sb.IsData(b) && b !in f.owner
    requires SameData(sb, disk, disk', {b}) && Blank(disk'[b])
    requires Bits(sb, disk') == Bits(sb, disk)[b := true]
    ensures Stored(sb, disk', ino[k.inum := SetAddr(ino[k.inum], Idx(k.node), b)], f.Add(k, b))
  {
    AddPlaced(sb, |ino|, f, k, b);
    AddMarked(sb, disk, disk', f, k, b);
    var ino' := ino[k.inum := SetAddr(ino[k.inum], Idx(k.node), b)];
    var loc' := f.loc[k := b];
    forall q: Key | q.inum < |ino'| && ValidNode(q.node) && HomeIn(loc', q)
      ensures Entry(disk', ino', loc', q) == Expected(loc', q)
    {
      LinkInInodeEntry(sb, disk, disk', ino, f, k, b, q);
    }
  }

  lemma LinkInInodeEntry(sb: Superblock, disk: Disk, disk': Disk, ino: seq<Dinode>, f: Forest, k: Key, b: word, q: Key)
    requires Placed(sb, |ino|, f.loc) && Entries(disk, ino, f.loc) && f.Inverse()
    requires k.inum < |ino| && ValidNode(k.node) && k !in f.loc && HomeOf(k.node).InInode?
    requires sb.IsData(b) && b !in f.owner
    requires SameData(sb, disk, disk', {b}) && Blank(disk'[b])
    requires q.inum < |ino| && ValidNode(q.node) && HomeIn(f.loc[k := b], q)
    ensures Entry(disk', ino[k.inum := SetAddr(ino[k.inum], Idx(k.node), b)], f.loc[k := b], q) ==
              Expected(f.loc[k := b], q)
  {
    if HomeOf(q.node).InInode? {
      assert Entry(disk, ino, f.loc, q) == Expected(f.loc, q);
      if q.inum == k.inum && Idx(q.node) == Idx(k.node) { HomeInjective(q.node, k.node); }
    } else {
      var h := Key(q.inum, HomeOf(q.node).table);
      if h == k {
        FreshTable(sb, disk', ino[k.inum := SetAddr(ino[k.inum], Idx(k.node), b)], f, k, b, q);
      } else {
        assert Entry(disk, ino, f.loc, q) == Expected(f.loc, q);
        assert sb.IsData(f.loc[h]);
      }
    }
  }

  lemma LinkInTable(sb: Superblock, disk: Disk, disk': Disk, ino: seq<Dinode>, f: Forest, k: Key, t: nat, b: word)
    requires Stored(sb, disk, ino, f)
    requires k.inum < |ino| && ValidNode(k.node) && k !in f.loc && TableOf(f.loc, k, t)
    requires sb.IsData(b) && b !in f.owner
    requires SameData(sb, disk, disk', {b, t}) && Blank(disk'[b])
    requires TableSet(disk, disk', t, Idx(k.node), b)
    requires Bits(sb, disk') == Bits(sb, disk)[b := true]
    ensures Stored(sb, disk', ino, f.Add(k, b))
  {
    AddPlaced(sb, |ino|, f, k, b);
    AddMarked(sb, disk, disk', f, k, b);
    var loc' := f.loc[k := b];
    forall q: Key | q.inum < |ino| && ValidNode(q.node) && HomeIn(loc', q)
      ensures Entry(disk', ino, loc', q) == Expected(loc', q)
    {
      LinkInTableEntry(sb, disk, disk', ino, f, k, t, b, q);
    }
  }

  ghost predicate TableSet(disk: Disk, disk': Disk, t: nat, i: nat, v: word) {
    && t < |disk| == |disk'|
    && i < 256
    && DecodeWords(disk'[t]) == DecodeWords(disk[t])[i := v]
  }

  lemma LinkInTableEntry(sb: Superblock, disk: Disk, disk': Disk, ino: seq<Dinode>, f: Forest, k: Key, t: nat, b: word,
                         q: Key)
    requires Placed(sb, |ino|, f.loc) && Entries(disk, ino, f.loc) && f.Inverse()
    requires k.inum < |ino| && ValidNode(k.node) && k !in f.loc && TableOf(f.loc, k, t)
    requires sb.IsData(b) && b !in f.owner
    requires SameData(sb, disk, disk', {b, t}) && Blank(disk'[b])
    requires TableSet(disk, disk', t, Idx(k.node), b)
    requires q.inum < |ino| && ValidNode(q.node) && HomeIn(f.loc[k := b], q)
    ensures Entry(disk', ino, f.loc[k := b], q) == Expected(f.loc[k := b], q)
  {
    if HomeOf(q.node).InInode? {
      assert Entry(disk, ino, f.loc, q) == Expected(f.loc, q);
    } else {
      var h := Key(q.inum, HomeOf(q.node).table);
      if h == k {
        FreshTable(sb, disk', ino, f, k, b, q);
      } else {
        assert Entry(disk, ino, f.loc, q) == Expected(f.loc, q);
        assert sb.IsData(f.loc[h]);
        if f.loc[h] == t && Idx(q.node) == Idx(k.node) { HomeInjective(q.node, k.node); }
      }
    }
  }

  // ----- giving a block back -----

  ghost predicate Childless(loc: map<Key, nat>, k: Key) {
    forall q {:trigger loc[q]} :: q in loc && q.inum == k.inum ==> HomeOf(q.node) != InTable(k.node)
  }

  lemma UnlinkInInode(sb: Superblock, disk: Disk, disk': Disk, ino: seq<Dinode>, f: Forest, k: Key)
    requires Stored(sb, disk, ino, f)
    requires k in f.loc && HomeOf(k.node).InInode? && Childless(f.loc, k)
    requires SameData(sb, disk, disk', {})
    requires Bits(sb, disk') == Bits(sb, disk)[f.loc[k] := false]
    ensures Stored(sb, disk', ino[k.inum := SetAddr(ino[k.inum], Idx(k.node), 0)], f.Remove(k))
  {
    RemovePlaced(sb, |ino|, f, k);
    RemoveMarked(sb, disk, disk', f, k);
    var ino' := ino[k.inum := SetAddr(ino[k.inum], Idx(k.node), 0)];
    var loc' := f.loc - {k};
    forall q: Key | q.inum < |ino'| && ValidNode(q.node) && HomeIn(loc', q)
      ensures Entry(disk', ino', loc', q) == Expected(loc', q)
    {
      UnlinkInInodeEntry(sb, disk, disk', ino, f.loc, k, q);
    }
  }

  lemma UnlinkInInodeEntry(sb: Superblock, disk: Disk, disk': Disk, ino: seq<Dinode>, loc: map<Key, nat>, k: Key,
                           q: Key)
    requires Placed(sb, |ino|, loc) && Entries(disk, ino, loc)
    requires k in loc && k.inum < |ino| && ValidNode(k.node) && HomeOf(k.node).InInode?
    requires SameData(sb, disk, disk', {})
    requires q.inum < |ino| && ValidNode(q.node) && HomeIn(loc - {k}, q)
    ensures Entry(disk', ino[k.inum := SetAddr(ino[k.inum], Idx(k.node), 0)], loc - {k}, q) == Expected(loc - {k}, q)
  {
    assert Entry(disk, ino, loc, q) == Expected(loc, q);
    if HomeOf(q.node).InInode? {
      if q.inum == k.inum && Idx(q.node) == Idx(k.node) { HomeInjective(q.node, k.node); }
    } else {
      assert sb.IsData(loc[Key(q.inum, HomeOf(q.node).table)]);
    }
  }

  lemma UnlinkInTable(sb: Superblock, disk: Disk, disk': Disk, ino: seq<Dinode>, f: Forest, k: Key, t: nat)
    requires Stored(sb, disk, ino, f)
    requires k in f.loc && TableOf(f.loc, k, t) && Childless(f.loc, k)
    requires SameData(sb, disk, disk', {t})
    requires TableSet(disk, disk', t, Idx(k.node), 0)
    requires Bits(sb, disk') == Bits(sb, disk)[f.loc[k] := false]
    ensures Stored(sb, disk', ino, f.Remove(k))
  {
    RemovePlaced(sb, |ino|, f, k);
    RemoveMarked(sb, disk, disk', f, k);
    var loc' := f.loc - {k};
    forall q: Key | q.inum < |ino| && ValidNode(q.node) && HomeIn(loc', q)
      ensures Entry(disk', ino, loc', q) == Expected(loc', q)
    {
      UnlinkInTableEntry(sb, disk, disk', ino, f, k, t, q);
    }
  }

  lemma UnlinkInTableEntry(sb: Superblock, disk: Disk, disk': Disk, ino: seq<Dinode>, f: Forest, k: Key, t: nat, q: Key)
    requires Placed(sb, |ino|, f.loc) && Entries(disk, ino, f.loc) && f.Inverse()
    requires k in f.loc && k.inum < |ino| && ValidNode(k.node) && TableOf(f.loc, k, t)
    requires SameData(sb, disk, disk', {t})
    requires TableSet(disk, disk', t, Idx(k.node), 0)
    requires q.inum < |ino| && ValidNode(q.node) && HomeIn(f.loc - {k}, q)
    ensures Entry(disk', ino, f.loc - {k}, q) == Expected(f.loc - {k}, q)
  {
    assert Entry(disk, ino, f.loc, q) == Expected(f.loc, q);
    if HomeOf(q.node).InTable? {
      var h := Key(q.inum, HomeOf(q.node).table);
      assert sb.IsData(f.loc[h]);
      if f.loc[h] == t && Idx(q.node) == Idx(k.node) { HomeInjective(q.node, k.node); }
    }
  }

  /** Contents of data blocks do not matter to the invariant, nor do dinode fields other than the addresses. */
  lemma StoredFrame(sb: Superblock, disk: Disk, disk': Disk, ino: seq<Dinode>, ino': seq<Dinode>, f: Forest)
    requires Stored(sb, disk, ino, f)
    requires SameData(sb, disk, disk', set b | b in f.owner && f.owner[b].node.IsData())
    requires Bits(sb, disk') == Bits(sb, disk)
    requires |ino'| == |ino| && forall i :: 0 <= i < |ino| ==> ino'[i].addrs == ino[i].addrs
    ensures Stored(sb, disk', ino', f)
  {
    forall q: Key | q.inum < |ino'| && ValidNode(q.node) && HomeIn(f.loc, q)
      ensures Entry(disk', ino', f.loc, q) == Expected(f.loc, q)
    {
      HomeInRange(q.node);
      assert Entry(disk, ino, f.loc, q) == Expected(f.loc, q);
      if HomeOf(q.node).InTable? {
        var t := f.loc[Key(q.inum, HomeOf(q.node).table)];
        assert f.owner[t] == Key(q.inum, HomeOf(q.node).table);
      }
    }
  }
  ghost predicate Extends(loc: map<Key, nat>, loc': map<Key, nat>) {
    forall k {:trigger k in loc} {:trigger loc[k]} :: k in loc ==> k in loc' && loc'[k] == loc[k]
  }

  /** Every block that `loc` places stays where it is, and data blocks keep their contents. */
  ghost predicate Kept(disk: Disk, loc: map<Key, nat>, disk': Disk, loc': map<Key, nat>) {
    && |disk| == |disk'|
    && Extends(loc, loc')
    && (forall k {:trigger loc[k]} :: k in loc && k.node.IsData() && loc[k] < |disk| ==> disk'[loc[k]] == disk[loc[k]])
  }

  lemma KeptExtends(disk: Disk, loc: map<Key, nat>, disk': Disk, loc': map<Key, nat>)
    requires Kept(disk, loc, disk', loc')
    ensures Extends(loc, loc')
  {
  }

  lemma KeptRefl(disk: Disk, loc: map<Key, nat>)
    ensures Kept(disk, loc, disk, loc)
  {
  }

  lemma KeptTrans(disk: Disk, loc: map<Key, nat>, disk': Disk, loc': map<Key, nat>, disk'': Disk, loc'': map<Key, nat>)
    requires Kept(disk, loc, disk', loc') && Kept(disk', loc', disk'', loc'')
    ensures Kept(disk, loc, disk'', loc'')
  {
    forall k | k in loc && k.node.IsData() && loc[k] < |disk|
      ensures disk''[loc[k]] == disk[loc[k]]
    {
      assert loc'[k] == loc[k];
    }
  }

  lemma AddKept(sb: Superblock, n: nat, disk: Disk, disk': Disk, f: Forest, k: Key, t: nat, b: nat)
    requires f.Inverse() && Placed(sb, n, f.loc)
    requires k !in f.loc && b !in f.owner
    requires t in f.owner ==> !f.owner[t].node.IsData()
    requires SameData(sb, disk, disk', {b, t})
    ensures Kept(disk, f.loc, disk', f.Add(k, b).loc)
  {
  }

  lemma RemoveKept(sb: Superblock, n: nat, disk: Disk, disk': Disk, f: Forest, k: Key, t: nat)
    requires f.Inverse() && Placed(sb, n, f.loc) && k in f.loc
    requires t in f.owner ==> !f.owner[t].node.IsData()
    requires SameData(sb, disk, disk', {t})
    ensures Kept(disk', f.Remove(k).loc, disk, f.loc)
  {
  }
}
