/**
 Files as byte sequences: what the index trees and data blocks of a volume mean, how `bmap` finds a
 byte, and how a change of blocks changes bytes.
 */
module Contents {
  import opened Codec
  import opened Layout
  import opened Forests

  /** A routine either completes or reaches PANIC, which halts the machine. */
  datatype Outcome<+T> = Ok(value: T) | Panic(reason: Reason)

  datatype Reason = OutOfBlocks | FreeingFreeBlock | BlockNotMapped | OutOfRange

  ghost function FileByte(disk: Disk, loc: map<Key, nat>, i: nat, o: nat): byte {
    if HasByte(disk, loc, i, o) then disk[loc[Key(i, NodeOf(o / 1024))]][o % 1024] else 0
  }

  /** Byte `o` of file `i` lies in a mapped block. */
  ghost predicate HasByte(disk: Disk, loc: map<Key, nat>, i: nat, o: nat) {
    o < MAXBYTES && Key(i, NodeOf(o / 1024)) in loc && loc[Key(i, NodeOf(o / 1024))] < |disk|
  }

  /** The first `n` bytes of file `i`. */
  ghost function FileBytes(disk: Disk, loc: map<Key, nat>, i: nat, n: nat): (s: seq<byte>)
    ensures |s| == n
  {
    seq(n, o requires 0 <= o < n => FileByte(disk, loc, i, o))
  }

  lemma SameBlock(o: nat, y: nat)
    requires o % 1024 + y < 1024
    ensures (o + y) / 1024 == o / 1024 && (o + y) % 1024 == o % 1024 + y
  {
  }

  /** A stretch of a file inside one block is a stretch of that block. */
  lemma ReadChunk(disk: Disk, loc: map<Key, nat>, i: nat, n: nat, o: nat, m: nat)
    requires HasByte(disk, loc, i, o) && o % 1024 + m <= 1024 && o + m <= n
    ensures FileBytes(disk, loc, i, n)[o..o + m] == disk[loc[Key(i, NodeOf(o / 1024))]][o % 1024..o % 1024 + m]
  {
    var s := FileBytes(disk, loc, i, n)[o..o + m];
    var t := disk[loc[Key(i, NodeOf(o / 1024))]][o % 1024..o % 1024 + m];
    forall y | 0 <= y < m
      ensures s[y] == t[y]
    {
      SameBlock(o, y);
    }
  }

  // ----- bmap -----

  function TableAt(disk: Disk, t: word, x: nat): (r: Outcome<word>)
    requires x < 256
  {
    if t == 0 || t >= |disk| then Panic(BlockNotMapped)
    else if DecodeWords(disk[t])[x] == 0 then Panic(BlockNotMapped)
    else Ok(DecodeWords(disk[t])[x])
  }

  /** The kernel's `bmap`: from a dinode and the tables on disk to the address of file block `bn`. */
  function Bmap(disk: Disk, d: Dinode, bn: nat): (r: Outcome<word>)
  {
    if bn < 12 then
      if d.addrs[bn] == 0 then Panic(BlockNotMapped) else Ok(d.addrs[bn])
    else if bn - 12 < 256 then
      TableAt(disk, d.addrs[12], bn - 12)
    else if bn - 268 < 65536 then
      var sub := TableAt(disk, d.addrs[13], (bn - 268) / 256);
      if sub.Panic? then sub else TableAt(disk, sub.value, (bn - 268) % 256)
    else
      Panic(OutOfRange)
  }

  lemma TableAtFinds(sb: Superblock, disk: Disk, ino: seq<Dinode>, f: Forest, k: Key, t: nat)
    requires Stored(sb, disk, ino, f)
    requires k.inum < |ino| && ValidNode(k.node) && TableOf(f.loc, k, t)
    ensures sb.IsData(t) && Idx(k.node) < 256
    ensures TableAt(disk, t, Idx(k.node)) == if k in f.loc then Ok(f.loc[k]) else Panic(BlockNotMapped)
  {
    TableEntry(sb, disk, ino, f, k, t);
  }

  /** `bmap` panics exactly on the blocks that are not stored, and finds all others. */
  lemma BmapFinds(sb: Superblock, disk: Disk, ino: seq<Dinode>, f: Forest, i: nat, bn: nat)
    requires Stored(sb, disk, ino, f) && i < |ino| && bn < MAXFILE
    ensures Bmap(disk, ino[i], bn) ==
              if Key(i, NodeOf(bn)) in f.loc then Ok(f.loc[Key(i, NodeOf(bn))]) else Panic(BlockNotMapped)
  {
    match NodeOf(bn) {
      case Direct(x) =>
        InodeEntry(sb, disk, ino, f, Key(i, Direct(x)));
      case Leaf(x) =>
        InodeEntry(sb, disk, ino, f, Key(i, Single));
        if Key(i, Single) in f.loc {
          TableAtFinds(sb, disk, ino, f, Key(i, Leaf(x)), f.loc[Key(i, Single)]);
        } else {
          PlacedHome(sb, |ino|, f.loc, Key(i, Leaf(x)));
        }
      case DeepLeaf(j, x) =>
        InodeEntry(sb, disk, ino, f, Key(i, Root));
        if Key(i, Root) in f.loc {
          TableAtFinds(sb, disk, ino, f, Key(i, Sub(j)), f.loc[Key(i, Root)]);
          if Key(i, Sub(j)) in f.loc {
            TableAtFinds(sb, disk, ino, f, Key(i, DeepLeaf(j, x)), f.loc[Key(i, Sub(j))]);
          } else {
            PlacedHome(sb, |ino|, f.loc, Key(i, DeepLeaf(j, x)));
          }
        } else {
          PlacedHome(sb, |ino|, f.loc, Key(i, Sub(j)));
          PlacedHome(sb, |ino|, f.loc, Key(i, DeepLeaf(j, x)));
        }
    }
  }

  /** No two blocks of any two files share an address, and none is a metadata block. */
  lemma BmapInjective(sb: Superblock, disk: Disk, ino: seq<Dinode>, f: Forest, i: nat, bn: nat, i': nat, bn': nat)
    requires Stored(sb, disk, ino, f) && i < |ino| && i' < |ino| && bn < MAXFILE && bn' < MAXFILE
    requires Bmap(disk, ino[i], bn).Ok? && Bmap(disk, ino[i'], bn').Ok?
    ensures sb.IsData(Bmap(disk, ino[i], bn).value)
    ensures Bmap(disk, ino[i], bn) == Bmap(disk, ino[i'], bn') ==> i == i' && bn == bn'
  {
    BmapFinds(sb, disk, ino, f, i, bn);
    BmapFinds(sb, disk, ino, f, i', bn');
    assert f.owner[f.loc[Key(i, NodeOf(bn))]] == Key(i, NodeOf(bn));
    assert f.owner[f.loc[Key(i', NodeOf(bn'))]] == Key(i', NodeOf(bn'));
  }

  // ----- changing bytes -----

  /** From one state to the next, bytes `[o, o + |s|)` of file `i` became `s` and no other mapped byte changed. */
  ghost predicate Wrote(disk: Disk, loc: map<Key, nat>, disk': Disk, loc': map<Key, nat>, i: nat, o: nat,
                        s: seq<byte>) {
    && (forall j: nat, x: nat {:trigger FileByte(disk', loc', j, x)} ::
          HasByte(disk, loc, j, x) && !(j == i && o <= x < o + |s|) ==>
            FileByte(disk', loc', j, x) == FileByte(disk, loc, j, x))
    && (forall j: nat, x: nat {:trigger HasByte(disk', loc', j, x)} :: HasByte(disk, loc, j, x) ==>
         HasByte(disk', loc', j, x))
    && (forall x: nat {:trigger FileByte(disk', loc', i, x)} :: o <= x < o + |s| ==>
         FileByte(disk', loc', i, x) == s[x - o])
  }

  lemma KeptWrites(disk: Disk, loc: map<Key, nat>, disk': Disk, loc': map<Key, nat>, i: nat, o: nat)
    requires Kept(disk, loc, disk', loc')
    ensures Wrote(disk, loc, disk', loc', i, o, [])
  {
  }

  lemma WroteTrans(disk: Disk, loc: map<Key, nat>, disk': Disk, loc': map<Key, nat>, disk'': Disk, loc'': map<Key, nat>,
                   i: nat, o: nat, s: seq<byte>, t: seq<byte>)
    requires Wrote(disk, loc, disk', loc', i, o, s)
    requires Wrote(disk', loc', disk'', loc'', i, o + |s|, t)
    requires forall x :: o <= x < o + |s| ==> HasByte(disk', loc', i, x)
    ensures Wrote(disk, loc, disk'', loc'', i, o, s + t)
  {
    forall j: nat, x: nat | HasByte(disk, loc, j, x) && !(j == i && o <= x < o + |s + t|)
      ensures FileByte(disk'', loc'', j, x) == FileByte(disk, loc, j, x)
    {
      assert FileByte(disk', loc', j, x) == FileByte(disk, loc, j, x);
      assert HasByte(disk', loc', j, x);
    }
    forall x: nat | o <= x < o + |s + t|
      ensures FileByte(disk'', loc'', i, x) == (s + t)[x - o]
    {
      if x < o + |s| {
        assert FileByte(disk', loc', i, x) == s[x - o];
      }
    }
  }

  /** Rewriting part of one data block rewrites those bytes of its file only. */
  lemma BlockWrites(disk: Disk, f: Forest, i: nat, o: nat, s: seq<byte>)
    requires f.Inverse() && HasByte(disk, f.loc, i, o) && o % 1024 + |s| <= 1024
    ensures var b := f.loc[Key(i, NodeOf(o / 1024))];
            Wrote(disk, f.loc, disk[b := Splice(disk[b], o % 1024, s)], f.loc, i, o, s)
  {
    var b := f.loc[Key(i, NodeOf(o / 1024))];
    var disk' := disk[b := Splice(disk[b], o % 1024, s)];
    forall x: nat | o <= x < o + |s|
      ensures FileByte(disk', f.loc, i, x) == s[x - o]
    {
      SameBlock(o, x - o);
    }
    forall j: nat, x: nat | HasByte(disk, f.loc, j, x) && !(j == i && o <= x < o + |s|)
      ensures FileByte(disk', f.loc, j, x) == FileByte(disk, f.loc, j, x)
    {
      OtherByte(f, i, o, |s|, j, x);
    }
  }

  lemma OtherByte(f: Forest, i: nat, o: nat, m: nat, j: nat, x: nat)
    requires f.Inverse() && o < MAXBYTES && x < MAXBYTES
    requires Key(i, NodeOf(o / 1024)) in f.loc && Key(j, NodeOf(x / 1024)) in f.loc
    requires !(j == i && o <= x < o + m)
    ensures f.loc[Key(j, NodeOf(x / 1024))] == f.loc[Key(i, NodeOf(o / 1024))] ==>
              x / 1024 == o / 1024 && (x % 1024 < o % 1024 || x % 1024 >= o % 1024 + m)
  {
    assert BlockNumber(NodeOf(x / 1024)) == x / 1024;
    assert BlockNumber(NodeOf(o / 1024)) == o / 1024;
  }

  function Splice(b: Block, p: nat, s: seq<byte>): (r: Block)
    requires p + |s| <= 1024
  {
    b[..p] + s + b[p + |s|..]
  }

  // ----- from changed bytes to changed files -----

  /** `s` with the bytes from `o` on replaced by `t`, growing if `t` reaches past the end. */
  function Overwrite(s: seq<byte>, o: nat, t: seq<byte>): (r: seq<byte>)
    requires o <= |s|
    ensures |r| == Max(|s|, o + |t|)
  {
    s[..o] + t + (if o + |t| < |s| then s[o + |t|..] else [])
  }

  /** The first `size` bytes. */
  function CutTo(s: seq<byte>, size: nat): seq<byte> { if size < |s| then s[..size] else s }

  lemma WroteFile(disk: Disk, loc: map<Key, nat>, disk': Disk, loc': map<Key, nat>, i: nat, o: nat, t: seq<byte>,
                  n: nat)
    requires Wrote(disk, loc, disk', loc', i, o, t) && o <= n
    requires forall x: nat :: x < n ==> HasByte(disk, loc, i, x)
    ensures FileBytes(disk', loc', i, Max(n, o + |t|)) == Overwrite(FileBytes(disk, loc, i, n), o, t)
  {
    var s := FileBytes(disk', loc', i, Max(n, o + |t|));
    var r := Overwrite(FileBytes(disk, loc, i, n), o, t);
    forall x: nat | x < |s|
      ensures s[x] == r[x]
    {
      assert s[x] == FileByte(disk', loc', i, x);
    }
  }

  lemma WroteOther(disk: Disk, loc: map<Key, nat>, disk': Disk, loc': map<Key, nat>, i: nat, o: nat, t: seq<byte>,
                   j: nat, n: nat)
    requires Wrote(disk, loc, disk', loc', i, o, t) && j != i
    requires forall x: nat :: x < n ==> HasByte(disk, loc, j, x)
    ensures FileBytes(disk', loc', j, n) == FileBytes(disk, loc, j, n)
  {
    var s, r := FileBytes(disk', loc', j, n), FileBytes(disk, loc, j, n);
    forall x: nat | x < n
      ensures s[x] == r[x]
    {
      assert s[x] == FileByte(disk', loc', j, x);
    }
  }

  lemma FilePrefix(disk: Disk, loc: map<Key, nat>, i: nat, m: nat, n: nat)
    requires m <= n
    ensures FileBytes(disk, loc, i, m) == FileBytes(disk, loc, i, n)[..m]
  {
  }
}
