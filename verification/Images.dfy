/**
 The image builder on a whole tree of host files. The image it writes is a sound volume whose names are the tree
 that was put in, so that the kernel can start from it; and it is written exactly if the names, the files and
 the whole fit.
 */
module Images {
  import opened Basics
  import opened Codec
  import opened Layout
  import opened Forests
  import opened Contents
  import opened Volumes
  import opened Directory
  import opened Items
  import opened Hazards
  import opened Mkfs
  import E = Entries
  import M = Mounts
  import N = Namespace

  /**
   What `traverse_dir` comes across, in its order: a file or a directory in the directory with inode number
   `dir`. `junk` is what the name field of its entry holds before the name is copied there.
   */
  datatype Host =
    | HostFile(dir: nat, name: string, junk: seq<byte>, content: seq<byte>)
    | HostDir(dir: nat, name: string, junk: seq<byte>)

  function ItemFor(h: Host, c: nat): Item { if h.HostFile? then Item.File(h.content) else Dots(c, h.dir) }

  /** A root directory and unused inodes, `n` in all. */
  function Base(n: nat): (s: seq<Item>)
    requires 2 <= n
    ensures |s| == n && s[0] == Unused && s[1] == Dots(1, 1) && forall i :: 2 <= i < n ==> s[i] == Unused
  {
    [Unused, Dots(1, 1)] + seq(n - 2, i => Unused)
  }

  /** The tree of `n` inodes after the first things were put in, with inode numbers from 2 on. */
  function Planned(hs: seq<Host>, n: nat): (s: seq<Item>)
    requires |hs| + 2 <= n
    ensures |s| == n
    decreases |hs|
  {
    if hs == [] then Base(n)
    else
      var s, h, c := Planned(hs[..|hs| - 1], n), hs[|hs| - 1], |hs| + 1;
      if CanAdd(s, h.dir, h.name, c, ItemFor(h, c)) then Added(s, h.dir, h.name, c, ItemFor(h, c)) else s
  }

  /** `dir` is a directory that was met before, and the name is new there, as in any host directory. */
  predicate Legal(s: seq<Item>, h: Host, c: nat) {
    CanAdd(s, h.dir, h.name, c, ItemFor(h, c)) && IsText(h.name) && |h.junk| == 30
  }

  /** A host tree, of any size. */
  predicate IsHost(hs: seq<Host>) {
    forall k :: 0 <= k < |hs| ==> Legal(Planned(hs[..k], |hs| + 2), hs[k], k + 2)
  }

  lemma PlannedStep(hs: seq<Host>, k: nat, n: nat)
    requires k < |hs| && k + 3 <= n && Legal(Planned(hs[..k], n), hs[k], k + 2)
    ensures Planned(hs[..k + 1], n) ==
              Added(Planned(hs[..k], n), hs[k].dir, hs[k].name, k + 2, ItemFor(hs[k], k + 2))
  {
    assert hs[..k + 1][..k] == hs[..k];
  }

  lemma BaseTree(n: nat)
    requires 2 <= n
    ensures IsTree(Base(n))
  {
    var s := Base(n);
    assert forall x: nat, k :: !Has(s, x, k);
    assert Climbs(s, 1, 0);
  }

  /** Items that are the same as far as both go; those from `k` on are unused. */
  predicate SameTo(s: seq<Item>, t: seq<Item>, k: nat) {
    && k <= |s| && k <= |t| && s[..k] == t[..k]
    && (forall x :: k <= x < |s| ==> s[x] == Unused) && (forall x :: k <= x < |t| ==> t[x] == Unused)
  }

  lemma SameAdded(s: seq<Item>, t: seq<Item>, k: nat, h: Host)
    requires SameTo(s, t, k) && k < |s| && k < |t| && CanAdd(s, h.dir, h.name, k, ItemFor(h, k))
    ensures CanAdd(t, h.dir, h.name, k, ItemFor(h, k))
    ensures SameTo(Added(s, h.dir, h.name, k, ItemFor(h, k)), Added(t, h.dir, h.name, k, ItemFor(h, k)), k + 1)
  {
    assert s[h.dir].Dir? && h.dir < k;
    assert s[..k][h.dir] == t[..k][h.dir];
    var s', t' := Added(s, h.dir, h.name, k, ItemFor(h, k)), Added(t, h.dir, h.name, k, ItemFor(h, k));
    forall x | 0 <= x < k + 1
      ensures s'[x] == t'[x]
    {
      if x < k {
        assert s[..k][x] == t[..k][x];
      }
    }
  }

  /** How many inodes there are makes no difference to what was put in. */
  lemma {:induction false} PlannedSame(hs: seq<Host>, k: nat, n: nat)
    requires IsHost(hs) && k <= |hs| && k + 2 <= n
    ensures SameTo(Planned(hs[..k], |hs| + 2), Planned(hs[..k], n), k + 2)
    ensures k < |hs| && k + 3 <= n ==> Legal(Planned(hs[..k], n), hs[k], k + 2)
  {
    hide CanAdd, SameTo, Planned;
    if k == 0 {
      BaseSame(|hs| + 2, n);
      NothingPlanned(|hs| + 2);
      NothingPlanned(n);
    } else {
      PlannedSame(hs, k - 1, n);
      assert Legal(Planned(hs[..k - 1], |hs| + 2), hs[k - 1], k + 1);
      SameAdded(Planned(hs[..k - 1], |hs| + 2), Planned(hs[..k - 1], n), k + 1, hs[k - 1]);
      PlannedStep(hs, k - 1, |hs| + 2);
      PlannedStep(hs, k - 1, n);
    }
    if k < |hs| && k + 3 <= n {
      assert Legal(Planned(hs[..k], |hs| + 2), hs[k], k + 2);
      SameAdded(Planned(hs[..k], |hs| + 2), Planned(hs[..k], n), k + 2, hs[k]);
    }
  }

  lemma BaseSame(n: nat, m: nat)
    requires 2 <= n && 2 <= m
    ensures SameTo(Base(n), Base(m), 2)
  {
    assert Base(n)[..2] == [Unused, Dots(1, 1)] == Base(m)[..2];
  }

  lemma NothingPlanned(n: nat)
    requires 2 <= n
    ensures forall hs: seq<Host> :: Planned(hs[..0], n) == Base(n)
  {
  }

  /** What was put in is a tree. */
  lemma {:induction false} PlannedTree(hs: seq<Host>, k: nat, n: nat)
    requires IsHost(hs) && k <= |hs| && k + 2 <= n
    ensures IsTree(Planned(hs[..k], n)) && forall x :: k + 2 <= x < n ==> Planned(hs[..k], n)[x] == Unused
    ensures k < |hs| && k + 3 <= n ==> Legal(Planned(hs[..k], n), hs[k], k + 2)
  {
    hide IsTree, Legal, Planned, CanAdd;
    PlannedSame(hs, k, n);
    if k == 0 {
      BaseTree(n);
      NothingPlanned(n);
    } else {
      PlannedTree(hs, k - 1, n);
      PlannedStep(hs, k - 1, n);
      CanAddHost(Planned(hs[..k - 1], n), hs[k - 1], k + 1);
      AddedTree(Planned(hs[..k - 1], n), hs[k - 1].dir, hs[k - 1].name, k + 1, ItemFor(hs[k - 1], k + 1));
    }
  }

  lemma CanAddHost(s: seq<Item>, h: Host, c: nat)
    requires Legal(s, h, c)
    ensures CanAdd(s, h.dir, h.name, c, ItemFor(h, c))
  {
  }

  /** No directory ever has more names than inodes were given out, so that in the builder none gets full. */
  lemma FewEntries(hs: seq<Host>, k: nat, n: nat, x: nat)
    requires IsHost(hs) && k <= |hs| && k + 2 <= n && x < n && Planned(hs[..k], n)[x].Dir?
    ensures x < k + 2 && |Planned(hs[..k], n)[x].names| <= k + 2
  {
    hide IsTree, Planned, Legal;
    PlannedTree(hs, k, n);
    PlannedTree(hs, k, k + 2);
    PlannedSame(hs, k, n);
    PlannedSame(hs, k, k + 2);
    var s, t, u := Planned(hs[..k], n), Planned(hs[..k], k + 2), Planned(hs[..k], |hs| + 2);
    assert s[..k + 2][x] == u[..k + 2][x] == t[..k + 2][x];
    N.FewNames(t, x);
  }

  // ----- how much it takes -----

  /** The blocks of the first `k` files. */
  function FileBlocks(hs: seq<Host>, k: nat): nat
    requires k <= |hs|
  {
    if k == 0 then 0
    else FileBlocks(hs, k - 1) + if hs[k - 1].HostFile? then Need(Blocks(|hs[k - 1].content|)) else 0
  }

  /** The blocks of the directories among the first `n` inodes. */
  function DirNeed(s: seq<Item>, n: nat): nat
    requires n <= |s|
  {
    if n == 0 then 0 else DirNeed(s, n - 1) + if s[n - 1].Dir? then Blocks(s[n - 1].size) else 0
  }

  lemma {:induction false} FileBlocksGrow(hs: seq<Host>, j: nat, k: nat)
    requires j <= k <= |hs|
    ensures FileBlocks(hs, j) <= FileBlocks(hs, k)
  {
    if j < k {
      FileBlocksGrow(hs, j, k - 1);
    }
  }

  predicate NameFits(h: Host) { |h.name| <= 29 && (h.HostFile? ==> |h.content| <= MAXBYTES) }

  /**
   At most 62 files and directories, names of at most 29 characters, files of at most 65804 blocks, and together no
   more than blocks 7 to 8191.
   */
  predicate Fits(hs: seq<Host>) {
    && |hs| <= 62 && (forall h <- hs :: NameFits(h))
    && 7 + FileBlocks(hs, |hs|) + DirNeed(Planned(hs, 64), 64) <= 8192
  }

  // ----- entries in memory -----

  /** An entry as `strcpy` leaves it: behind the name's terminating zero is what was there before. */
  function EntryBytes(e: Dirent, junk: seq<byte>): (b: seq<byte>)
    requires IsName(e.name) && |junk| == 30
    ensures |b| == 32
  {
    [e.inum % 0x100, e.inum / 0x100] + AsBytes(e.name) + [0] + junk[|e.name| + 1..]
  }

  lemma EntryReads(e: Dirent, junk: seq<byte>)
    requires IsName(e.name) && |junk| == 30
    ensures DecodeEntry(EntryBytes(e, junk)) == e
  {
    var z := [0] + junk[|e.name| + 1..];
    ZeroEnds(e.name, z);
    assert EntryBytes(e, junk)[2..] == AsBytes(e.name) + z;
  }

  /** The raw entries are those of the item, and none is free. */
  ghost predicate RawIs(raw: seq<byte>, i: Item) {
    i.Dir? && IsDirectory(raw) && Listing(Dirents(raw)) == i.names && |raw| == i.size == 32 * |i.names|
  }

  lemma RawSize(raw: seq<byte>, i: Item)
    requires RawIs(raw, i)
    ensures i.Dir? && |raw| == i.size
  {
  }

  lemma AppendEntry(raw: seq<byte>, b: seq<byte>)
    requires |raw| % 32 == 0 && |b| == 32
    ensures Dirents(raw + b) == Dirents(raw) + [DecodeEntry(b)]
  {
    var s := raw + b;
    var n := |raw| / 32;
    assert |s| / 32 == n + 1;
    assert s[32 * n..32 * n + 32] == b;
    forall k | 0 <= k < n
      ensures EntryAt(s, k) == EntryAt(raw, k)
    {
      assert s[32 * k..32 * k + 32] == raw[32 * k..32 * k + 32];
    }
  }

  lemma RawAppend(raw: seq<byte>, i: Item, e: Dirent, junk: seq<byte>)
    requires RawIs(raw, i) && IsName(e.name) && e.name !in i.names && e.inum != 0 && |junk| == 30
    ensures RawIs(raw + EntryBytes(e, junk), Dir(i.names[e.name := e.inum], i.size + 32))
  {
    hide Listing, Unique;
    var es, b := Dirents(raw), EntryBytes(e, junk);
    EntryReads(e, junk);
    AppendEntry(raw, b);
    LinkListing(es, |es|, e);
    hide EntryBytes, DecodeEntry, Dirents;
    assert Directory.Set(es, |es|, e) == es + [e];
  }

  function RawDots(c: half, x: half, junk: seq<byte>): seq<byte>
    requires |junk| == 30
  {
    EntryBytes(Dirent(c, "."), junk) + EntryBytes(Dirent(x, ".."), junk)
  }

  lemma OneDot(c: half, junk: seq<byte>)
    requires 0 < c && |junk| == 30
    ensures RawIs(EntryBytes(Dirent(c, "."), junk), Dir(map["." := c], 32))
  {
    hide EntryBytes;
    var nothing: map<string, nat> := map[];
    assert RawIs([], Dir(nothing, 0)) by { N.EmptyDirectory([]); }
    hide RawIs;
    RawAppend([], Dir(nothing, 0), Dirent(c, "."), junk);
    assert [] + EntryBytes(Dirent(c, "."), junk) == EntryBytes(Dirent(c, "."), junk);
    assert nothing["." := c] == map["." := c];
  }

  lemma DotsAreRaw(c: half, x: half, junk: seq<byte>)
    requires 0 < c && 0 < x && |junk| == 30
    ensures RawIs(RawDots(c, x, junk), Dots(c, x))
  {
    hide EntryBytes, RawIs;
    OneDot(c, junk);
    RawAppend(EntryBytes(Dirent(c, "."), junk), Dir(map["." := c], 32), Dirent(x, ".."), junk);
    assert map["." := c as nat][".." := x] == map["." := c, ".." := x];
  }

  // ----- the directories in memory -----

  predicate InDirs(dirs: seq<DirBuf>, x: nat) { exists d :: 0 <= d < |dirs| && dirs[d].inum == x }

  /** Every directory has its entries in memory, in the order of the inode numbers. */
  ghost predicate DirsMatch(dirs: seq<DirBuf>, s: seq<Item>) {
    && (forall d :: 0 <= d < |dirs| ==> dirs[d].inum < |s| && RawIs(dirs[d].raw, s[dirs[d].inum]))
    && (forall d, e :: 0 <= d < e < |dirs| ==> dirs[d].inum < dirs[e].inum)
    && (forall x :: 0 <= x < |s| && s[x].Dir? ==> InDirs(dirs, x))
  }

  /** The search for a directory by its inode number. */
  method FindDir(dirs: seq<DirBuf>, x: nat) returns (d: nat)
    requires InDirs(dirs, x)
    ensures d < |dirs| && dirs[d].inum == x
  {
    d := 0;
    while d < |dirs| && dirs[d].inum != x
      invariant 0 <= d <= |dirs| && forall e :: 0 <= e < d ==> dirs[e].inum != x
    {
      d := d + 1;
    }
  }

  lemma RawLinked(raw: seq<byte>, s: seq<Item>, x: nat, e: Dirent, junk: seq<byte>)
    requires x < |s| && RawIs(raw, s[x]) && IsName(e.name) && e.name !in s[x].names && e.inum != 0 && |junk| == 30
    ensures RawIs(raw + EntryBytes(e, junk), Linked(s, x, e.name, e.inum)[x])
  {
    hide EntryBytes;
    RawAppend(raw, s[x], e, junk);
  }

  lemma EntryMatch(dirs: seq<DirBuf>, s: seq<Item>, d: nat, e: Dirent, junk: seq<byte>)
    requires DirsMatch(dirs, s) && d < |dirs| && IsName(e.name) && e.inum != 0 && |junk| == 30
    requires dirs[d].inum < |s| && s[dirs[d].inum].Dir? && e.name !in s[dirs[d].inum].names
    ensures DirsMatch(dirs[d := DirBuf(dirs[d].inum, dirs[d].raw + EntryBytes(e, junk))],
              Linked(s, dirs[d].inum, e.name, e.inum))
  {
    hide EntryBytes, RawIs;
    var x := dirs[d].inum;
    var dirs', s' := dirs[d := DirBuf(x, dirs[d].raw + EntryBytes(e, junk))], Linked(s, x, e.name, e.inum);
    RawLinked(dirs[d].raw, s, x, e, junk);
    forall k | 0 <= k < |dirs'|
      ensures dirs'[k].inum < |s'| && RawIs(dirs'[k].raw, s'[dirs'[k].inum])
    {
      assert RawIs(dirs[k].raw, s[dirs[k].inum]);
    }
    forall y | 0 <= y < |s'| && s'[y].Dir?
      ensures InDirs(dirs', y)
    {
      assert InDirs(dirs, y);
      var k :| 0 <= k < |dirs| && dirs[k].inum == y;
      assert dirs'[k].inum == y;
    }
  }

  /** An entry more for directory `x`, unless it is full. */
  method AddEntry(b: Builder, x: nat, e: Dirent, junk: seq<byte>, ghost s: seq<Item>) returns (ok: bool)
    requires DirsMatch(b.dirs, s) && IsName(e.name) && e.inum != 0 && |junk| == 30
    requires x < |s| && s[x].Dir? && e.name !in s[x].names
    modifies b`dirs
    ensures ok <==> |s[x].names| < 64
    ensures ok ==> DirsMatch(b.dirs, Linked(s, x, e.name, e.inum)) && |b.dirs| == |old(b.dirs)|
    ensures !ok ==> b.dirs == old(b.dirs)
  {
    var d := FindDir(b.dirs, x);
    assert RawIs(b.dirs[d].raw, s[x]);
    if |b.dirs[d].raw| / 32 >= 64 {
      return false;
    }
    EntryMatch(b.dirs, s, d, e, junk);
    b.dirs := b.dirs[d := DirBuf(b.dirs[d].inum, b.dirs[d].raw + EntryBytes(e, junk))];
    return true;
  }

  lemma NewDirMatch(dirs: seq<DirBuf>, s: seq<Item>, c: nat, raw: seq<byte>, i: Item)
    requires DirsMatch(dirs, s) && c < |s| && (forall x :: c <= x < |s| ==> s[x].Unused?) && RawIs(raw, i)
    ensures DirsMatch(dirs + [DirBuf(c, raw)], s[c := i])
  {
    hide RawIs;
    var dirs', s' := dirs + [DirBuf(c, raw)], s[c := i];
    assert forall d :: 0 <= d < |dirs| ==> dirs[d].inum < c by {
      forall d | 0 <= d < |dirs|
        ensures dirs[d].inum < c
      {
        assert RawIs(dirs[d].raw, s[dirs[d].inum]);
        RawSize(dirs[d].raw, s[dirs[d].inum]);
      }
    }
    forall y | 0 <= y < |s'| && s'[y].Dir?
      ensures InDirs(dirs', y)
    {
      if y == c {
        assert dirs'[|dirs|].inum == c;
      } else {
        assert InDirs(dirs, y);
        var k :| 0 <= k < |dirs| && dirs[k].inum == y;
        assert dirs'[k].inum == y;
      }
    }
  }

  lemma FileMatch(dirs: seq<DirBuf>, s: seq<Item>, c: nat, i: Item)
    requires DirsMatch(dirs, s) && c < |s| && s[c].Unused? && i.File?
    ensures DirsMatch(dirs, s[c := i])
  {
  }

  // ----- the inodes in memory -----

  const EMPTY_DIR: Dinode := Dinode(FT_DIRECTORY, 1, 0, NoAddrs)

  /** The files are in the image, the directories still without contents. */
  ghost predicate InodesMatch(b: Builder, s: seq<Item>)
    reads b
  {
    && b.Valid() && |s| >= 64
    && forall x :: 0 <= x < 64 ==>
         && (s[x].Unused? ==> b.inodes[x] == NoInode)
         && (s[x].File? ==> b.inodes[x].typ == FT_FILE && b.Bytes(x) == s[x].bytes)
         && (s[x].Dir? ==> b.inodes[x] == EMPTY_DIR)
  }

  /** One thing that `traverse_dir` comes across: `add_file` or `get_or_create_dir`. */
  method AddHost(b: Builder, h: Host, buf: Block, ghost s: seq<Item>) returns (ok: bool)
    requires InodesMatch(b, s) && DirsMatch(b.dirs, s) && IsTree(s) && Legal(s, h, b.freeinode)
    requires forall x :: b.freeinode <= x < |s| ==> s[x].Unused?
    modifies b
    ensures ok <==> && old(b.freeinode) < 64 && |h.name| <= 29 && |s[h.dir].names| < 64
                    && (h.HostFile? ==> FitsFrom(old(b.freeblock), |h.content|))
    ensures ok ==> b.freeinode == old(b.freeinode) + 1
    ensures ok ==> b.freeblock == old(b.freeblock) + if h.HostFile? then Need(Blocks(|h.content|)) else 0
    ensures ok ==> var t := Added(s, h.dir, h.name, old(b.freeinode), ItemFor(h, old(b.freeinode)));
                   InodesMatch(b, t) && DirsMatch(b.dirs, t)
  {
    hide IsTree, DirsMatch, RawIs, EntryBytes, Stored, Shaped, Fresh, FileBytes, Blocks, Need;
    if |h.name| >= 30 {
      return false;
    }
    DirNotZero(s, h.dir);
    ghost var c := b.freeinode;
    if h.HostFile? {
      FileMatch(b.dirs, s, c, Item.File(h.content));
      var i;
      ok, i := b.AddFile(h.content, buf);
      if !ok { return; }
      ok := AddEntry(b, h.dir, Dirent(i, h.name), h.junk, s[c := Item.File(h.content)]);
    } else {
      var i;
      ok, i := b.AddDirectory();
      if !ok { return; }
      DotsAreRaw(c, h.dir, h.junk);
      NewDirMatch(b.dirs, s, c, RawDots(c, h.dir, h.junk), Dots(c, h.dir));
      b.dirs := b.dirs + [DirBuf(i, RawDots(i, h.dir, h.junk))];
      ok := AddEntry(b, h.dir, Dirent(i, h.name), h.junk, s[c := Dots(c, h.dir)]);
    }
  }

  /** The inodes of the builder, and more if there are more things than that. */
  function Room(hs: seq<Host>): (n: nat)
    ensures n >= 64 && n >= |hs| + 2
  {
    if |hs| <= 62 then 64 else |hs| + 2
  }

  /** `traverse_dir`: all of it. */
  method AddHosts(b: Builder, hs: seq<Host>, buf: Block) returns (ok: bool)
    requires IsHost(hs) && InodesMatch(b, Base(Room(hs))) && DirsMatch(b.dirs, Base(Room(hs)))
    requires b.freeinode == 2 && b.freeblock == 7
    modifies b
    ensures ok <==> |hs| <= 62 && (forall h <- hs :: NameFits(h)) && 7 + FileBlocks(hs, |hs|) <= 8192
    ensures ok ==> InodesMatch(b, Planned(hs, 64)) && DirsMatch(b.dirs, Planned(hs, 64))
    ensures ok ==> b.freeblock == 7 + FileBlocks(hs, |hs|) && b.freeinode == |hs| + 2
  {
    hide IsTree, DirsMatch, InodesMatch, Base, Planned, Legal, Blocks, Need;
    ghost var n := Room(hs);
    assert Planned(hs[..0], n) == Base(n) by { NothingPlanned(n); }
    var k := 0;
    while k < |hs|
      invariant 0 <= k <= |hs| && k <= 62 && InodesMatch(b, Planned(hs[..k], n))
      invariant DirsMatch(b.dirs, Planned(hs[..k], n))
      invariant b.freeinode == 2 + k && b.freeblock == 7 + FileBlocks(hs, k) <= 8192
      invariant forall j :: 0 <= j < k ==> NameFits(hs[j])
    {
      PlannedTree(hs, k, n);
      PlannedStep(hs, k, n);
      FileBlocksGrow(hs, k + 1, |hs|);
      HostDirFew(hs, k, n);
      ok := AddHost(b, hs[k], buf, Planned(hs[..k], n));
      if !ok {
        assert k + 2 >= 64 || !NameFits(hs[k]) || 7 + FileBlocks(hs, k + 1) > 8192;
        return;
      }
      k := k + 1;
    }
    assert hs[..|hs|] == hs;
    ok := true;
  }

  lemma HostDirFew(hs: seq<Host>, k: nat, n: nat)
    requires IsHost(hs) && k < |hs| && k + 3 <= n
    ensures hs[k].dir < n && Planned(hs[..k], n)[hs[k].dir].Dir? && |Planned(hs[..k], n)[hs[k].dir].names| <= k + 2
  {
    hide IsTree, Planned;
    PlannedTree(hs, k, n);
    FewEntries(hs, k, n, hs[k].dir);
  }

  // ----- writing the directories -----

  /** The first `n` directories are in the image too. */
  ghost predicate Written(b: Builder, s: seq<Item>, n: nat)
    reads b
  {
    && b.Valid() && |s| == 64 && n <= |b.dirs|
    && (forall x :: 0 <= x < 64 && s[x].Unused? ==> b.inodes[x] == NoInode)
    && (forall x :: 0 <= x < 64 && s[x].File? ==> b.inodes[x].typ == FT_FILE && b.Bytes(x) == s[x].bytes)
    && (forall d :: 0 <= d < |b.dirs| ==> b.dirs[d].inum < 64)
    && (forall d :: 0 <= d < n ==>
         b.inodes[b.dirs[d].inum].typ == FT_DIRECTORY && b.Bytes(b.dirs[d].inum) == b.dirs[d].raw)
    && (forall d :: n <= d < |b.dirs| ==> b.inodes[b.dirs[d].inum] == EMPTY_DIR)
  }

  lemma WrittenStart(b: Builder, s: seq<Item>)
    requires InodesMatch(b, s) && DirsMatch(b.dirs, s) && |s| == 64
    ensures Written(b, s, 0)
  {
    hide Stored, Shaped, Fresh, FileBytes, RawIs;
    forall d | 0 <= d < |b.dirs|
      ensures b.dirs[d].inum < 64 && b.inodes[b.dirs[d].inum] == EMPTY_DIR
    {
      RawSize(b.dirs[d].raw, s[b.dirs[d].inum]);
    }
  }

  /** The blocks of the first `d` directories in memory. */
  function BufNeed(dirs: seq<DirBuf>, d: nat): nat
    requires d <= |dirs|
  {
    if d == 0 then 0 else BufNeed(dirs, d - 1) + Blocks(|dirs[d - 1].raw|)
  }

  lemma NoNeed(dirs: seq<DirBuf>)
    ensures BufNeed(dirs, 0) == 0
  {
  }

  lemma BufNeedStep(dirs: seq<DirBuf>, d: nat)
    requires d < |dirs|
    ensures BufNeed(dirs, d + 1) == BufNeed(dirs, d) + Blocks(|dirs[d].raw|)
  {
    hide Blocks;
  }

  lemma {:induction false} BufNeedGrow(dirs: seq<DirBuf>, c: nat, d: nat)
    requires c <= d <= |dirs|
    ensures BufNeed(dirs, c) <= BufNeed(dirs, d)
  {
    hide Blocks;
    if c < d {
      BufNeedGrow(dirs, c, d - 1);
    }
  }

  /** The first `d` directories in memory are those with inode numbers below `y`. */
  predicate SplitAt(dirs: seq<DirBuf>, d: nat, y: nat) {
    d <= |dirs| && forall e :: 0 <= e < |dirs| ==> (dirs[e].inum < y <==> e < d)
  }

  lemma SplitDir(dirs: seq<DirBuf>, s: seq<Item>, d: nat, y: nat)
    requires DirsMatch(dirs, s) && SplitAt(dirs, d, y) && 0 < y <= |s|
    ensures s[y - 1].Dir? ==> 0 < d && |dirs[d - 1].raw| == s[y - 1].size && SplitAt(dirs, d - 1, y - 1)
    ensures !s[y - 1].Dir? ==> SplitAt(dirs, d, y - 1)
  {
    hide RawIs;
    if s[y - 1].Dir? {
      assert InDirs(dirs, y - 1);
      var k :| 0 <= k < |dirs| && dirs[k].inum == y - 1;
      assert RawIs(dirs[k].raw, s[y - 1]);
      RawSize(dirs[k].raw, s[y - 1]);
      assert k < d && dirs[d - 1].inum < y;
      assert k == d - 1;
    } else {
      forall e | 0 <= e < |dirs|
        ensures dirs[e].inum != y - 1
      {
        RawSize(dirs[e].raw, s[dirs[e].inum]);
      }
    }
  }

  /** Counted by inode number or in the order of the directories in memory, they need as many blocks. */
  lemma {:induction false} BufNeedIs(dirs: seq<DirBuf>, s: seq<Item>, d: nat, y: nat)
    requires DirsMatch(dirs, s) && y <= |s| && d <= |dirs| && SplitAt(dirs, d, y)
    ensures BufNeed(dirs, d) == DirNeed(s, y)
    decreases y
  {
    hide Blocks, DirsMatch, SplitAt;
    if y == 0 {
      assert d == 0 by { NoneBelow(dirs, d); }
    } else {
      SplitDir(dirs, s, d, y);
      BufNeedIs(dirs, s, if s[y - 1].Dir? then d - 1 else d, y - 1);
    }
  }

  lemma NoneBelow(dirs: seq<DirBuf>, d: nat)
    requires SplitAt(dirs, d, 0)
    ensures d == 0
  {
    assert d > 0 ==> dirs[0].inum >= 0;
  }

  /** A directory of at most 64 entries fits its direct blocks. */
  lemma FewBlocks(dirs: seq<DirBuf>, s: seq<Item>, d: nat)
    requires DirsMatch(dirs, s) && IsTree(s) && |s| == 64 && d < |dirs|
    ensures 0 < dirs[d].inum < 64 && s[dirs[d].inum].Dir? && Blocks(|dirs[d].raw|) <= 12
  {
    hide IsTree, IsDirectory, Listing;
    var x := dirs[d].inum;
    assert RawIs(dirs[d].raw, s[x]);
    N.FewNames(s, x);
    DirNotZero(s, x);
  }

  /** The loop that writes all directories' contents. */
  method WriteDirs(b: Builder, ghost s: seq<Item>) returns (ok: bool)
    requires InodesMatch(b, s) && DirsMatch(b.dirs, s) && IsTree(s) && |s| == 64
    requires forall x :: b.freeinode <= x < 64 ==> s[x].Unused?
    modifies b
    ensures ok <==> old(b.freeblock) + DirNeed(s, 64) <= 8192
    ensures ok ==> b.dirs == old(b.dirs) && Written(b, s, |b.dirs|) && b.freeblock == old(b.freeblock) + DirNeed(s, 64)
  {
    hide IsTree, DirsMatch, InodesMatch, Stored, Shaped, Fresh, FileBytes, Blocks, BufNeed, DirNeed;
    WrittenStart(b, s);
    AllBufNeed(b.dirs, s);
    assert BufNeed(b.dirs, 0) == 0 by { NoNeed(b.dirs); }
    var d := 0;
    while d < |b.dirs|
      invariant 0 <= d <= |b.dirs| && b.dirs == old(b.dirs) && b.freeinode == old(b.freeinode)
      invariant b.freeblock == old(b.freeblock) + BufNeed(b.dirs, d) <= 8192 && Written(b, s, d)
    {
      FewBlocks(b.dirs, s, d);
      OtherDirs(b.dirs, s, d);
      BufNeedGrow(b.dirs, d + 1, |b.dirs|);
      BufNeedStep(b.dirs, d);
      ok := b.WriteDirectory(b.dirs[d].inum, b.dirs[d].raw);
      if !ok { return; }
      d := d + 1;
    }
    ok := true;
  }

  lemma AllBufNeed(dirs: seq<DirBuf>, s: seq<Item>)
    requires DirsMatch(dirs, s)
    ensures BufNeed(dirs, |dirs|) == DirNeed(s, |s|)
  {
    assert SplitAt(dirs, |dirs|, |s|);
    BufNeedIs(dirs, s, |dirs|, |s|);
  }

  lemma OtherDirs(dirs: seq<DirBuf>, s: seq<Item>, d: nat)
    requires DirsMatch(dirs, s) && d < |dirs|
    ensures forall e :: 0 <= e < |dirs| && e != d ==> dirs[e].inum != dirs[d].inum
  {
  }

  // ----- the image -----

  /** The builder's records and contents are those of the items. */
  ghost predicate Contains(b: Builder, s: seq<Item>)
    reads b
  {
    && b.Done() && |s| == 64
    && forall x :: 0 <= x < 64 ==>
         && (s[x].Unused? ==> b.inodes[x] == NoInode)
         && (s[x].File? ==> b.inodes[x].typ == FT_FILE && b.Bytes(x) == s[x].bytes)
         && (s[x].Dir? ==> b.inodes[x].typ == FT_DIRECTORY && RawIs(b.Bytes(x), s[x]))
  }

  lemma WrittenAll(b: Builder, s: seq<Item>)
    requires Written(b, s, |b.dirs|) && DirsMatch(b.dirs, s)
    ensures forall x :: 0 <= x < 64 && s[x].Dir? ==> b.inodes[x].typ == FT_DIRECTORY && RawIs(b.Bytes(x), s[x])
  {
    hide RawIs, Stored, Shaped, Fresh, FileBytes;
    forall x | 0 <= x < 64 && s[x].Dir?
      ensures b.inodes[x].typ == FT_DIRECTORY && RawIs(b.Bytes(x), s[x])
    {
      assert InDirs(b.dirs, x);
      var d :| 0 <= d < |b.dirs| && b.dirs[d].inum == x;
      assert RawIs(b.dirs[d].raw, s[x]);
    }
  }

  /** Something that takes no block. */
  predicate IsEmptyFile(h: Host) { h.HostFile? && h.content == [] }

  /**
   The builder makes an image of a host tree exactly if it fits, with the files and directories that were put in. But
   the image has no room for the records of inodes 32 to 63: all marked blocks belong to its records exactly if
   whatever comes after the first 30 is an empty file.
   */
  method Build(hs: seq<Host>, rootJunk: seq<byte>, buf: Block) returns (b: Builder?)
    requires IsHost(hs) && |rootJunk| == 30
    ensures b != null <==> Fits(hs)
    ensures b != null ==> fresh(b) && Contains(b, Planned(hs, 64))
    ensures b != null ==> b.freeblock == 7 + FileBlocks(hs, |hs|) + DirNeed(Planned(hs, 64), 64)
    ensures b != null ==> (Consistent(Image, b.disk) <==> forall k :: 30 <= k < |hs| ==> IsEmptyFile(hs[k]))
  {
    hide IsTree, DirsMatch, RawIs, InodesMatch, Written, Planned, EntryBytes, Builder.Valid, Builder.Done, Contains,
         DirNeed, IsHost, Consistent;
    DotsAreRaw(1, 1, rootJunk);
    b := new Builder(RawDots(1, 1, rootJunk));
    BuilderStart(b, RawDots(1, 1, rootJunk), Room(hs));
    var ok := AddHosts(b, hs, buf);
    if !ok {
      return null;
    }
    assert hs[..|hs|] == hs;
    PlannedTree(hs, |hs|, 64);
    ok := WriteDirs(b, Planned(hs, 64));
    if !ok {
      return null;
    }
    FinishImage(b, Planned(hs, 64));
    LargeItems(b, hs);
  }

  lemma BuilderStart(b: Builder, raw: seq<byte>, n: nat)
    requires b.Valid() && b.freeinode == 2 && b.dirs == [DirBuf(1, raw)] && b.inodes[1] == EMPTY_DIR
    requires RawIs(raw, Dots(1, 1)) && n >= 64
    ensures InodesMatch(b, Base(n)) && DirsMatch(b.dirs, Base(n))
  {
    hide RawIs, Stored, Shaped, Fresh, FileBytes;
    assert b.dirs[0].inum == 1;
    assert InDirs(b.dirs, 1);
  }

  method FinishImage(b: Builder, ghost s: seq<Item>)
    requires Written(b, s, |b.dirs|) && DirsMatch(b.dirs, s)
    modifies b`disk
    ensures Contains(b, s)
  {
    hide RawIs, Stored, Shaped, Fresh, FileBytes, DirsMatch;
    WrittenAll(b, s);
    b.Finish();
  }

  // ----- what comes after the first 30 -----

  /** Inode `k` + 2 is what the `k`th thing was, and its directory has it under its name. */
  lemma {:induction false} PlannedHas(hs: seq<Host>, j: nat, k: nat, n: nat)
    requires IsHost(hs) && j < k <= |hs| && k + 2 <= n
    ensures var s := Planned(hs[..k], n);
            && (hs[j].HostFile? ==> s[j + 2] == Item.File(hs[j].content)) && (hs[j].HostDir? ==> s[j + 2].Dir?)
            && hs[j].dir < j + 2 && s[hs[j].dir].Dir?
            && hs[j].name in s[hs[j].dir].names && s[hs[j].dir].names[hs[j].name] == j + 2
    decreases k
  {
    hide IsTree, Planned;
    var s := Planned(hs[..k - 1], n);
    PlannedTree(hs, k - 1, n);
    PlannedStep(hs, k - 1, n);
    if j < k - 1 {
      PlannedHas(hs, j, k - 1, n);
    }
  }

  /** Exactly an empty file has no bytes: a directory has its dots. */
  lemma LargeItems(b: Builder, hs: seq<Host>)
    requires IsHost(hs) && |hs| <= 62 && Contains(b, Planned(hs, 64))
    ensures Consistent(Image, b.disk) <==> forall k :: 30 <= k < |hs| ==> IsEmptyFile(hs[k])
  {
    hide IsTree, Planned, Stored, Shaped, RawIs, Consistent, IsHost;
    ImageConsistentIff(b.disk, b.inodes, b.forest, b.disk);
    forall x | 32 <= x < 64
      ensures b.inodes[x].size == 0 <==> x < |hs| + 2 ==> IsEmptyFile(hs[x - 2])
    {
      SizeOf(b, hs, x);
    }
    assert forall k :: 30 <= k < |hs| ==> (b.inodes[k + 2].size == 0 <==> IsEmptyFile(hs[k]));
  }

  lemma SizeOf(b: Builder, hs: seq<Host>, x: nat)
    requires IsHost(hs) && |hs| <= 62 && Contains(b, Planned(hs, 64)) && 2 <= x < 64
    ensures b.inodes[x].size == 0 <==> x < |hs| + 2 ==> IsEmptyFile(hs[x - 2])
  {
    hide IsTree, Planned, Stored, Shaped, IsHost, IsDirectory, Listing;
    assert hs[..|hs|] == hs;
    PlannedTree(hs, |hs|, 64);
    if x < |hs| + 2 {
      PlannedHas(hs, x - 2, |hs|, 64);
      if hs[x - 2].HostDir? {
        E.TreeHasDots(Planned(hs, 64), x);
      }
    }
  }

  /** The names among the first 32 inodes are a tree exactly if all that was put in is among them. */
  lemma SmallIff(hs: seq<Host>)
    requires IsHost(hs) && |hs| <= 62
    ensures IsTree(Planned(hs, 64)[..32]) <==> |hs| <= 30
    ensures |hs| <= 30 ==> Planned(hs, 64)[..32] == Planned(hs, 32)
  {
    hide Planned, IsHost, IsTree;
    assert hs[..|hs|] == hs;
    if |hs| <= 30 {
      PlannedTree(hs, |hs|, 32);
      PlannedSame(hs, |hs|, 32);
      PlannedSame(hs, |hs|, 64);
      SamePrefix(Planned(hs, |hs| + 2), Planned(hs, 32), Planned(hs, 64), |hs| + 2);
    } else {
      PlannedHas(hs, 30, |hs|, 64);
      NameBeyond(Planned(hs, 64)[..32], hs[30].dir, hs[30].name);
    }
  }

  lemma SamePrefix(s: seq<Item>, t: seq<Item>, u: seq<Item>, k: nat)
    requires SameTo(s, t, k) && SameTo(s, u, k) && |t| <= |u|
    ensures u[..|t|] == t
  {
    forall x | 0 <= x < |t|
      ensures u[x] == t[x]
    {
      if x < k {
        assert s[..k][x] == t[..k][x] == u[..k][x];
      }
    }
  }

  lemma NameBeyond(s: seq<Item>, x: nat, n: string)
    requires x < |s| && s[x].Dir? && n in s[x].names && s[x].names[n] >= |s|
    ensures !IsTree(s)
  {
    if IsTree(s) {
      DirNotZero(s, x);
      assert HasDots(s, x);
      assert Has(s, x, n);
      assert false;
    }
  }

  /** Records and contents are those of the items. */
  ghost predicate Finished(ino: seq<Dinode>, bs: seq<seq<byte>>, s: seq<Item>) {
    && |ino| == |s| && |bs| == |s|
    && (forall x :: 0 <= x < |s| && s[x].Unused? ==> ino[x].typ == FT_UNUSED && ino[x].size == 0)
    && (forall x :: 0 <= x < |s| && s[x].File? ==> ino[x].typ == FT_FILE && bs[x] == s[x].bytes)
    && (forall x :: 0 <= x < |s| && s[x].Dir? ==> ino[x].typ == FT_DIRECTORY && RawIs(bs[x], s[x]))
  }

  lemma FinishedItems(ino: seq<Dinode>, bs: seq<seq<byte>>, s: seq<Item>)
    requires Finished(ino, bs, s)
    ensures N.ItemsOf(ino, bs) == s && N.Typed(ino) && N.DirsOk(ino, bs)
    ensures forall i :: 0 <= i < |ino| && ino[i].typ == FT_UNUSED ==> ino[i].size == 0
  {
    hide IsDirectory, Listing, Dirents;
    forall x | 0 <= x < |s|
      ensures N.ItemOf(ino[x], bs[x]) == s[x]
    {
    }
  }

  /**
   What the kernel finds on a consistent image: a sound volume with the first 30 things that were put in. Its names
   are a tree exactly if that is all of them; and block 1 describes it, with twice as many inodes as it has.
   */
  method Open(b: Builder, ghost hs: seq<Host>) returns (v: Volume)
    requires IsHost(hs) && |hs| <= 62 && Contains(b, Planned(hs, 64)) && Consistent(Image, b.disk)
    ensures fresh(v) && v.disk == b.disk && N.Sound(v) && N.View(v) == Planned(hs, 64)[..32]
    ensures IsTree(N.View(v)) <==> |hs| <= 30
    ensures |hs| <= 30 ==> N.View(v) == Planned(hs, 32)
    ensures |v.disk| == 8192 && DecodeSuper(v.disk[1]) == (MAGIC, Shipped)
    ensures v.sb == Shipped.Fitting() && v.declared == Shipped.ninodes && v.Overruns()
  {
    hide IsTree, Planned, Stored, Shaped, RawIs, IsHost, Consistent, N.ItemsOf, FileBytes;
    LargeItems(b, hs);
    ImageConsistentIff(b.disk, b.inodes, b.forest, b.disk);
    SmallIff(hs);
    FirstBlockIs();
    v := Mount(b);
    assert Finished(v.Inodes(), N.AllBytes(v), Planned(hs, 64)[..32]);
    FinishedItems(v.Inodes(), N.AllBytes(v), Planned(hs, 64)[..32]);
  }

  /**
   On an image with 30 things in at most 1024 blocks the kernel's first search for an unused record goes past the
   records and takes the one of inode 33, which lies in the bitmap.
   */
  lemma FullImage(b: Builder, hs: seq<Host>)
    requires IsHost(hs) && |hs| == 30 && Contains(b, Planned(hs, 64)) && 7 <= b.freeblock <= 1024
    ensures ScanFrom(Shipped.Fitting(), b.disk, 1).None? && ScanFrom(Shipped, b.disk, 1) == Some(33)
  {
    hide IsTree, Planned, Stored, Shaped, RawIs, IsHost, ScanFrom, DecodeBits, EncodeBits;
    FirstBlockIs();
    BitsRoundTrip(b.bits);
    var near := ScanFrom(Shipped.Fitting(), b.disk, 1);
    if near.Some? {
      AllInUse(b, hs, near.value);
      assert false;
    }
    ShippedOverrun(b.disk, b.freeblock);
  }

  lemma AllInUse(b: Builder, hs: seq<Host>, i: nat)
    requires IsHost(hs) && |hs| == 30 && Contains(b, Planned(hs, 64)) && 1 <= i < 32
    ensures TypeAt(Shipped.Fitting(), b.disk, i) != FT_UNUSED
  {
    hide IsTree, Planned, Stored, Shaped, RawIs, IsHost;
    assert hs[..|hs|] == hs;
    PlannedTree(hs, 30, 64);
    if i == 1 {
      M.RootIs(Planned(hs, 64));
    } else {
      PlannedHas(hs, i - 2, 30, 64);
    }
    assert Records(Image, b.disk)[i] == b.inodes[i];
  }
}
