/**
 Changes to device 1 through the inode cache. The kernel works on the record in the slot; what it leaves there
 is what it wrote to the disk, so that a slot, once read, never has to be read again.
 */
module Changes {
  import opened Basics
  import opened Codec
  import opened Layout
  import opened Contents
  import opened Volumes
  import opened Items
  import opened Tables
  import opened Kernels
  import D = Directory
  import N = Namespace
  import T = Tree
  import W = World
  import R = Replay

  /** The records of device 1 changed in the inode of slot `k` only; the slot gets the record that was written. */
  method Store(kn: Kernel, k: nat, d: Dinode, ghost ino1: seq<Dinode>)
    requires kn.Mid(ino1) && k < NINODE && kn.slots[k].ref > 0 && kn.slots[k].dev == 1 && kn.slots[k].inum < |ino1|
    requires kn.v1.Inodes() == ino1[kn.slots[k].inum := d]
    modifies kn`slots
    ensures kn.Steady() && kn.slots == old(kn.slots)[k := old(kn.slots)[k].(valid := true, d := d)]
    ensures kn.World() == old(kn.World()) && Kept(kn.held, old(kn.slots), kn.slots) && (old(kn.Sounds()) ==> kn.Ready())
  {
    hide Exact, Kept, Covers, Volume.Valid, N.Sound, N.View, W.Shape, W.Referenced, Handles, Seats, Nodes;
    AfterUpdate(kn.Tab(), kn.v0.Inodes(), ino1, kn.v1.Inodes(), kn.lostDirs, k, d);
    kn.slots := kn.slots[k := kn.slots[k].(valid := true, d := d)];
  }

  /** The `iget` of `ialloc`, and the new record for the slot. */
  method IgetNew(kn: Kernel, c: nat, d: Dinode, ghost ino1: seq<Dinode>) returns (r: Option<nat>)
    requires kn.Mid(ino1) && c < |ino1| && kn.v1.Inodes() == ino1[c := d]
    modifies kn`slots, kn`held
    ensures r.None? ==> W.Crowded(old(kn.World()), old(kn.Extra()))
    ensures r.Some? ==> kn.Steady() && r.value < NINODE && InodeOf(kn.slots[r.value]) == T.Node(1, c)
    ensures r.Some? ==> kn.slots[r.value].valid && kn.slots[r.value].d == d && kn.slots[r.value].ref > 0
    ensures r.Some? ==> kn.held == old(kn.held) + multiset{r.value} && Kept(old(kn.held), old(kn.slots), kn.slots)
    ensures r.Some? ==> kn.World() == old(kn.World()) && (old(kn.Sounds()) ==> kn.Ready())
  {
    hide Exact, Kept, Covers, Volume.Valid, N.Sound, N.View, W.Shape, W.Referenced, Handles, Seats, Nodes;
    var hit, empty := kn.FindSlot(1, c);
    if hit.None? && empty.None? {
      kn.FullNeeds(ino1);
      return None;
    }
    var k := if hit.Some? then hit.value else empty.value;
    var s := Slot(1, c, kn.slots[k].ref + 1, true, d);
    AfterNew(kn.Tab(), kn.v0.Inodes(), ino1, kn.lostDirs, c, d, k, s);
    CoversMore(kn.held, kn.lostDirs, k);
    kn.slots := kn.slots[k := s];
    kn.held := kn.held + multiset{k};
    return Some(k);
  }

  /** A live slot that has been read has the record on disk, and the type there says what its item is. */
  lemma ReadSlot(kn: Kernel, k: nat)
    requires kn.Ready() && k < NINODE && kn.slots[k].ref > 0
    ensures kn.slots[k].dev < 2 && kn.slots[k].inum < kn.Vol(kn.slots[k].dev).sb.ninodes
    ensures kn.slots[k].valid ==> kn.slots[k].d == kn.Vol(kn.slots[k].dev).Inodes()[kn.slots[k].inum]
    ensures kn.slots[k].valid ==> var i := W.ItemAt(kn.World(), InodeOf(kn.slots[k]));
              && (i.Unused? <==> kn.slots[k].d.typ == FT_UNUSED) && (i.Dir? <==> kn.slots[k].d.typ == FT_DIRECTORY)
              && (i.File? <==> kn.slots[k].d.typ == FT_FILE)
  {
    hide Volume.Valid, N.Sound, N.View, Handles, Seats, Nodes, Covers;
    LiveSlot(kn.Tab(), kn.v0.Inodes(), kn.v1.Inodes(), k);
    hide Exact;
    var s := kn.slots[k];
    N.TypeIs(kn.Vol(s.dev), s.inum);
  }

  /** A live slot that has been read has the record on disk, whatever the names are. */
  lemma RecordIs(kn: Kernel, k: nat)
    requires kn.Steady() && k < NINODE && kn.slots[k].ref > 0 && kn.slots[k].valid
    ensures kn.slots[k].dev < 2 && kn.slots[k].inum < kn.Vol(kn.slots[k].dev).sb.ninodes
    ensures kn.slots[k].d == kn.Vol(kn.slots[k].dev).Inodes()[kn.slots[k].inum] && kn.Vol(kn.slots[k].dev).Valid()
  {
    hide Volume.Valid;
    LiveSlot(kn.Tab(), kn.v0.Inodes(), kn.v1.Inodes(), k);
  }

  /** `itrunc` through a slot that has been read: any inode keeps the tables right, and exactly its bytes are cut. */
  method TruncateSlot(kn: Kernel, k: nat, size: word)
    requires kn.Steady() && k < NINODE && kn.slots[k].ref > 0 && kn.slots[k].valid && kn.slots[k].dev == 1
    modifies kn`slots, kn.v1
    ensures kn.Steady() && Kept(kn.held, old(kn.slots), kn.slots)
    ensures InodeOf(kn.slots[k]) == InodeOf(old(kn.slots)[k]) && kn.slots[k].valid && kn.slots[k].ref > 0
    ensures && old(kn.slots)[k].inum < kn.v1.sb.ninodes && kn.slots[k].d.typ == old(kn.slots)[k].d.typ
            && var w, x := old(kn.World()), InodeOf(old(kn.slots)[k]);
            && kn.World() == W.WithItem(w, x, N.ItemOf(kn.slots[k].d, CutTo(old(kn.v1.Bytes(kn.slots[k].inum)), size)))
    ensures old(kn.Ready() && W.ItemAt(kn.World(), InodeOf(kn.slots[k])).File?) ==>
              && kn.Ready()
              && var w, x := old(kn.World()), InodeOf(old(kn.slots)[k]);
              && kn.World() == W.WithItem(w, x, Item.File(CutTo(W.ItemAt(w, x).bytes, size)))
    ensures size >= old(kn.slots)[k].d.size ==> kn.World() == old(kn.World()) && (old(kn.Ready()) ==> kn.Ready())
  {
    hide Exact, Kept, Covers, Volume.Valid, N.Sound, N.View, W.Shape, W.Referenced, Handles, Seats, Nodes, CutTo,
         N.ItemOf;
    ghost var ino1 := kn.v1.Inodes();
    RecordIs(kn, k);
    if kn.Ready() {
      ReadSlot(kn, k);
    }
    var d := N.Truncate(kn.v1, kn.slots[k].inum, kn.slots[k].d, size);
    Store(kn, k, d, ino1);
  }

  /**
   `writei` through a slot that has been read: any inode keeps the tables right, and exactly its bytes are
   overwritten.
   */
  method WriteSlot(kn: Kernel, k: nat, off: word, src: seq<byte>) returns (r: Outcome<int>)
    requires kn.Steady() && k < NINODE && kn.slots[k].ref > 0 && kn.slots[k].valid && kn.slots[k].dev == 1
    requires |src| < 0x1_0000_0000
    modifies kn`slots, kn.v1
    ensures r.Panic? ==> kn.DiskFull()
    ensures r.Ok? ==> kn.Steady() && kn.slots == old(kn.slots)[k := old(kn.slots)[k].(d := kn.slots[k].d)]
    ensures r.Ok? ==> r.value == if off > old(kn.slots)[k].d.size || off + |src| > MAXBYTES then -1 else |src|
    ensures r.Ok? && (r.value < 0 || src == []) ==> kn.World() == old(kn.World()) && (old(kn.Ready()) ==> kn.Ready())
    ensures r.Ok? && r.value >= 0 ==>
              && old(kn.slots)[k].inum < kn.v1.sb.ninodes && kn.slots[k].d.typ == old(kn.slots)[k].d.typ
              && off <= |old(kn.v1.Bytes(kn.slots[k].inum))|
              && var w, x := old(kn.World()), InodeOf(old(kn.slots)[k]);
              && var b := Overwrite(old(kn.v1.Bytes(kn.slots[k].inum)), off, src);
              && kn.World() == W.WithItem(w, x, N.ItemOf(kn.slots[k].d, b))
    ensures r.Ok? && r.value >= 0 && old(kn.Ready() && W.ItemAt(kn.World(), InodeOf(kn.slots[k])).File?) ==>
              && kn.Ready()
              && var w, x := old(kn.World()), InodeOf(old(kn.slots)[k]);
              && off <= |W.ItemAt(w, x).bytes|
              && kn.World() == W.WithItem(w, x, Item.File(Overwrite(W.ItemAt(w, x).bytes, off, src)))
  {
    hide Exact, Kept, Covers, Volume.Valid, N.Sound, N.View, W.Shape, W.Referenced, Handles, Seats, Nodes, Overwrite,
         N.ItemOf;
    ghost var ino1 := kn.v1.Inodes();
    RecordIs(kn, k);
    if kn.Ready() {
      ReadSlot(kn, k);
    }
    var d;
    r, d := N.Write(kn.v1, kn.slots[k].inum, kn.slots[k].d, off, src);
    if r.Ok? {
      Store(kn, k, d, ino1);
    }
  }

  // ----- names -----

  /**
   The inode was made and slot `q` holds it; all inodes are in use, and the code says so or scans what is behind their
   records; or a panic.
   */
  datatype Made = New(q: nat) | NoInode | Beyond | Panicked

  function WithItems(w: W.World, s: seq<Item>): W.World { w.(s1 := s) }

  function EmptyOf(typ: half): Item { if typ == FT_FILE then Item.File([]) else Dir(map[], 0) }

  /** `ialloc` */
  method Ialloc(kn: Kernel, typ: half) returns (r: Made, ghost c: nat)
    requires kn.Ready() && (typ == FT_FILE || typ == FT_DIRECTORY)
    modifies kn`slots, kn`held, kn.v1
    ensures r.Panicked? ==> W.Crowded(old(kn.World()), old(kn.Extra()))
    ensures r.NoInode? || r.Beyond? ==> kn.Ready() && kn.slots == old(kn.slots) && kn.held == old(kn.held)
    ensures r.NoInode? || r.Beyond? ==> kn.World() == old(kn.World()) && FirstUnused(old(kn.World()).s1, 1) == None
    ensures r.NoInode? || r.Beyond? ==> (r.Beyond? <==> old(kn.World()).overruns)
    ensures r.New? ==> kn.Ready() && r.q < NINODE && kn.held == old(kn.held) + multiset{r.q}
    ensures r.New? ==> Kept(old(kn.held), old(kn.slots), kn.slots)
    ensures r.New? ==> kn.slots[r.q].valid && kn.slots[r.q].ref > 0 && InodeOf(kn.slots[r.q]) == T.Node(1, c)
    ensures r.New? ==> FirstUnused(old(kn.World()).s1, 1) == Some(c)
    ensures r.New? ==> kn.World() == WithItems(old(kn.World()), old(kn.World()).s1[c := EmptyOf(typ)])
  {
    hide Exact, Kept, Covers, Volume.Valid, N.Sound, N.View, W.Shape, W.Referenced, Handles, Seats, Nodes, FirstUnused;
    ghost var ino1 := kn.v1.Inodes();
    var n, d := N.Claim(kn.v1, typ);
    if !n.Hit? {
      return if n.PastEnd? then Beyond else NoInode, 0;
    }
    c := n.i;
    var g := IgetNew(kn, n.i, d, ino1);
    r := if g.Some? then New(g.value) else Panicked;
  }

  /** `dirlink` of a new name in the directory of slot `k`. */
  method LinkSlot(kn: Kernel, k: nat, name: string, c: nat) returns (ok: bool)
    requires kn.Ready() && k < NINODE && kn.slots[k].ref > 0 && kn.slots[k].valid && kn.slots[k].dev == 1
    requires var s, x := kn.World().s1, kn.slots[k].inum;
             && x < |s| && s[x].Dir? && D.IsName(name) && name !in s[x].names && 0 < c < |s| && |s[x].names| <= |s|
    modifies kn`slots, kn.v1
    ensures !ok ==> kn.DiskFull()
    ensures ok ==> kn.Ready() && Kept(kn.held, old(kn.slots), kn.slots)
    ensures ok ==> kn.World() == WithItems(old(kn.World()), Linked(old(kn.World()).s1, old(kn.slots)[k].inum, name, c))
  {
    hide Exact, Kept, Covers, Volume.Valid, N.Sound, N.View, W.Shape, W.Referenced, Handles, Seats, Nodes, Linked;
    ghost var ino1 := kn.v1.Inodes();
    ReadSlot(kn, k);
    var d;
    ok, d := N.LinkIn(kn.v1, kn.slots[k].inum, kn.slots[k].d, name, c);
    if ok {
      Store(kn, k, d, ino1);
    }
  }

  /** `writei` of the next of the dots of the new directory in slot `k`. */
  method DotSlot(kn: Kernel, k: nat, name: string, c: nat) returns (ok: bool)
    requires kn.Ready() && k < NINODE && kn.slots[k].ref > 0 && kn.slots[k].valid && kn.slots[k].dev == 1
    requires var s, x := kn.World().s1, kn.slots[k].inum;
             && x < |s| && s[x].Dir? && D.IsName(name) && name !in s[x].names && 0 < c < |s|
             && s[x].size == 32 * |s[x].names| <= 32
    modifies kn`slots, kn.v1
    ensures !ok ==> kn.DiskFull()
    ensures ok ==> kn.Ready() && Kept(kn.held, old(kn.slots), kn.slots)
    ensures ok ==> kn.World() == WithItems(old(kn.World()), Linked(old(kn.World()).s1, old(kn.slots)[k].inum, name, c))
  {
    hide Exact, Kept, Covers, Volume.Valid, N.Sound, N.View, W.Shape, W.Referenced, Handles, Seats, Nodes, Linked;
    ghost var ino1 := kn.v1.Inodes();
    ReadSlot(kn, k);
    N.TypeIs(kn.v1, kn.slots[k].inum);
    var d;
    ok, d := N.PutDot(kn.v1, kn.slots[k].inum, kn.slots[k].d, name, c);
    if ok {
      Store(kn, k, d, ino1);
    }
  }

  /** `writei` of a free entry over that of a name in the directory of slot `k`. */
  method UnlinkSlot(kn: Kernel, k: nat, name: string, off: nat) returns (ok: bool)
    requires kn.Ready() && k < NINODE && kn.slots[k].ref > 0 && kn.slots[k].valid && kn.slots[k].dev == 1
    requires kn.slots[k].inum < kn.v1.sb.ninodes && N.IsEntry(kn.v1, kn.slots[k].inum, name, off)
    requires var s, x := kn.World().s1, kn.slots[k].inum; x < |s| && s[x].Dir? && name in s[x].names
    modifies kn`slots, kn.v1
    ensures !ok ==> kn.DiskFull()
    ensures ok ==> kn.Ready() && kn.slots == old(kn.slots)[k := old(kn.slots)[k].(d := kn.slots[k].d)]
    ensures ok ==> kn.World() == WithItems(old(kn.World()), Unlinked(old(kn.World()).s1, old(kn.slots)[k].inum, name))
  {
    hide Exact, Kept, Covers, Volume.Valid, N.Sound, N.View, W.Shape, W.Referenced, Handles, Seats, Nodes, Unlinked,
         N.IsEntry;
    ghost var ino1 := kn.v1.Inodes();
    ReadSlot(kn, k);
    var d;
    ok, d := N.Unlink(kn.v1, kn.slots[k].inum, kn.slots[k].d, name, off);
    if ok {
      Store(kn, k, d, ino1);
    }
  }

  /** The end of `fs_rm`: the inode of slot `q` is emptied and marked unused, on disk and in the slot. */
  method DropSlot(kn: Kernel, q: nat)
    requires kn.Ready() && q < NINODE && kn.slots[q].ref > 0 && kn.slots[q].valid && kn.slots[q].dev == 1
    requires kn.slots[q].inum < |kn.World().s1|
    modifies kn`slots, kn.v1
    ensures kn.Ready() && kn.slots == old(kn.slots)[q := old(kn.slots)[q].(d := kn.slots[q].d)]
    ensures kn.World() == WithItems(old(kn.World()), old(kn.World()).s1[old(kn.slots)[q].inum := Unused])
  {
    hide Exact, Kept, Covers, Volume.Valid, N.Sound, N.View, W.Shape, W.Referenced, Handles, Seats, Nodes;
    ghost var ino1 := kn.v1.Inodes();
    ReadSlot(kn, q);
    var d := N.Drop(kn.v1, kn.slots[q].inum, kn.slots[q].d);
    Store(kn, q, d, ino1);
  }

  /** A new file, or a new directory with its dots, that has no name yet. */
  method NewItem(kn: Kernel, isDir: bool, x: nat) returns (r: Made, ghost c: nat)
    requires kn.Ready() && 0 < x < |kn.World().s1|
    modifies kn`slots, kn`held, kn.v1
    ensures r.Panicked? ==> W.Crowded(old(kn.World()), old(kn.Extra())) || kn.DiskFull()
    ensures r.NoInode? || r.Beyond? ==> kn.Ready() && kn.slots == old(kn.slots) && kn.held == old(kn.held)
    ensures r.NoInode? || r.Beyond? ==> kn.World() == old(kn.World()) && FirstUnused(old(kn.World()).s1, 1) == None
    ensures r.NoInode? || r.Beyond? ==> (r.Beyond? <==> old(kn.World()).overruns)
    ensures r.New? ==> kn.Ready() && r.q < NINODE && kn.held == old(kn.held) + multiset{r.q}
    ensures r.New? ==> Kept(old(kn.held), old(kn.slots), kn.slots)
    ensures r.New? ==> kn.slots[r.q].valid && kn.slots[r.q].ref > 0 && InodeOf(kn.slots[r.q]) == T.Node(1, c)
    ensures r.New? ==> FirstUnused(old(kn.World()).s1, 1) == Some(c)
    ensures r.New? ==>
              kn.World() ==
              WithItems(old(kn.World()), old(kn.World()).s1[c := if isDir then Dots(c, x) else Item.File([])])
  {
    hide Kernel.Steady, Kernel.Ready, Kernel.Sounds, Kernel.World, Covers, Kept, W.Shape, W.Referenced, Dots;
    ghost var h, slots0 := kn.held, kn.slots;
    r, c := Ialloc(kn, if isDir then FT_DIRECTORY else FT_FILE);
    if !r.New? || !isDir {
      return;
    }
    ghost var h1, slots1 := kn.held, kn.slots;
    var ok := PutDots(kn, r.q, x);
    if !ok {
      return Panicked, c;
    }
    kn.HeldFacts(r.q);
    KeptAt(h1, slots1, kn.slots, r.q);
    KeptTrans(h, h, h1, slots0, slots1, kn.slots);
  }

  /** Makes a file or a directory of a new name in the directory of slot `k`. */
  method Make(kn: Kernel, k: nat, name: string, isDir: bool) returns (r: Made)
    requires kn.Valid() && k in kn.held && k < NINODE && kn.slots[k].valid && kn.slots[k].dev == 1
    requires var s, x := kn.World().s1, kn.slots[k].inum; x < |s| && s[x].Dir? && D.IsName(name) && name !in s[x].names
    modifies kn`slots, kn`held, kn.v1
    ensures r.Panicked? ==> W.Crowded(old(kn.World()), old(kn.Extra())) || kn.DiskFull()
    ensures r.NoInode? || r.Beyond? ==>
              kn.Ready() && kn.held == old(kn.held) && kn.World() == old(kn.World()) && kn.slots == old(kn.slots)
    ensures r.New? ==> kn.Ready() && r.q < NINODE && kn.held == old(kn.held) + multiset{r.q}
    ensures r.New? ==> Kept(old(kn.held), old(kn.slots), kn.slots) && kn.slots[r.q].valid && kn.slots[r.q].ref > 0
    ensures var made := W.MakeIn(old(kn.World()), old(kn.slots)[k].inum, name, isDir);
            && (r.NoInode? || r.Beyond? ==> made.None? && (r.Beyond? <==> old(kn.World()).overruns))
            && (r.New? ==> made == Some((kn.World(), kn.slots[r.q].inum)) && kn.slots[r.q].dev == 1)
  {
    hide Kernel.Steady, Kernel.Ready, Kernel.Sounds, Kernel.World, Covers, Kept, W.Shape, W.Referenced, IsTree,
         R.Seated, Linked, Dots;
    ghost var s, h, slots0 := kn.World().s1, kn.held, kn.slots;
    var x := kn.slots[k].inum;
    N.FewNames(s, x);
    DirNotZero(s, x);
    ghost var c;
    r, c := NewItem(kn, isDir, x);
    if !r.New? {
      return;
    }
    ClaimFacts(s, c, x);
    ghost var slots1, h1 := kn.slots, kn.held;
    KeptAt(h, slots0, slots1, k);
    kn.HeldFacts(k);
    var linked := LinkSlot(kn, k, name, kn.slots[r.q].inum);
    if !linked {
      return Panicked;
    }
    kn.HeldFacts(r.q);
    KeptAt(h1, slots1, kn.slots, r.q);
    KeptTrans(h, h, h1, slots0, slots1, kn.slots);
  }

  lemma ClaimFacts(s: seq<Item>, c: nat, x: nat)
    requires IsTree(s) && FirstUnused(s, 1) == Some(c) && x < |s| && s[x].Dir?
    ensures 1 < c < |s| && c != x
  {
  }

  /** The dots of the new directory in slot `q`, whose parent is inode `x`. */
  method PutDots(kn: Kernel, q: nat, x: nat) returns (ok: bool)
    requires kn.Ready() && q in kn.held && q < NINODE && kn.slots[q].ref > 0 && kn.slots[q].valid
    requires kn.slots[q].dev == 1
    requires var s, c := kn.World().s1, kn.slots[q].inum; 0 < c < |s| && s[c] == Dir(map[], 0) && 0 < x < |s|
    modifies kn`slots, kn.v1
    ensures !ok ==> kn.DiskFull()
    ensures ok ==> kn.Ready() && Kept(kn.held, old(kn.slots), kn.slots)
    ensures ok ==> var w, c := old(kn.World()), old(kn.slots)[q].inum; kn.World() == WithItems(w, w.s1[c := Dots(c, x)])
  {
    hide Kernel.Steady, Kernel.Ready, Kernel.Sounds, Kernel.World, Covers, Kept, W.Shape, W.Referenced;
    ghost var s, slots0 := kn.World().s1, kn.slots;
    var c := kn.slots[q].inum;
    ok := DotSlot(kn, q, ".", c);
    if !ok {
      return;
    }
    kn.HeldFacts(q);
    KeptAt(kn.held, slots0, kn.slots, q);
    ghost var slots1 := kn.slots;
    ok := DotSlot(kn, q, "..", x);
    if ok {
      KeptTrans(kn.held, kn.held, kn.held, slots0, slots1, kn.slots);
      assert map["." := c, ".." := x] == map["." := c][".." := x];
      assert Linked(Linked(s, c, ".", c), c, "..", x) == s[c := Dots(c, x)];
    }
  }
}
