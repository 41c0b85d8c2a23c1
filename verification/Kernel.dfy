/**
 The kernel's state, and the routines that find inodes: the cache, directories, paths. The kernel runs on two
 volumes, and device 0 is never among the things that a routine may modify. `World` is what programs see of all
 this.
 */
module Kernels {
  import opened Basics
  import opened Codec
  import opened Layout
  import opened Volumes
  import opened Paths
  import opened Items
  import opened Tables
  import N = Namespace
  import M = Mounts
  import T = Tree
  import W = World
  import R = Replay

  /** A slot that the running code now holds, nothing, or a panic. */
  datatype Found = At(k: nat) | Absent | Stop

  class Kernel {
    const v0: Volume
    const v1: Volume
    const mount: nat
    var slots: seq<Slot>
    var files: seq<Tables.File>
    var cwds: seq<Option<nat>>
    var fds: seq<Option<nat>>
    var paths: seq<string>
    var procs: seq<bool>
    ghost var held: multiset<nat>
    ghost var loose: multiset<nat>
    ghost var lostDirs: seq<nat>
    ghost var lostFiles: seq<nat>

    /** `fs_init`, `file_init`: device 1 is mounted on inode `mount` of device 0. */
    constructor (v0: Volume, v1: Volume, mount: nat)
      requires v0 != v1 && v0.Valid() && v1.Valid()
      ensures this.v0 == v0 && this.v1 == v1 && this.mount == mount && Steady() && Quiet()
      ensures World() == W.Booted(N.View(v0), N.View(v1), mount, v1.Overruns())
    {
      this.v0, this.v1, this.mount := v0, v1, mount;
      slots := seq(NINODE, i => Slot(0, 0, 0, false, Dinode(0, 0, 0, NoAddrs)));
      files := seq(W.NFILE, i => Tables.File(0, Unset, false, false, None, 0));
      cwds := seq(PROCS_MAX, i => None);
      fds := seq(PROCS_MAX * W.NOFILE, i => None);
      paths := seq(PROCS_MAX, i => "/");
      procs := seq(PROCS_MAX, i => false);
      held, loose, lostDirs, lostFiles := multiset{}, multiset{}, [], [];
      new;
      hide Volume.Valid, N.View;
      Nobody(Tab(), v0.Inodes(), v1.Inodes());
      hide Exact;
      assert Handles(slots, files) == seq(W.NFILE, i => W.Free);
      assert Seats(slots, cwds) == seq(PROCS_MAX, i => None);
      assert Nodes(slots, lostDirs) == [];
    }

    // ----- invariants -----

    ghost function Tab(): Tables.Tab
      reads this
    {
      Tables.Tab(slots, files, cwds, fds, held, loose)
    }

    ghost predicate Sizes()
      reads this
    {
      && |slots| == NINODE && |files| == W.NFILE && |fds| == PROCS_MAX * W.NOFILE
      && |cwds| == |paths| == |procs| == PROCS_MAX
    }

    /** The tables are right and the volumes are consistent, even if a program wrote to a directory. */
    ghost predicate Steady()
      reads this, v0, v1
      ensures Steady() ==>
                v0 != v1 && v0.Formatted() && v1.Formatted() && Sizes() && W.Shape(World()) && Covers(held, lostDirs)
    {
      && v0 != v1 && v0.Valid() && v1.Valid() && Sizes()
      && Exact(Tab(), v0.Inodes(), v1.Inodes()) && Covers(held, lostDirs)
    }

    /** The same, but the records of device 1 have changed since the cache agreed with `ino1`. */
    ghost predicate Mid(ino1: seq<Dinode>)
      reads this, v0, v1
      ensures Mid(ino1) ==>
                v0 != v1 && v0.Formatted() && v1.Formatted() && Sizes() && W.Shape(World()) && Covers(held, lostDirs)
    {
      && v0 != v1 && v0.Valid() && v1.Valid() && Sizes()
      && Exact(Tab(), v0.Inodes(), ino1) && Covers(held, lostDirs)
    }

    /** The directories of both volumes are well formed. */
    ghost predicate Sounds()
      reads v0, v1
      ensures Sounds() ==> v0.Formatted() && v1.Formatted()
    {
      N.Sound(v0) && N.Sound(v1)
    }

    ghost predicate Ready()
      reads this, v0, v1
      ensures Ready() ==> Steady() && Sounds()
    {
      Steady() && Sounds()
    }

    /** The invariant between system calls, and on the way to an inode. */
    ghost predicate Valid()
      reads this, v0, v1
      ensures Valid() ==> Ready() && R.Good(World())
    {
      Ready() && R.Good(World())
    }

    /** Nothing is held but what failed calls lost. */
    ghost predicate Quiet()
      reads this
    {
      AreJust(held, lostDirs) && AreJust(loose, lostFiles)
    }

    /** What programs see. */
    ghost function World(): W.World
      reads this, v0, v1
      requires v0.Formatted() && v1.Formatted()
    {
      W.World(N.View(v0), N.View(v1), mount, v1.Overruns(), Handles(slots, files), fds, Seats(slots, cwds), paths,
        procs,
              Nodes(slots, lostDirs), lostFiles)
    }

    /** The directories of both devices, as paths see them. */
    ghost function Tree(): T.Dirs
      reads v0, v1
      requires v0.Formatted() && v1.Formatted()
    {
      M.Joined(N.View(v0), N.View(v1), mount)
    }

    /** `iget` has no slot left to give. */
    ghost predicate CacheFull()
      reads this
    {
      |slots| == NINODE && forall k :: 0 <= k < NINODE ==> slots[k].ref > 0
    }

    /** Device 1 has no block left. */
    ghost predicate DiskFull()
      reads this, v1
    {
      v1.Formatted() && v1.Full()
    }

    /** How many references the running code holds. */
    ghost function Extra(): int
      reads this
    {
      |held| - |lostDirs|
    }

    /** The cache can be full only if what programs refer to and what the running code holds are at least 50 inodes. */
    lemma FullNeeds(ino1: seq<Dinode>)
      requires Mid(ino1) && CacheFull()
      ensures W.Crowded(World(), Extra())
    {
      hide Volume.Valid, W.Shape, Counted, Distinct, Coherent, FilesCounted, FilesOk, Handles, Seats, Nodes,
           W.Referenced;
      FullCount(Tab(), lostDirs);
    }

    function Vol(dev: nat): Volume { if dev == 0 then v0 else v1 }

    // ----- the cache -----

    /** A live slot for the inode, and the first free slot. */
    method FindSlot(dev: nat, inum: nat) returns (hit: Option<nat>, empty: Option<nat>)
      requires |slots| == NINODE
      ensures hit.Some? ==>
                hit.value < NINODE && slots[hit.value].ref > 0 && InodeOf(slots[hit.value]) == T.Node(dev, inum)
      ensures hit.None? ==>
                forall k :: 0 <= k < NINODE && slots[k].ref > 0 ==> slots[k].dev != dev || slots[k].inum != inum
      ensures hit.None? && empty.Some? ==> empty.value < NINODE && slots[empty.value].ref == 0
      ensures hit.None? && empty.None? ==> CacheFull()
    {
      hit, empty := None, None;
      for i := 0 to NINODE
        invariant empty.Some? ==> empty.value < NINODE && slots[empty.value].ref == 0
        invariant empty.None? ==> forall k :: 0 <= k < i ==> slots[k].ref > 0
        invariant forall k :: 0 <= k < i && slots[k].ref > 0 ==> slots[k].dev != dev || slots[k].inum != inum
      {
        if slots[i].ref > 0 && slots[i].dev == dev && slots[i].inum == inum {
          return Some(i), empty;
        }
        if empty.None? && slots[i].ref == 0 {
          empty := Some(i);
        }
      }
    }

    /** `iget`: one more reference to the cached inode, or a free slot for it; a panic if the cache is full. */
    method Iget(dev: nat, inum: nat) returns (r: Option<nat>)
      requires Steady() && dev < 2 && inum < Vol(dev).sb.ninodes
      modifies this`slots, this`held
      ensures r.None? ==> CacheFull() && W.Crowded(old(World()), old(Extra()))
      ensures r.Some? ==>
                Steady() && r.value < NINODE && InodeOf(slots[r.value]) == T.Node(dev, inum) && slots[r.value].ref > 0
      ensures r.Some? ==> held == old(held) + multiset{r.value} && Kept(old(held), old(slots), slots)
      ensures r.Some? ==> World() == old(World()) && (old(Ready()) ==> Ready()) && (old(Valid()) ==> Valid())
    {
      hide Exact, Kept, Covers, Volume.Valid, N.Sound, N.View, R.Good, W.Shape, W.Referenced, Handles, Seats, Nodes;
      var hit, empty := FindSlot(dev, inum);
      if hit.None? && empty.None? {
        FullNeeds(v1.Inodes());
        return None;
      }
      var k := if hit.Some? then hit.value else empty.value;
      var s := if hit.Some? then slots[k].(ref := slots[k].ref + 1)
               else slots[k].(dev := dev, inum := inum, ref := 1, valid := false);
      if hit.Some? {
        LiveSlot(Tab(), v0.Inodes(), v1.Inodes(), k);
      }
      AfterIget(Tab(), v0.Inodes(), v1.Inodes(), lostDirs, k, s);
      slots := slots[k := s];
      CoversMore(held, lostDirs, k);
      held := held + multiset{k};
      return Some(k);
    }

    /** `iput` of a slot that is held beside those in `h`. The test for a count of zero cannot fire. */
    method Iput(k: nat, ghost h: multiset<nat>)
      requires Steady() && held == h + multiset{k} && Covers(h, lostDirs)
      modifies this`slots, this`held
      ensures Steady() && held == h && Kept(h + multiset{k}, old(slots), slots)
      ensures World() == old(World()) && (old(Ready()) ==> Ready()) && (old(Valid()) ==> Valid())
    {
      hide Exact, Kept, Covers, Volume.Valid, N.Sound, N.View, R.Good, W.Shape, W.Referenced, Handles, Seats, Nodes;
      AfterIput(Tab(), v0.Inodes(), v1.Inodes(), lostDirs, k, h);
      slots := slots[k := slots[k].(ref := slots[k].ref - 1)];
      held := h;
    }

    /** `ilock`: reads the record unless the slot has it already. */
    method Ilock(k: nat)
      requires Steady() && k in held
      modifies this`slots
      ensures Steady() && k < NINODE && Kept(held, old(slots), slots) && InodeOf(slots[k]) == InodeOf(old(slots)[k])
      ensures slots[k].valid && slots[k].ref > 0 && SlotOk(slots[k], v0.Inodes(), v1.Inodes())
      ensures World() == old(World()) && (old(Ready()) ==> Ready()) && (old(Valid()) ==> Valid())
    {
      hide Exact, Kept, Covers, Volume.Valid, N.Sound, N.View, R.Good, W.Shape, W.Referenced, Handles, Seats, Nodes;
      HeldSlot(Tab(), v0.Inodes(), v1.Inodes(), k);
      KeptRefl(held, slots);
      if !slots[k].valid {
        AfterLoad(Tab(), v0.Inodes(), v1.Inodes(), lostDirs, k);
        var d := Vol(slots[k].dev).Load(slots[k].inum);
        slots := slots[k := slots[k].(valid := true, d := d)];
      }
    }

    // ----- directories -----

    /** A live slot is on one of the devices; the tree has its inode and entries if it is a directory. */
    lemma SlotFacts(k: nat)
      requires Valid() && k < NINODE && slots[k].ref > 0
      ensures slots[k].dev < 2 && slots[k].inum < Vol(slots[k].dev).sb.ninodes
      ensures SlotOk(slots[k], v0.Inodes(), v1.Inodes())
      ensures var s := N.View(Vol(slots[k].dev));
              && (InodeOf(slots[k]) in Tree().dirs <==> s[slots[k].inum].Dir?)
              && (s[slots[k].inum].Dir? ==> Tree().dirs[InodeOf(slots[k])] == s[slots[k].inum].names)
    {
      hide Volume.Valid, N.Sound, N.View, R.Good, W.Shape, W.Referenced;
      LiveSlot(Tab(), v0.Inodes(), v1.Inodes(), k);
      hide Exact;
      M.JoinedIs(N.View(v0), N.View(v1), mount, InodeOf(slots[k]));
    }

    lemma HeldFacts(k: nat)
      requires Steady() && k in held
      ensures k < NINODE && slots[k].ref > 0 && SlotOk(slots[k], v0.Inodes(), v1.Inodes())
    {
      hide Volume.Valid, W.Shape, W.Referenced;
      HeldSlot(Tab(), v0.Inodes(), v1.Inodes(), k);
    }

    lemma Volumes2()
      requires Valid()
      ensures N.Sound(v0) && N.Sound(v1) && IsTree(N.View(v0)) && IsTree(N.View(v1)) && v0 != v1
      ensures 1 < mount < v0.sb.ninodes && N.View(v0)[mount].Dir? && 1 < v0.sb.ninodes && 1 < v1.sb.ninodes
      ensures Tree().mount == T.Node(0, mount) && T.Node(0, mount) in Tree().dirs
    {
      hide Volume.Valid, N.Sound, N.View, W.Shape, W.Referenced, Exact, R.Seated, IsTree;
      M.JoinedIs(N.View(v0), N.View(v1), mount, T.Node(0, mount));
      M.RootIs(N.View(v0));
      M.RootIs(N.View(v1));
    }

    /** `dirlookup` in the directory of slot `k`, and its `iget`. */
    method LookupSlot(k: nat, name: string) returns (r: Found, off: nat)
      requires Valid() && k in held && k < NINODE && slots[k].valid && InodeOf(slots[k]) in Tree().dirs
      modifies this`slots, this`held
      ensures r.Stop? ==> W.Crowded(old(World()), old(Extra()))
      ensures !r.Stop? ==> Valid() && World() == old(World()) && Kept(old(held), old(slots), slots)
      ensures r.Absent? ==>
                held == old(held) && slots == old(slots) && T.Lookup(Tree(), InodeOf(old(slots)[k]), name) == None
      ensures r.At? ==> r.k < NINODE && held == old(held) + multiset{r.k}
      ensures r.At? ==> T.Lookup(Tree(), InodeOf(old(slots)[k]), name) == Some(InodeOf(slots[r.k]))
      ensures r.At? && old(slots)[k].dev == 1 ==>
                old(slots)[k].inum < v1.sb.ninodes && N.IsEntry(v1, old(slots)[k].inum, name, off)
    {
      hide Exact, Kept, Covers, Volume.Valid, N.Sound, N.View, R.Good, W.Shape, W.Referenced, IsTree, Tree, World,
           Valid, Steady, N.IsEntry;
      HeldFacts(k);
      SlotFacts(k);
      Volumes2();
      KeptRefl(held, slots);
      var s := slots[k];
      var c;
      c, off := N.LookupIn(Vol(s.dev), s.inum, s.d, name);
      if c == 0 {
        return Absent, 0;
      }
      EntryInUse(N.View(Vol(s.dev)), s.inum, name);
      var g := Iget(s.dev, c);
      return if g.Some? then At(g.value) else Stop, off;
    }

    method IgetLocked(dev: nat, inum: nat) returns (r: Option<nat>)
      requires Valid() && dev < 2 && inum < Vol(dev).sb.ninodes
      modifies this`slots, this`held
      ensures r.None? ==> W.Crowded(old(World()), old(Extra()))
      ensures r.Some? ==> Valid() && World() == old(World()) && r.value < NINODE
      ensures r.Some? ==> InodeOf(slots[r.value]) == T.Node(dev, inum) && slots[r.value].valid
      ensures r.Some? ==> held == old(held) + multiset{r.value} && Kept(old(held), old(slots), slots)
    {
      hide Covers, Valid, Steady, Ready, Sounds, Volume.Valid, Volume.Formatted, N.Sound, N.View, IsTree, World, Kept,
           SlotOk, W.Shape, W.Referenced;
      ghost var h, slots0 := held, slots;
      r := Iget(dev, inum);
      if r.Some? {
        ghost var slots1 := slots;
        Ilock(r.value);
        KeptTrans(h, h, h + multiset{r.value}, slots0, slots1, slots);
      }
    }

    /** ".." at the mounted root, looked up in the mount point. */
    method LookupUp() returns (r: Found)
      requires Valid()
      modifies this`slots, this`held
      ensures r.Stop? ==> W.Crowded(old(World()), old(Extra()) + 1)
      ensures !r.Stop? ==> Valid() && World() == old(World()) && Kept(old(held), old(slots), slots)
      ensures r.Absent? ==> held == old(held) && T.Lookup(Tree(), T.Node(0, mount), "..") == None
      ensures r.At? ==> r.k < NINODE && held == old(held) + multiset{r.k}
      ensures r.At? ==> T.Lookup(Tree(), T.Node(0, mount), "..") == Some(InodeOf(slots[r.k]))
    {
      hide Covers, Valid, Steady, Ready, Sounds, Volume.Valid, Volume.Formatted, N.Sound, N.View, IsTree, World, Tree,
           Kept, T.Lookup, W.Shape, W.Referenced, R.Good;
      Volumes2();
      LostHeld();
      ghost var h, slots0 := held, slots;
      var pm := IgetLocked(0, mount);
      if pm.None? {
        return Stop;
      }
      ghost var h1, slots1 := held, slots;
      var off;
      r, off := LookupSlot(pm.value, "..");
      if r.Stop? {
        return;
      }
      ghost var slots2 := slots;
      KeptTrans(h, h, h1, slots0, slots1, slots2);
      if r.At? {
        Swap(h, pm.value, r.k);
        CoversMore(h, lostDirs, r.k);
        Iput(pm.value, h + multiset{r.k});
        KeptAt(h + multiset{r.k} + multiset{pm.value}, slots2, slots, r.k);
        KeptTrans(h, h, h + multiset{r.k} + multiset{pm.value}, slots0, slots2, slots);
      } else {
        Iput(pm.value, h);
        KeptTrans(h, h, h + multiset{pm.value}, slots0, slots2, slots);
      }
    }

    lemma TwoVolumes()
      requires Steady()
      ensures v0 != v1
    {
    }

    lemma LostHeld()
      requires Steady()
      ensures Covers(held, lostDirs)
    {
    }

    /** Entering the mount point exchanges its slot for that of the mounted root. */
    method CrossSlot(k: nat, ghost h: multiset<nat>) returns (r: Found)
      requires Valid() && held == h + multiset{k} && k < NINODE && Covers(h, lostDirs)
      modifies this`slots, this`held
      ensures r.Stop? ==> W.Crowded(old(World()), old(Extra()))
      ensures !r.Stop? ==> r.At? && Valid() && World() == old(World()) && Kept(h, old(slots), slots)
      ensures r.At? ==> r.k < NINODE && held == h + multiset{r.k}
      ensures r.At? ==> InodeOf(slots[r.k]) == T.Cross(Tree(), InodeOf(old(slots)[k]))
    {
      hide Covers, Valid, Steady, Ready, Sounds, Volume.Valid, Volume.Formatted, N.Sound, N.View, IsTree, World, Tree,
           Kept, W.Shape, W.Referenced, R.Good;
      Volumes2();
      ghost var slots0 := slots;
      if slots[k].dev == 0 && slots[k].inum == mount {
        Iput(k, h);
        ghost var slots1 := slots;
        var c := Iget(1, 1);
        if c.None? {
          return Stop;
        }
        KeptTrans(h, h + multiset{k}, h, slots0, slots1, slots);
        return At(c.value);
      }
      KeptRefl(h, slots);
      return At(k);
    }

    /** The entry of directory `k`, or of the mount point for ".." at the mounted root. */
    method LookupEntry(k: nat, name: string) returns (r: Found)
      requires Valid() && k in held && k < NINODE && slots[k].valid && InodeOf(slots[k]) in Tree().dirs
      modifies this`slots, this`held
      ensures r.Stop? ==> W.Crowded(old(World()), old(Extra()) + 1)
      ensures !r.Stop? ==> Valid() && World() == old(World()) && Kept(old(held), old(slots), slots)
      ensures r.Absent? ==> T.Entry(Tree(), InodeOf(old(slots)[k]), name) == None && held == old(held)
      ensures r.At? ==> r.k < NINODE && held == old(held) + multiset{r.k}
      ensures r.At? ==> T.Entry(Tree(), InodeOf(old(slots)[k]), name) == Some(InodeOf(slots[r.k]))
    {
      hide Covers, Valid, Steady, Ready, Sounds, Volume.Valid, Volume.Formatted, N.Sound, N.View, IsTree, World, Tree,
           Kept, T.Lookup, W.Shape, W.Referenced, R.Good;
      Volumes2();
      HeldFacts(k);
      ghost var h, slots0 := held, slots;
      r := Absent;
      KeptRefl(h, slots);
      if name == ".." && slots[k].inum == 1 && slots[k].dev != 0 {
        r := LookupUp();
        if r.Stop? {
          return;
        }
        KeptAt(h, slots0, slots, k);
      }
      if r.Absent? {
        ghost var slots1 := slots;
        var off;
        r, off := LookupSlot(k, name);
        if !r.Stop? {
          KeptTrans(h, h, h, slots0, slots1, slots);
        }
      }
    }

    /** Where one component leads from directory `k`, with the mounted root in place of the mount point. */
    method Follow(k: nat, comp: string) returns (r: Found)
      requires Valid() && k in held && k < NINODE && slots[k].valid && InodeOf(slots[k]) in Tree().dirs
      modifies this`slots, this`held
      ensures r.Stop? ==> W.Crowded(old(World()), old(Extra()) + 1)
      ensures !r.Stop? ==> Valid() && World() == old(World()) && Kept(old(held), old(slots), slots)
      ensures r.Absent? ==> held == old(held) && T.Step(Tree(), InodeOf(old(slots)[k]), comp) == None
      ensures r.At? ==> r.k < NINODE && held == old(held) + multiset{r.k}
      ensures r.At? ==> T.Step(Tree(), InodeOf(old(slots)[k]), comp) == Some(InodeOf(slots[r.k]))
    {
      hide Covers, Valid, Steady, Ready, Sounds, Volume.Valid, Volume.Formatted, N.Sound, N.View, IsTree, World, Tree,
           Kept, T.Entry, T.Cross, Cut, W.Shape, W.Referenced, R.Good;
      ghost var h, slots0 := held, slots;
      LostHeld();
      r := LookupEntry(k, Cut(comp, T.NAME_LEN));
      if r.At? {
        ghost var slots1 := slots;
        r := CrossSlot(r.k, h);
        if r.At? {
          KeptTrans(h, h, h, slots0, slots1, slots);
        }
      }
    }

    /** One component of `namex`: the held slot `k` is given back, the slot it leads to is held. */
    method Advance(k: nat, comp: string, ghost h: multiset<nat>) returns (r: Found)
      requires Valid() && held == h + multiset{k} && k < NINODE && Covers(h, lostDirs)
      requires slots[k].valid && InodeOf(slots[k]) in Tree().dirs
      modifies this`slots, this`held
      ensures r.Stop? ==> W.Crowded(old(World()), old(Extra()) + 1)
      ensures !r.Stop? ==> Valid() && World() == old(World()) && Kept(h, old(slots), slots)
      ensures r.Absent? ==> held == h && T.Step(Tree(), InodeOf(old(slots)[k]), comp) == None
      ensures r.At? ==> r.k < NINODE && held == h + multiset{r.k}
      ensures r.At? ==> T.Step(Tree(), InodeOf(old(slots)[k]), comp) == Some(InodeOf(slots[r.k]))
    {
      hide Covers, Valid, Steady, Ready, Sounds, Volume.Valid, Volume.Formatted, N.Sound, N.View, IsTree, World, Tree,
           Kept, T.Step, W.Shape, W.Crowded, R.Good;
      ghost var h0, slots0 := held, slots;
      r := Follow(k, comp);
      if r.Stop? {
        return;
      }
      ghost var slots1 := slots;
      if r.Absent? {
        Iput(k, h);
        KeptTrans(h, h0, h0, slots0, slots1, slots);
        return;
      }
      Swap(h, k, r.k);
      CoversMore(h, lostDirs, r.k);
      Iput(k, h + multiset{r.k});
      ghost var h2 := h + multiset{r.k} + multiset{k};
      KeptAt(h2, slots1, slots, r.k);
      KeptTrans(h, h0, h2, slots0, slots1, slots);
    }

    /** Locks the slot and tells whether it is a directory. */
    method IsDirectory(k: nat) returns (b: bool)
      requires Valid() && k in held && k < NINODE
      modifies this`slots
      ensures Valid() && World() == old(World()) && Kept(held, old(slots), slots)
      ensures InodeOf(slots[k]) == InodeOf(old(slots)[k]) && slots[k].valid && slots[k].ref > 0
      ensures b <==> InodeOf(slots[k]) in Tree().dirs
    {
      hide Covers, Valid, Steady, Ready, Sounds, Volume.Valid, Volume.Formatted, N.Sound, N.View, IsTree, World, Tree,
           Kept, W.Shape, W.Referenced, R.Good;
      Ilock(k);
      SlotFacts(k);
      Volumes2();
      N.TypeIs(Vol(slots[k].dev), slots[k].inum);
      return slots[k].d.typ == FT_DIRECTORY;
    }

    // ----- paths -----

    method IgetStart(p: nat, path: string) returns (r: Option<nat>)
      requires Valid() && p < PROCS_MAX
      modifies this`slots, this`held
      ensures r.None? ==> W.Crowded(old(World()), old(Extra()))
      ensures r.Some? ==> Valid() && World() == old(World()) && r.value < NINODE
      ensures r.Some? ==> InodeOf(slots[r.value]) == W.Start(old(World()), p, path)
      ensures r.Some? ==> held == old(held) + multiset{r.value} && Kept(old(held), old(slots), slots)
    {
      hide Covers, Valid, Steady, Ready, Sounds, Volume.Valid, Volume.Formatted, N.Sound, N.View, IsTree, Kept, W.Shape,
           W.Referenced, R.Good;
      Volumes2();
      if IsAbsolute(path) || cwds[p].None? {
        r := Iget(0, 1);
      } else {
        CwdFacts(p);
        var c := slots[cwds[p].value];
        r := Iget(c.dev, c.inum);
      }
    }

    lemma CwdFacts(p: nat)
      requires Steady() && p < PROCS_MAX && cwds[p].Some?
      ensures cwds[p].value < NINODE && SlotOk(slots[cwds[p].value], v0.Inodes(), v1.Inodes())
    {
      hide Volume.Valid, W.Shape, W.Referenced;
      CwdSlot(Tab(), v0.Inodes(), v1.Inodes(), p);
    }

    /** One turn of the walk: the slot must be a directory; `last` says to stop there. */
    method Enter(k: nat, name: string, last: bool, ghost h: multiset<nat>) returns (r: Found)
      requires Valid() && held == h + multiset{k} && k < NINODE && Covers(h, lostDirs)
      modifies this`slots, this`held
      ensures r.Stop? ==> W.Crowded(old(World()), old(Extra()) + 1)
      ensures !r.Stop? ==> Valid() && World() == old(World()) && Kept(h, old(slots), slots)
      ensures r.Absent? ==> held == h && T.Step(Tree(), InodeOf(old(slots)[k]), name) == None
      ensures r.Absent? && last ==> InodeOf(old(slots)[k]) !in Tree().dirs
      ensures r.At? ==> InodeOf(old(slots)[k]) in Tree().dirs && r.k < NINODE && held == h + multiset{r.k}
      ensures r.At? && last ==> InodeOf(slots[r.k]) == InodeOf(old(slots)[k]) && slots[r.k].valid
      ensures r.At? && !last ==> T.Step(Tree(), InodeOf(old(slots)[k]), name) == Some(InodeOf(slots[r.k]))
    {
      hide Covers, Valid, Steady, Ready, Sounds, Volume.Valid, Volume.Formatted, N.Sound, N.View, IsTree, World, Tree,
           Kept, T.Entry, Cut, W.Shape, W.Referenced, R.Good;
      ghost var h0, slots0 := held, slots;
      var isDir := IsDirectory(k);
      ghost var slots1 := slots;
      if !isDir {
        Iput(k, h);
        KeptTrans(h, h0, h0, slots0, slots1, slots);
        return Absent;
      }
      if last {
        KeptRefl(h, slots);
        KeptTrans(h, h0, h, slots0, slots1, slots);
        return At(k);
      }
      r := Advance(k, name, h);
      if !r.Stop? {
        KeptTrans(h, h0, h, slots0, slots1, slots);
      }
    }

    /**
     `namex`: the walk of a path. It nets one reference, to the inode that the walk is asked for, or none.
     */
    method Namex(p: nat, path: string, parent: bool) returns (r: Found, name: string)
      requires Valid() && p < PROCS_MAX
      modifies this`slots, this`held
      ensures r.Stop? ==> W.Crowded(old(World()), old(Extra()) + 2)
      ensures !r.Stop? ==> Valid() && World() == old(World()) && Kept(old(held), old(slots), slots)
      ensures r.Absent? ==> held == old(held) && W.Goal(old(World()), p, path, parent) == None
      ensures r.At? ==> r.k < NINODE && held == old(held) + multiset{r.k}
      ensures r.At? ==> W.Goal(old(World()), p, path, parent) == Some(InodeOf(slots[r.k]))
      ensures r.At? && parent ==> slots[r.k].valid && Tokens(path) != [] && name == W.BaseName(path)
    {
      hide Covers, Valid, Steady, Ready, Sounds, Volume.Valid, Volume.Formatted, N.Sound, N.View, IsTree, Kept, Tokens,
           Cut, T.Target, W.Shape, W.Referenced, R.Good, M.Joined;
      LostHeld();
      ghost var h, slots0 := held, slots;
      var g := IgetStart(p, path);
      if g.None? {
        return Stop, "";
      }
      ghost var slots1 := slots;
      r, name := WalkOn(g.value, path, parent, h);
      if !r.Stop? {
        KeptTrans(h, h, h, slots0, slots1, slots);
      }
    }

    /** The loop of `namex`, from the held slot `k0` on. */
    method WalkOn(k0: nat, path: string, parent: bool, ghost h: multiset<nat>) returns (r: Found, name: string)
      requires Valid() && held == h + multiset{k0} && k0 < NINODE && Covers(h, lostDirs)
      modifies this`slots, this`held
      ensures r.Stop? ==> W.Crowded(old(World()), old(Extra()) + 1)
      ensures !r.Stop? ==> Valid() && World() == old(World()) && Kept(h, old(slots), slots)
      ensures r.Absent? ==> held == h && T.Target(Tree(), InodeOf(old(slots)[k0]), Tokens(path), parent) == None
      ensures r.At? ==> r.k < NINODE && held == h + multiset{r.k}
      ensures r.At? ==> T.Target(Tree(), InodeOf(old(slots)[k0]), Tokens(path), parent) == Some(InodeOf(slots[r.k]))
      ensures r.At? && parent ==>
                slots[r.k].valid && Tokens(path) != [] && name == Cut(T.Last(Tokens(path)), T.NAME_LEN)
    {
      hide Covers, Valid, Steady, Ready, Sounds, Volume.Valid, Volume.Formatted, N.Sound, N.View, IsTree, World, Tree,
           Kept, T.Step, Tokens, Cut, T.Target, W.Shape, W.Referenced, R.Good;
      ghost var t, goal, ts := Tree(), T.Target(Tree(), InodeOf(slots[k0]), Tokens(path), parent), Tokens(path);
      name := "";
      var k: nat, pos: nat := k0, 0;
      assert path[0..] == path;
      ghost var slots0, w := slots, World();
      KeptRefl(h, slots);
      while true
        invariant Valid() && World() == w && Tree() == t && k < NINODE && held == h + multiset{k} && pos <= |path|
        invariant Kept(h, slots0, slots) && Covers(h, lostDirs)
        invariant goal == T.Target(t, InodeOf(slots[k]), Tokens(path[pos..]), parent)
        invariant Tokens(path[pos..]) != [] ==> ts != [] && T.Last(ts) == T.Last(Tokens(path[pos..]))
        decreases |path| - pos
      {
        var more, n, next, comp := Skipto(path, pos);
        if !more {
          T.TargetNone(t, InodeOf(slots[k]), parent);
          if parent {
            ghost var slots1 := slots;
            Iput(k, h);
            KeptTrans(h, h, h + multiset{k}, slots0, slots1, slots);
            return Absent, name;
          }
          return At(k), name;
        }
        name := n;
        T.TargetStep(t, InodeOf(slots[k]), comp, Tokens(path[next..]), parent);
        T.StepCut(t, InodeOf(slots[k]), comp);
        ghost var slots1 := slots;
        r := Enter(k, n, parent && next == |path|, h);
        if !r.Stop? {
          KeptTrans(h, h, h, slots0, slots1, slots);
        }
        if !r.At? || (parent && next == |path|) {
          return;
        }
        k, pos := r.k, next;
      }
    }
  }

  lemma Swap(h: multiset<nat>, k: nat, j: nat)
    ensures h + multiset{k} + multiset{j} == h + multiset{j} + multiset{k}
  {
  }
}
