/**
 The system calls on the kernel's tables and disks. Each one does to what programs see exactly what `World`
 says, whatever it returns, and a panic means that the kernel ran out of slots, blocks or process slots.
 */
module Syscalls {
  import opened Basics
  import opened Codec
  import opened Layout
  import opened Contents
  import opened Volumes
  import opened Paths
  import opened Items
  import opened Entries
  import opened Tables
  import opened Kernels
  import opened Files
  import opened Changes
  import D = Directory
  import N = Namespace
  import M = Mounts
  import T = Tree
  import W = World
  import R = Replay

  // ----- open -----

  /** The part of `fs_open` and `fs_create` that truncates: only a file is truncated. */
  method LockAndTruncate(kn: Kernel, k: nat, flags: W.Flags)
    requires kn.Ready() && k in kn.held && k < NINODE && (flags.truncate ==> kn.slots[k].dev == 1)
    modifies kn`slots, kn.v1
    ensures kn.Ready() && Kept(kn.held, old(kn.slots), kn.slots)
    ensures kn.slots[k].valid && kn.slots[k].ref > 0 && InodeOf(kn.slots[k]) == InodeOf(old(kn.slots)[k])
    ensures kn.World() == W.Emptied(old(kn.World()), InodeOf(old(kn.slots)[k]), flags)
  {
    hide Kernel.Steady, Kernel.Ready, Kernel.Sounds, Kernel.World, Covers, Kept, W.Shape, W.Referenced, W.ItemAt,
         W.WithItem;
    ghost var slots0 := kn.slots;
    kn.Ilock(k);
    ReadSlot(kn, k);
    if flags.truncate && kn.slots[k].d.typ == FT_FILE {
      ghost var slots1, b := kn.slots, W.ItemAt(kn.World(), InodeOf(kn.slots[k])).bytes;
      assert CutTo(b, 0) == [];
      TruncateSlot(kn, k, 0);
      KeptTrans(kn.held, kn.held, kn.held, slots0, slots1, kn.slots);
    }
  }

  /** `fs_open` */
  method Open(kn: Kernel, p: nat, path: string, flags: W.Flags) returns (r: W.Ret)
    requires kn.Valid() && p < PROCS_MAX
    modifies kn`slots, kn`files, kn`fds, kn`held, kn`loose, kn.v1
    ensures r.Halt? ==> W.Crowded(old(kn.World()), old(kn.Extra()) + 2)
    ensures !r.Halt? ==> kn.Ready() && kn.held == old(kn.held) && kn.loose == old(kn.loose)
    ensures !r.Halt? ==> (kn.World(), r) == W.Open(old(kn.World()), p, path, flags)
  {
    hide Kernel.Valid, Kernel.Steady, Kernel.Ready, Kernel.Sounds, Kernel.World, Covers, Kept, W.Shape, W.Referenced,
         W.Goal, W.Attach, W.AttachInode, W.Emptied, R.Good;
    if path == "console" {
      r := OpenConsole(kn, p, flags);
      return;
    }
    kn.LostHeld();
    ghost var h := kn.held;
    var w, _ := kn.Namex(p, path, false);
    if w.Stop? {
      return W.Halt;
    }
    if w.Absent? {
      return W.Fail(W.NotFound);
    }
    kn.HeldFacts(w.k);
    if kn.slots[w.k].dev == 0 && (flags.write || flags.truncate) {
      kn.Iput(w.k, h);
      return W.Fail(W.Denied);
    }
    LockAndTruncate(kn, w.k, flags);
    r := AllocFd(kn, p, w.k, flags, h);
  }

  // ----- create and mkdir -----

  lemma {:induction false} ScanText(s: string, cur: string)
    requires D.IsText(s) && D.IsText(cur)
    ensures forall t <- Scan(s, cur) :: D.IsText(t)
    decreases |s|
  {
    if s != "" {
      if s[0] == '/' {
        ScanText(s[1..], "");
      } else {
        ScanText(s[1..], cur + [s[0]]);
      }
    }
  }

  /** The last component of a path of bytes other than zero, as `skipto` cuts it, fits an entry. */
  lemma BaseNameIsName(path: string)
    requires D.IsText(path) && Tokens(path) != []
    ensures D.IsName(W.BaseName(path))
  {
    ScanText(path, "");
    assert T.Last(Tokens(path)) in Tokens(path);
  }

  /** A slot that the running code holds for a directory of device 1, and that has been read. */
  ghost predicate IsDirSlot(kn: Kernel, k: nat)
    reads kn, kn.v0, kn.v1
    requires kn.Steady()
  {
    && k in kn.held && k < NINODE && kn.slots[k].valid && kn.slots[k].dev == 1
    && kn.slots[k].inum < |kn.World().s1| && kn.World().s1[kn.slots[k].inum].Dir?
  }

  /** What a walk finds in such a directory. */
  lemma DirSlotIs(kn: Kernel, k: nat, name: string)
    requires kn.Ready() && IsDirSlot(kn, k)
    ensures InodeOf(kn.slots[k]) in kn.Tree().dirs
    ensures var m := kn.World().s1[kn.slots[k].inum].names;
            T.Lookup(kn.Tree(), InodeOf(kn.slots[k]), name) == if name in m then Some(T.Node(1, m[name])) else None
  {
    hide Kernel.Steady, Kernel.Ready, Kernel.Sounds, N.View, Handles, Seats, Nodes;
    M.JoinedIs(N.View(kn.v0), N.View(kn.v1), kn.mount, InodeOf(kn.slots[k]));
  }

  /** The walk to the parent directory of a path, which must be on device 1. */
  method Parent(kn: Kernel, p: nat, path: string) returns (w: Found, name: string, e: W.Error)
    requires kn.Valid() && p < PROCS_MAX && D.IsText(path)
    modifies kn`slots, kn`held
    ensures w.Stop? ==> W.Crowded(old(kn.World()), old(kn.Extra()) + 2)
    ensures !w.Stop? ==> kn.Valid() && kn.World() == old(kn.World())
    ensures w.Absent? ==> kn.held == old(kn.held) && W.Refusal(W.Goal(old(kn.World()), p, path, true)) == Some(e)
    ensures w.At? ==> kn.held == old(kn.held) + multiset{w.k} && IsDirSlot(kn, w.k)
    ensures w.At? ==> W.Goal(old(kn.World()), p, path, true) == Some(InodeOf(kn.slots[w.k]))
    ensures w.At? ==> Tokens(path) != [] && name == W.BaseName(path) && D.IsName(name)
  {
    hide Kernel.Valid, Kernel.Steady, Kernel.Ready, Kernel.Sounds, Kernel.World, Covers, Kept, W.Goal, W.BaseName,
         Tokens, R.Good;
    kn.LostHeld();
    ghost var h := kn.held;
    w, name := kn.Namex(p, path, true);
    e := W.NotFound;
    if w.At? {
      kn.HeldFacts(w.k);
      W.GoalIsDir(kn.World(), p, path);
      BaseNameIsName(path);
      if kn.slots[w.k].dev == 0 {
        kn.Iput(w.k, h);
        return Absent, name, W.Denied;
      }
    }
  }

  /** The inode of a name in the directory of slot `k`, emptied if asked to, or made. */
  method LookupOrMake(kn: Kernel, k: nat, name: string, flags: W.Flags) returns (r: Made)
    requires kn.Valid() && IsDirSlot(kn, k) && D.IsName(name)
    modifies kn`slots, kn`held, kn.v1
    ensures r.Panicked? ==> W.Crowded(old(kn.World()), old(kn.Extra())) || kn.DiskFull()
    ensures !r.Panicked? ==> kn.Ready()
    ensures r.New? ==>
              r.q < NINODE && kn.held == old(kn.held) + multiset{r.q} && Kept(old(kn.held), old(kn.slots), kn.slots)
    ensures r.New? ==> kn.slots[r.q].valid && kn.slots[r.q].ref > 0 && kn.slots[r.q].dev == 1
    ensures r.NoInode? || r.Beyond? ==> kn.held == old(kn.held) && kn.World() == old(kn.World())
    ensures var w, x := old(kn.World()), old(kn.slots)[k].inum;
            if name in w.s1[x].names
            then
              && !r.NoInode? && !r.Beyond?
              && (r.New? ==> && kn.World() == W.Emptied(w, InodeOf(kn.slots[r.q]), flags)
                             && kn.slots[r.q].inum == w.s1[x].names[name])
            else var made := W.MakeIn(w, x, name, false);
                 && (r.NoInode? || r.Beyond? ==> made.None? && (r.Beyond? <==> w.overruns))
                 && (r.New? ==> made == Some((kn.World(), kn.slots[r.q].inum)))
  {
    hide Kernel.Valid, Kernel.Steady, Kernel.Ready, Kernel.Sounds, Kernel.World, Kernel.Tree, Covers, Kept, W.Shape,
         W.Referenced, R.Good, W.Emptied, W.MakeIn, T.Lookup;
    ghost var h, slots0 := kn.held, kn.slots;
    DirSlotIs(kn, k, name);
    var found, _ := kn.LookupSlot(k, name);
    if found.Stop? {
      return Panicked;
    }
    if found.Absent? {
      r := Make(kn, k, name, false);
      return;
    }
    ghost var slots1, h1 := kn.slots, kn.held;
    LockAndTruncate(kn, found.k, flags);
    KeptTrans(h, h, h1, slots0, slots1, kn.slots);
    return New(found.k);
  }

  /** `fs_create` in the directory of slot `k`. */
  method CreateIn(kn: Kernel, p: nat, k: nat, name: string, flags: W.Flags, ghost h: multiset<nat>) returns (r: W.Ret)
    requires kn.Valid() && p < PROCS_MAX && kn.held == h + multiset{k} && Covers(h, kn.lostDirs)
    requires IsDirSlot(kn, k) && D.IsName(name)
    modifies kn`slots, kn`files, kn`fds, kn`held, kn`loose, kn.v1
    ensures r.Halt? ==> W.Crowded(old(kn.World()), old(kn.Extra())) || kn.DiskFull()
    ensures !r.Halt? ==> kn.Ready() && kn.held == h && kn.loose == old(kn.loose)
    ensures !r.Halt? ==> (kn.World(), r) == W.CreateIn(old(kn.World()), p, old(kn.slots)[k].inum, name, flags)
  {
    hide Kernel.Valid, Kernel.Steady, Kernel.Ready, Kernel.Sounds, Kernel.World, Covers, Kept, W.Shape, W.Referenced,
         R.Good, W.Emptied, W.MakeIn, W.AttachInode;
    var ip := LookupOrMake(kn, k, name, flags);
    if ip.Panicked? {
      return W.Halt;
    }
    if !ip.New? {
      kn.Iput(k, h);
      return if ip.Beyond? then W.Beyond else W.Fail(W.NoSpace);
    }
    ghost var slots1 := kn.slots;
    Swap(h, k, ip.q);
    CoversMore(h, kn.lostDirs, ip.q);
    kn.Iput(k, h + multiset{ip.q});
    KeptAt(h + multiset{ip.q} + multiset{k}, slots1, kn.slots, ip.q);
    kn.HeldFacts(ip.q);
    r := AllocFd(kn, p, ip.q, flags, h);
  }

  /** `fs_create`, called with the bit that asks for creation: opens the file of that name, made if need be. */
  method Create(kn: Kernel, p: nat, path: string, flags: W.Flags) returns (r: W.Ret)
    requires kn.Valid() && p < PROCS_MAX && D.IsText(path) && flags.create
    modifies kn`slots, kn`files, kn`fds, kn`held, kn`loose, kn.v1
    ensures r.Halt? ==> W.Crowded(old(kn.World()), old(kn.Extra()) + 2) || kn.DiskFull()
    ensures !r.Halt? ==> kn.Ready() && kn.held == old(kn.held) && kn.loose == old(kn.loose)
    ensures !r.Halt? ==> (kn.World(), r) == W.Create(old(kn.World()), p, path, flags)
  {
    hide Kernel.Valid, Kernel.Steady, Kernel.Ready, Kernel.Sounds, Kernel.World, Covers, Kept, W.Shape, W.Referenced,
         R.Good, W.Goal, W.BaseName, W.CreateIn, Tokens;
    kn.LostHeld();
    ghost var h := kn.held;
    var w, name, e := Parent(kn, p, path);
    if w.Stop? {
      return W.Halt;
    }
    if w.Absent? {
      return W.Fail(e);
    }
    r := CreateIn(kn, p, w.k, name, flags, h);
  }

  /** `fs_mkdir` in the directory of slot `k`. */
  method MkdirIn(kn: Kernel, k: nat, name: string, ghost h: multiset<nat>) returns (r: W.Ret)
    requires kn.Valid() && kn.held == h + multiset{k} && Covers(h, kn.lostDirs) && IsDirSlot(kn, k) && D.IsName(name)
    modifies kn`slots, kn`held, kn.v1
    ensures r.Halt? ==> W.Crowded(old(kn.World()), old(kn.Extra())) || kn.DiskFull()
    ensures !r.Halt? ==> kn.Ready() && kn.held == h
    ensures !r.Halt? ==> (kn.World(), r) == W.MkdirIn(old(kn.World()), old(kn.slots)[k].inum, name)
  {
    hide Kernel.Valid, Kernel.Steady, Kernel.Ready, Kernel.Sounds, Kernel.World, Kernel.Tree, Covers, Kept, W.Shape,
         W.Referenced, R.Good, W.MakeIn, T.Lookup;
    DirSlotIs(kn, k, name);
    CoversMore(h, kn.lostDirs, k);
    var found, _ := kn.LookupSlot(k, name);
    if found.Stop? {
      return W.Halt;
    }
    if found.At? {
      kn.Iput(found.k, h + multiset{k});
      kn.Iput(k, h);
      return W.Fail(W.AlreadyExists);
    }
    var made := Make(kn, k, name, true);
    if made.Panicked? {
      return W.Halt;
    }
    if made.New? {
      kn.Iput(made.q, h + multiset{k});
    }
    kn.Iput(k, h);
    return if made.New? then W.Success else if made.Beyond? then W.Beyond else W.Fail(W.NoSpace);
  }

  /** `fs_mkdir` */
  method Mkdir(kn: Kernel, p: nat, path: string) returns (r: W.Ret)
    requires kn.Valid() && p < PROCS_MAX && D.IsText(path)
    modifies kn`slots, kn`held, kn.v1
    ensures r.Halt? ==> W.Crowded(old(kn.World()), old(kn.Extra()) + 2) || kn.DiskFull()
    ensures !r.Halt? ==> kn.Ready() && kn.held == old(kn.held)
    ensures !r.Halt? ==> (kn.World(), r) == W.Mkdir(old(kn.World()), p, path)
  {
    hide Kernel.Valid, Kernel.Steady, Kernel.Ready, Kernel.Sounds, Kernel.World, Covers, Kept, W.Shape, W.Referenced,
         R.Good, W.Goal, W.BaseName, W.MkdirIn, Tokens;
    kn.LostHeld();
    ghost var h := kn.held;
    var w, name, e := Parent(kn, p, path);
    if w.Stop? {
      return W.Halt;
    }
    if w.Absent? {
      return W.Fail(e);
    }
    r := MkdirIn(kn, w.k, name, h);
  }

  // ----- rm -----

  /** `is_dir_empty` for the directory of slot `q`. */
  method IsEmptySlot(kn: Kernel, q: nat) returns (b: bool)
    requires kn.Ready() && q < NINODE && kn.slots[q].ref > 0 && kn.slots[q].valid
    requires W.ItemAt(kn.World(), InodeOf(kn.slots[q])).Dir?
    ensures b <==> IsEmptyDir(W.ItemAt(kn.World(), InodeOf(kn.slots[q])))
  {
    hide Kernel.Steady, Volume.Valid, N.Sound, N.View, Handles, Seats, Nodes, IsEmptyDir;
    ReadSlot(kn, q);
    var s := kn.slots[q];
    b := N.IsEmpty(kn.Vol(s.dev), s.inum, s.d);
  }

  /** The end of `fs_rm`: the entry goes, then the inode of slot `q`. For a dot that is the directory itself. */
  method Erase(kn: Kernel, k: nat, q: nat, name: string, off: nat) returns (ok: bool)
    requires kn.Ready() && IsDirSlot(kn, k) && q in kn.held && q < NINODE && kn.slots[q].valid
    requires kn.slots[k].inum < kn.v1.sb.ninodes && N.IsEntry(kn.v1, kn.slots[k].inum, name, off)
    requires var m := kn.World().s1[kn.slots[k].inum].names; name in m && InodeOf(kn.slots[q]) == T.Node(1, m[name])
    modifies kn`slots, kn.v1
    ensures !ok ==> kn.DiskFull()
    ensures ok ==> kn.Ready()
    ensures ok ==> kn.World() == WithItems(old(kn.World()), Removed(old(kn.World()).s1, old(kn.slots)[k].inum, name))
  {
    hide Kernel.Steady, Kernel.Ready, Kernel.Sounds, Kernel.World, Covers, Kept, W.Shape, W.Referenced, N.IsEntry,
         W.ItemAt;
    kn.HeldFacts(k);
    kn.HeldFacts(q);
    ReadSlot(kn, q);
    ItemCount(kn);
    ok := UnlinkSlot(kn, k, name, off);
    if ok {
      DropSlot(kn, q);
    }
  }

  lemma ItemCount(kn: Kernel)
    requires kn.Steady()
    ensures |kn.World().s1| == kn.v1.sb.ninodes
  {
    hide Volume.Valid, Exact;
  }

  /** `fs_rm` in the directory of slot `k`. */
  method RemoveIn(kn: Kernel, k: nat, name: string, ghost h: multiset<nat>) returns (r: W.Ret)
    requires kn.Valid() && kn.held == h + multiset{k} && Covers(h, kn.lostDirs) && IsDirSlot(kn, k)
    modifies kn`slots, kn`held, kn.v1
    ensures r.Halt? ==> W.Crowded(old(kn.World()), old(kn.Extra())) || kn.DiskFull()
    ensures !r.Halt? ==> kn.Ready() && kn.held == h
    ensures !r.Halt? ==> (kn.World(), r) == W.RemoveIn(old(kn.World()), old(kn.slots)[k].inum, name)
  {
    hide Kernel.Valid, Kernel.Steady, Kernel.Ready, Kernel.Sounds, Kernel.World, Kernel.Tree, Covers, Kept, W.Shape,
         W.Referenced, R.Good, T.Lookup, Removed, IsEmptyDir, W.ItemAt, N.IsEntry;
    DirSlotIs(kn, k, name);
    CoversMore(h, kn.lostDirs, k);
    ghost var slots0 := kn.slots;
    var found, off := kn.LookupSlot(k, name);
    if found.Stop? {
      return W.Halt;
    }
    if found.Absent? {
      kn.Iput(k, h);
      return W.Fail(W.NotFound);
    }
    var q := found.k;
    KeptAt(h + multiset{k}, slots0, kn.slots, k);
    ghost var slots1 := kn.slots;
    kn.Ilock(q);
    KeptAt(h + multiset{k} + multiset{q}, slots1, kn.slots, k);
    ReadSlot(kn, q);
    if kn.slots[q].d.typ == FT_DIRECTORY {
      var empty := IsEmptySlot(kn, q);
      if !empty {
        kn.Iput(q, h + multiset{k});
        kn.Iput(k, h);
        return W.Fail(W.DirectoryNotEmpty);
      }
    }
    var ok := Erase(kn, k, q, name, off);
    if !ok {
      return W.Halt;
    }
    kn.Iput(q, h + multiset{k});
    kn.Iput(k, h);
    return W.Success;
  }

  /** `fs_rm`. The names stay a tree exactly if the last component is not one of the dots, which it does not check. */
  method Remove(kn: Kernel, p: nat, path: string) returns (r: W.Ret)
    requires kn.Valid() && p < PROCS_MAX && D.IsText(path)
    modifies kn`slots, kn`held, kn.v1
    ensures r.Halt? ==> W.Crowded(old(kn.World()), old(kn.Extra()) + 2) || kn.DiskFull()
    ensures !r.Halt? ==> kn.Ready() && kn.held == old(kn.held)
    ensures !r.Halt? ==> (kn.World(), r) == W.Remove(old(kn.World()), p, path)
    ensures r == W.Success && old(kn.procs)[p] ==> Tokens(path) != [] && (kn.Valid() <==> !IsDots(W.BaseName(path)))
  {
    hide Kernel.Valid, Kernel.Steady, Kernel.Ready, Kernel.Sounds, Kernel.World, Covers, Kept, W.Shape, W.Referenced,
         R.Good, W.Goal, W.BaseName, W.RemoveIn, Tokens;
    kn.LostHeld();
    ghost var h, v := kn.held, kn.World();
    assert v.procs == kn.procs by { ProcsAre(kn); }
    var w, name, e := Parent(kn, p, path);
    if w.Stop? {
      return W.Halt;
    }
    if w.Absent? {
      return W.Fail(e);
    }
    r := RemoveIn(kn, w.k, name, h);
    if r == W.Success && v.procs[p] {
      R.RemoveGoodIff(v, p, path);
      ValidIs(kn);
    }
  }

  lemma ProcsAre(kn: Kernel)
    requires kn.Steady()
    ensures kn.World().procs == kn.procs && kn.World().paths == kn.paths && kn.World().fds == kn.fds && kn.Sizes()
    ensures |kn.World().files| == W.NFILE && |kn.World().cwds| == PROCS_MAX
  {
    hide Volume.Valid, Exact;
  }

  lemma ValidIs(kn: Kernel)
    requires kn.Ready()
    ensures kn.Valid() <==> R.Good(kn.World())
  {
    hide Kernel.Ready, R.Good;
  }

  // ----- read, write and ftruncate -----

  /** The file of an open descriptor is not free, and its slot has been read. */
  lemma FdIs(kn: Kernel, p: nat, fd: nat)
    requires kn.Steady() && p < PROCS_MAX && fd < W.NOFILE && kn.fds[W.NOFILE * p + fd].Some?
    ensures var f := kn.fds[W.NOFILE * p + fd].value;
            && f < W.NFILE && kn.files[f].ref > 0 && FileOk(kn.files[f], kn.slots)
            && W.HandleAt(kn.World(), p, fd) == HandleOf(kn.slots, kn.files[f])
            && (kn.files[f].ip.Some? ==>
                 kn.slots[kn.files[f].ip.value].ref > 0 && kn.slots[kn.files[f].ip.value].dev < 2)
  {
    hide Volume.Valid, N.Sound, N.View, Covers;
    FdFile(kn.Tab(), kn.v0.Inodes(), kn.v1.Inodes(), W.NOFILE * p + fd);
    hide Exact;
  }

  lemma NoFd(kn: Kernel, p: nat, fd: int)
    requires kn.Steady() && p < PROCS_MAX && (fd < 0 || fd >= W.NOFILE || kn.fds[W.NOFILE * p + fd].None?)
    ensures W.HandleAt(kn.World(), p, fd) == W.Free
  {
    hide Kernel.Steady, N.View;
  }

  /** The offset of an open file moves. */
  method SetOff(kn: Kernel, f: nat, off: word)
    requires kn.Steady() && f < W.NFILE
    modifies kn`files
    ensures kn.Steady() && (old(kn.Ready()) ==> kn.Ready())
    ensures kn.World() == WithFile(old(kn.World()), f, HandleOf(kn.slots, old(kn.files)[f].(off := off)))
  {
    hide Exact, Kept, Covers, Volume.Valid, N.Sound, N.View, Seats, Nodes, Handles, HandleOf, W.Shape, W.Referenced;
    AfterSeek(kn.Tab(), kn.v0.Inodes(), kn.v1.Inodes(), f, off);
    HandlesSet(kn.slots, kn.files, f, kn.files[f].(off := off));
    kn.files := kn.files[f := kn.files[f].(off := off)];
  }

  /** What `readi` returns for the inode of a slot that has been read. */
  method ReadSlotBytes(kn: Kernel, k: nat, off: word, n: nat) returns (ok: bool, data: seq<byte>)
    requires kn.Steady() && k < NINODE && kn.slots[k].ref > 0 && kn.slots[k].valid && n < 0x8000_0000
    ensures kn.slots[k].dev < 2 && kn.slots[k].inum < kn.Vol(kn.slots[k].dev).sb.ninodes
    ensures var b := kn.Vol(kn.slots[k].dev).Bytes(kn.slots[k].inum);
            && (ok <==> kn.slots[k].d.typ != FT_UNUSED && off <= |b| && off + n < 0x1_0000_0000)
            && (ok ==> data == b[off..if off + n <= |b| then off + n else |b|])
  {
    hide Kernel.Steady, N.Sound, N.View, Handles, Seats, Nodes, FileBytes, Volume.Valid;
    RecordIs(kn, k);
    var s := kn.slots[k];
    D.SizeFits(kn.Vol(s.dev), s.inum);
    var r;
    r, data := kn.Vol(s.dev).Readi(s.inum, s.d, off, n);
    ok := r.value >= 0;
  }

  /** What the bytes of a slot's inode are to programs. */
  lemma BytesAre(kn: Kernel, k: nat)
    requires kn.Ready() && k < NINODE && kn.slots[k].ref > 0 && kn.slots[k].valid
    ensures kn.slots[k].dev < 2 && kn.slots[k].inum < kn.Vol(kn.slots[k].dev).sb.ninodes
    ensures var b, i := kn.Vol(kn.slots[k].dev).Bytes(kn.slots[k].inum), W.ItemAt(kn.World(), InodeOf(kn.slots[k]));
            && (i.Unused? <==> kn.slots[k].d.typ == FT_UNUSED) && (i.Dir? <==> kn.slots[k].d.typ == FT_DIRECTORY)
            && (i.File? ==> i.bytes == b) && W.SizeOf(i) == |b| && (i.Dir? ==> i == DirOf(b))
  {
    hide Kernel.Steady, N.Sound, N.View, Handles, Seats, Nodes, FileBytes, Volume.Valid, D.Listing, D.Dirents;
    ReadSlot(kn, k);
    N.TypeIs(kn.Vol(kn.slots[k].dev), kn.slots[k].inum);
    N.UnusedHasNoBytes(kn.Vol(kn.slots[k].dev), kn.slots[k].inum);
  }

  /** `fs_read` of at most `n` bytes; `typed` is what comes from the keyboard. */
  method Read(kn: Kernel, p: nat, fd: int, n: nat, typed: seq<byte>) returns (r: W.Ret, data: seq<byte>)
    requires kn.Steady() && p < PROCS_MAX && n < 0x8000_0000
    modifies kn`files
    ensures kn.Steady() && !r.Halt?
    ensures old(kn.Ready()) ==> kn.Ready() && (kn.World(), r) == W.Read(old(kn.World()), p, fd, n, typed)
    ensures r.Data? ==> data == r.bytes
    ensures r.Entries? ==>
              var h := W.HandleAt(old(kn.World()), p, fd);
              && h.OnInode? && h.node.dev < 2 && h.node.inum < kn.Vol(h.node.dev).sb.ninodes && |data| == r.n
              && var b := kn.Vol(h.node.dev).Bytes(h.node.inum);
              && h.off + r.n <= |b| && data == b[h.off..h.off + r.n]
  {
    hide Kernel.Steady, Kernel.Ready, Kernel.Sounds, Kernel.World, Covers, Kept, W.Shape, W.Referenced, W.ItemAt,
         W.HandleAt, FileBytes, DirOf;
    ProcsAre(kn);
    data := [];
    if fd < 0 || fd >= W.NOFILE || kn.fds[W.NOFILE * p + fd].None? {
      NoFd(kn, p, fd);
      return W.Fail(W.BadFile), data;
    }
    FdIs(kn, p, fd);
    var f := kn.fds[W.NOFILE * p + fd].value;
    var file := kn.files[f];
    if !file.readable {
      return W.Fail(W.Denied), data;
    }
    if file.kind != Inode {
      return W.Data(typed), typed;
    }
    r, data := ReadInode(kn, p, fd, n, typed);
  }

  /** The same for a descriptor that is open for reading on an inode. */
  method ReadInode(kn: Kernel, p: nat, fd: nat, n: nat, ghost typed: seq<byte>) returns (r: W.Ret, data: seq<byte>)
    requires kn.Steady() && p < PROCS_MAX && n < 0x8000_0000 && fd < W.NOFILE && kn.fds[W.NOFILE * p + fd].Some?
    requires var h := W.HandleAt(kn.World(), p, fd); h.OnInode? && h.readable
    modifies kn`files
    ensures kn.Steady() && !r.Halt?
    ensures old(kn.Ready()) ==> kn.Ready() && (kn.World(), r) == W.Read(old(kn.World()), p, fd, n, typed)
    ensures r.Data? ==> data == r.bytes
    ensures r.Entries? ==>
              var h := W.HandleAt(old(kn.World()), p, fd);
              && h.OnInode? && h.node.dev < 2 && h.node.inum < kn.Vol(h.node.dev).sb.ninodes && |data| == r.n
              && var b := kn.Vol(h.node.dev).Bytes(h.node.inum);
              && h.off + r.n <= |b| && data == b[h.off..h.off + r.n]
  {
    hide Kernel.Steady, Kernel.Ready, Kernel.Sounds, Kernel.World, Covers, Kept, W.Shape, W.Referenced, W.ItemAt,
         W.HandleAt, FileBytes, DirOf, W.Read, W.Seek;
    ProcsAre(kn);
    FdIs(kn, p, fd);
    var f := kn.fds[W.NOFILE * p + fd].value;
    var k, off := kn.files[f].ip.value, kn.files[f].off;
    if kn.Ready() {
      BytesAre(kn, k);
    }
    var ok;
    ok, data := ReadSlotBytes(kn, k, off, n);
    if kn.Ready() {
      ReadIs(kn.World(), p, fd, n, typed, kn.Vol(kn.slots[k].dev).Bytes(kn.slots[k].inum));
    }
    if !ok {
      return W.Fail(W.NotPermitted), data;
    }
    MovedOff(kn.World(), p, fd, off + |data|);
    var isDir := kn.slots[k].d.typ == FT_DIRECTORY;
    SetOff(kn, f, off + |data|);
    return if isDir then W.Entries(|data|) else W.Data(data), data;
  }

  /** What a read of an inode with bytes `b` gives. */
  lemma ReadIs(w: W.World, p: nat, fd: int, n: nat, typed: seq<byte>, b: seq<byte>)
    requires W.Shape(w) && p < PROCS_MAX && W.HandleAt(w, p, fd).OnInode? && W.HandleAt(w, p, fd).readable
    requires var i := W.ItemAt(w, W.HandleAt(w, p, fd).node);
             (i.File? ==> i.bytes == b) && (!i.Unused? ==> W.SizeOf(i) == |b|)
    ensures var h := W.HandleAt(w, p, fd);
            var i := W.ItemAt(w, h.node);
            if i.Unused? || h.off > |b| || h.off + n >= 0x1_0000_0000
            then W.Read(w, p, fd, n, typed) == (w, W.Fail(W.NotPermitted))
            else
              var end := if h.off + n <= |b| then h.off + n else |b|;
              && W.Read(w, p, fd, n, typed).0 == W.Seek(w, p, fd, end)
              && W.Read(w, p, fd, n, typed).1 == if i.Dir? then W.Entries(end - h.off) else W.Data(b[h.off..end])
  {
    hide W.ItemAt, W.HandleAt, W.Seek;
  }

  /** The inode of a descriptor, a directory or unused, has bytes `b`, and the offset moved. */
  function Scribbled(w: W.World, p: nat, fd: int, b: seq<byte>, off: nat): W.World
    requires W.Shape(w) && p < PROCS_MAX && W.HandleAt(w, p, fd).OnInode?
  {
    var x := W.HandleAt(w, p, fd).node;
    var v := W.Seek(w, p, fd, off);
    W.WithItem(v, x, if W.ItemAt(w, x).Dir? then DirOf(b) else Unused)
  }

  /**
   `fs_write`. Written to a file it does what it should. Written to a directory or to an inode that was removed,
   the tables and blocks still are right, and the names are what the bytes say.
   */
  method Write(kn: Kernel, p: nat, fd: int, src: seq<byte>) returns (r: W.Ret)
    requires kn.Steady() && p < PROCS_MAX && |src| < 0x8000_0000
    modifies kn`slots, kn`files, kn.v1
    ensures r.Halt? ==> kn.DiskFull()
    ensures !r.Halt? ==> kn.Steady()
    ensures !r.Halt? && old(kn.Ready()) && W.Write(old(kn.World()), p, fd, src).1 != W.Untold ==>
              kn.Ready() && (kn.World(), r) == W.Write(old(kn.World()), p, fd, src)
    ensures !r.Halt? && old(kn.Ready()) && W.Write(old(kn.World()), p, fd, src).1 == W.Untold ==>
              var w, h := old(kn.World()), W.HandleAt(old(kn.World()), p, fd);
              && r == W.Count(|src|) && h.OnInode? && h.node.dev == 1 && h.node.inum < kn.v1.sb.ninodes
              && h.off <= |old(kn.v1.Bytes(h.node.inum))|
              && kn.World() == Scribbled(w, p, fd, Overwrite(old(kn.v1.Bytes(h.node.inum)), h.off, src), h.off + |src|)
  {
    hide Kernel.Steady, Kernel.Ready, Kernel.Sounds, Kernel.World, Covers, Kept, W.Shape, W.Referenced, W.ItemAt,
         W.HandleAt, Overwrite, W.WithItem, W.SizeOf, W.Seek, FileBytes, DirOf, Scribbled;
    ProcsAre(kn);
    if fd < 0 || fd >= W.NOFILE || kn.fds[W.NOFILE * p + fd].None? {
      NoFd(kn, p, fd);
      return W.Fail(W.BadFile);
    }
    FdIs(kn, p, fd);
    var file := kn.files[kn.fds[W.NOFILE * p + fd].value];
    if !file.writable {
      return W.Fail(W.Denied);
    }
    if file.kind != Inode {
      return W.Count(|src|);
    }
    r := WriteInode(kn, p, fd, src);
  }

  /** The same for a descriptor that is open for writing on an inode. */
  method WriteInode(kn: Kernel, p: nat, fd: nat, src: seq<byte>) returns (r: W.Ret)
    requires kn.Steady() && p < PROCS_MAX && |src| < 0x8000_0000 && fd < W.NOFILE && kn.fds[W.NOFILE * p + fd].Some?
    requires var h := W.HandleAt(kn.World(), p, fd); h.OnInode? && h.writable
    modifies kn`slots, kn`files, kn.v1
    ensures r.Halt? ==> kn.DiskFull()
    ensures !r.Halt? ==> kn.Steady()
    ensures !r.Halt? && old(kn.Ready()) && W.Write(old(kn.World()), p, fd, src).1 != W.Untold ==>
              kn.Ready() && (kn.World(), r) == W.Write(old(kn.World()), p, fd, src)
    ensures !r.Halt? && old(kn.Ready()) && W.Write(old(kn.World()), p, fd, src).1 == W.Untold ==>
              var w, h := old(kn.World()), W.HandleAt(old(kn.World()), p, fd);
              && r == W.Count(|src|) && h.OnInode? && h.node.dev == 1 && h.node.inum < kn.v1.sb.ninodes
              && h.off <= |old(kn.v1.Bytes(h.node.inum))|
              && kn.World() == Scribbled(w, p, fd, Overwrite(old(kn.v1.Bytes(h.node.inum)), h.off, src), h.off + |src|)
  {
    hide Kernel.Steady, Kernel.Ready, Kernel.Sounds, Kernel.World, Covers, Kept, W.Shape, W.Referenced, W.ItemAt,
         W.HandleAt, Overwrite, W.WithItem, W.SizeOf, W.Seek, FileBytes, DirOf, W.Write, N.ItemOf;
    ProcsAre(kn);
    FdIs(kn, p, fd);
    var f := kn.fds[W.NOFILE * p + fd].value;
    var k, off := kn.files[f].ip.value, kn.files[f].off;
    if kn.Ready() {
      SlotSize(kn, k);
      BytesAre(kn, k);
    }
    WriteIs(kn.World(), p, fd, src);
    MovedOff(kn.World(), p, fd, off + |src|);
    var w := WriteSlot(kn, k, off, src);
    if w.Panic? {
      return W.Halt;
    }
    if w.value < 0 {
      return W.Fail(W.NoSpace);
    }
    if kn.slots[k].d.typ != FT_FILE {
      ByType(kn.slots[k].d, Overwrite(old(kn.v1.Bytes(kn.slots[k].inum)), off, src));
    }
    if w.value > 0 {
      SetOff(kn, f, off + w.value);
    }
    return W.Count(|src|);
  }

  lemma WriteIs(w: W.World, p: nat, fd: int, src: seq<byte>)
    requires W.Shape(w) && p < PROCS_MAX && W.HandleAt(w, p, fd).OnInode? && W.HandleAt(w, p, fd).writable
    ensures var h, r := W.HandleAt(w, p, fd), W.Write(w, p, fd, src);
            var i := W.ItemAt(w, h.node);
            && (i.File? ==> W.SizeOf(i) == |i.bytes|)
            && if h.off > W.SizeOf(i) || h.off + |src| > MAXBYTES then r == (w, W.Fail(W.NoSpace))
               else if i.File? then
                 && r.0 == W.Seek(W.WithItem(w, h.node, Item.File(Overwrite(i.bytes, h.off, src))), p, fd, h.off +
                      |src|)
                 && r.1 == W.Count(|src|)
               else if src == [] then r == (w, W.Count(0))
               else r == (w, W.Untold)
  {
    hide W.ItemAt, W.HandleAt, W.Seek, W.WithItem, Overwrite;
  }

  lemma ByType(d: Dinode, b: seq<byte>)
    ensures d.typ == FT_UNUSED ==> N.ItemOf(d, b) == Unused
    ensures d.typ == FT_DIRECTORY ==> N.ItemOf(d, b) == DirOf(b)
  {
  }

  /** The descriptor's offset moves in whatever became of the inode. */
  lemma MovedOff(w: W.World, p: nat, fd: nat, off: nat)
    requires W.Shape(w) && p < PROCS_MAX && fd < W.NOFILE && W.HandleAt(w, p, fd).OnInode?
    ensures var i, h := W.NOFILE * p + fd, W.HandleAt(w, p, fd);
            && w.fds[i].Some? && W.Seek(w, p, fd, off) == WithFile(w, w.fds[i].value, h.(off := off))
            && forall x, item {:trigger W.WithItem(w, x, item)} :: var v := W.WithItem(w, x, item);
                 && W.Shape(v) && W.Seek(v, p, fd, off) == WithFile(v, w.fds[i].value, h.(off := off))
                 && W.WithItem(W.Seek(w, p, fd, off), x, item) == W.Seek(v, p, fd, off)
                 && (off == h.off ==> W.Seek(v, p, fd, off) == v)
  {
    var i, h := W.NOFILE * p + fd, W.HandleAt(w, p, fd);
    forall x, item
      ensures var v := W.WithItem(w, x, item);
              && W.Shape(v) && W.Seek(v, p, fd, off) == WithFile(v, w.fds[i].value, h.(off := off))
              && W.WithItem(W.Seek(w, p, fd, off), x, item) == W.Seek(v, p, fd, off)
              && (off == h.off ==> W.Seek(v, p, fd, off) == v)
    {
      var v := W.WithItem(w, x, item);
      assert v.files[w.fds[i].value := h] == v.files;
    }
  }

  /** `fs_ftruncate`. Of a directory the tables and blocks stay right, and the names are what the bytes left say. */
  method Truncate(kn: Kernel, p: nat, fd: int, length: int) returns (r: W.Ret)
    requires kn.Steady() && p < PROCS_MAX && length < 0x8000_0000
    modifies kn`slots, kn.v1
    ensures kn.Steady() && !r.Halt?
    ensures old(kn.Ready()) && W.Truncate(old(kn.World()), p, fd, length).1 != W.Untold ==>
              kn.Ready() && (kn.World(), r) == W.Truncate(old(kn.World()), p, fd, length)
    ensures old(kn.Ready()) && W.Truncate(old(kn.World()), p, fd, length).1 == W.Untold ==>
              var w, h := old(kn.World()), W.HandleAt(old(kn.World()), p, fd);
              && r == W.Success && length >= 0 && h.OnInode? && h.node.dev == 1 && h.node.inum < kn.v1.sb.ninodes
              && kn.World() == W.WithItem(w, h.node, DirOf(CutTo(old(kn.v1.Bytes(h.node.inum)), length)))
  {
    hide Kernel.Steady, Kernel.Ready, Kernel.Sounds, Kernel.World, Covers, Kept, W.Shape, W.Referenced, W.ItemAt,
         W.HandleAt, CutTo, W.WithItem, FileBytes, DirOf;
    ProcsAre(kn);
    if fd < 0 || fd >= W.NOFILE || kn.fds[W.NOFILE * p + fd].None? {
      NoFd(kn, p, fd);
      return W.Fail(W.BadFile);
    }
    FdIs(kn, p, fd);
    var file := kn.files[kn.fds[W.NOFILE * p + fd].value];
    if !file.writable {
      return W.Fail(W.Denied);
    }
    if length < 0 {
      return W.Fail(W.Invalid);
    }
    if file.kind != Inode {
      return W.Fail(W.Invalid);
    }
    if kn.Ready() {
      SlotSize(kn, file.ip.value);
      BytesAre(kn, file.ip.value);
    }
    TruncateSlot(kn, file.ip.value, length);
    return W.Success;
  }

  /** The bytes of the directory that a descriptor is open for writing on. */
  lemma DirectoryAt(kn: Kernel, p: nat, fd: int)
    requires kn.Valid() && p < PROCS_MAX
    requires var h := W.HandleAt(kn.World(), p, fd); h.OnInode? && h.writable && W.ItemAt(kn.World(), h.node).Dir?
    ensures var h := W.HandleAt(kn.World(), p, fd);
            && h.node.dev == 1 && h.node.inum < kn.v1.sb.ninodes
            && var s, b := kn.World().s1, kn.v1.Bytes(h.node.inum);
            && IsTree(s) && h.node.inum < |s| && s[h.node.inum] == DirOf(b) && D.IsDirectory(b)
            && W.ItemAt(kn.World(), h.node) == s[h.node.inum] && W.SizeOf(s[h.node.inum]) == |b|
  {
    hide Kernel.Steady, N.View, Handles, Seats, Nodes, Volume.Valid, IsTree, FileBytes, D.IsDirectory, DirOf, D.Dirents;
    var h := W.HandleAt(kn.World(), p, fd);
    if 0 <= fd < W.NOFILE && kn.fds[W.NOFILE * p + fd].None? {
      NoFd(kn, p, fd);
    }
    FdIs(kn, p, fd);
    var k := kn.files[kn.fds[W.NOFILE * p + fd].value].ip.value;
    BytesAre(kn, k);
    kn.Volumes2();
    N.TypeIs(kn.v1, h.node.inum);
  }

  /** Cutting an open directory leaves a tree exactly if all entries that go are free. */
  method TruncateDirectory(kn: Kernel, p: nat, fd: int, length: int) returns (r: W.Ret)
    requires kn.Valid() && p < PROCS_MAX && length < 0x8000_0000
    requires var h := W.HandleAt(kn.World(), p, fd);
             && h.OnInode? && h.writable && W.ItemAt(kn.World(), h.node).Dir?
             && 0 <= length < W.SizeOf(W.ItemAt(kn.World(), h.node))
    modifies kn`slots, kn.v1
    ensures kn.Steady() && r == W.Success
    ensures W.HandleAt(old(kn.World()), p, fd).node.inum < kn.v1.sb.ninodes
    ensures var b := old(kn.v1.Bytes(W.HandleAt(kn.World(), p, fd).node.inum));
            IsTree(kn.World().s1) <==> forall k :: length / 32 <= k < |b| / 32 ==> D.Dirents(b)[k].inum == 0
  {
    hide Kernel.Valid, Kernel.Steady, Kernel.Ready, Kernel.Sounds, Kernel.World, Covers, Kept, W.Shape, W.Referenced,
         IsTree, FileBytes, DirOf, D.Dirents, R.Good, W.HandleAt;
    ProcsAre(kn);
    DirectoryAt(kn, p, fd);
    ghost var x := W.HandleAt(kn.World(), p, fd).node.inum;
    CutKeepsTreeIff(kn.World().s1, x, kn.v1.Bytes(x), length);
    r := Truncate(kn, p, fd, length);
  }

  /** Writing zeros over an entry of an open directory leaves a tree exactly if the entry was free. */
  method ClearDirectory(kn: Kernel, p: nat, fd: int) returns (r: W.Ret)
    requires kn.Valid() && p < PROCS_MAX
    requires var h := W.HandleAt(kn.World(), p, fd);
             && h.OnInode? && h.writable && W.ItemAt(kn.World(), h.node).Dir?
             && h.off % 32 == 0 && h.off < W.SizeOf(W.ItemAt(kn.World(), h.node)) <= MAXBYTES
    modifies kn`slots, kn`files, kn.v1
    ensures r.Halt? ==> kn.DiskFull()
    ensures W.HandleAt(old(kn.World()), p, fd).node.inum < kn.v1.sb.ninodes
    ensures var h := W.HandleAt(old(kn.World()), p, fd);
            && h.off / 32 < |old(kn.v1.Bytes(h.node.inum))| / 32
            && (!r.Halt? ==>
                  && kn.Steady() && r == W.Count(32)
                  && (IsTree(kn.World().s1) <==> D.Dirents(old(kn.v1.Bytes(h.node.inum)))[h.off / 32].inum == 0))
  {
    hide Kernel.Valid, Kernel.Steady, Kernel.Ready, Kernel.Sounds, Kernel.World, Covers, Kept, W.Shape, W.Referenced,
         IsTree, FileBytes, D.Dirents, R.Good, W.HandleAt, Overwrite, D.Unique;
    ProcsAre(kn);
    DirectoryAt(kn, p, fd);
    ghost var h := W.HandleAt(kn.World(), p, fd);
    ClearKeepsTreeIff(kn.World().s1, h.node.inum, kn.v1.Bytes(h.node.inum), h.off / 32);
    r := Write(kn, p, fd, Zeros);
  }

  // ----- chdir -----

  /** The process takes the held slot `k` as its current directory and gives up the one it had. */
  method SetCwd(kn: Kernel, p: nat, k: nat, ghost h: multiset<nat>)
    requires kn.Ready() && p < PROCS_MAX && kn.held == h + multiset{k} && k < NINODE && Covers(h, kn.lostDirs)
    modifies kn`slots, kn`cwds, kn`held
    ensures kn.Ready() && kn.held == h
    ensures kn.World() == old(kn.World()).(cwds := old(kn.World()).cwds[p := Some(InodeOf(old(kn.slots)[k]))])
  {
    hide Kernel.Steady, Kernel.Ready, Kernel.Sounds, Kernel.World, Covers, Kept, W.Shape, W.Referenced;
    var was := kn.cwds[p];
    PutCwd(kn, p, Some(k), h);
    if was.Some? {
      kn.Iput(was.value, h);
    } else {
      assert h + multiset{} == h;
    }
  }

  /** The current directory changes hands with the running code. */
  method PutCwd(kn: Kernel, p: nat, c: Option<nat>, ghost h: multiset<nat>)
    requires kn.Steady() && p < PROCS_MAX && kn.held == h + Bag(c) && Covers(h, kn.lostDirs)
    modifies kn`cwds, kn`held
    ensures kn.Steady() && (old(kn.Ready()) ==> kn.Ready())
    ensures kn.held == h + Bag(old(kn.cwds)[p])
    ensures kn.World() == old(kn.World()).(cwds := old(kn.World()).cwds[p := NodeAt(kn.slots, c)])
  {
    hide Exact, Kept, Covers, Volume.Valid, N.Sound, N.View, Seats, Nodes, Handles, Bag;
    AfterCwd(kn.Tab(), kn.v0.Inodes(), kn.v1.Inodes(), p, c, h);
    SeatsSet(kn.slots, kn.cwds, p, c);
    CoversBag(h, kn.lostDirs, kn.cwds[p]);
    kn.held := h + Bag(kn.cwds[p]);
    kn.cwds := kn.cwds[p := c];
  }

  method SetPath(kn: Kernel, p: nat, text: string)
    requires kn.Ready() && p < PROCS_MAX
    modifies kn`paths
    ensures kn.Ready() && kn.World() == old(kn.World()).(paths := old(kn.World()).paths[p := text])
  {
    hide Exact, Covers, Volume.Valid, N.Sound, N.View, Seats, Nodes, Handles;
    kn.paths := kn.paths[p := text];
  }

  /** The `chdir` system call, unless the buffer that it joins the texts in would lack its terminating zero. */
  method ChangeDir(kn: Kernel, p: nat, path: string) returns (r: W.Ret)
    requires kn.Valid() && p < PROCS_MAX && (IsAbsolute(path) || |kn.paths[p]| < BUF_CAP)
    modifies kn`slots, kn`cwds, kn`held, kn`paths
    ensures r.Halt? ==> W.Crowded(old(kn.World()), old(kn.Extra()) + 2)
    ensures !r.Halt? ==> kn.Ready() && kn.held == old(kn.held) && (kn.World(), r) == W.Chdir(old(kn.World()), p, path)
  {
    hide Kernel.Valid, Kernel.Steady, Kernel.Ready, Kernel.Sounds, Kernel.World, Kernel.Tree, Covers, Kept, W.Shape,
         W.Referenced, R.Good, W.Goal, W.TreeOf, Normalize, Cut, IsAbsolute;
    kn.LostHeld();
    ProcsAre(kn);
    TreeIs(kn);
    ghost var h := kn.held;
    var w, _ := kn.Namex(p, path, false);
    if w.Stop? {
      return W.Halt;
    }
    if w.Absent? {
      return W.Fail(W.NotFound);
    }
    var isDir := kn.IsDirectory(w.k);
    if !isDir {
      kn.Iput(w.k, h);
      return W.Fail(W.NotADirectory);
    }
    var text := NormalizePath(kn.paths[p], path, 256);
    CutTwice(Normalize(kn.paths[p], path));
    SetCwd(kn, p, w.k, h);
    SetPath(kn, p, Cut(text, 255));
    return W.Success;
  }

  lemma TreeIs(kn: Kernel)
    requires kn.Steady()
    ensures kn.Tree() == W.TreeOf(kn.World())
  {
    hide Volume.Valid, Exact, N.View, M.Joined;
  }

  lemma CutTwice(s: string)
    ensures Cut(Cut(s, 255), 255) == Cut(s, 255)
  {
  }

  // ----- processes -----

  /** The next console file, for reading or for writing. */
  method OpenNext(kn: Kernel, input: bool) returns (f: Option<nat>)
    requires kn.Ready()
    modifies kn`files, kn`held, kn`loose
    ensures kn.Ready() && kn.held == old(kn.held) && f == W.FirstFree(old(kn.World()).files, 0)
    ensures f.None? ==> kn.loose == old(kn.loose) && kn.World() == old(kn.World())
    ensures f.Some? ==> kn.loose == old(kn.loose) + multiset{f.value}
    ensures f.Some? ==> kn.World() == WithFile(old(kn.World()), f.value, W.OnConsole(1, input, !input))
  {
    hide Kernel.Steady, Kernel.Ready, Kernel.Sounds, Covers, Kept, W.Shape, W.Referenced, W.FirstFree, Handles, Seats,
         Nodes, N.View;
    kn.LostHeld();
    f := FindFile(kn);
    if f.Some? {
      assert kn.held + multiset{} == kn.held;
      OpenFile(kn, f.value, Tables.File(1, Console, input, !input, None, 0), kn.held);
    }
  }

  lemma SkipTaken(files: seq<W.Handle>, a: nat, h: W.Handle, i: nat)
    requires a < |files| && !h.Free? && (if a < i then true else W.FirstFree(files, i) == Some(a))
    ensures W.FirstFree(files[a := h], i) == W.FirstFree(files, if a < i then i else a + 1)
  {
    var g := files[a := h];
    var r, q := W.FirstFree(g, i), W.FirstFree(files, if a < i then i else a + 1);
    if r.Some? {
      assert g[r.value] == files[r.value];
    }
    if q.Some? {
      assert g[q.value] == files[q.value];
    }
  }

  const INPUT: W.Handle := W.OnConsole(1, true, false)
  const OUTPUT: W.Handle := W.OnConsole(1, false, true)

  /** Looking for a free entry three times finds the first three, in this order. */
  lemma Three(files: seq<W.Handle>)
    ensures var a := W.FirstFree(files, 0);
            if a.None? then W.ThreeFree(files) == []
            else
              var files1 := files[a.value := INPUT];
              var b := W.FirstFree(files1, 0);
              && files1[a.value := W.Free] == files
              && if b.None? then W.ThreeFree(files) == []
                 else
                   var files2 := files1[b.value := OUTPUT];
                   var c := W.FirstFree(files2, 0);
                   && files2[b.value := W.Free] == files1
                   && if c.None? then W.ThreeFree(files) == []
                      else W.ThreeFree(files) == [a.value, b.value, c.value]
                           && W.ThreeOpened(files, W.ThreeFree(files)) == files2[c.value := OUTPUT]
  {
    hide W.FirstFree;
    var a := W.FirstFree(files, 0);
    if a.Some? {
      SkipTaken(files, a.value, INPUT, 0);
      var files1 := files[a.value := INPUT];
      var b := W.FirstFree(files1, 0);
      if b.Some? {
        SkipTaken(files1, b.value, OUTPUT, 0);
        SkipTaken(files, a.value, INPUT, b.value + 1);
      }
    }
  }

  /** Three console files, or none: what was opened is closed again if the table has no room for all. */
  method ConsoleFiles(kn: Kernel) returns (fs: seq<nat>)
    requires kn.Ready()
    modifies kn`slots, kn`files, kn`held, kn`loose
    ensures kn.Ready() && kn.held == old(kn.held) && kn.loose == old(kn.loose) + multiset(fs)
    ensures fs == W.ThreeFree(old(kn.World()).files)
    ensures kn.World() == old(kn.World()).(files := W.ThreeOpened(old(kn.World()).files, fs))
  {
    hide Kernel.Steady, Kernel.Ready, Kernel.Sounds, Kernel.World, Covers, Kept, W.Shape, W.Referenced, W.FirstFree,
         W.ThreeFree;
    ghost var w, m := kn.World(), kn.loose;
    Three(w.files);
    var a := OpenNext(kn, true);
    if a.None? {
      assert m + multiset([]) == m;
      return [];
    }
    var b := OpenNext(kn, false);
    if b.None? {
      CloseFile(kn, a.value, m);
      assert m + multiset([]) == m;
      return [];
    }
    var c := OpenNext(kn, false);
    if c.None? {
      CloseFile(kn, b.value, m + multiset{a.value});
      CloseFile(kn, a.value, m);
      assert m + multiset([]) == m;
      return [];
    }
    fs := [a.value, b.value, c.value];
    assert m + multiset(fs) == m + multiset{a.value} + multiset{b.value} + multiset{c.value};
  }

  /** The first unused process slot. */
  method FindProc(kn: Kernel) returns (q: Option<nat>)
    requires |kn.procs| == PROCS_MAX
    ensures q == W.FirstUnusedProc(kn.procs, 0)
  {
    for i := 0 to PROCS_MAX
      invariant W.FirstUnusedProc(kn.procs, 0) == W.FirstUnusedProc(kn.procs, i)
    {
      if !kn.procs[i] {
        return Some(i);
      }
    }
    return None;
  }

  /** Three files become the first descriptors of process `q`. */
  method GiveFiles(kn: Kernel, q: nat, fs: seq<nat>, ghost m: multiset<nat>)
    requires kn.Ready() && q < PROCS_MAX && (fs == [] || |fs| == 3) && kn.loose == m + multiset(fs)
    requires forall i :: W.NOFILE * q <= i < W.NOFILE * q + W.NOFILE ==> kn.fds[i] == None
    modifies kn`fds, kn`loose
    ensures kn.Ready() && kn.loose == m
    ensures kn.World() == old(kn.World()).(fds := W.ThreeGiven(old(kn.World()).fds, q, fs))
  {
    hide Kernel.Steady, Kernel.Ready, Kernel.Sounds, Covers, Kept, W.Shape, W.Referenced, Handles, Seats, Nodes, N.View;
    if |fs| == 3 {
      assert m + multiset(fs) == m + multiset{fs[2]} + multiset{fs[1]} + multiset{fs[0]} by {
        assert fs == [fs[0], fs[1], fs[2]];
      }
      GiveFile(kn, W.NOFILE * q, fs[0], m + multiset{fs[2]} + multiset{fs[1]});
      GiveFile(kn, W.NOFILE * q + 1, fs[1], m + multiset{fs[2]});
      GiveFile(kn, W.NOFILE * q + 2, fs[2], m);
    } else {
      assert m + multiset(fs) == m;
    }
  }

  /** The process slot comes into use, or goes out of use. */
  method SetProc(kn: Kernel, q: nat, used: bool)
    requires kn.Steady() && q < PROCS_MAX
    modifies kn`procs
    ensures kn.Steady() && (old(kn.Ready()) ==> kn.Ready())
    ensures kn.World() == old(kn.World()).(procs := old(kn.World()).procs[q := used])
  {
    hide Exact, Covers, Volume.Valid, N.Sound, N.View, Seats, Nodes, Handles;
    kn.procs := kn.procs[q := used];
  }

  /** What a failed `spawn` opened belongs to nobody from now on. */
  ghost method Lose(kn: Kernel, k: nat, fs: seq<nat>, h: multiset<nat>, m: multiset<nat>)
    requires kn.Ready() && AreJust(h, kn.lostDirs) && AreJust(m, kn.lostFiles)
    requires kn.held == h + multiset{k} && k < NINODE && kn.loose == m + multiset(fs)
    modifies kn`lostDirs, kn`lostFiles
    ensures kn.Ready() && kn.Quiet()
    ensures var w := old(kn.World());
            kn.World() == w.(lostDirs := w.lostDirs + [InodeOf(kn.slots[k])], lostFiles := w.lostFiles + fs)
  {
    hide Exact, Volume.Valid, N.Sound, N.View, Seats, Nodes, Handles;
    NodesMore(kn.slots, kn.lostDirs, k);
    kn.lostDirs := kn.lostDirs + [k];
    kn.lostFiles := kn.lostFiles + fs;
    assert kn.held == multiset(kn.lostDirs) && kn.loose == multiset(kn.lostFiles);
  }

  /** The new process `q` takes the held slot `k` as its current directory, its parent's text, and the console files. */
  method Adopt(kn: Kernel, q: nat, k: nat, path: string, fs: seq<nat>, ghost h: multiset<nat>, ghost m: multiset<nat>)
    requires kn.Ready() && q < PROCS_MAX && kn.held == h + multiset{k} && k < NINODE && Covers(h, kn.lostDirs)
    requires (fs == [] || |fs| == 3) && kn.loose == m + multiset(fs)
    requires forall i :: W.NOFILE * q <= i < W.NOFILE * q + W.NOFILE ==> kn.fds[i] == None
    modifies kn`slots, kn`cwds, kn`fds, kn`held, kn`loose, kn`paths, kn`procs
    ensures kn.Ready() && kn.held == h && kn.loose == m
    ensures kn.World() == W.Started(old(kn.World()), q, InodeOf(old(kn.slots)[k]), path, fs)
  {
    hide Kernel.Steady, Kernel.Ready, Kernel.Sounds, Kernel.World, Covers, Kept, W.Shape, W.Referenced, W.ThreeGiven;
    SetCwd(kn, q, k, h);
    GiveFiles(kn, q, fs, m);
    SetPath(kn, q, path);
    SetProc(kn, q, true);
  }

  /** The loop of `create_process` that reads the program page by page. */
  method ReadProgram(kn: Kernel, k: nat) returns (image: seq<byte>)
    requires kn.Steady() && k < NINODE && kn.slots[k].ref > 0 && kn.slots[k].valid
    ensures kn.slots[k].dev < 2 && kn.slots[k].inum < kn.Vol(kn.slots[k].dev).sb.ninodes && |image| <= MAXBYTES
    ensures |image| == |kn.Vol(kn.slots[k].dev).Bytes(kn.slots[k].inum)|
    ensures kn.slots[k].d.typ != FT_UNUSED ==> image == kn.Vol(kn.slots[k].dev).Bytes(kn.slots[k].inum)
  {
    hide Kernel.Steady, N.Sound, N.View, Handles, Seats, Nodes, FileBytes, Volume.Valid;
    RecordIs(kn, k);
    var s := kn.slots[k];
    D.SizeFits(kn.Vol(s.dev), s.inum);
    ghost var b := kn.Vol(s.dev).Bytes(s.inum);
    var size := s.d.size;
    image := [];
    while |image| < size
      invariant |image| <= size && (s.d.typ != FT_UNUSED ==> image == b[..|image|])
    {
      var remain := size - |image|;
      var n := if 4096 <= remain then 4096 else remain;
      var ok, data := ReadSlotBytes(kn, k, |image|, n);
      if !ok {
        data := seq(n, i => 0);
      }
      image := image + data;
    }
  }

  /** Where the walk to a program leads, the program's bytes. */
  ghost predicate IsProgram(w: W.World, p: nat, program: string, image: seq<byte>)
    requires W.Shape(w) && p < PROCS_MAX
  {
    var g := W.Goal(w, p, program, false);
    && g.Some? && |image| <= MAXBYTES
    && var i := W.ItemAt(w, g.value);
       |image| == W.SizeOf(i) && (i.File? ==> image == i.bytes) && (i.Dir? ==> DirOf(image) == i)
  }

  lemma ProgramIs(kn: Kernel, k: nat, p: nat, program: string, image: seq<byte>)
    requires kn.Ready() && k < NINODE && kn.slots[k].ref > 0 && kn.slots[k].valid && p < PROCS_MAX
    requires W.Goal(kn.World(), p, program, false) == Some(InodeOf(kn.slots[k])) && |image| <= MAXBYTES
    requires kn.slots[k].dev < 2 && kn.slots[k].inum < kn.Vol(kn.slots[k].dev).sb.ninodes
    requires |image| == |kn.Vol(kn.slots[k].dev).Bytes(kn.slots[k].inum)|
    requires kn.slots[k].d.typ != FT_UNUSED ==> image == kn.Vol(kn.slots[k].dev).Bytes(kn.slots[k].inum)
    ensures IsProgram(kn.World(), p, program, image)
  {
    hide Kernel.Ready, Kernel.World, W.Goal, W.ItemAt, FileBytes, DirOf, W.Shape;
    ProcsAre(kn);
    BytesAre(kn, k);
  }

  /** The new process's current directory, and then its program. */
  method FindProgram(kn: Kernel, p: nat, program: string) returns (c: Found, there: bool, image: seq<byte>)
    requires kn.Valid() && p < PROCS_MAX
    modifies kn`slots, kn`held
    ensures !c.Absent? && (c.Stop? ==> W.Crowded(old(kn.World()), old(kn.Extra()) + 3))
    ensures c.At? ==>
              kn.Valid() && kn.World() == old(kn.World()) && c.k < NINODE && kn.held == old(kn.held) + multiset{c.k}
    ensures c.At? ==> InodeOf(kn.slots[c.k]) == W.Start(old(kn.World()), p, "")
    ensures c.At? ==> (there <==> W.Goal(old(kn.World()), p, program, false).Some?)
    ensures c.At? && there ==> IsProgram(old(kn.World()), p, program, image)
  {
    hide Kernel.Valid, Kernel.Steady, Kernel.Ready, Kernel.Sounds, Kernel.World, Covers, Kept, W.Shape, W.Referenced,
         R.Good, W.Goal, W.Start, IsProgram, FileBytes;
    kn.LostHeld();
    image := [];
    ghost var h := kn.held;
    var g := kn.IgetStart(p, "");
    if g.None? {
      return Stop, false, image;
    }
    ghost var slots1 := kn.slots;
    CoversMore(h, kn.lostDirs, g.value);
    var w, _ := kn.Namex(p, program, false);
    if w.Stop? {
      return Stop, false, image;
    }
    KeptAt(h + multiset{g.value}, slots1, kn.slots, g.value);
    if w.At? {
      ghost var slots2 := kn.slots;
      kn.Ilock(w.k);
      KeptAt(h + multiset{g.value} + multiset{w.k}, slots2, kn.slots, g.value);
      image := ReadProgram(kn, w.k);
      ProgramIs(kn, w.k, p, program, image);
      ghost var slots3 := kn.slots;
      kn.Iput(w.k, h + multiset{g.value});
      KeptAt(h + multiset{g.value} + multiset{w.k}, slots3, kn.slots, g.value);
    }
    return At(g.value), w.At?, image;
  }

  /** Console files are no references to inodes. */
  lemma ConsoleReferences(w: W.World, fs: seq<nat>)
    requires fs == W.ThreeFree(w.files)
    ensures W.Referenced(W.ThreeOpened(w.files, fs), w.cwds, w.lostDirs) == W.Referenced(w.files, w.cwds, w.lostDirs)
  {
    var files := W.ThreeOpened(w.files, fs);
    assert forall f :: 0 <= f < |files| ==>
                         files[f].OnInode? == w.files[f].OnInode? && (files[f].OnInode? ==> files[f] == w.files[f]);
    assert (set f | 0 <= f < |files| && files[f].OnInode? :: files[f].node) ==
           (set f | 0 <= f < |w.files| && w.files[f].OnInode? :: w.files[f].node);
  }

  /** Opening console files changes nothing about programs. */
  lemma SameProgram(v: W.World, w: W.World, p: nat, program: string, image: seq<byte>)
    requires W.Shape(v) && W.Shape(w) && p < PROCS_MAX && w == v.(files := w.files) && IsProgram(w, p, program, image)
    ensures IsProgram(v, p, program, image)
  {
  }

  /** `create_process` for `spawn_process`, as far as files and directories are concerned. */
  method Spawn(kn: Kernel, p: nat, program: string) returns (r: W.Ret, image: seq<byte>)
    requires kn.Valid() && kn.Quiet() && p < PROCS_MAX
    modifies kn`slots, kn`files, kn`cwds, kn`fds, kn`paths, kn`procs, kn`held, kn`loose, kn`lostDirs, kn`lostFiles
    ensures r.Halt? ==> || W.Crowded(old(kn.World()), old(kn.Extra()) + 3)
                        || forall q :: 0 <= q < PROCS_MAX ==> old(kn.procs)[q]
    ensures !r.Halt? ==> kn.Ready() && kn.Quiet() && (kn.World(), r) == W.Spawn(old(kn.World()), p, program)
    ensures r.Pid? ==> IsProgram(old(kn.World()), p, program, image)
  {
    hide Kernel.Valid, Kernel.Steady, Kernel.Ready, Kernel.Sounds, Kernel.World, Covers, Kept, W.Shape, W.Referenced,
         R.Good, W.Goal, W.ThreeFree, W.ThreeOpened, W.Started, W.FirstUnusedProc, W.Start, AreJust, IsProgram;
    image := [];
    ProcsAre(kn);
    ghost var v, h, m := kn.World(), kn.held, kn.loose;
    var q := FindProc(kn);
    if q.None? {
      return W.Halt, image;
    }
    SeatFacts(kn, p);
    SeatFacts(kn, q.value);
    kn.LostHeld();
    var fs := ConsoleFiles(kn);
    ProcsAre(kn);
    R.GoodFiles(v, kn.World());
    ValidIs(kn);
    ConsoleReferences(v, fs);
    ghost var v1 := kn.World();
    var c, found;
    c, found, image := FindProgram(kn, p, program);
    if c.Stop? {
      return W.Halt, image;
    }
    assert found ==> IsProgram(v, p, program, image) by {
      if found {
        SameProgram(v, v1, p, program, image);
      }
    }
    if !found {
      Lose(kn, c.k, fs, h, m);
      return W.Fail(W.NotPermitted), image;
    }
    Adopt(kn, q.value, c.k, if kn.cwds[p].Some? then Cut(kn.paths[p], 255) else "/", fs, h, m);
    return W.Pid(q.value + 1), image;
  }

  /** The loops of `spawn_process`, as far as the first word. */
  method ProgramOf(line: string) returns (program: string)
    ensures program == W.FirstWord(line)
  {
    var cmd := Cut(line, 127);
    var i := 0;
    while i < |cmd| && cmd[i] == ' '
      invariant i <= |cmd| && W.SkipSpaces(cmd) == W.SkipSpaces(cmd[i..])
    {
      assert cmd[i..][1..] == cmd[i + 1..];
      i := i + 1;
    }
    assert W.SkipSpaces(cmd[i..]) == cmd[i..];
    program := "";
    ghost var rest := cmd[i..];
    while i < |cmd| && cmd[i] != ' '
      invariant i <= |cmd| && W.Word(rest) == program + W.Word(cmd[i..])
    {
      assert cmd[i..][1..] == cmd[i + 1..];
      assert program + ([cmd[i]] + W.Word(cmd[i + 1..])) == program + [cmd[i]] + W.Word(cmd[i + 1..]);
      program := program + [cmd[i]];
      i := i + 1;
    }
  }

  /** `spawn_process`; `memory` says whether the memory manager has the pages that `create_process` asks for. */
  method SpawnLine(kn: Kernel, p: nat, line: string, memory: bool) returns (r: W.Ret, image: seq<byte>)
    requires kn.Valid() && kn.Quiet() && p < PROCS_MAX && kn.procs[p]
    modifies kn`slots, kn`files, kn`cwds, kn`fds, kn`paths, kn`procs, kn`held, kn`loose, kn`lostDirs, kn`lostFiles
    ensures r.Halt? ==> || W.Crowded(old(kn.World()), old(kn.Extra()) + 3) || !memory
                        || forall q :: 0 <= q < PROCS_MAX ==> old(kn.procs)[q]
    ensures !r.Halt? ==>
              kn.Ready() && kn.Quiet() && (kn.World(), r) == W.Step(old(kn.World()), p, W.CSpawn(line, memory))
    ensures r.Pid? ==> IsProgram(old(kn.World()), p, W.FirstWord(line), image)
  {
    hide Kernel.Valid, Kernel.Steady, Kernel.Ready, Kernel.Sounds, Kernel.World, Covers, W.Shape, W.Referenced, R.Good,
         W.Spawn, W.FirstWord, Kernel.Quiet, IsProgram;
    ProcsAre(kn);
    var program := ProgramOf(line);
    if program == "" {
      return W.Fail(W.NotPermitted), [];
    }
    if !memory {
      return W.Halt, [];
    }
    r, image := Spawn(kn, p, program);
  }

  /** What is known of a process slot. */
  lemma SeatFacts(kn: Kernel, p: nat)
    requires kn.Valid() && p < PROCS_MAX
    ensures (kn.cwds[p].Some? <==> kn.World().cwds[p].Some?) && (kn.procs[p] <==> kn.cwds[p].Some?)
    ensures |kn.paths[p]| <= BUF_CAP
    ensures !kn.procs[p] ==> forall i :: W.NOFILE * p <= i < W.NOFILE * p + W.NOFILE ==> kn.fds[i] == None
  {
    hide Volume.Valid, N.Sound, N.View, R.Trees, Handles, Nodes;
    assert R.SeatOk(kn.World(), p);
    if kn.cwds[p].Some? {
      kn.CwdFacts(p);
    }
  }

  /** `free_process_pages` and what `wait_process` does then, as far as files and directories are concerned. */
  method Reap(kn: Kernel, q: nat) returns (r: W.Ret)
    requires kn.Steady() && q < PROCS_MAX
    modifies kn`slots, kn`files, kn`cwds, kn`fds, kn`procs, kn`held, kn`loose
    ensures kn.Steady() && (old(kn.Ready()) ==> kn.Ready())
    ensures kn.held == old(kn.held) && kn.loose == old(kn.loose) && !r.Halt?
    ensures (kn.World(), r) == W.Reap(old(kn.World()), q)
  {
    hide Kernel.Steady, Kernel.Ready, Kernel.Sounds, Kernel.World, Covers, Kept, W.Shape, W.Referenced, W.CloseAt;
    ProcsAre(kn);
    if !kn.procs[q] {
      return W.Fail(W.NotPermitted);
    }
    ClearCwd(kn, q);
    ghost var w, h, m := kn.World(), kn.held, kn.loose;
    for fd := 0 to W.NOFILE
      invariant kn.Steady() && (old(kn.Ready()) ==> kn.Ready())
      invariant kn.held == h && kn.loose == m && kn.World() == W.ClosedAll(w, q, fd)
    {
      CloseAt(kn, W.NOFILE * q + fd);
    }
    R.ClosedFds(w, q, W.NOFILE);
    SetProc(kn, q, false);
    return W.Success;
  }

  method ClearCwd(kn: Kernel, q: nat)
    requires kn.Steady() && q < PROCS_MAX
    modifies kn`slots, kn`cwds, kn`held
    ensures kn.Steady() && (old(kn.Ready()) ==> kn.Ready())
    ensures kn.held == old(kn.held)
    ensures kn.World() == old(kn.World()).(cwds := old(kn.World()).cwds[q := None])
  {
    hide Kernel.Steady, Kernel.Ready, Kernel.Sounds, Kernel.World, Covers, Kept, W.Shape, W.Referenced;
    kn.LostHeld();
    ghost var h := kn.held;
    assert h + multiset{} == h;
    var was := kn.cwds[q];
    PutCwd(kn, q, None, h);
    if was.Some? {
      kn.Iput(was.value, h);
    }
  }
}
