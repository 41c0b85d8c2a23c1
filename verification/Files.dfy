/** Open files and descriptors: `file_create`, `file_close`, and what the system calls do with them. */
module Files {
  import opened Basics
  import opened Codec
  import opened Volumes
  import opened Tables
  import opened Kernels
  import N = Namespace
  import W = World

  /** `file_alloc`: the first free entry of the table of open files. */
  method FindFile(kn: Kernel) returns (f: Option<nat>)
    requires |kn.files| == W.NFILE
    ensures f == W.FirstFree(Handles(kn.slots, kn.files), 0)
    ensures f.Some? ==> f.value < W.NFILE && kn.files[f.value].ref == 0
  {
    ghost var hs := Handles(kn.slots, kn.files);
    for i := 0 to W.NFILE
      invariant W.FirstFree(hs, 0) == W.FirstFree(hs, i)
    {
      assert hs[i].Free? <==> kn.files[i].ref == 0;
      if kn.files[i].ref == 0 {
        return Some(i);
      }
    }
    return None;
  }

  /** The first unused descriptor of process `p`. */
  method FindFd(kn: Kernel, p: nat) returns (i: Option<nat>)
    requires |kn.fds| == PROCS_MAX * W.NOFILE && p < PROCS_MAX
    ensures i == W.FirstNone(kn.fds, W.NOFILE * p, W.NOFILE * p + W.NOFILE)
  {
    ghost var end := W.NOFILE * p + W.NOFILE;
    for fd := 0 to W.NOFILE
      invariant W.FirstNone(kn.fds, W.NOFILE * p, end) == W.FirstNone(kn.fds, W.NOFILE * p + fd, end)
    {
      if kn.fds[W.NOFILE * p + fd].None? {
        return Some(W.NOFILE * p + fd);
      }
    }
    return None;
  }

  function WithFile(w: W.World, f: nat, h: W.Handle): W.World
    requires f < |w.files|
  {
    w.(files := w.files[f := h])
  }

  /** A loose file gives up one of several references. */
  method DropRef(kn: Kernel, f: nat, ghost m: multiset<nat>)
    requires kn.Steady() && kn.loose == m + multiset{f} && f < W.NFILE && kn.files[f].ref > 1
    modifies kn`files, kn`loose
    ensures kn.Steady() && (old(kn.Ready()) ==> kn.Ready())
    ensures kn.loose == m && !old(kn.World()).files[f].Free?
    ensures kn.World() == WithFile(old(kn.World()), f, W.Dropped(old(kn.World()).files[f]))
  {
    hide Exact, Kept, Covers, Volume.Valid, N.Sound, N.View, Seats, Nodes, Handles, HandleOf, W.Dropped, W.Shape;
    var g := kn.files[f];
    HandleIs(kn.slots, kn.files, f);
    DroppedIs(kn.slots, g);
    AfterDrop(kn.Tab(), kn.v0.Inodes(), kn.v1.Inodes(), f, m);
    HandlesSet(kn.slots, kn.files, f, g.(ref := g.ref - 1));
    kn.files := kn.files[f := g.(ref := g.ref - 1)];
    kn.loose := m;
  }

  /** A loose file gives up its last reference; that to its inode passes to the running code. */
  method LastRef(kn: Kernel, f: nat, ghost m: multiset<nat>) returns (k: Option<nat>)
    requires kn.Steady() && kn.loose == m + multiset{f} && f < W.NFILE && kn.files[f].ref == 1
    modifies kn`files, kn`held, kn`loose
    ensures kn.Steady() && (old(kn.Ready()) ==> kn.Ready())
    ensures kn.loose == m && kn.held == old(kn.held) + Bag(k) && !old(kn.World()).files[f].Free?
    ensures kn.World() == WithFile(old(kn.World()), f, W.Dropped(old(kn.World()).files[f]))
  {
    hide Exact, Kept, Covers, Volume.Valid, N.Sound, N.View, Seats, Nodes, Handles, HandleOf, W.Dropped, W.Shape, Bag;
    var g := kn.files[f];
    HandleIs(kn.slots, kn.files, f);
    DroppedIs(kn.slots, g);
    var closed := g.(ref := 0, ip := None, kind := Unset);
    AfterLast(kn.Tab(), kn.v0.Inodes(), kn.v1.Inodes(), f, closed, m);
    HandlesSet(kn.slots, kn.files, f, closed);
    CoversBag(kn.held, kn.lostDirs, g.ip);
    kn.files := kn.files[f := closed];
    kn.loose := m;
    kn.held := kn.held + Bag(g.ip);
    return g.ip;
  }

  lemma HandleIs(slots: seq<Slot>, files: seq<Tables.File>, f: nat)
    requires f < |files|
    ensures Handles(slots, files)[f] == HandleOf(slots, files[f])
  {
  }

  lemma DroppedIs(slots: seq<Slot>, g: Tables.File)
    requires g.ref > 0
    ensures !HandleOf(slots, g).Free?
    ensures g.ref > 1 ==> HandleOf(slots, g.(ref := g.ref - 1)) == W.Dropped(HandleOf(slots, g))
    ensures g.ref == 1 ==> HandleOf(slots, g.(ref := 0, ip := None, kind := Unset)) == W.Dropped(HandleOf(slots, g))
  {
  }

  lemma CoversBag(held: multiset<nat>, lost: seq<nat>, o: Option<nat>)
    requires Covers(held, lost)
    ensures Covers(held + Bag(o), lost)
  {
  }

  /** `file_close`: a file's last reference takes its inode's reference along. The test for a free file cannot fire. */
  method CloseFile(kn: Kernel, f: nat, ghost m: multiset<nat>)
    requires kn.Steady() && kn.loose == m + multiset{f}
    modifies kn`slots, kn`files, kn`held, kn`loose
    ensures kn.Steady() && (old(kn.Ready()) ==> kn.Ready())
    ensures kn.held == old(kn.held) && kn.loose == m && f < W.NFILE
    ensures !old(kn.World()).files[f].Free?
    ensures kn.World() == WithFile(old(kn.World()), f, W.Dropped(old(kn.World()).files[f]))
  {
    hide Kernel.Ready, Kernel.Steady, Kernel.Sounds, Kernel.World, Covers, Kept, W.Shape;
    kn.LostHeld();
    LooseRef(kn, f);
    ghost var h := kn.held;
    if kn.files[f].ref > 1 {
      DropRef(kn, f, m);
      return;
    }
    var k := LastRef(kn, f, m);
    if k.Some? {
      kn.Iput(k.value, h);
    } else {
      assert h + multiset{} == h;
    }
  }

  /** `file_create`, and the inode for it: a free entry of the table becomes a loose file. */
  method OpenFile(kn: Kernel, f: nat, g: Tables.File, ghost h: multiset<nat>)
    requires kn.Steady() && f < W.NFILE && kn.files[f].ref == 0 && g.ref == 1 && FileOk(g, kn.slots)
    requires kn.held == h + Bag(g.ip) && Covers(h, kn.lostDirs)
    modifies kn`files, kn`held, kn`loose
    ensures kn.Steady() && (old(kn.Ready()) ==> kn.Ready())
    ensures kn.held == h && kn.loose == old(kn.loose) + multiset{f}
    ensures kn.World() == WithFile(old(kn.World()), f, HandleOf(kn.slots, g))
  {
    hide Exact, Kept, Covers, Volume.Valid, N.Sound, N.View, Seats, Nodes, Handles, HandleOf;
    AfterOpen(kn.Tab(), kn.v0.Inodes(), kn.v1.Inodes(), f, g, h);
    HandlesSet(kn.slots, kn.files, f, g);
    kn.files := kn.files[f := g];
    kn.held := h;
    kn.loose := kn.loose + multiset{f};
  }

  /** A descriptor takes a loose file. */
  method GiveFile(kn: Kernel, i: nat, f: nat, ghost m: multiset<nat>)
    requires kn.Steady() && i < PROCS_MAX * W.NOFILE && kn.fds[i] == None && kn.loose == m + multiset{f}
    modifies kn`fds, kn`loose
    ensures kn.Steady() && (old(kn.Ready()) ==> kn.Ready())
    ensures kn.loose == m && kn.World() == old(kn.World()).(fds := old(kn.fds)[i := Some(f)])
  {
    hide Exact, Kept, Covers, Volume.Valid, N.Sound, N.View, Seats, Nodes, Handles;
    AfterFd(kn.Tab(), kn.v0.Inodes(), kn.v1.Inodes(), i, Some(f), m);
    assert m + multiset{} == m;
    kn.fds := kn.fds[i := Some(f)];
    kn.loose := m;
  }

  /** A loose file becomes a descriptor of process `p`, or is closed again. */
  method Install(kn: Kernel, p: nat, f: nat, ghost m: multiset<nat>) returns (r: W.Ret)
    requires kn.Steady() && p < PROCS_MAX && kn.loose == m + multiset{f}
    modifies kn`slots, kn`files, kn`fds, kn`held, kn`loose
    ensures kn.Steady() && (old(kn.Ready()) ==> kn.Ready())
    ensures kn.held == old(kn.held) && kn.loose == m && f < W.NFILE && !old(kn.World()).files[f].Free?
    ensures var w, i := old(kn.World()), W.FirstNone(old(kn.fds), W.NOFILE * p, W.NOFILE * p + W.NOFILE);
            if i.None? then r == W.Fail(W.NoSpace) && kn.World() == WithFile(w, f, W.Dropped(w.files[f]))
            else r == W.Fd(i.value - W.NOFILE * p) && kn.World() == w.(fds := w.fds[i.value := Some(f)])
  {
    hide Kernel.Ready, Kernel.Steady, Kernel.Sounds, Covers, Kept, W.Shape, Handles, Seats, Nodes, HandleOf, N.View;
    LooseFacts(kn, f);
    var i := FindFd(kn, p);
    if i.None? {
      CloseFile(kn, f, m);
      return W.Fail(W.NoSpace);
    }
    GiveFile(kn, i.value, f, m);
    return W.Fd(i.value - W.NOFILE * p);
  }

  lemma LooseRef(kn: Kernel, f: nat)
    requires kn.Steady() && f in kn.loose
    ensures f < W.NFILE && kn.files[f].ref > 0
  {
    hide Volume.Valid, N.Sound, N.View;
    LooseIsOpen(kn.Tab(), kn.v0.Inodes(), kn.v1.Inodes(), f);
  }

  lemma LooseFacts(kn: Kernel, f: nat)
    requires kn.Steady() && f in kn.loose
    ensures f < W.NFILE && !kn.World().files[f].Free?
  {
    hide Volume.Valid, N.Sound, N.View;
    LooseIsOpen(kn.Tab(), kn.v0.Inodes(), kn.v1.Inodes(), f);
  }

  /** A new open file and a descriptor for it; the file takes the reference to its inode that is held. */
  method AttachAs(kn: Kernel, p: nat, g: Tables.File, ghost h: multiset<nat>) returns (r: W.Ret)
    requires kn.Steady() && p < PROCS_MAX && kn.held == h + Bag(g.ip) && Covers(h, kn.lostDirs)
    requires g.ref == 1 && FileOk(g, kn.slots)
    modifies kn`slots, kn`files, kn`fds, kn`held, kn`loose
    ensures kn.Steady() && (old(kn.Ready()) ==> kn.Ready())
    ensures kn.held == h && kn.loose == old(kn.loose)
    ensures (kn.World(), r) == W.Attach(old(kn.World()), p, HandleOf(old(kn.slots), g))
  {
    hide Kernel.Ready, Kernel.Steady, Kernel.Sounds, Covers, Kept, W.Shape, Seats, Nodes, N.View, FileOk;
    ghost var w, hd := kn.World(), HandleOf(kn.slots, g);
    var f := FindFile(kn);
    if f.None? {
      if g.ip.Some? {
        kn.Iput(g.ip.value, h);
      } else {
        assert h + multiset{} == h;
      }
      return W.Fail(W.NoSpace);
    }
    ghost var m := kn.loose;
    OpenFile(kn, f.value, g, h);
    r := Install(kn, p, f.value, m);
    if r.Fail? {
      assert w.files[f.value := hd][f.value := W.Free] == w.files;
    }
  }

  /** `alloc_file_descriptor` for the inode in slot `k`, which has been read. */
  method AllocFd(kn: Kernel, p: nat, k: nat, flags: W.Flags, ghost h: multiset<nat>) returns (r: W.Ret)
    requires kn.Ready() && p < PROCS_MAX && kn.held == h + multiset{k} && Covers(h, kn.lostDirs) && k < NINODE
    requires kn.slots[k].valid && kn.slots[k].ref > 0 && (flags.write ==> kn.slots[k].dev != 0)
    modifies kn`slots, kn`files, kn`fds, kn`held, kn`loose
    ensures kn.Ready() && kn.held == h && kn.loose == old(kn.loose)
    ensures (kn.World(), r) == W.AttachInode(old(kn.World()), p, InodeOf(old(kn.slots)[k]), flags)
  {
    hide Kernel.Ready, Kernel.Steady, Kernel.Sounds, Covers, Kept, W.Shape, Kernel.World, W.Attach, W.ItemAt, W.SizeOf;
    SlotSize(kn, k);
    var off := if flags.append then kn.slots[k].d.size else 0;
    r := AttachAs(kn, p, Tables.File(1, Inode, flags.read, flags.write, Some(k), off), h);
  }

  /** The size in a slot that has been read is that of the item. */
  lemma SlotSize(kn: Kernel, k: nat)
    requires kn.Ready() && k < NINODE && kn.slots[k].ref > 0 && kn.slots[k].valid
    ensures kn.slots[k].d.size == W.SizeOf(W.ItemAt(kn.World(), InodeOf(kn.slots[k])))
  {
    hide Volume.Valid, N.Sound, N.View, Handles, Seats, Nodes, Covers, Volume.UnusedEmpty;
    LiveSlot(kn.Tab(), kn.v0.Inodes(), kn.v1.Inodes(), k);
    hide Exact;
    var s := kn.slots[k];
    N.TypeIs(kn.Vol(s.dev), s.inum);
    if N.View(kn.Vol(s.dev))[s.inum].Unused? {
      UnusedSize(kn.Vol(s.dev), s.inum);
    }
  }

  lemma UnusedSize(v: Volume, i: nat)
    requires N.Sound(v) && i < v.sb.ninodes && v.Inodes()[i].typ == FT_UNUSED
    ensures v.Inodes()[i].size == 0
  {
    hide Volume.Valid;
  }

  /** A console file for process `p`. */
  method OpenConsole(kn: Kernel, p: nat, flags: W.Flags) returns (r: W.Ret)
    requires kn.Steady() && p < PROCS_MAX
    modifies kn`slots, kn`files, kn`fds, kn`held, kn`loose
    ensures kn.Steady() && (old(kn.Ready()) ==> kn.Ready())
    ensures kn.held == old(kn.held) && kn.loose == old(kn.loose)
    ensures (kn.World(), r) == W.Attach(old(kn.World()), p, W.OnConsole(1, flags.read, flags.write))
  {
    hide Kernel.Ready, Kernel.Steady, Kernel.Sounds, Covers, Kept, W.Shape, Kernel.World, W.Attach;
    kn.LostHeld();
    assert kn.held + multiset{} == kn.held;
    r := AttachAs(kn, p, Tables.File(1, Console, flags.read, flags.write, None, 0), kn.held);
  }

  /** The descriptor with index `i` is closed, if it is open. */
  method CloseAt(kn: Kernel, i: nat)
    requires kn.Steady() && i < PROCS_MAX * W.NOFILE
    modifies kn`slots, kn`files, kn`fds, kn`held, kn`loose
    ensures kn.Steady() && (old(kn.Ready()) ==> kn.Ready())
    ensures kn.held == old(kn.held) && kn.loose == old(kn.loose)
    ensures kn.World() == W.CloseAt(old(kn.World()), i)
  {
    hide Kernel.Ready, Kernel.Steady, Kernel.Sounds, Covers, Kept, W.Shape, Seats, Nodes, Handles, N.View;
    if kn.fds[i].Some? {
      var f := kn.fds[i].value;
      ghost var m := kn.loose;
      TakeFile(kn, i);
      CloseFile(kn, f, m);
    }
  }

  method TakeFile(kn: Kernel, i: nat)
    requires kn.Steady() && i < PROCS_MAX * W.NOFILE && kn.fds[i].Some?
    modifies kn`fds, kn`loose
    ensures kn.Steady() && (old(kn.Ready()) ==> kn.Ready())
    ensures kn.loose == old(kn.loose) + multiset{old(kn.fds)[i].value}
    ensures kn.World() == old(kn.World()).(fds := old(kn.fds)[i := None])
  {
    hide Exact, Kept, Covers, Volume.Valid, N.Sound, N.View, Seats, Nodes, Handles;
    assert kn.loose + multiset{} == kn.loose;
    AfterFd(kn.Tab(), kn.v0.Inodes(), kn.v1.Inodes(), i, None, kn.loose);
    kn.loose := kn.loose + multiset{kn.fds[i].value};
    kn.fds := kn.fds[i := None];
  }

  /** `fs_close` */
  method Close(kn: Kernel, p: nat, fd: int) returns (r: W.Ret)
    requires kn.Steady() && p < PROCS_MAX
    modifies kn`slots, kn`files, kn`fds, kn`held, kn`loose
    ensures kn.Steady() && (old(kn.Ready()) ==> kn.Ready())
    ensures kn.held == old(kn.held) && kn.loose == old(kn.loose) && !r.Halt?
    ensures (kn.World(), r) == W.Close(old(kn.World()), p, fd)
  {
    hide Kernel.Ready, Kernel.Steady, Kernel.Sounds, Covers, Kept, W.Shape, W.CloseAt, Seats, Nodes, Handles, N.View;
    if fd < 0 || fd >= W.NOFILE || kn.fds[W.NOFILE * p + fd].None? {
      return W.Fail(W.BadFile);
    }
    CloseAt(kn, W.NOFILE * p + fd);
    return W.Success;
  }
}
