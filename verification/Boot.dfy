/** How the kernel starts: device 1 is mounted on "/home" of device 0, and there are an idle process and a shell. */
module Boot {
  import opened Basics
  import opened Layout
  import opened Volumes
  import opened Paths
  import opened Items
  import opened Tables
  import opened Kernels
  import opened Syscalls
  import N = Namespace
  import M = Mounts
  import T = Tree
  import W = World
  import R = Replay
  import D = Descriptors
  import L = Lives

  /** Block 1 describes the volume: its layout, as far as records fit, and how many there are said to be. */
  predicate Described(v: Volume)
    reads v
  {
    && |v.disk| > 1
    && var sb := DecodeSuper(v.disk[1]).1;
       sb.inodestart <= sb.bmapstart && v.sb == sb.Fitting() && v.declared == sb.ninodes
  }

  predicate HasMagic(v: Volume)
    reads v
  {
    |v.disk| > 1 && DecodeSuper(v.disk[1]).0 == MAGIC
  }

  /** Two sound volumes with trees on them. */
  ghost predicate Images(v0: Volume, v1: Volume)
    reads v0, v1
  {
    && v0 != v1 && N.Sound(v0) && N.Sound(v1) && IsTree(N.View(v0)) && IsTree(N.View(v1))
    && (HasMagic(v0) ==> Described(v0)) && (HasMagic(v1) ==> Described(v1))
  }

  /**
   `file_init` and `fs_init`: a panic exactly if a superblock does not start with the magic number or the root of
   device 0 has no "home". What is mounted on need not be a directory; exactly if it is one, the kernel can go on.
   */
  method FsInit(v0: Volume, v1: Volume) returns (kn: Kernel?)
    requires Images(v0, v1)
    ensures |N.View(v0)| > 1 && N.View(v0)[1].Dir?
    ensures kn == null <==> !HasMagic(v0) || !HasMagic(v1) || "home" !in N.View(v0)[1].names
    ensures kn != null ==> fresh(kn) && kn.v0 == v0 && kn.v1 == v1 && kn.Ready() && kn.Quiet()
    ensures kn != null ==>
              kn.World() == W.Booted(N.View(v0), N.View(v1), N.View(v0)[1].names["home"], v1.Overruns())
    ensures kn != null ==>
              kn.mount == N.View(v0)[1].names["home"] < |N.View(v0)| && (kn.Valid() <==> N.View(v0)[kn.mount].Dir?)
  {
    hide N.Sound, N.View, IsTree, Volume.Valid, W.Shape, Kernel.World, Kernel.Steady, W.Booted;
    M.RootIs(N.View(v0));
    if !HasMagic(v0) || !HasMagic(v1) {
      return null;
    }
    var c, off := N.LookupIn(v0, 1, v0.Load(1), "home");
    if c == 0 {
      return null;
    }
    HomeIs(N.View(v0));
    kn := new Kernel(v0, v1, c);
    BootedGood(N.View(v0), N.View(v1), c, v1.Overruns());
    ValidIs(kn);
  }

  lemma HomeIs(s: seq<Item>)
    requires IsTree(s) && |s| > 1 && s[1].Dir? && "home" in s[1].names
    ensures 1 < s[1].names["home"] < |s|
  {
    assert Has(s, 1, "home");
  }

  lemma BootedGood(s0: seq<Item>, s1: seq<Item>, m: nat, o: bool)
    requires IsTree(s0) && IsTree(s1) && 1 < m < |s0|
    ensures W.Shape(W.Booted(s0, s1, m, o)) && (R.Good(W.Booted(s0, s1, m, o)) <==> s0[m].Dir?)
    ensures W.Booted(s0, s1, m, o).mount == m
  {
    hide IsTree;
    var w := W.Booted(s0, s1, m, o);
    forall p | 0 <= p < PROCS_MAX
      ensures R.SeatOk(w, p)
    {
    }
  }

  /** The console files of a new process, if it gets any. */
  method Standard(kn: Kernel, console: bool) returns (fs: seq<nat>)
    requires kn.Valid()
    modifies kn`slots, kn`files, kn`held, kn`loose
    ensures kn.Valid() && kn.held == old(kn.held) && kn.loose == old(kn.loose) + multiset(fs)
    ensures fs == if console then W.ThreeFree(old(kn.World()).files) else []
    ensures kn.World() == old(kn.World()).(files := W.ThreeOpened(old(kn.World()).files, fs))
    ensures forall n: int :: W.Crowded(kn.World(), n) <==> W.Crowded(old(kn.World()), n)
  {
    hide Kernel.Valid, Kernel.Steady, Kernel.Ready, Kernel.Sounds, Kernel.World, Covers, Kept, W.Shape, R.Good,
         W.ThreeFree, W.ThreeOpened, W.Referenced;
    ghost var v := kn.World();
    fs := [];
    assert kn.loose + multiset([]) == kn.loose;
    NoneOpened(v.files);
    if console {
      ValidIs(kn);
      fs := ConsoleFiles(kn);
      ProcsAre(kn);
      R.GoodFiles(v, kn.World());
      ValidIs(kn);
      ConsoleReferences(v, fs);
    }
  }

  lemma NewProcessIs(v: W.World, p: Option<nat>, console: bool, q: nat, fs: seq<nat>)
    requires W.Shape(v) && (p.Some? ==> p.value < PROCS_MAX) && W.FirstUnusedProc(v.procs, 0) == Some(q)
    requires fs == if console then W.ThreeFree(v.files) else []
    ensures var w := v.(files := W.ThreeOpened(v.files, fs));
            var path := if p.Some? && v.cwds[p.value].Some? then v.paths[p.value] else "/";
            W.NewProcess(v, p, console) ==
              (W.Started(w, q, if p.Some? then W.Start(w, p.value, "") else T.Root, path, fs), W.Pid(q + 1))
  {
    hide W.ThreeFree, W.ThreeOpened, W.FirstUnusedProc, W.Started;
  }

  /** `create_process` without a program to look up; `memory` says whether there are the pages that it asks for. */
  method CreateProcess(kn: Kernel, p: Option<nat>, console: bool, memory: bool) returns (r: W.Ret)
    requires kn.Valid() && (p.Some? ==> p.value < PROCS_MAX)
    modifies kn`slots, kn`files, kn`cwds, kn`fds, kn`paths, kn`procs, kn`held, kn`loose
    ensures !memory ==> r.Halt?
    ensures r.Halt? ==> || W.Crowded(old(kn.World()), old(kn.Extra())) || !memory
                        || forall q :: 0 <= q < PROCS_MAX ==> old(kn.procs)[q]
    ensures !r.Halt? ==> kn.Ready() && kn.held == old(kn.held) && kn.loose == old(kn.loose)
    ensures !r.Halt? ==> (kn.World(), r) == W.NewProcess(old(kn.World()), p, console)
  {
    hide Kernel.Valid, Kernel.Steady, Kernel.Ready, Kernel.Sounds, Kernel.World, Covers, Kept, W.Shape, R.Good,
         W.ThreeFree, W.ThreeOpened, W.Started, W.FirstUnusedProc, W.Start, W.Crowded, W.NewProcess, AreJust;
    ProcsAre(kn);
    ghost var v, h, m := kn.World(), kn.held, kn.loose;
    var q := FindProc(kn);
    if q.None? {
      return W.Halt;
    }
    SeatFacts(kn, q.value);
    if p.Some? {
      SeatFacts(kn, p.value);
    }
    kn.LostHeld();
    var fs := Standard(kn, console);
    ProcsAre(kn);
    NewProcessIs(v, p, console, q.value, fs);
    var c := IgetCwd(kn, p);
    if c.None? {
      return W.Halt;
    }
    if !memory {
      return W.Halt;
    }
    var path := if p.Some? && kn.cwds[p.value].Some? then Cut(kn.paths[p.value], 255) else "/";
    Adopt(kn, q.value, c.value, path, fs, h, m);
    return W.Pid(q.value + 1);
  }

  lemma NoneOpened(files: seq<W.Handle>)
    ensures W.ThreeOpened(files, []) == files
  {
  }

  /** The current directory of the parent, or the root. */
  method IgetCwd(kn: Kernel, p: Option<nat>) returns (c: Option<nat>)
    requires kn.Valid() && (p.Some? ==> p.value < PROCS_MAX)
    modifies kn`slots, kn`held
    ensures c.None? ==> W.Crowded(old(kn.World()), old(kn.Extra()))
    ensures c.Some? ==> kn.Valid() && kn.World() == old(kn.World()) && c.value < NINODE
    ensures c.Some? ==> kn.held == old(kn.held) + multiset{c.value}
    ensures c.Some? ==> InodeOf(kn.slots[c.value]) == if p.Some? then W.Start(old(kn.World()), p.value, "") else T.Root
  {
    hide Kernel.Valid, Kernel.Steady, Kernel.Ready, Kernel.Sounds, Kernel.World, Covers, Kept, W.Shape, R.Good, W.Start;
    if p.Some? {
      c := kn.IgetStart(p.value, "");
    } else {
      kn.Volumes2();
      c := kn.Iget(0, 1);
    }
  }

  /** The idle process. */
  function Idle(s0: seq<Item>, s1: seq<Item>, m: nat, o: bool): W.World {
    W.NewProcess(W.Booted(s0, s1, m, o), None, false).0
  }

  /** The idle process and the shell. */
  function Initial(s0: seq<Item>, s1: seq<Item>, m: nat, o: bool): W.World {
    W.NewProcess(Idle(s0, s1, m, o), Some(0), true).0
  }

  lemma IdleIs(s0: seq<Item>, s1: seq<Item>, m: nat, o: bool)
    ensures var w := Idle(s0, s1, m, o);
            && w == W.Booted(s0, s1, m, o).(procs := seq(PROCS_MAX, i => i == 0),
                 cwds := seq(PROCS_MAX, i => if i == 0 then Some(T.Root) else None))
            && W.NewProcess(W.Booted(s0, s1, m, o), None, false).1 == W.Pid(1)
  {
    var b := W.Booted(s0, s1, m, o);
    assert W.FirstUnusedProc(b.procs, 0) == Some(0);
    assert b.paths[0 := "/"] == b.paths;
  }

  lemma InitialIs(s0: seq<Item>, s1: seq<Item>, m: nat, o: bool)
    ensures var w := Initial(s0, s1, m, o);
            && W.Shape(w) && w.s0 == s0 && w.s1 == s1 && w.mount == m
            && (forall p :: 0 <= p < PROCS_MAX ==> w.procs[p] == (p < 2))
            && (forall p :: 0 <= p < PROCS_MAX ==> w.cwds[p] == if p < 2 then Some(T.Root) else None)
            && (forall p :: 0 <= p < PROCS_MAX ==> w.paths[p] == "/")
            && (forall i :: 0 <= i < PROCS_MAX * W.NOFILE ==> w.fds[i] == if 16 <= i < 19 then Some(i - 16) else None)
            && W.NewProcess(Idle(s0, s1, m, o), Some(0), true).1 == W.Pid(2)
  {
    IdleIs(s0, s1, m, o);
    var w := Idle(s0, s1, m, o);
    assert w.procs[0] && !w.procs[1] && W.FirstUnusedProc(w.procs, 0) == Some(1);
    assert w.files[0].Free? && w.files[1].Free? && w.files[2].Free?;
    assert W.FirstFree(w.files, 0) == Some(0) && W.FirstFree(w.files, 1) == Some(1) &&
           W.FirstFree(w.files, 2) == Some(2);
    assert W.ThreeFree(w.files) == [0, 1, 2];
  }

  /** At the start every process is at the root, which is where its path leads. */
  lemma InitialAgrees(s0: seq<Item>, s1: seq<Item>, m: nat, o: bool)
    requires IsTree(s0) && IsTree(s1) && 1 < m < |s0| && s0[m].Dir?
    ensures R.Good(Idle(s0, s1, m, o)) && R.Good(Initial(s0, s1, m, o)) && R.AllAgree(Initial(s0, s1, m, o))
  {
    hide IsTree, Initial, Idle;
    IdleIs(s0, s1, m, o);
    InitialIs(s0, s1, m, o);
    var w := Initial(s0, s1, m, o);
    assert R.Seated(w) by { assert forall p :: 0 <= p < PROCS_MAX ==> R.SeatOk(w, p); }
    assert R.Seated(Idle(s0, s1, m, o))
             by { assert forall p :: 0 <= p < PROCS_MAX ==> R.SeatOk(Idle(s0, s1, m, o), p); }
    M.JoinedIs(s0, s1, m, T.Root);
    M.RootIs(s0);
    assert Tokens("/") == [];
    forall p | 0 <= p < PROCS_MAX && w.procs[p]
      ensures R.AgreesAt(w, p)
    {
    }
  }

  /** At the start every descriptor has a file of its own: the shell has the keyboard and twice the screen. */
  lemma InitialTidy(s0: seq<Item>, s1: seq<Item>, m: nat, o: bool)
    requires D.SizesOk(s0) && D.SizesOk(s1)
    ensures W.Shape(Initial(s0, s1, m, o)) && D.Tidy(Initial(s0, s1, m, o))
    ensures var w := Initial(s0, s1, m, o);
            forall p, g {:trigger W.HandleAt(w, p, g)} :: 0 <= p < PROCS_MAX && 0 <= g < W.NOFILE ==>
              W.HandleAt(w, p, g) == L.Standard(g, p == 1)
  {
    hide Idle;
    IdleIs(s0, s1, m, o);
    InitialIs(s0, s1, m, o);
    var v := Idle(s0, s1, m, o);
    assert v.files[0].Free? && v.files[1].Free? && v.files[2].Free?;
    assert W.FirstFree(v.files, 0) == Some(0) && W.FirstFree(v.files, 1) == Some(1) &&
           W.FirstFree(v.files, 2) == Some(2);
    var w := Initial(s0, s1, m, o);
    assert forall f :: 0 <= f < W.NFILE ==>
             w.files[f] == if f < 3 then W.OnConsole(1, f == 0, f != 0) else W.Free;
  }

  lemma FewReferences(s0: seq<Item>, s1: seq<Item>, m: nat, o: bool)
    ensures W.Booted(s0, s1, m, o).lostDirs == [] && !W.Crowded(W.Booted(s0, s1, m, o), 0)
    ensures !W.Crowded(Idle(s0, s1, m, o), 0)
  {
    IdleIs(s0, s1, m, o);
    var b, w := W.Booted(s0, s1, m, o), Idle(s0, s1, m, o);
    assert W.Referenced(b.files, b.cwds, b.lostDirs) == {};
    assert w.cwds[0] == Some(T.Root);
    assert W.Referenced(w.files, w.cwds, w.lostDirs) == {T.Root};
  }

  /** `process_init` and the shell: nothing but a lack of memory is in the way of either. */
  method StartProcesses(kn: Kernel, memory: bool) returns (ok: bool)
    requires kn.Valid() && kn.Quiet()
    requires kn.World() == W.Booted(kn.World().s0, kn.World().s1, kn.mount, kn.World().overruns)
    modifies kn`slots, kn`files, kn`cwds, kn`fds, kn`paths, kn`procs, kn`held, kn`loose
    ensures ok <==> memory
    ensures ok ==> kn.Valid() && kn.Quiet() && R.AllAgree(kn.World())
    ensures ok ==>
              kn.World() == Initial(old(kn.World()).s0, old(kn.World()).s1, kn.mount, old(kn.World()).overruns)
  {
    hide Kernel.Valid, Kernel.Steady, Kernel.Ready, Kernel.Sounds, Kernel.World, Covers, Kept, W.Shape, W.NewProcess,
         R.AllAgree, W.Booted, IsTree, R.Seated, W.Crowded;
    ghost var s0, s1, o := kn.World().s0, kn.World().s1, kn.World().overruns;
    ProcsAre(kn);
    FewReferences(s0, s1, kn.mount, o);
    assert kn.World().mount == kn.mount && kn.held == multiset{} by {
      MountIs(kn);
      assert kn.lostDirs == [];
    }
    InitialAgrees(s0, s1, kn.mount, o);
    IdleIs(s0, s1, kn.mount, o);
    InitialIs(s0, s1, kn.mount, o);
    FreeProcs(s0, s1, kn.mount, o);
    var r := CreateProcess(kn, None, false, memory);
    if r.Halt? {
      return false;
    }
    ValidIs(kn);
    ProcsAre(kn);
    r := CreateProcess(kn, Some(0), true, memory);
    if r.Halt? {
      return false;
    }
    ValidIs(kn);
    ok := true;
  }

  lemma MountIs(kn: Kernel)
    requires kn.Valid()
    ensures kn.World().mount == kn.mount && |kn.World().lostDirs| == |kn.lostDirs|
  {
    hide Volume.Valid, Exact, Kernel.Sounds, R.Good;
  }

  lemma FreeProcs(s0: seq<Item>, s1: seq<Item>, m: nat, o: bool)
    ensures !W.Booted(s0, s1, m, o).procs[0] && !Idle(s0, s1, m, o).procs[1]
  {
    IdleIs(s0, s1, m, o);
  }
}
