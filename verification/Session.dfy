/** From two host directories to the answers of any calls: the images are built, the kernel starts on them, and runs. */
module Session {
  import opened Basics
  import opened Codec
  import opened Layout
  import opened Volumes
  import opened Items
  import opened Hazards
  import opened Kernels
  import opened Mkfs
  import opened Images
  import opened Memory
  import D = Descriptors
  import L = Lives
  import C = Computers
  import B = Boot
  import Run
  import N = Namespace
  import W = World
  import R = Replay

  /** A host tree whose files and directories all have records on the image; only then is the image a tree. */
  predicate IsSmall(hs: seq<Host>) { IsHost(hs) && |hs| <= 30 }

  /** The tree on the image of a host tree. */
  function Tree(hs: seq<Host>): (s: seq<Item>)
    requires IsSmall(hs)
    ensures |s| == 32
  {
    Planned(hs, 32)
  }

  /** The root of the image has a directory "home". */
  predicate HasHome(hs: seq<Host>)
    requires IsSmall(hs)
  {
    var s := Tree(hs);
    s[1].Dir? && "home" in s[1].names && s[1].names["home"] < 32 && s[s[1].names["home"]].Dir?
  }

  lemma TreeIs(hs: seq<Host>)
    requires IsSmall(hs)
    ensures IsTree(Tree(hs))
  {
    hide IsTree, Planned, IsHost;
    assert hs[..|hs|] == hs;
    PlannedTree(hs, |hs|, 32);
  }

  lemma InitiallyGood(h0: seq<Host>, h1: seq<Host>)
    requires IsSmall(h0) && IsSmall(h1) && HasHome(h0)
    ensures var w := B.Initial(Tree(h0), Tree(h1), Tree(h0)[1].names["home"], true);
            R.Good(w) && R.AllAgree(w)
  {
    hide IsTree, B.Initial, R.Good, R.AllAgree, Tree, IsSmall;
    TreeIs(h0);
    TreeIs(h1);
    B.HomeIs(Tree(h0));
    B.InitialAgrees(Tree(h0), Tree(h1), Tree(h0)[1].names["home"], true);
  }

  lemma BootedTrees(s0: seq<Item>, s1: seq<Item>, m: nat, o: bool)
    ensures var w := W.Booted(s0, s1, m, o);
            w.s0 == s0 && w.s1 == s1 && w.overruns == o
  {
  }

  /** What the first program sees; `ialloc` goes past the 32 records of device 1, as 64 are declared. */
  ghost function Initially(h0: seq<Host>, h1: seq<Host>): (w: W.World)
    requires IsSmall(h0) && IsSmall(h1) && HasHome(h0)
    ensures R.Good(w) && R.AllAgree(w)
  {
    InitiallyGood(h0, h1);
    B.Initial(Tree(h0), Tree(h1), Tree(h0)[1].names["home"], true)
  }

  lemma {:induction false} PlannedSizes(hs: seq<Host>, k: nat, n: nat)
    requires IsHost(hs) && Fits(hs) && k <= |hs| && k + 2 <= n
    ensures D.SizesOk(Planned(hs[..k], n))
  {
    hide Planned, IsHost, Fits, IsTree, Legal;
    if k == 0 {
      NothingPlanned(n);
    } else {
      PlannedSizes(hs, k - 1, n);
      PlannedTree(hs, k - 1, n);
      PlannedStep(hs, k - 1, n);
      CanAddHost(Planned(hs[..k - 1], n), hs[k - 1], k + 1);
      assert NameFits(hs[k - 1]) by { AllFit(hs, k - 1); }
    }
  }

  lemma AllFit(hs: seq<Host>, k: nat)
    requires Fits(hs) && k < |hs|
    ensures NameFits(hs[k])
  {
  }

  lemma InitiallyTidy(h0: seq<Host>, h1: seq<Host>)
    requires IsSmall(h0) && IsSmall(h1) && HasHome(h0) && Fits(h0) && Fits(h1)
    ensures D.Tidy(Initially(h0, h1))
  {
    hide Planned, IsHost, Fits, B.Initial, D.Tidy;
    assert h0[..|h0|] == h0 && h1[..|h1|] == h1;
    PlannedSizes(h0, |h0|, 32);
    PlannedSizes(h1, |h1|, 32);
    B.InitialTidy(Tree(h0), Tree(h1), Tree(h0)[1].names["home"], true);
  }

  /** What the builder makes of a host tree, as the kernel finds it. */
  method Disk(hs: seq<Host>, junk: seq<byte>, buf: Block) returns (v: Volume?)
    requires IsSmall(hs) && |junk| == 30
    ensures v != null <==> Fits(hs)
    ensures v != null ==> fresh(v) && N.Sound(v) && N.View(v) == Tree(hs) && IsTree(N.View(v))
    ensures v != null ==> B.HasMagic(v) && B.Described(v) && v.Overruns()
  {
    hide IsHost, Planned, Fits, N.Sound, N.View, IsTree, Contains, Consistent, DecodeSuper;
    var b := Build(hs, junk, buf);
    if b == null {
      return null;
    }
    FitsSize(hs);
    v := Open(b, hs);
  }

  lemma FitsSize(hs: seq<Host>)
    requires Fits(hs)
    ensures |hs| <= 62
  {
  }

  /** Files and directories as `fs_init` finds them, before there is any process. */
  ghost function Booted(h0: seq<Host>, h1: seq<Host>): W.World
    requires IsSmall(h0) && IsSmall(h1) && HasHome(h0)
  {
    W.Booted(Tree(h0), Tree(h1), Tree(h0)[1].names["home"], true)
  }

  /**
   `fs_init` on the two images leaves a kernel that can go on exactly if both trees fit and the first has a directory
   "home".
   */
  method FsInit(h0: seq<Host>, h1: seq<Host>, junk0: seq<byte>, junk1: seq<byte>, buf: Block) returns (kn: Kernel?)
    requires IsSmall(h0) && IsSmall(h1) && |junk0| == |junk1| == 30
    ensures kn != null <==> Fits(h0) && Fits(h1) && HasHome(h0)
    ensures kn != null ==> fresh(kn) && fresh(kn.v0) && fresh(kn.v1) && kn.Valid() && kn.Quiet()
    ensures kn != null ==> kn.World() == Booted(h0, h1) && kn.mount == Tree(h0)[1].names["home"]
  {
    hide IsSmall, Tree, Fits, N.Sound, N.View, IsTree, Kernel.Valid, Kernel.Ready, Kernel.Steady, Kernel.World,
         Kernel.Quiet, W.Booted, B.HasMagic, B.Described;
    var v0 := Disk(h0, junk0, buf);
    if v0 == null {
      return null;
    }
    var v1 := Disk(h1, junk1, buf);
    if v1 == null {
      return null;
    }
    kn := B.FsInit(v0, v1);
    if kn == null {
      return null;
    }
    N.TypeIs(v0, kn.mount);
    if v0.Load(kn.mount).typ != FT_DIRECTORY {
      return null;
    }
  }

  /**
   The kernel comes up on the two images exactly if both trees fit, the first has a directory "home", and there is
   memory for two processes. Then there are an idle process and a shell, the two trees are joined at "/home", and
   every path leads where the kernel believes it does.
   */
  method PowerOn(h0: seq<Host>, h1: seq<Host>, junk0: seq<byte>, junk1: seq<byte>, buf: Block, memory: bool)
    returns (kn: Kernel?)
    requires IsSmall(h0) && IsSmall(h1) && |junk0| == |junk1| == 30
    ensures kn != null <==> Fits(h0) && Fits(h1) && HasHome(h0) && memory
    ensures kn != null ==> fresh(kn) && fresh(kn.v0) && fresh(kn.v1) && kn.Valid() && kn.Quiet()
    ensures kn != null ==> kn.World() == Initially(h0, h1) && R.AllAgree(kn.World())
  {
    hide IsSmall, Tree, Fits, HasHome, Kernel.Valid, Kernel.Ready, Kernel.Steady, Kernel.World, Kernel.Quiet, W.Booted,
         B.Initial, R.AllAgree;
    kn := FsInit(h0, h1, junk0, junk1, buf);
    if kn == null {
      return null;
    }
    BootedTrees(Tree(h0), Tree(h1), kn.mount, true);
    var ok := B.StartProcesses(kn, memory);
    if !ok {
      return null;
    }
  }

  /**
   The whole computer, from two host trees, the shell's program and any memory that drivers left: whatever its
   processes then do is what the one state machine does.
   */
  method RunComputer(h0: seq<Host>, h1: seq<Host>, junk0: seq<byte>, junk1: seq<byte>, buf: Block, mm: Machine,
                     shell: seq<byte>, es: seq<C.Event>)
    returns (c: C.Computer?, ghost st: C.State, rs: seq<W.Ret>, last: W.Ret)
    requires IsSmall(h0) && IsSmall(h1) && |junk0| == |junk1| == 30 && |shell| < 0x1_0000_0000
    requires mm.Running() && (forall i :: 0 <= i < PROCS_MAX ==> !mm.procs[i].live) && forall e <- es :: C.IsEvent(e)
    modifies mm, mm.used
    ensures c != null ==> Fits(h0) && Fits(h1) && HasHome(h0)
    ensures c == null ==>
              !Fits(h0) || !Fits(h1) || !HasHome(h0) || forall q :: 0 <= q < mm.used.Length ==> mm.used[q]
    ensures c != null ==> st.Valid() && st.w == Initially(h0, h1) && st.t.cur == 1 && st.lost == 0
    ensures c != null ==> |rs| <= |es| && rs == C.Replay(st, es[..|rs|]).1
    ensures c != null && |rs| == |es| ==> c.Valid() && c.View() == C.Replay(st, es).0
    ensures c != null && |rs| < |es| ==>
              var v := C.Replay(st, es[..|rs|]).0;
              if last.Halt? then c.Stuck(v.w, es[|rs|]) else C.Next(v, es[|rs|]).1 in {W.Untold, W.Beyond}
  {
    hide IsSmall, Tree, Fits, HasHome, Kernel.Valid, Kernel.Ready, Kernel.Steady, Kernel.World, Kernel.Quiet, W.Booted,
         B.Initial, R.AllAgree, R.Good, Machine.Running, Loaded, C.Computer.Heaps, C.Computer.Stuck, C.Next,
         C.State.Valid, C.IsEvent;
    rs, last, c, st := [], W.Success, null, C.Off();
    var kn := FsInit(h0, h1, junk0, junk1, buf);
    if kn == null {
      return;
    }
    BootedTrees(Tree(h0), Tree(h1), kn.mount, true);
    c := C.Start(kn, mm, shell);
    if c != null {
      st := c.View();
      rs, last := c.RunEvents(es);
    }
  }

  /**
   A whole session. The answers to the calls, and what is left, depend on the host trees alone: they are those
   of `Replay` from the initial state. A session ends early only at a call that the kernel cannot serve for lack of
   slots, blocks, processes or memory; at one after which names may not be a tree any more; or at one that needs an
   inode when all 31 are in use, for which `ialloc` goes on into the bitmap.
   */
  method Session(h0: seq<Host>, h1: seq<Host>, junk0: seq<byte>, junk1: seq<byte>, buf: Block, memory: bool,
                 calls: seq<(nat, W.Call)>)
    returns (kn: Kernel?, rs: seq<W.Ret>, last: W.Ret)
    requires IsSmall(h0) && IsSmall(h1) && |junk0| == |junk1| == 30
    requires forall c <- calls :: c.0 < PROCS_MAX && Run.IsCall(c.1)
    ensures kn != null <==> Fits(h0) && Fits(h1) && HasHome(h0) && memory
    ensures kn != null ==> |rs| <= |calls| && rs == R.Replay(Initially(h0, h1), calls[..|rs|]).1
    ensures kn != null && |rs| < |calls| ==>
              Run.Ended(kn, R.Replay(Initially(h0, h1), calls[..|rs|]).0, calls[|rs|], last)
    ensures kn != null && (|rs| == |calls| || !last.Halt?) ==> kn.Steady() && kn.Quiet() && Run.AllCounted(kn)
    ensures kn != null && |rs| == |calls| ==>
              && kn.Valid() && kn.World() == R.Replay(Initially(h0, h1), calls).0
              && (R.AllSpare(Initially(h0, h1), calls) ==> R.AllAgree(kn.World()))
              && D.Tidy(kn.World())
  {
    hide IsSmall, Tree, Fits, HasHome, Initially, Kernel.Valid, Kernel.Steady, Kernel.World, Kernel.Quiet, R.AllAgree,
         R.AllSpare, Run.AllCounted, Run.IsCall, Run.Ended, D.Tidy;
    kn := PowerOn(h0, h1, junk0, junk1, buf, memory);
    rs, last := [], W.Success;
    if kn != null {
      rs, last := Run.Run(kn, calls);
      InitiallyTidy(h0, h1);
      L.ReplayTidy(Initially(h0, h1), calls);
    }
  }
}
