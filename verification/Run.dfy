/**
 Runs of system calls by any processes, from boot on. A run answers what `Replay` says and leaves what `Replay`
 says; every count is the number of its owners and of what failed calls lost; and device 0 is as it was.
 */
module Run {
  import opened Basics
  import opened Codec
  import opened Layout
  import opened Volumes
  import opened Paths
  import opened Items
  import opened Tables
  import opened Kernels
  import opened Files
  import opened Changes
  import opened Syscalls
  import D = Directory
  import W = World
  import R = Replay

  /**
   What the arguments of a call may be: C strings, and counts that an `int` holds; a key comes for each byte to
   read.
   */
  predicate IsCall(c: W.Call) {
    match c
    case COpen(path, _) => D.IsText(path)
    case CMkdir(path) => D.IsText(path)
    case CRemove(path) => D.IsText(path)
    case CRead(_, n, typed) => n < 0x8000_0000 && (n > 0 ==> |typed| == n)
    case CWrite(_, src) => |src| < 0x8000_0000
    case CTruncate(_, length) => length < 0x8000_0000
    case _ => true
  }

  /** The type and size of the inode that a descriptor is open for writing on. */
  method RecordAt(kn: Kernel, p: nat, fd: int) returns (d: Option<Dinode>, off: nat)
    requires kn.Ready() && p < PROCS_MAX
    ensures var h := W.HandleAt(kn.World(), p, fd);
            && (d.Some? <==> h.OnInode? && h.writable)
            && (d.Some? ==> off == h.off && d.value.size == W.SizeOf(W.ItemAt(kn.World(), h.node)))
            && (d.Some? ==> (d.value.typ == FT_FILE <==> W.ItemAt(kn.World(), h.node).File?))
            && (d.Some? ==> (d.value.typ == FT_DIRECTORY <==> W.ItemAt(kn.World(), h.node).Dir?))
  {
    hide Kernel.Steady, Kernel.Ready, Kernel.Sounds, Kernel.World, Covers, Kept, W.Shape, W.Referenced, W.ItemAt,
         W.HandleAt, W.SizeOf;
    ProcsAre(kn);
    if fd < 0 || fd >= W.NOFILE || kn.fds[W.NOFILE * p + fd].None? {
      NoFd(kn, p, fd);
      return None, 0;
    }
    FdIs(kn, p, fd);
    var file := kn.files[kn.fds[W.NOFILE * p + fd].value];
    if !file.writable || file.kind != Inode {
      return None, 0;
    }
    ReadSlot(kn, file.ip.value);
    SlotSize(kn, file.ip.value);
    return Some(kn.slots[file.ip.value].d), file.off;
  }

  /**
   Why a call made in state `w` panicked: programs and failed spawns refer to at least 47 inodes, or there is no process
   slot or no memory for a spawn, or no block is left.
   */
  ghost predicate Exhausted(kn: Kernel, w: W.World, c: W.Call)
    reads kn, kn.v1
  {
    || W.Crowded(w, 3)
    || (c.CSpawn? && (!c.memory || forall q :: 0 <= q < |w.procs| ==> w.procs[q]))
    || kn.DiskFull()
  }

  /** The calls after which names may not be a tree any more: what they answer. */
  function Answer(c: W.Call): W.Ret { if c.CWrite? then W.Count(|c.src|) else W.Success }

  /** The calls that are about files and directories in general. */
  method DoFile(kn: Kernel, p: nat, c: W.Call) returns (r: W.Ret, broke: bool)
    requires kn.Valid() && p < PROCS_MAX && IsCall(c) && kn.procs[p]
    requires c.COpen? || c.CMkdir? || c.CRemove? || c.CChdir?
    modifies kn`slots, kn`files, kn`cwds, kn`fds, kn`paths, kn`held, kn`loose, kn.v1
    ensures r.Halt? ==> W.Crowded(old(kn.World()), old(kn.Extra()) + 2) || kn.DiskFull()
    ensures !r.Halt? ==> kn.Ready() && kn.held == old(kn.held) && kn.loose == old(kn.loose)
    ensures !r.Halt? ==> (broke <==> W.Step(old(kn.World()), p, c).1 == W.Untold)
    ensures !r.Halt? && !broke ==> (kn.World(), r) == W.Step(old(kn.World()), p, c)
    ensures !r.Halt? && broke ==> c.CRemove? && r == W.Success && kn.World() == W.Remove(old(kn.World()), p, c.path).0
  {
    hide Kernel.Valid, Kernel.Steady, Kernel.Ready, Kernel.Sounds, Kernel.World, Covers, Kept, W.Shape, W.Referenced,
         R.Good, W.Open, W.Create, W.Mkdir, W.Remove, W.Chdir, W.BaseName, Tokens, D.IsText, IsAbsolute;
    ProcsAre(kn);
    broke := false;
    match c
    case COpen(path, flags) =>
      NotUntold(kn.World(), p, path, flags);
      if flags.create {
        r := Create(kn, p, path, flags);
      } else {
        r := Open(kn, p, path, flags);
      }
    case CMkdir(path) =>
      NotUntold(kn.World(), p, path, W.Flags(false, false, false, false, false));
      r := Mkdir(kn, p, path);
    case CRemove(path) =>
      NotUntold(kn.World(), p, path, W.Flags(false, false, false, false, false));
      r := Remove(kn, p, path);
      broke := r == W.Success && Tokens(path) != [] && IsDots(W.BaseName(path));
    case CChdir(path) =>
      NotUntold(kn.World(), p, path, W.Flags(false, false, false, false, false));
      if !IsAbsolute(path) && |kn.paths[p]| >= BUF_CAP {
        r := W.Skipped;
      } else {
        r := ChangeDir(kn, p, path);
      }
  }

  lemma NotUntold(w: W.World, p: nat, path: string, flags: W.Flags)
    requires W.Shape(w) && p < PROCS_MAX
    ensures W.Untold !in {W.Open(w, p, path, flags).1, W.Create(w, p, path, flags).1, W.Mkdir(w, p, path).1}
    ensures W.Untold !in {W.Remove(w, p, path).1, W.Chdir(w, p, path).1}
  {
    hide W.Goal, W.BaseName, Tokens, Normalize;
  }

  /** The calls that work on a descriptor. */
  method DoFd(kn: Kernel, p: nat, c: W.Call) returns (r: W.Ret, broke: bool)
    requires kn.Ready() && p < PROCS_MAX && IsCall(c) && kn.procs[p]
    requires c.CClose? || c.CRead? || c.CWrite? || c.CTruncate?
    modifies kn`slots, kn`files, kn`fds, kn`held, kn`loose, kn.v1
    ensures r.Halt? ==> kn.DiskFull()
    ensures !r.Halt? ==> kn.Steady() && kn.held == old(kn.held) && kn.loose == old(kn.loose)
    ensures !r.Halt? ==> (broke <==> W.Step(old(kn.World()), p, c).1 == W.Untold)
    ensures !r.Halt? && !broke ==> kn.Ready() && (kn.World(), r) == W.Step(old(kn.World()), p, c)
    ensures !r.Halt? && broke ==> r == Answer(c)
  {
    hide Kernel.Steady, Kernel.Ready, Kernel.Sounds, Kernel.World, Covers, Kept, W.Shape, W.Referenced, W.Close, W.Read,
         W.Write, W.Truncate, W.HandleAt, W.ItemAt;
    ProcsAre(kn);
    broke := false;
    match c
    case CClose(fd) =>
      FdUntold(kn.World(), p, fd, 0, []);
      r := Close(kn, p, fd);
    case CRead(fd, n, typed) =>
      if n <= 0 {
        r := W.Fail(W.Invalid);
      } else {
        FdUntold(kn.World(), p, fd, n, typed);
        var data;
        r, data := Read(kn, p, fd, n, typed);
      }
    case CWrite(fd, src) =>
      var d, off := RecordAt(kn, p, fd);
      WriteUntold(kn.World(), p, fd, src);
      broke := d.Some? && d.value.typ != FT_FILE && src != [] && off <= d.value.size && off + |src| <= MAXBYTES;
      r := Write(kn, p, fd, src);
    case CTruncate(fd, length) =>
      var d, off := RecordAt(kn, p, fd);
      TruncateUntold(kn.World(), p, fd, length);
      broke := d.Some? && d.value.typ == FT_DIRECTORY && 0 <= length < d.value.size;
      r := Truncate(kn, p, fd, length);
  }

  lemma FdUntold(w: W.World, p: nat, fd: int, n: nat, typed: seq<byte>)
    requires W.Shape(w) && p < PROCS_MAX
    ensures W.Close(w, p, fd).1 != W.Untold && W.Read(w, p, fd, n, typed).1 != W.Untold
  {
  }

  /** Exactly which writes end a run. */
  lemma WriteUntold(w: W.World, p: nat, fd: int, src: seq<byte>)
    requires W.Shape(w) && p < PROCS_MAX
    ensures var h := W.HandleAt(w, p, fd);
            W.Write(w, p, fd, src).1 == W.Untold <==>
              && h.OnInode? && h.writable && !W.ItemAt(w, h.node).File? && src != []
              && h.off <= W.SizeOf(W.ItemAt(w, h.node)) && h.off + |src| <= MAXBYTES
  {
  }

  /** Exactly which truncations do. */
  lemma TruncateUntold(w: W.World, p: nat, fd: int, length: int)
    requires W.Shape(w) && p < PROCS_MAX
    ensures var h := W.HandleAt(w, p, fd);
            W.Truncate(w, p, fd, length).1 == W.Untold <==>
              h.OnInode? && h.writable && W.ItemAt(w, h.node).Dir? && 0 <= length < W.SizeOf(W.ItemAt(w, h.node))
  {
  }

  /** Between calls nothing is held but what failed spawns lost. */
  lemma QuietHeld(kn: Kernel)
    requires kn.Quiet()
    ensures kn.Extra() == 0
  {
  }

  /** Any call of any process does what `Step` says; `broke` tells that the names may not be a tree any more. */
  method Do(kn: Kernel, p: nat, c: W.Call) returns (r: W.Ret, broke: bool)
    requires kn.Valid() && kn.Quiet() && p < PROCS_MAX && IsCall(c)
    modifies kn, kn.v1
    ensures r.Halt? ==> Exhausted(kn, old(kn.World()), c)
    ensures !r.Halt? ==> kn.Steady() && kn.Quiet() && (broke <==> W.Step(old(kn.World()), p, c).1 == W.Untold)
    ensures !r.Halt? && !broke ==> kn.Valid() && (kn.World(), r) == W.Step(old(kn.World()), p, c)
    ensures !r.Halt? && broke ==> r == Answer(c)
  {
    hide Kernel.Valid, Kernel.Steady, Kernel.Ready, Kernel.Sounds, Kernel.World, Covers, Kept, W.Shape, W.Referenced,
         R.Good, W.Spawn, W.Reap, W.Open, W.Create, W.Mkdir, W.Remove, W.Chdir, W.Close, W.Read, W.Write, W.Truncate,
         W.BaseName, Tokens, IsCall, AreJust;
    ProcsAre(kn);
    QuietHeld(kn);
    R.StepGood(kn.World(), p, c);
    broke := false;
    if !kn.procs[p] {
      return W.Skipped, false;
    }
    OthersUntold(kn.World(), p, c);
    if c.CSpawn? {
      var image;
      r, image := SpawnLine(kn, p, c.line, c.memory);
    } else if c.CReap? {
      if c.q < PROCS_MAX && c.q != p {
        r := Reap(kn, c.q);
      } else {
        r := W.Skipped;
      }
    } else if c.COpen? || c.CMkdir? || c.CRemove? || c.CChdir? {
      r, broke := DoFile(kn, p, c);
    } else {
      r, broke := DoFd(kn, p, c);
    }
    if !r.Halt? && !broke {
      ValidIs(kn);
    }
  }

  lemma OthersUntold(w: W.World, p: nat, c: W.Call)
    requires W.Shape(w) && p < PROCS_MAX
    ensures c.CSpawn? || c.CReap? ==> W.Step(w, p, c).1 != W.Untold
  {
    hide W.Goal;
  }

  /** Every count is the number of references that files, processes, descriptors and failed calls have. */
  ghost predicate AllCounted(kn: Kernel)
    reads kn
  {
    && (forall k :: 0 <= k < |kn.slots| ==>
          kn.slots[k].ref == multiset(Ips(kn.files))[Some(k)] + multiset(kn.cwds)[Some(k)] + multiset(kn.lostDirs)[k])
    && (forall f :: 0 <= f < |kn.files| ==> kn.files[f].ref == multiset(kn.fds)[Some(f)] + multiset(kn.lostFiles)[f])
  }

  lemma QuietCounts(kn: Kernel)
    requires kn.Steady() && kn.Quiet()
    ensures AllCounted(kn)
  {
    hide Volume.Valid, W.Shape, W.Referenced, Coherent, Distinct, FilesOk;
    forall k | 0 <= k < |kn.slots|
      ensures kn.slots[k].ref ==
                multiset(Ips(kn.files))[Some(k)] + multiset(kn.cwds)[Some(k)] + multiset(kn.lostDirs)[k]
    {
      assert kn.slots[k].ref == Holders(kn.files, kn.cwds, kn.held, k);
    }
  }

  /**
   A run of calls: the answers, up to a panic or to a call that may leave names that are no tree, whose answer
   is `last`; or up to a call for which `ialloc` scans what is behind the inode records.
   */
  method Run(kn: Kernel, calls: seq<(nat, W.Call)>) returns (rs: seq<W.Ret>, last: W.Ret)
    requires kn.Valid() && kn.Quiet() && forall c <- calls :: c.0 < PROCS_MAX && IsCall(c.1)
    modifies kn, kn.v1
    ensures |rs| <= |calls| && rs == R.Replay(old(kn.World()), calls[..|rs|]).1
    ensures |rs| == |calls| ==> kn.Valid() && kn.World() == R.Replay(old(kn.World()), calls).0
    ensures |rs| == |calls| && old(R.AllAgree(kn.World())) && R.AllSpare(old(kn.World()), calls) ==>
              R.AllAgree(kn.World())
    ensures |rs| < |calls| ==> Ended(kn, R.Replay(old(kn.World()), calls[..|rs|]).0, calls[|rs|], last)
    ensures |rs| == |calls| || !last.Halt? ==> kn.Steady() && kn.Quiet() && AllCounted(kn)
    ensures kn.v0.disk == old(kn.v0.disk)
  {
    hide Kernel.Valid, Kernel.Steady, Kernel.Ready, Kernel.Sounds, Kernel.World, Covers, W.Shape, W.Referenced, R.Good,
         W.Step, IsCall, R.AllAgree, R.AllSpare, Kernel.Quiet, AllCounted, Exhausted;
    assert kn.v0 != kn.v1 by { kn.TwoVolumes(); }
    ghost var w := kn.World();
    rs, last := [], W.Success;
    while |rs| < |calls|
      invariant |rs| <= |calls| && kn.Valid() && kn.Quiet() && kn.v0.disk == old(kn.v0.disk)
      invariant (kn.World(), rs) == R.Replay(w, calls[..|rs|])
      decreases |calls| - |rs|
    {
      var n := |rs|;
      ProcsAre(kn);
      var c := calls[n];
      var r, broke := Do(kn, c.0, c.1);
      if r.Halt? || r.Beyond? || broke {
        last := r;
        if !r.Halt? {
          QuietCounts(kn);
        }
        return;
      }
      assert calls[..n + 1][..n] == calls[..n];
      rs := rs + [r];
    }
    assert calls[..|calls|] == calls;
    QuietCounts(kn);
    if R.AllAgree(w) && R.AllSpare(w, calls) {
      R.ReplayAgree(w, calls);
    }
  }

  /** How a run ends at call `c`, made in state `w`. */
  ghost predicate Ended(kn: Kernel, w: W.World, c: (nat, W.Call), last: W.Ret)
    requires W.Shape(w) && c.0 < PROCS_MAX
    reads kn, kn.v1
  {
    if last.Halt? then Exhausted(kn, w, c.1)
    else if last.Beyond? then W.Step(w, c.0, c.1).1 == W.Beyond
    else W.Step(w, c.0, c.1).1 == W.Untold && last == Answer(c.1)
  }

  // ----- whatever became of the names -----

  /**
   From any state with right tables, whatever programs wrote into directories or removed inodes: calls on descriptors,
   and the ends of processes.
   */
  method RunOn(kn: Kernel, calls: seq<(nat, W.Call)>) returns (n: nat)
    requires kn.Steady() && kn.Quiet()
    requires forall c <- calls :: c.0 < PROCS_MAX && IsCall(c.1) &&
               (c.1.CClose? || c.1.CRead? || c.1.CWrite? || c.1.CTruncate? || (c.1.CReap? && c.1.q < PROCS_MAX))
    modifies kn, kn.v1
    ensures n <= |calls| && (n < |calls| ==> calls[n].1.CWrite? && kn.DiskFull())
    ensures n == |calls| ==> kn.Steady() && kn.Quiet() && AllCounted(kn)
    ensures kn.v0.disk == old(kn.v0.disk)
  {
    hide Kernel.Steady, Kernel.Ready, Kernel.Sounds, Kernel.World, Covers, Kept, W.Shape, W.Referenced, W.Close, W.Read,
         W.Write, W.Truncate, W.Reap, W.HandleAt, W.ItemAt, AllCounted;
    assert kn.v0 != kn.v1 by { kn.TwoVolumes(); }
    n := 0;
    while n < |calls|
      invariant n <= |calls| && kn.Steady() && kn.Quiet() && kn.v0.disk == old(kn.v0.disk)
    {
      var p, c := calls[n].0, calls[n].1;
      var r, data;
      match c {
        case CClose(fd) => r := Close(kn, p, fd);
        case CRead(fd, k, typed) =>
          if k > 0 {
            r, data := Read(kn, p, fd, k, typed);
          }
        case CWrite(fd, src) =>
          r := Write(kn, p, fd, src);
          if r.Halt? {
            return;
          }
        case CTruncate(fd, length) => r := Truncate(kn, p, fd, length);
        case CReap(q) => r := Reap(kn, q);
      }
      n := n + 1;
    }
    QuietCounts(kn);
  }
}
