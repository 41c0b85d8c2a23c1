/**
 The parts run together: files and directories, memory and the scheduler, each with its own view of the process table.
 They agree about it after every event, so that a whole computer is one state machine.
 */
module Computers {
  import opened Basics
  import opened Codec
  import opened Ram
  import opened Memory
  import K = Kernels
  import S = Scheduler
  import Y = Syscalls
  import B = Boot
  import Run
  import W = World
  import R = Replay

  /** What the current process does: a call on files, a spawn, one turn of the loop of `wait_process`, and so on. */
  datatype Event =
    | Call(c: W.Call)
    | Spawn(line: string)
    | Exit
    | Wait(pid: nat, again: bool)
    | Yield
    | Sbrk(increment: int)

  predicate IsEvent(e: Event) {
    match e
    case Call(c) => Run.IsCall(c) && !c.CSpawn? && !c.CReap?
    case Sbrk(n) => -0x8000_0000 <= n < 0x8000_0000
    case _ => true
  }

  datatype Heap = NoHeap | Heap(start: nat, end: nat)

  /** `lost` counts the spawns that failed. */
  datatype State = State(w: W.World, t: S.Table, heaps: seq<Heap>, lost: nat) {

    /** The three views of the process table agree, and the current process is one that can run. */
    ghost predicate Valid() {
      && R.Good(w) && t.Valid() && t.slots[t.cur].state == S.Runnable && |heaps| == PROCS_MAX
      && forall i :: 0 <= i < PROCS_MAX ==>
           (w.procs[i] <==> t.slots[i].state != S.Unused) && (heaps[i].Heap? <==> t.slots[i].state != S.Unused)
    }
  }

  /** Before anything is started. */
  function Off(): State { State(W.Booted([], [], 0, false), S.Table([], 0), [], 0) }

  /** Where the heap of a process with this program starts. */
  ghost function HeapStart(w: W.World, p: nat, line: string): nat
    requires W.Shape(w) && p < PROCS_MAX
  {
    var g := W.Goal(w, p, W.FirstWord(line), false);
    4096 * (USER_VPN + PagesOf(if g.Some? then W.SizeOf(W.ItemAt(w, g.value)) else 0))
  }

  ghost function SpawnNext(st: State, line: string): (State, W.Ret)
    requires st.Valid()
  {
    var (w, r) := W.Step(st.w, st.t.cur, W.CSpawn(line, true));
    var q := S.FreeSlot(st.t.slots, 0);
    if r.Pid? && q.Some? then
      var h := HeapStart(st.w, st.t.cur, line);
      (State(w, S.Do(st.t, S.Event.Spawn), st.heaps[q.value := Heap(h, h)], st.lost), W.Pid(q.value + 1))
    else (st.(w := w, lost := if W.FirstWord(line) == "" then st.lost else st.lost + 1), r)
  }

  ghost function WaitNext(st: State, pid: nat, again: bool): (State, W.Ret)
    requires st.Valid()
  {
    var i := S.WithPid(st.t.slots, pid);
    if i.None? then (st, if again then W.Success else W.Fail(W.NotPermitted))
    else if st.t.slots[i.value].state == S.Exited then
      (State(W.Reap(st.w, i.value).0, S.Do(st.t, S.Reap(i.value)), st.heaps[i.value := NoHeap], st.lost), W.Success)
    else (st.(t := S.Do(st.t, S.Event.Yield)), W.Skipped)
  }

  ghost function BrkNext(st: State, increment: int): (State, W.Ret)
    requires st.Valid()
  {
    var h := st.heaps[st.t.cur];
    if h.start <= h.end + increment < 0x8000_0000
    then (st.(heaps := st.heaps[st.t.cur := h.(end := h.end + increment)]), W.Count(h.end))
    else (st, W.Fail(W.NotPermitted))
  }

  /** One event on the whole. A spawn without a free slot, or without memory, halts the computer. */
  ghost function Next(st: State, e: Event): (State, W.Ret)
    requires st.Valid()
  {
    match e
    case Call(c) => var (w, r) := W.Step(st.w, st.t.cur, c); (st.(w := w), r)
    case Spawn(line) => SpawnNext(st, line)
    case Exit => if st.t.cur == 0 then (st, W.Skipped) else (st.(t := S.Do(st.t, S.Event.Exit)), W.Success)
    case Wait(pid, again) => WaitNext(st, pid, again)
    case Yield => (st.(t := S.Do(st.t, S.Event.Yield)), W.Success)
    case Sbrk(increment) => BrkNext(st, increment)
  }

  // ----- what the views have to say about each other -----

  lemma SameSlot(procs: seq<bool>, slots: seq<S.Slot>)
    requires |procs| == |slots| && forall i :: 0 <= i < |slots| ==> (procs[i] <==> slots[i].state != S.Unused)
    ensures W.FirstUnusedProc(procs, 0) == S.FreeSlot(slots, 0)
  {
    var a, b := W.FirstUnusedProc(procs, 0), S.FreeSlot(slots, 0);
    if a.Some? {
      assert !procs[a.value] && slots[a.value].state == S.Unused;
    }
    if b.Some? {
      assert slots[b.value].state == S.Unused && !procs[b.value];
    }
  }

  /** Calls on files leave the process table alone. */
  lemma StepProcs(w: W.World, p: nat, c: W.Call)
    requires W.Shape(w) && p < PROCS_MAX && !c.CSpawn? && !c.CReap?
    ensures W.Step(w, p, c).0.procs == w.procs
  {
    hide W.Goal, W.ItemAt, W.HandleAt, W.FirstFree, W.RemovesDots;
  }

  /** What a spawn does to the process table. */
  lemma SpawnProcs(w: W.World, p: nat, line: string)
    requires W.Shape(w) && p < PROCS_MAX && w.procs[p]
    ensures var (w', r) := W.Step(w, p, W.CSpawn(line, true));
            var q := W.FirstUnusedProc(w.procs, 0);
            && (r.Pid? ==> q.Some? && r.pid == q.value + 1 && w'.procs == w.procs[q.value := true])
            && (!r.Pid? ==> w'.procs == w.procs)
            && (!r.Pid? && !r.Halt? && W.FirstWord(line) != "" ==> q.Some?)
  {
    hide W.Goal, W.FirstUnusedProc, W.FirstWord, W.ThreeFree, W.ThreeOpened;
  }

  lemma ReapProcs(w: W.World, q: nat)
    requires W.Shape(w) && q < PROCS_MAX && w.procs[q]
    ensures W.Reap(w, q).0.procs == w.procs[q := false]
  {
    hide W.ClosedAll;
  }

  /** The process that is selected can run. */
  lemma PickRuns(t: S.Table)
    requires t.Valid()
    ensures t.slots[S.Pick(t, 0)].state == S.Runnable
  {
    S.PickFirst(t, 0);
  }

  // ----- every event keeps the agreement -----

  lemma CallIs(st: State, c: W.Call)
    requires st.Valid()
    ensures Next(st, Call(c)) == (st.(w := W.Step(st.w, st.t.cur, c).0), W.Step(st.w, st.t.cur, c).1)
  {
    hide W.Step, R.Good;
  }

  lemma CallValid(st: State, c: W.Call)
    requires st.Valid() && IsEvent(Call(c))
    ensures Next(st, Call(c)).0.Valid()
  {
    hide W.Step, R.Good;
    R.StepGood(st.w, st.t.cur, c);
    StepProcs(st.w, st.t.cur, c);
  }

  lemma SpawnValid(st: State, line: string)
    requires st.Valid()
    ensures SpawnNext(st, line).0.Valid()
  {
    hide W.Step, W.FirstWord, HeapStart, R.Good;
    R.StepGood(st.w, st.t.cur, W.CSpawn(line, true));
    SpawnProcs(st.w, st.t.cur, line);
    SameSlot(st.w.procs, st.t.slots);
    if S.FreeSlot(st.t.slots, 0).Some? {
      S.DoValid(st.t, S.Event.Spawn);
    }
  }

  lemma WaitValid(st: State, pid: nat, again: bool)
    requires st.Valid()
    ensures WaitNext(st, pid, again).0.Valid()
  {
    hide W.Reap, R.Good, S.Pick;
    var i := S.WithPid(st.t.slots, pid);
    if i.Some? && st.t.slots[i.value].state == S.Exited {
      R.StepGood(st.w, st.t.cur, W.CReap(i.value));
      ReapProcs(st.w, i.value);
      S.DoValid(st.t, S.Reap(i.value));
    } else {
      PickRuns(st.t);
      S.DoValid(st.t, S.Event.Yield);
    }
  }

  lemma SwitchValid(st: State, e: Event)
    requires st.Valid() && (e.Yield? || e.Exit?)
    ensures Next(st, e).0.Valid()
  {
    hide R.Good, S.Pick;
    if e.Yield? {
      PickRuns(st.t);
      S.DoValid(st.t, S.Event.Yield);
    } else if st.t.cur != 0 {
      S.DoValid(st.t, S.Event.Exit);
      PickRuns(st.t.(slots := st.t.slots[st.t.cur := st.t.slots[st.t.cur].(state := S.Exited)]));
    }
  }

  /** The three views of the process table agree after every event. */
  lemma NextValid(st: State, e: Event)
    requires st.Valid() && IsEvent(e)
    ensures Next(st, e).0.Valid()
  {
    hide W.Step, R.Good, S.Do, S.Enabled, SpawnNext, WaitNext;
    match e {
      case Call(c) => CallValid(st, c);
      case Spawn(line) => SpawnValid(st, line);
      case Wait(pid, again) => WaitValid(st, pid, again);
      case Sbrk(_) =>
      case _ => SwitchValid(st, e);
    }
  }

  /** Any events, from state `st`. */
  ghost function Replay(st: State, es: seq<Event>): (r: (State, seq<W.Ret>))
    requires st.Valid() && forall e <- es :: IsEvent(e)
    ensures r.0.Valid() && |r.1| == |es|
    decreases |es|
  {
    if es == [] then (st, [])
    else
      var (s, rs) := Replay(st, es[..|es| - 1]);
      NextValid(s, es[|es| - 1]);
      var (s', r) := Next(s, es[|es| - 1]);
      (s', rs + [r])
  }

  lemma ReplayMore(st: State, es: seq<Event>, n: nat)
    requires st.Valid() && n < |es| && forall e <- es :: IsEvent(e)
    ensures var (s, rs) := Replay(st, es[..n]);
            Replay(st, es[..n + 1]) == (Next(s, es[n]).0, rs + [Next(s, es[n]).1])
  {
    hide Next, IsEvent, State.Valid;
    assert es[..n + 1][..n] == es[..n];
  }

  lemma ReplayNone(st: State)
    requires st.Valid()
    ensures Replay(st, []) == (st, [])
  {
  }

  // ----- what a process can rely on -----

  ghost predicate HasPid(t: S.Table, pid: nat) {
    exists i :: 0 <= i < |t.slots| && t.slots[i].state != S.Unused && t.slots[i].pid == pid
  }

  ghost predicate HasExited(t: S.Table, pid: nat) {
    exists i :: 0 <= i < |t.slots| && t.slots[i].state == S.Exited && t.slots[i].pid == pid
  }

  /** The first process with a pid is the only one, if it has exited. */
  lemma FoundIs(t: S.Table, pid: nat)
    requires t.Valid()
    ensures var i := S.WithPid(t.slots, pid);
            (i.Some? <==> HasPid(t, pid)) && (i.Some? && t.slots[i.value].state == S.Exited <==> HasExited(t, pid))
  {
    var i := S.WithPid(t.slots, pid);
    if HasExited(t, pid) {
      var j :| 0 <= j < |t.slots| && t.slots[j].state == S.Exited && t.slots[j].pid == pid;
      S.OnePid(t, j);
    }
  }

  /**
   What one turn of `wait_process` answers: success for a process that has exited, and for one that was there before
   and is not any more; failure for one that never was; and no answer yet, after a switch, for one that still runs.
   */
  lemma WaitAnswers(st: State, pid: nat, again: bool)
    requires st.Valid()
    ensures var (v, r) := Next(st, Wait(pid, again));
            && (r == W.Success <==> HasExited(st.t, pid) || (again && !HasPid(st.t, pid)))
            && (r == W.Fail(W.NotPermitted) <==> !again && !HasPid(st.t, pid))
            && (r == W.Skipped <==> HasPid(st.t, pid) && !HasExited(st.t, pid))
            && (r == W.Success ==> !HasPid(v.t, pid) && v.t.cur == st.t.cur)
            && (r == W.Skipped ==> v == st.(t := v.t) && v.t.slots == st.t.slots)
            && (!HasPid(st.t, pid) ==> v == st)
  {
    hide R.Good, W.Reap, S.Pick;
    FoundIs(st.t, pid);
    var i := S.WithPid(st.t.slots, pid);
    if i.Some? && st.t.slots[i.value].state == S.Exited {
      S.ReapFrees(st.t, i.value);
      S.DoValid(st.t, S.Reap(i.value));
      FoundIs(S.Do(st.t, S.Reap(i.value)), pid);
    }
  }

  /** A process that has exited stays so over every event but the one that waits for it. */
  lemma ExitedNext(st: State, e: Event, s: nat)
    requires st.Valid() && IsEvent(e) && 0 < s < PROCS_MAX && s != st.t.cur && st.t.slots[s].state == S.Exited
    requires !(e.Wait? && e.pid == s + 1)
    ensures var v := Next(st, e).0;
            |v.t.slots| == PROCS_MAX && v.t.slots[s] == S.Slot(s + 1, S.Exited) && v.t.cur != s
  {
    hide R.Good, W.Reap, W.Step, S.Pick, S.Do, HeapStart;
    assert st.t.slots[s].pid == s + 1;
    match e {
      case Spawn(_) =>
        if S.FreeSlot(st.t.slots, 0).Some? {
          S.ExitedStep(st.t, S.Event.Spawn, s);
          S.DoValid(st.t, S.Event.Spawn);
        }
      case Wait(pid, _) =>
        var i := S.WithPid(st.t.slots, pid);
        if i.Some? && st.t.slots[i.value].state == S.Exited {
          S.ExitedStep(st.t, S.Reap(i.value), s);
          S.DoValid(st.t, S.Reap(i.value));
        } else {
          S.ExitedStep(st.t, S.Event.Yield, s);
          S.DoValid(st.t, S.Event.Yield);
        }
      case Yield =>
        S.ExitedStep(st.t, S.Event.Yield, s);
        S.DoValid(st.t, S.Event.Yield);
      case Exit =>
        if st.t.cur != 0 {
          S.ExitedStep(st.t, S.Event.Exit, s);
          S.DoValid(st.t, S.Event.Exit);
        }
      case _ =>
    }
  }

  lemma {:induction false} ExitedReplay(st: State, es: seq<Event>, s: nat)
    requires st.Valid() && 0 < s < PROCS_MAX && s != st.t.cur && st.t.slots[s].state == S.Exited
    requires forall e <- es :: IsEvent(e) && !(e.Wait? && e.pid == s + 1)
    ensures var v := Replay(st, es).0; v.t.slots[s] == S.Slot(s + 1, S.Exited) && v.t.cur != s
    decreases |es|
  {
    hide Next, R.Good, IsEvent;
    if es == [] {
      assert st.t.slots[s].pid == s + 1;
    } else {
      ExitedReplay(st, es[..|es| - 1], s);
      ExitedNext(Replay(st, es[..|es| - 1]).0, es[|es| - 1], s);
    }
  }

  /**
   Whoever waits for a process after it has exited, and before anybody else does, has success at the next look, whatever
   happened in between.
   */
  lemma ExitThenWait(st: State, es: seq<Event>, again: bool)
    requires st.Valid() && st.t.cur != 0
    requires forall e <- es :: IsEvent(e) && !(e.Wait? && e.pid == st.t.cur + 1)
    ensures Next(st, Exit).0.Valid() && Next(st, Exit).1 == W.Success
    ensures Next(Replay(Next(st, Exit).0, es).0, Wait(st.t.cur + 1, again)).1 == W.Success
  {
    hide R.Good, IsEvent, S.Do, Replay;
    SwitchValid(st, Exit);
    S.ExitLeaves(st.t);
    ExitedReplay(Next(st, Exit).0, es, st.t.cur);
    var v := Replay(Next(st, Exit).0, es).0;
    WaitAnswers(v, st.t.cur + 1, again);
    assert v.t.slots[st.t.cur].pid == st.t.cur + 1;
  }

  /** `sbrk` answers the old end of the heap and moves it, or refuses; the next `sbrk` starts from there. */
  lemma SbrkMoves(st: State, increment: int)
    requires st.Valid()
    ensures var (v, r) := Next(st, Sbrk(increment));
            var h := st.heaps[st.t.cur];
            && v.Valid() && h.Heap?
            && (r == W.Count(h.end) <==> h.start <= h.end + increment < 0x8000_0000)
            && (r != W.Count(h.end) ==> r == W.Fail(W.NotPermitted) && v == st)
            && (r == W.Count(h.end) ==>
                  && v == st.(heaps := v.heaps) && v.heaps[st.t.cur].Heap? && v.heaps[st.t.cur].start == h.start
                  && (forall i :: 0 <= i < PROCS_MAX && i != st.t.cur ==> v.heaps[i] == st.heaps[i])
                  && (h.end + increment >= h.start ==> Next(v, Sbrk(0)).1 == W.Count(h.end + increment)))
  {
    hide R.Good;
  }

  /** A new process can run, and its heap is empty and starts at the first page behind its program. */
  lemma SpawnStarts(st: State, line: string)
    requires st.Valid() && Next(st, Spawn(line)).1.Pid?
    ensures var (v, r) := Next(st, Spawn(line));
            var g := W.Goal(st.w, st.t.cur, W.FirstWord(line), false);
            && g.Some? && 0 < r.pid <= PROCS_MAX && v.lost == st.lost && v.t.cur == st.t.cur
            && var q, end := r.pid - 1, 4096 * USER_VPN + W.SizeOf(W.ItemAt(st.w, g.value));
               && |v.t.slots| == PROCS_MAX && |v.heaps| == PROCS_MAX
               && st.t.slots[q].state == S.Unused && v.t.slots[q] == S.Slot(r.pid, S.Runnable)
               && v.heaps[q].Heap? && v.heaps[q].start == v.heaps[q].end && v.heaps[q].start % 4096 == 0
               && end <= v.heaps[q].start < end + 4096
               && forall i :: 0 <= i < PROCS_MAX && i != q ==>
                    v.t.slots[i] == st.t.slots[i] && v.heaps[i] == st.heaps[i]
  {
    hide R.Good, W.FirstWord, W.Goal, W.ThreeFree, W.ThreeOpened;
    S.SpawnTakes(st.t) by { SpawnFacts(st, line); }
    assert st.t.slots[S.FreeSlot(st.t.slots, 0).value].state == S.Unused by { SpawnFacts(st, line); }
  }

  /** A spawn that finds no program starts nothing, and is counted; an empty command line costs nothing. */
  lemma SpawnStartsNot(st: State, line: string)
    requires st.Valid() && Next(st, Spawn(line)).1 == W.Fail(W.NotPermitted)
    ensures var v := Next(st, Spawn(line)).0;
            && v.t == st.t && v.heaps == st.heaps
            && (W.FirstWord(line) == "" ==> v == st) && (W.FirstWord(line) != "" ==> v.lost == st.lost + 1)
  {
    hide R.Good, W.FirstWord, W.Goal, W.ThreeFree, W.ThreeOpened;
  }

  class Computer {
    const kn: K.Kernel
    const mm: Machine
    const sc: S.Kernel
    ghost const devices: nat      // the pages that device drivers took at the start
    ghost var lost: nat

    constructor (kn: K.Kernel, mm: Machine, sc: S.Kernel)
      ensures this.kn == kn && this.mm == mm && this.sc == sc && devices == |mm.reserved| && lost == 0
    {
      this.kn, this.mm, this.sc, devices, lost := kn, mm, sc, |mm.reserved|, 0;
    }

    ghost function Heaps(): (hs: seq<Heap>)
      reads mm
    {
      seq(|mm.procs|, i requires 0 <= i < |mm.procs| reads mm =>
        if mm.procs[i].live then Heap(mm.procs[i].heapStart, mm.procs[i].heapEnd) else NoHeap)
    }

    ghost function View(): State
      reads this, kn, kn.v0, kn.v1, mm, sc
      requires kn.Steady()
    {
      State(kn.World(), sc.View(), Heaps(), lost)
    }

    /** All parts are in order, the views agree, and besides the devices exactly the failed spawns have cost pages. */
    ghost predicate Valid()
      reads this, kn, kn.v0, kn.v1, mm, mm.used, sc
    {
      && kn.Valid() && kn.Quiet() && mm.Running() && View().Valid()
      && |mm.reserved| == devices + mm.SpawnLoss() * lost
    }

    /** Why the computer halted at event `e`. */
    ghost predicate Stuck(w: W.World, e: Event)
      reads kn, kn.v1, mm.used
    {
      || (e.Call? && Run.Exhausted(kn, w, e.c))
      || (e.Spawn? && Run.Exhausted(kn, w, W.CSpawn(e.line, true)))
      || ((e.Spawn? || e.Sbrk?) && forall q :: 0 <= q < mm.used.Length ==> mm.used[q])
    }

    /** `spawn_process`: the files of the new process, its slot, and its pages. */
    method DoSpawn(line: string) returns (r: W.Ret)
      requires Valid()
      modifies this`lost, kn, mm, mm.used, sc
      ensures r.Halt? ==> Stuck(old(kn.World()), Spawn(line))
      ensures !r.Halt? ==> Valid() && (View(), r) == Next(old(View()), Spawn(line))
    {
      hide K.Kernel.Valid, K.Kernel.Steady, K.Kernel.Ready, K.Kernel.World, K.Kernel.Quiet, Machine.Running, W.Shape,
           W.Step, W.FirstWord, W.Crowded, Y.IsProgram, S.Table.Valid, State.Valid, S.Do, S.Enabled, S.FreeSlot, R.Good,
           HeapStart;
      ghost var st := View();
      AgreedAt(this);
      SpawnFacts(st, line);
      SpawnValid(st, line);
      R.StepGood(kn.World(), sc.cur, W.CSpawn(line, true));
      var image;
      Run.QuietHeld(kn);
      r, image := Y.SpawnLine(kn, sc.cur, line, true);
      if r.Halt? {
        return;
      }
      Y.ValidIs(kn);
      if r.Pid? {
        ImageStart(st.w, st.t.cur, line, image);
        var ok, _ := sc.Spawn();
        ok := Occupy(r.pid - 1, image);
        if !ok {
          return W.Halt;
        }
      } else {
        var program := Y.ProgramOf(line);
        if program != "" {
          var ok := Fail(S.FreeSlot(sc.slots, 0).value);
          if !ok {
            return W.Halt;
          }
        }
      }
    }

    method Occupy(q: nat, image: seq<byte>) returns (ok: bool)
      requires mm.Running() && q < PROCS_MAX && !mm.procs[q].live && |image| < 0x1_0000_0000
      modifies mm, mm.used
      ensures !ok ==> forall q :: 0 <= q < mm.used.Length ==> mm.used[q]
      ensures ok ==>
                mm.Running() && mm.reserved == old(mm.reserved) && Loaded(mm.owners, mm.mem, q, image, PagesOf(|image|))
      ensures ok ==> var h := 4096 * (USER_VPN + PagesOf(|image|)); Heaps() == old(Heaps())[q := Heap(h, h)]
    {
      hide Machine.Running, SameContents, OnlySlot, Loaded;
      RunningSizes(mm);
      ok := mm.CreateProcess(q, image);
    }

    method Fail(q: nat) returns (ok: bool)
      requires mm.Running() && q < PROCS_MAX && !mm.procs[q].live && |mm.reserved| == devices + mm.SpawnLoss() * lost
      modifies this`lost, mm, mm.used
      ensures !ok ==> forall q :: 0 <= q < mm.used.Length ==> mm.used[q]
      ensures ok ==> mm.Running() && Heaps() == old(Heaps()) && lost == old(lost) + 1
      ensures ok ==> |mm.reserved| == devices + mm.SpawnLoss() * lost
    {
      hide Machine.Running, SameContents, LeftOver;
      RunningSizes(mm);
      ghost var gone;
      ok, gone := mm.SpawnNotFound(q);
      lost := lost + 1;
      if ok {
        Times(mm.SpawnLoss(), lost - 1);
      }
    }

    method DoCall(c: W.Call) returns (r: W.Ret, broke: bool)
      requires Valid() && IsEvent(Call(c))
      modifies kn, kn.v1
      ensures r.Halt? ==> Run.Exhausted(kn, old(kn.World()), c)
      ensures !r.Halt? ==> (broke <==> Next(old(View()), Call(c)).1 == W.Untold)
      ensures !r.Halt? && !broke ==> Valid() && (View(), r) == Next(old(View()), Call(c))
    {
      hide K.Kernel.Valid, K.Kernel.Steady, K.Kernel.World, K.Kernel.Quiet, Machine.Running, W.Step, Run.Exhausted,
           W.Shape, R.Good, State.Valid, S.Table.Valid, Next, Run.IsCall, Heaps;
      CallValid(View(), c);
      CallIs(View(), c);
      AgreedAt(this);
      r, broke := Run.Do(kn, sc.cur, c);
    }

    method DoYield() returns (r: W.Ret)
      requires Valid()
      modifies sc
      ensures Valid() && (View(), r) == Next(old(View()), Yield)
    {
      hide K.Kernel.Valid, K.Kernel.Steady, K.Kernel.World, K.Kernel.Quiet, Machine.Running, S.Pick, R.Good;
      SwitchValid(View(), Event.Yield);
      sc.Yield();
      r := W.Success;
    }

    method DoExit() returns (r: W.Ret)
      requires Valid()
      modifies sc
      ensures Valid() && (View(), r) == Next(old(View()), Exit)
    {
      hide K.Kernel.Valid, K.Kernel.Steady, K.Kernel.World, K.Kernel.Quiet, Machine.Running, S.Pick, R.Good;
      if sc.cur == 0 {
        return W.Skipped;
      }
      SwitchValid(View(), Event.Exit);
      sc.Exit();
      r := W.Success;
    }

    method DoBrk(increment: int) returns (r: W.Ret)
      requires Valid() && IsEvent(Sbrk(increment))
      modifies mm, mm.used
      ensures r.Halt? ==> forall q :: 0 <= q < mm.used.Length ==> mm.used[q]
      ensures !r.Halt? ==> Valid() && (View(), r) == Next(old(View()), Sbrk(increment))
    {
      hide K.Kernel.Valid, K.Kernel.Steady, K.Kernel.World, K.Kernel.Quiet, Machine.Running, OnlySlot, SameContents,
           AllHave, Outside, R.Good;
      RunningSizes(mm);
      ghost var h := Heaps();
      var ok, ret := mm.Sbrk(sc.cur, increment);
      if !ok {
        return W.Halt;
      }
      if ret == -1 {
        assert Heaps() == h;
        return W.Fail(W.NotPermitted);
      }
      assert Heaps() == h[sc.cur := h[sc.cur].(end := h[sc.cur].end + increment)];
      r := W.Count(ret);
    }

    /** `free_process_pages`, for the process in slot `q`. */
    method Free(p: nat, q: nat)
      requires kn.Valid() && kn.Quiet() && mm.Running() && p < PROCS_MAX && q < PROCS_MAX && p != q && mm.procs[q].live
      requires kn.procs[p]
      modifies kn, mm, mm.used
      ensures kn.Valid() && kn.Quiet() && mm.Running() && mm.reserved == old(mm.reserved)
      ensures kn.World() == W.Reap(old(kn.World()), q).0 && Heaps() == old(Heaps())[q := NoHeap]
    {
      hide K.Kernel.Valid, K.Kernel.Steady, K.Kernel.Ready, K.Kernel.World, Machine.Running, SameContents, W.Reap,
           W.Shape, R.Good;
      RunningSizes(mm);
      Y.ProcsAre(kn);
      R.StepGood(kn.World(), p, W.CReap(q));
      var r := Y.Reap(kn, q);
      Y.ValidIs(kn);
      var ok := mm.FreeProcessPages(q);
    }

    method DoWait(pid: nat, again: bool) returns (r: W.Ret)
      requires Valid()
      modifies kn, mm, mm.used, sc
      ensures Valid() && (View(), r) == Next(old(View()), Wait(pid, again))
    {
      hide K.Kernel.Valid, K.Kernel.Steady, K.Kernel.Ready, K.Kernel.World, K.Kernel.Quiet, Machine.Running,
           SameContents, S.Pick, W.Reap, W.Shape, R.Good, S.WithPid, S.Table.Valid, State.Valid, S.Do, S.Enabled;
      ghost var st := View();
      WaitFacts(st, pid);
      WaitValid(st, pid, again);
      AgreedAt(this);
      var done, freed := sc.TryReap(pid);
      if !done {
        sc.Yield();
        return W.Skipped;
      }
      if freed.None? {
        return if again then W.Success else W.Fail(W.NotPermitted);
      }
      Free(sc.cur, freed.value);
      r := W.Success;
    }

    /** One event of the current process; `broke` tells that the names may not be a tree any more. */
    method Do(e: Event) returns (r: W.Ret, broke: bool)
      requires Valid() && IsEvent(e)
      modifies this`lost, kn, kn.v1, mm, mm.used, sc
      ensures r.Halt? ==> Stuck(old(View()).w, e)
      ensures !r.Halt? ==> (broke <==> Next(old(View()), e).1 == W.Untold)
      ensures !r.Halt? && !broke ==> Valid() && (View(), r) == Next(old(View()), e)
    {
      hide K.Kernel.Valid, K.Kernel.Steady, K.Kernel.World, K.Kernel.Quiet, Machine.Running, W.Step, Run.Exhausted,
           State.Valid, Next, Heaps;
      broke := false;
      if !e.Call? {
        Answered(View(), e);
      }
      match e {
        case Call(c) => r, broke := DoCall(c);
        case Spawn(line) => r := DoSpawn(line);
        case Exit => r := DoExit();
        case Wait(pid, again) => r := DoWait(pid, again);
        case Yield => r := DoYield();
        case Sbrk(increment) => r := DoBrk(increment);
      }
    }

    /**
     Any events: what the parts do together is what the one state machine does. A run ends early only if something is
     used up, or at a call after which names may not be a tree any more, or that needs an inode when all are in use.
     */
    method RunEvents(es: seq<Event>) returns (rs: seq<W.Ret>, last: W.Ret)
      requires Valid() && forall e <- es :: IsEvent(e)
      modifies this`lost, kn, kn.v1, mm, mm.used, sc
      ensures |rs| <= |es| && rs == Replay(old(View()), es[..|rs|]).1
      ensures |rs| == |es| ==> Valid() && View() == Replay(old(View()), es).0
      ensures |rs| < |es| ==>
                var st := Replay(old(View()), es[..|rs|]).0;
                if last.Halt? then Stuck(st.w, es[|rs|]) else Next(st, es[|rs|]).1 in {W.Untold, W.Beyond}
    {
      hide K.Kernel.Valid, K.Kernel.Steady, K.Kernel.World, K.Kernel.Quiet, Machine.Running, State.Valid, Next, IsEvent,
           Stuck, Heaps, Replay;
      ghost var st := View();
      ReplayNone(st);
      rs, last := [], W.Success;
      while |rs| < |es|
        invariant |rs| <= |es| && Valid() && (View(), rs) == Replay(st, es[..|rs|])
        decreases |es| - |rs|
      {
        var n := |rs|;
        ReplayMore(st, es, n);
        var r, broke := Do(es[n]);
        if r.Halt? || r.Beyond? || broke {
          last := r;
          return;
        }
        rs := rs + [r];
      }
      assert es[..|es|] == es;
    }
  }

  /** The slot that the kernel finds for a new process is free for the scheduler and for memory. */
  lemma SpawnFacts(st: State, line: string)
    requires st.Valid()
    ensures st.t.Valid() && |st.heaps| == PROCS_MAX && st.w.procs[st.t.cur]
    ensures var r, q := W.Step(st.w, st.t.cur, W.CSpawn(line, true)).1, S.FreeSlot(st.t.slots, 0);
            && (q.Some? ==> q.value < PROCS_MAX && st.heaps[q.value].NoHeap? && S.Enabled(st.t, S.Event.Spawn))
            && (r.Pid? ==> q.Some? && r.pid == q.value + 1)
            && (!r.Pid? && !r.Halt? && W.FirstWord(line) != "" ==> q.Some?)
            && (r.Halt? ==> forall i :: 0 <= i < PROCS_MAX ==> st.w.procs[i])
  {
    hide W.Step, W.FirstWord;
    SpawnProcs(st.w, st.t.cur, line);
    SameSlot(st.w.procs, st.t.slots);
    HaltFull(st.w, st.t.cur, line);
  }

  /** Events other than calls always have an answer. */
  lemma Answered(st: State, e: Event)
    requires st.Valid() && !e.Call?
    ensures Next(st, e).1 != W.Untold && (Next(st, e).1 == W.Halt ==> e.Spawn?)
  {
    hide W.Step, R.Good, S.Do, S.Enabled, HeapStart;
    if e.Spawn? {
      HaltFull(st.w, st.t.cur, e.line);
    }
  }

  lemma HaltFull(w: W.World, p: nat, line: string)
    requires W.Shape(w) && p < PROCS_MAX && w.procs[p]
    ensures W.Step(w, p, W.CSpawn(line, true)).1 != W.Untold
    ensures W.Step(w, p, W.CSpawn(line, true)).1.Halt? ==> forall i :: 0 <= i < PROCS_MAX ==> w.procs[i]
  {
    hide W.Goal, W.FirstWord, W.ThreeFree, W.ThreeOpened;
  }

  lemma ImageStart(w: W.World, p: nat, line: string, image: seq<byte>)
    requires W.Shape(w) && p < PROCS_MAX && Y.IsProgram(w, p, W.FirstWord(line), image)
    ensures HeapStart(w, p, line) == 4096 * (USER_VPN + PagesOf(|image|)) && |image| < 0x1_0000_0000
  {
    hide W.Goal, W.FirstWord, W.ItemAt, W.SizeOf;
  }

  /** What a turn of the loop of `wait_process` relies on. */
  lemma WaitFacts(st: State, pid: nat)
    requires st.Valid()
    ensures st.t.Valid() && st.t.slots[st.t.cur].state == S.Runnable && |st.heaps| == PROCS_MAX && st.w.procs[st.t.cur]
    ensures var i := S.WithPid(st.t.slots, pid);
            && (i.Some? ==> i.value < PROCS_MAX)
            && (i.Some? && st.t.slots[i.value].state == S.Exited ==> i.value != st.t.cur && st.heaps[i.value].Heap?)
  {
    hide W.Shape, R.Good;
  }

  lemma AgreedAt(c: Computer)
    requires c.Valid()
    ensures c.kn.World().procs == c.kn.procs && |c.mm.procs| == PROCS_MAX && c.sc.cur < PROCS_MAX
  {
    hide K.Kernel.Valid, K.Kernel.Steady, K.Kernel.World, K.Kernel.Quiet, Machine.Running, W.Shape;
    Y.ProcsAre(c.kn);
    RunningSizes(c.mm);
  }

  // ----- the start -----

  /** Both processes get their pages; false if memory does not suffice. */
  method FirstPages(mm: Machine, shell: seq<byte>) returns (ok: bool)
    requires mm.Running() && |shell| < 0x1_0000_0000 && forall i :: 0 <= i < PROCS_MAX ==> !mm.procs[i].live
    modifies mm, mm.used
    ensures !ok ==> forall q :: 0 <= q < mm.used.Length ==> mm.used[q]
    ensures ok ==>
              mm.Running() && mm.reserved == old(mm.reserved) && Loaded(mm.owners, mm.mem, 1, shell, PagesOf(|shell|))
    ensures ok ==> forall i :: 0 <= i < PROCS_MAX ==> (mm.procs[i].live <==> i < 2)
    ensures ok ==> mm.procs[0].heapEnd == 4096 * USER_VPN && mm.procs[1].heapEnd == 4096 * (USER_VPN + PagesOf(|shell|))
  {
    hide Machine.Running, SameContents, OnlySlot, Loaded;
    RunningSizes(mm);
    ok := mm.CreateProcess(0, []);
    if !ok { return; }
    RunningSizes(mm);
    ok := mm.CreateProcess(1, shell);
  }

  /** `process_init`, the shell and the first switch: the shell runs, with the trees of the two devices joined. */
  method Start(kn: K.Kernel, mm: Machine, shell: seq<byte>) returns (c: Computer?)
    requires kn.Valid() && kn.Quiet()
    requires kn.World() == W.Booted(kn.World().s0, kn.World().s1, kn.mount, kn.World().overruns)
    requires mm.Running() && |shell| < 0x1_0000_0000 && forall i :: 0 <= i < PROCS_MAX ==> !mm.procs[i].live
    modifies kn, mm, mm.used
    ensures c == null ==> forall q :: 0 <= q < mm.used.Length ==> mm.used[q]
    ensures c != null ==> fresh(c) && fresh(c.sc) && c.kn == kn && c.mm == mm && c.Valid() && c.lost == 0
    ensures c != null ==> c.sc.cur == 1 && Loaded(mm.owners, mm.mem, 1, shell, PagesOf(|shell|))
    ensures c != null ==>
              kn.World() == B.Initial(old(kn.World()).s0, old(kn.World()).s1, kn.mount, old(kn.World()).overruns)
              && R.AllAgree(kn.World())
  {
    hide K.Kernel.Valid, K.Kernel.Steady, K.Kernel.Ready, K.Kernel.World, K.Kernel.Quiet, Machine.Running, W.Shape,
         R.Good, W.Booted, B.Initial, R.AllAgree, Loaded;
    ghost var w := kn.World();
    RunningSizes(mm);
    var ok := FirstPages(mm, shell);
    if !ok {
      return null;
    }
    ok := B.StartProcesses(kn, true);
    var sc := FirstSlots();
    c := new Computer(kn, mm, sc);
    Assembled(c, w);
  }

  lemma Assembled(c: Computer, w: W.World)
    requires c.kn.Valid() && c.kn.Quiet() && c.mm.Running() && c.devices == |c.mm.reserved| && c.lost == 0
    requires c.sc.View().Valid() && c.sc.slots[c.sc.cur].state == S.Runnable
    requires forall i :: 0 <= i < PROCS_MAX ==> (c.sc.slots[i].state != S.Unused <==> i < 2)
    requires forall i :: 0 <= i < PROCS_MAX ==> (c.mm.procs[i].live <==> i < 2)
    requires c.kn.World() == B.Initial(w.s0, w.s1, c.kn.mount, w.overruns)
    ensures c.Valid()
  {
    hide K.Kernel.Valid, K.Kernel.Steady, K.Kernel.Ready, K.Kernel.World, K.Kernel.Quiet, Machine.Running, W.Shape,
         R.Good, B.Initial, S.Table.Valid;
    B.InitialIs(w.s0, w.s1, c.kn.mount, w.overruns);
    RunningSizes(c.mm);
  }

  /** The idle process, the shell, and the switch to it. */
  method FirstSlots() returns (sc: S.Kernel)
    ensures fresh(sc) && sc.View().Valid() && sc.cur == 1 && sc.slots[1].state == S.Runnable
    ensures forall i :: 0 <= i < PROCS_MAX ==> (sc.slots[i].state != S.Unused <==> i < 2)
  {
    sc := new S.Kernel();
    FirstSwitch(sc.View());
    var found, pid := sc.Spawn();
    sc.Yield();
  }

  lemma FirstSwitch(t: S.Table)
    requires t.Valid() && t.cur == 0 && forall i :: 0 < i < PROCS_MAX ==> t.slots[i].state == S.Unused
    ensures S.Enabled(t, S.Event.Spawn) && S.Do(t, S.Event.Spawn).Valid()
    ensures S.Do(t, S.Event.Spawn).slots == t.slots[1 := S.Slot(2, S.Runnable)]
    ensures S.Do(S.Do(t, S.Event.Spawn), S.Event.Yield).cur == 1
  {
    assert t.slots[1].state == S.Unused && S.FreeSlot(t.slots, 0) == Some(1);
    S.DoValid(t, S.Event.Spawn);
    var u := S.Do(t, S.Event.Spawn);
    S.IdleOnlyAlone(u);
    S.PickFirst(u, 0);
  }

  lemma RunningSizes(mm: Machine)
    requires mm.Running()
    ensures |mm.procs| == PROCS_MAX && mm.used.Length == NUM_PAGES && mm.kernelVpn <= mm.base
  {
  }
}
