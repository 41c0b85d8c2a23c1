/**
 The cooperative scheduler: round robin over the process slots, with the idle process in slot 0.
 Slot `i > 0` holds the process with pid `i + 1`; the idle process has pid 0.
 */
module Scheduler {
  import opened Basics

  /** Cyclic distance from slot `start` to slot `i`. */
  function Ahead(start: nat, i: nat): nat
    requires start < PROCS_MAX && i < PROCS_MAX
  {
    if i >= start then i - start else i + PROCS_MAX - start
  }

  /** Moving past a slot that comes before `s` brings `s` closer. */
  lemma AheadShrinks(start: nat, n: nat, s: nat)
    requires start < PROCS_MAX && n < PROCS_MAX && s < PROCS_MAX && Ahead(start, n) < Ahead(start, s)
    ensures Ahead((n + 1) % PROCS_MAX, s) < Ahead(start, s)
  {
  }

  lemma AheadInjective(start: nat, n: nat, s: nat)
    requires start < PROCS_MAX && n < PROCS_MAX && s < PROCS_MAX && Ahead(start, n) == Ahead(start, s)
    ensures n == s
  {
  }

  datatype State = Unused | Runnable | Exited

  datatype Slot = Slot(pid: nat, state: State)

  /** The process table and the current slot. */
  datatype Table = Table(slots: seq<Slot>, cur: nat) {
    predicate Valid() {
      && |slots| == PROCS_MAX && cur < PROCS_MAX
      && slots[0] == Slot(0, Runnable)
      && slots[cur].state != Unused
      && forall i {:trigger slots[i]} :: 0 < i < PROCS_MAX && slots[i].state != Unused ==> slots[i].pid == i + 1
    }

    predicate Ready(i: nat)
      requires i < |slots|
    {
      slots[i].state == Runnable && slots[i].pid > 0
    }

    /** Where the scan starts. */
    function Start(): nat
      requires cur < |slots|
    {
      slots[cur].pid % PROCS_MAX
    }

    /** How many slots the scan looks at before `i`. */
    function Distance(i: nat): nat
      requires Valid() && i < PROCS_MAX
    {
      Ahead(Start(), i)
    }
  }

  function SlotAt(t: Table, n: nat): nat
    requires t.Valid()
  {
    (t.slots[t.cur].pid + n) % PROCS_MAX
  }

  /** The first ready slot of the scan from position `n` on, or the idle slot. */
  function Pick(t: Table, n: nat): (i: nat)
    requires t.Valid() && n <= PROCS_MAX
    ensures i < PROCS_MAX
    decreases PROCS_MAX - n
  {
    if n == PROCS_MAX then 0
    else if t.Ready(SlotAt(t, n)) then SlotAt(t, n)
    else Pick(t, n + 1)
  }

  lemma ScanPosition(t: Table, i: nat)
    requires t.Valid() && i < PROCS_MAX
    ensures t.Distance(i) < PROCS_MAX && SlotAt(t, t.Distance(i)) == i
    ensures forall n {:trigger SlotAt(t, n)} :: 0 <= n < PROCS_MAX && SlotAt(t, n) == i ==> n == t.Distance(i)
  {
  }

  lemma {:induction false} PickFirst(t: Table, n: nat)
    requires t.Valid() && n <= PROCS_MAX
    ensures t.Ready(Pick(t, n)) ==> n <= t.Distance(Pick(t, n)) < PROCS_MAX
    ensures forall i {:trigger t.Distance(i)} :: 0 <= i < PROCS_MAX && t.Ready(i) && t.Distance(i) >= n ==>
              t.Ready(Pick(t, n)) && t.Distance(Pick(t, n)) <= t.Distance(i)
    ensures !t.Ready(Pick(t, n)) ==> Pick(t, n) == 0
    decreases PROCS_MAX - n
  {
    if n < PROCS_MAX {
      ScanPosition(t, SlotAt(t, n));
      PickFirst(t, n + 1);
      forall i | 0 <= i < PROCS_MAX && t.Ready(i) && t.Distance(i) == n
        ensures i == SlotAt(t, n)
      {
        ScanPosition(t, i);
      }
    }
  }

  /** The idle process runs only when no other is runnable. */
  lemma IdleOnlyAlone(t: Table)
    requires t.Valid()
    ensures Pick(t, 0) == 0 <==> forall i :: 0 < i < PROCS_MAX ==> t.slots[i].state != Runnable
  {
    PickFirst(t, 0);
    forall i | 0 < i < PROCS_MAX && t.slots[i].state == Runnable
      ensures t.Ready(Pick(t, 0))
    {
      assert t.Ready(i) && t.Distance(i) >= 0;
    }
  }

  // ----- runs -----

  datatype Event =
    | Yield                 // the current process gives up the processor
    | Exit                  // the current process exits and gives up the processor
    | Spawn                 // the current process creates another, in the first unused slot
    | Reap(slot: nat)       // the current process frees the slot of an exited one

  /** The slot that `wait_process` finds. */
  function WithPid(slots: seq<Slot>, pid: nat): (c: Option<nat>) {
    First(slots, (s: Slot) => s.state != Unused && s.pid == pid, 0)
  }

  /** The slot that the search of `create_process` finds, looking from slot `i` on. */
  function FreeSlot(slots: seq<Slot>, i: nat): (c: Option<nat>) {
    First(slots, (s: Slot) => s.state == Unused, i)
  }

  predicate Enabled(t: Table, e: Event)
    requires t.Valid()
  {
    match e
    case Yield => true
    case Exit => t.cur != 0
    case Spawn => FreeSlot(t.slots, 0).Some?
    case Reap(j) => 0 < j < PROCS_MAX && j != t.cur && t.slots[j].state == Exited
  }

  function Do(t: Table, e: Event): (t': Table)
    requires t.Valid() && Enabled(t, e)
  {
    match e
    case Yield => t.(cur := Pick(t, 0))
    case Exit =>
      var u := t.(slots := t.slots[t.cur := t.slots[t.cur].(state := Exited)]);
      u.(cur := Pick(u, 0))
    case Spawn =>
      var i := FreeSlot(t.slots, 0).value;
      t.(slots := t.slots[i := Slot(i + 1, Runnable)])
    case Reap(j) => t.(slots := t.slots[j := t.slots[j].(state := Unused)])
  }

  predicate Switches(e: Event) { e.Yield? || e.Exit? }

  lemma PickValid(t: Table)
    requires t.Valid()
    ensures t.(cur := Pick(t, 0)).Valid()
  {
    PickFirst(t, 0);
  }

  /** Every step keeps the table well formed. */
  lemma DoValid(t: Table, e: Event)
    requires t.Valid() && Enabled(t, e)
    ensures Do(t, e).Valid()
  {
    match e {
      case Yield => PickValid(t);
      case Exit => PickValid(t.(slots := t.slots[t.cur := t.slots[t.cur].(state := Exited)]));
      case Spawn =>
      case Reap(_) =>
    }
  }

  // ----- what the events do -----

  /** A switch changes the current slot alone: to the first that can run behind it, or to the idle process. */
  lemma YieldSelects(t: Table)
    requires t.Valid()
    ensures var t' := Do(t, Yield);
            && t'.slots == t.slots
            && (t'.cur == 0 <==> forall i :: 0 < i < PROCS_MAX ==> t.slots[i].state != Runnable)
            && (t'.cur != 0 ==>
                  && t.slots[t'.cur].state == Runnable
                  && forall i :: 0 < i < PROCS_MAX && t.slots[i].state == Runnable ==>
                       t.Distance(t'.cur) <= t.Distance(i))
  {
    PickFirst(t, 0);
    IdleOnlyAlone(t);
  }

  /** The current process has exited, and another one runs; no other slot changes. */
  lemma ExitLeaves(t: Table)
    requires t.Valid() && t.cur != 0
    ensures var t' := Do(t, Exit);
            && |t'.slots| == PROCS_MAX && t'.cur != t.cur && t'.slots[t.cur] == Slot(t.cur + 1, Exited)
            && (forall i :: 0 <= i < PROCS_MAX && i != t.cur ==> t'.slots[i] == t.slots[i])
            && t'.cur < PROCS_MAX && t'.slots[t'.cur].state == Runnable
  {
    var u := t.(slots := t.slots[t.cur := t.slots[t.cur].(state := Exited)]);
    PickFirst(u, 0);
  }

  /** The first unused slot has a process that can run; no other slot changes, and the current process runs on. */
  lemma SpawnTakes(t: Table)
    requires t.Valid() && Enabled(t, Spawn)
    ensures var t' := Do(t, Spawn);
            && t'.cur == t.cur && |t'.slots| == PROCS_MAX
            && exists i :: 0 < i < PROCS_MAX && t.slots[i].state == Unused && t'.slots[i] == Slot(i + 1, Runnable)
                 && (forall j :: 0 <= j < i ==> t.slots[j].state != Unused)
                 && forall j :: 0 <= j < PROCS_MAX && j != i ==> t'.slots[j] == t.slots[j]
  {
    var i := FreeSlot(t.slots, 0).value;
    assert t.slots[i].state == Unused;
  }

  /** The slot is unused, and its pid nobody's; no other slot changes, and the current process runs on. */
  lemma ReapFrees(t: Table, j: nat)
    requires t.Valid() && Enabled(t, Reap(j))
    ensures var t' := Do(t, Reap(j));
            && t'.cur == t.cur && |t'.slots| == PROCS_MAX && t'.slots[j].state == Unused
            && (forall i :: 0 <= i < PROCS_MAX && i != j ==> t'.slots[i] == t.slots[i])
            && WithPid(t'.slots, t.slots[j].pid) == None
  {
    assert forall i :: 0 < i < PROCS_MAX && t.slots[i].state != Unused ==> t.slots[i].pid == i + 1;
  }

  /** All events of the run are possible, and none frees slot `s`. */
  predicate Unreaped(t: Table, run: seq<Event>, s: nat)
    requires t.Valid()
    decreases |run|
  {
    run != [] ==> run[0] != Reap(s) && Enabled(t, run[0]) && (DoValid(t, run[0]); Unreaped(Do(t, run[0]), run[1..], s))
  }

  /** The table after a run. */
  function Last(t: Table, run: seq<Event>, s: nat): (u: Table)
    requires t.Valid() && Unreaped(t, run, s)
    ensures u.Valid()
    decreases |run|
  {
    if run == [] then t else DoValid(t, run[0]); Last(Do(t, run[0]), run[1..], s)
  }

  /**
   A process that has exited never runs again, whatever happens until its slot is freed: no switch selects it, and it
   can be found by its pid and freed.
   */
  lemma {:induction false} ExitedStays(t: Table, run: seq<Event>, s: nat)
    requires t.Valid() && 0 < s < PROCS_MAX && s != t.cur && t.slots[s].state == Exited && Unreaped(t, run, s)
    ensures !Selected(t, run, s)
    ensures var u := Last(t, run, s);
            && u.slots[s] == Slot(s + 1, Exited) && u.cur != s
            && WithPid(u.slots, s + 1) == Some(s) && Enabled(u, Reap(s))
    decreases |run|
  {
    if run == [] {
      OnePid(t, s);
    } else {
      DoValid(t, run[0]);
      ExitedStep(t, run[0], s);
      ExitedStays(Do(t, run[0]), run[1..], s);
    }
  }

  lemma ExitedStep(t: Table, e: Event, s: nat)
    requires t.Valid() && 0 < s < PROCS_MAX && s != t.cur && t.slots[s].state == Exited && Enabled(t, e) && e != Reap(s)
    ensures Do(t, e).slots[s] == t.slots[s] && Do(t, e).cur != s
  {
    match e {
      case Yield => YieldSelects(t);
      case Exit => ExitLeaves(t);
      case Spawn => assert t.slots[FreeSlot(t.slots, 0).value].state == Unused;
      case Reap(_) =>
    }
  }

  /** No two processes have the same pid. */
  lemma OnePid(t: Table, s: nat)
    requires t.Valid() && 0 < s < PROCS_MAX && t.slots[s].state != Unused
    ensures WithPid(t.slots, s + 1) == Some(s)
  {
    assert t.slots[s].pid == s + 1;
    var i := WithPid(t.slots, s + 1);
    assert i.Some?;
    assert i.value > 0 ==> t.slots[i.value].pid == i.value + 1;
  }

  /** After `exit`, over any run until it is reaped, a process is not selected, and waiting for it finds it. */
  lemma ExitIsFinal(t: Table, run: seq<Event>)
    requires t.Valid() && t.cur != 0 && (DoValid(t, Exit); Unreaped(Do(t, Exit), run, t.cur))
    ensures Do(t, Exit).Valid() && !Selected(Do(t, Exit), run, t.cur)
    ensures var u := Last(Do(t, Exit), run, t.cur);
            WithPid(u.slots, t.cur + 1) == Some(t.cur) && Enabled(u, Reap(t.cur))
  {
    ExitLeaves(t);
    ExitedStays(Do(t, Exit), run, t.cur);
  }

  // ----- bounded waiting -----

  /** A switch either selects process `s` or brings the scan strictly closer to it. */
  lemma SwitchApproaches(t: Table, s: nat)
    requires t.Valid() && 0 < s < PROCS_MAX && t.slots[s].state == Runnable
    ensures var t' := t.(cur := Pick(t, 0));
            t'.Valid() && (t'.cur == s || t'.Distance(s) < t.Distance(s))
  {
    PickValid(t);
    PickFirst(t, 0);
    var n := Pick(t, 0);
    assert t.Ready(s) && t.Ready(n) && t.Distance(n) <= t.Distance(s);
    if n != s {
      if t.Distance(n) == t.Distance(s) { AheadInjective(t.Start(), n, s); }
      AheadShrinks(t.Start(), n, s);
    }
  }

  /** All steps of the run are possible, and process `s` stays runnable. */
  predicate StaysRunnable(t: Table, run: seq<Event>, s: nat)
    requires t.Valid() && s < PROCS_MAX
    decreases |run|
  {
    t.slots[s].state == Runnable &&
    (run != [] ==> Enabled(t, run[0]) && (DoValid(t, run[0]); StaysRunnable(Do(t, run[0]), run[1..], s)))
  }

  /** Some switch of the run selects process `s`. */
  predicate Selected(t: Table, run: seq<Event>, s: nat)
    requires t.Valid() && s < PROCS_MAX
    decreases |run|
  {
    run != [] && Enabled(t, run[0]) &&
    (DoValid(t, run[0]); (Switches(run[0]) && Do(t, run[0]).cur == s) || Selected(Do(t, run[0]), run[1..], s))
  }

  function SwitchCount(run: seq<Event>): nat {
    if run == [] then 0 else (if Switches(run[0]) then 1 else 0) + SwitchCount(run[1..])
  }

  lemma {:induction false} SelectedInTime(t: Table, run: seq<Event>, s: nat)
    requires t.Valid() && 0 < s < PROCS_MAX && StaysRunnable(t, run, s)
    requires t.Distance(s) < SwitchCount(run)
    ensures Selected(t, run, s)
    decreases |run|
  {
    DoValid(t, run[0]);
    var t' := Do(t, run[0]);
    match run[0] {
      case Yield =>
        SwitchApproaches(t, s);
      case Exit =>
        var u := t.(slots := t.slots[t.cur := t.slots[t.cur].(state := Exited)]);
        assert t'.slots[s].state == Runnable;
        SwitchApproaches(u, s);
      case Spawn =>
      case Reap(_) =>
    }
    if !(Switches(run[0]) && t'.cur == s) {
      SelectedInTime(t', run[1..], s);
    }
  }

  /** Bounded waiting: a process that stays runnable is selected within PROCS_MAX switches, whatever others do. */
  lemma BoundedWaiting(t: Table, run: seq<Event>, s: nat)
    requires t.Valid() && 0 < s < PROCS_MAX && StaysRunnable(t, run, s) && SwitchCount(run) >= PROCS_MAX
    ensures Selected(t, run, s)
  {
    ScanPosition(t, s);
    SelectedInTime(t, run, s);
  }

  // ----- the kernel's code -----

  class Kernel {
    var slots: seq<Slot>
    var cur: nat

    ghost function View(): Table
      reads this
    {
      Table(slots, cur)
    }

    /** `process_init` on a cleared table: the idle process takes the first slot, and pid 0. */
    constructor ()
      ensures View().Valid() && cur == 0
      ensures forall i :: 0 < i < PROCS_MAX ==> slots[i].state == Unused
    {
      slots := seq(PROCS_MAX, i => Slot(0, Unused))[0 := Slot(1, Runnable)][0 := Slot(0, Runnable)];
      cur := 0;
    }

    /** `yield`: the scan from the current pid on; the idle process if nothing is found. */
    method Yield()
      requires View().Valid()
      modifies this`cur
      ensures View() == Do(old(View()), Event.Yield) && View().Valid()
    {
      ghost var t := View();
      PickValid(t);
      var next := 0;
      var i := 0;
      while i < PROCS_MAX
        invariant 0 <= i <= PROCS_MAX
        invariant Pick(t, 0) == Pick(t, i)
        invariant next == 0
      {
        var p := (slots[cur].pid + i) % PROCS_MAX;
        assert p == SlotAt(t, i);
        if slots[p].state == Runnable && slots[p].pid > 0 {
          next := p;
          break;
        }
        i := i + 1;
      }
      assert next == Pick(t, 0);
      if next == cur {
        return;
      }
      cur := next;
    }

    /** `exit_current_process` followed by `yield`. */
    method Exit()
      requires View().Valid() && cur != 0
      modifies this
      ensures View() == Do(old(View()), Event.Exit) && View().Valid()
    {
      slots := slots[cur := slots[cur].(state := Exited)];
      Yield();
    }

    /** The slot search of `create_process`; false for PANIC. */
    method Spawn() returns (ok: bool, pid: nat)
      requires View().Valid()
      modifies this`slots
      ensures ok <==> Enabled(old(View()), Event.Spawn)
      ensures ok ==> View() == Do(old(View()), Event.Spawn) && View().Valid()
      ensures !ok ==> View() == old(View())
    {
      var i := 0;
      while i < PROCS_MAX
        invariant 0 <= i <= PROCS_MAX
        invariant FreeSlot(slots, 0) == FreeSlot(slots, i)
      {
        if slots[i].state == Unused {
          break;
        }
        i := i + 1;
      }
      if i == PROCS_MAX {
        return false, 0;
      }
      pid := i + 1;
      slots := slots[i := Slot(pid, Runnable)];
      ok := true;
    }

    /** One turn of the loop in `wait_process`: the slot of an exited process is freed; false to yield and try again. */
    method TryReap(pid: nat) returns (done: bool, freed: Option<nat>)
      requires View().Valid() && slots[cur].state == Runnable
      modifies this`slots
      ensures View().Valid() && cur == old(cur)
      ensures var i := WithPid(old(slots), pid);
              && (done <==> i.None? || old(slots)[i.value].state == Exited)
              && freed == if done then i else None
      ensures freed.None? ==> slots == old(slots)
      ensures freed.Some? ==> Enabled(old(View()), Reap(freed.value)) && View() == Do(old(View()), Reap(freed.value))
      ensures done ==> forall i :: 0 <= i < PROCS_MAX && slots[i].state != Unused ==> slots[i].pid != pid
    {
      var i := 0;
      while i < PROCS_MAX
        invariant 0 <= i <= PROCS_MAX
        invariant forall j :: 0 <= j < i && slots[j].state != Unused ==> slots[j].pid != pid
        invariant slots == old(slots)
      {
        if slots[i].state != Unused && slots[i].pid == pid {
          break;
        }
        i := i + 1;
      }
      if i == PROCS_MAX {
        return true, None;
      }
      if slots[i].state == Exited {
        slots := slots[i := slots[i].(state := Unused)];
        assert Enabled(old(View()), Reap(i));
        return true, Some(i);
      }
      done, freed := false, None;
    }
  }
}
