/**
 The keyboard's virtqueue (section 2.6 of VIRTIO 1.1, Split Virtqueues): driver and device pass 16
 event buffers to each other through two rings with 16-bit indices. The device may take buffers and
 complete them in any order, at any time: also inside a poll, between handing a buffer back and
 reading it.
 */
module InputRing {

  type u16 = x: int | 0 <= x < 0x1_0000

  const EV_KEY: nat := 1

  datatype Event = Event(typ: nat, code: nat, value: nat)

  /** What a poll reports: a key and whether it went down, or nothing. */
  datatype Report = Nothing | Key(code: nat, pressed: bool)

  function Reported(e: Event): Report {
    if e.typ == EV_KEY then Key(e.code, e.value > 0) else Nothing
  }

  /** Shared rings and buffers, the driver's `lastUsed`, and the device's progress: entries seen, buffers in flight. */
  datatype Ring = Ring(avail: seq<nat>, availIdx: u16, used: seq<nat>, usedIdx: u16, events: seq<Event>,
                       lastUsed: u16, seen: u16, inflight: set<nat>)

  /** Where a buffer is: the `k`-th offered to the device, with the device, or the `k`-th completed. */
  datatype Place = Offered(k: nat) | InFlight | Done(k: nat)

  /** The run so far: entries seen by the device, events it completed, events the driver took, each buffer's place. */
  datatype History = History(seen: nat, log: seq<Event>, polled: nat, place: seq<Place>)

  function Next(i: u16): u16 { (i + 1) % 0x1_0000 }

  /** Position in a ring of 16 entries. */
  function Slot(k: nat): (s: nat)
    ensures s < 16
  {
    k % 16
  }

  // ----- index arithmetic -----

  predicate Wraps(i: u16, n: nat) { i == n % 0x1_0000 }

  lemma WrapsNext(i: u16, n: nat)
    requires Wraps(i, n)
    ensures Wraps(Next(i), n + 1) && Slot(i) == Slot(n)
  {
  }

  /** 16-bit comparison tells apart counts that differ by at most 16. */
  lemma WrapsSame(i: u16, m: nat, j: u16, n: nat)
    requires Wraps(i, m) && Wraps(j, n) && m <= n <= m + 16
    ensures i == j <==> m == n
  {
  }

  lemma WrapsDistance(i: u16, n: nat, j: u16)
    requires Wraps(i, n) && Wraps(j, n + 16)
    ensures (j - i) % 0x1_0000 == 16
  {
  }

  /** Entries less than 16 apart have different slots. */
  lemma SlotsApart(a: nat, b: nat)
    requires a < b < a + 16
    ensures Slot(a) != Slot(b)
  {
  }

  // ----- the protocol invariant -----

  ghost predicate Counted(r: Ring, h: History) {
    && |r.avail| == |r.used| == |r.events| == |h.place| == 16
    && h.polled <= |h.log| <= h.seen <= h.polled + 16
    && Wraps(r.availIdx, h.polled + 16) && Wraps(r.usedIdx, |h.log|)
    && Wraps(r.lastUsed, h.polled) && Wraps(r.seen, h.seen)
    && |r.inflight| == h.seen - |h.log|
  }

  /** The entry `k` of the avail ring, not yet seen by the device, holds a buffer on offer. */
  ghost predicate OnOffer(r: Ring, h: History, k: nat)
    requires |r.avail| == |h.place| == 16
  {
    var d := r.avail[Slot(k)];
    d < 16 && h.place[d] == Offered(k)
  }

  /** The entry `k` of the used ring, not yet taken by the driver, holds a buffer with event `k`. */
  ghost predicate Waiting(r: Ring, h: History, k: nat)
    requires |r.used| == |h.place| == |r.events| == 16 && k < |h.log|
  {
    var d := r.used[Slot(k)];
    d < 16 && h.place[d] == Done(k) && r.events[d] == h.log[k]
  }

  /** Buffer `d` is where its place says. */
  ghost predicate Located(r: Ring, h: History, d: nat)
    requires |r.avail| == |r.used| == |h.place| == 16 && d < 16
  {
    match h.place[d]
    case Offered(k) => h.seen <= k < h.polled + 16 && r.avail[Slot(k)] == d && d !in r.inflight
    case InFlight => d in r.inflight
    case Done(k) => h.polled <= k < |h.log| && r.used[Slot(k)] == d && d !in r.inflight
  }

  ghost predicate Inv(r: Ring, h: History) {
    && Counted(r, h)
    && (forall d <- r.inflight :: d < 16)
    && (forall k :: h.seen <= k < h.polled + 16 ==> OnOffer(r, h, k))
    && (forall k :: h.polled <= k < |h.log| ==> Waiting(r, h, k))
    && (forall d :: 0 <= d < 16 ==> Located(r, h, d))
  }

  /** The buffers that the device has not seen. */
  ghost function OfferedSet(r: Ring, h: History): set<nat>
    requires |r.avail| == 16
  {
    set k {:trigger Slot(k)} | h.seen <= k < h.polled + 16 :: r.avail[Slot(k)]
  }

  /** The buffers that the driver has not taken. */
  ghost function WaitingSet(r: Ring, h: History): set<nat>
    requires |r.used| == 16
  {
    set k {:trigger Slot(k)} | h.polled <= k < |h.log| :: r.used[Slot(k)]
  }

  lemma WhereIs(r: Ring, h: History, d: nat)
    requires Inv(r, h)
    ensures d in OfferedSet(r, h) <==> d < 16 && h.place[d].Offered?
    ensures d in WaitingSet(r, h) <==> d < 16 && h.place[d].Done?
    ensures d in r.inflight <==> d < 16 && h.place[d].InFlight?
  {
    hide Slot, Wraps;
    if d < 16 {
      assert Located(r, h, d);
    }
    if d in OfferedSet(r, h) {
      var k :| h.seen <= k < h.polled + 16 && r.avail[Slot(k)] == d;
      assert OnOffer(r, h, k);
    }
    if d in WaitingSet(r, h) {
      var k :| h.polled <= k < |h.log| && r.used[Slot(k)] == d;
      assert Waiting(r, h, k);
    }
  }

  /** Each of the 16 buffers is in exactly one place, and the driver is always 16 entries ahead of what it has taken. */
  lemma Partition(r: Ring, h: History)
    requires Inv(r, h)
    ensures (r.availIdx - r.lastUsed) % 0x1_0000 == 16
    ensures OfferedSet(r, h) !! r.inflight !! WaitingSet(r, h)
    ensures forall d: nat :: d in OfferedSet(r, h) + r.inflight + WaitingSet(r, h) <==> d < 16
  {
    WrapsDistance(r.lastUsed, h.polled, r.availIdx);
    hide Inv, OfferedSet, WaitingSet, Wraps, Counted;
    forall d: nat
      ensures d in OfferedSet(r, h) <==> d < 16 && h.place[d].Offered?
      ensures d in WaitingSet(r, h) <==> d < 16 && h.place[d].Done?
      ensures d in r.inflight <==> d < 16 && h.place[d].InFlight?
    {
      WhereIs(r, h, d);
    }
  }

  // ----- steps of the device -----

  predicate CanSee(r: Ring) { r.seen != r.availIdx && |r.avail| == 16 }

  function See(r: Ring): Ring
    requires CanSee(r)
  {
    r.(inflight := r.inflight + {r.avail[Slot(r.seen)]}, seen := Next(r.seen))
  }

  predicate CanComplete(r: Ring, d: nat) { d in r.inflight && d < |r.events| && |r.used| == 16 }

  function Complete(r: Ring, d: nat, e: Event): Ring
    requires CanComplete(r, d)
  {
    r.(events := r.events[d := e], used := r.used[Slot(r.usedIdx) := d], usedIdx := Next(r.usedIdx),
      inflight := r.inflight - {d})
  }

  // ----- steps of the driver -----

  predicate CanTake(r: Ring) { r.lastUsed != r.usedIdx && |r.used| == 16 && |r.avail| == 16 }

  function Front(r: Ring): nat
    requires CanTake(r)
  {
    r.used[Slot(r.lastUsed)]
  }

  /** The driver takes the oldest completed buffer off the used ring and offers it again. */
  function HandBack(r: Ring): Ring
    requires CanTake(r)
  {
    r.(lastUsed := Next(r.lastUsed), avail := r.avail[Slot(r.availIdx) := Front(r)], availIdx := Next(r.availIdx))
  }

  // ----- the invariant is kept -----

  function Start(): History { History(0, [], 0, seq(16, d requires d >= 0 => Offered(d))) }

  lemma InitInv(r: Ring)
    requires |r.avail| == |r.used| == |r.events| == 16 && (forall i :: 0 <= i < 16 ==> r.avail[i] == i)
    requires r.availIdx == 16 && r.usedIdx == r.lastUsed == r.seen == 0 && r.inflight == {}
    ensures Inv(r, Start())
  {
    forall k: nat | k < 16
      ensures Slot(k) == k
    {
    }
  }

  function Saw(r: Ring, h: History): History
    requires CanSee(r)
  {
    var d := r.avail[Slot(r.seen)];
    h.(seen := h.seen + 1, place := if d < |h.place| then h.place[d := InFlight] else h.place)
  }

  lemma SeeInv(r: Ring, h: History)
    requires Inv(r, h) && CanSee(r)
    ensures Inv(See(r), Saw(r, h))
  {
    var r', h' := See(r), Saw(r, h);
    WrapsSame(r.seen, h.seen, r.availIdx, h.polled + 16);
    WrapsNext(r.seen, h.seen);
    hide Wraps, Slot, Next;
    assert OnOffer(r, h, h.seen);
    var d := r.avail[Slot(h.seen)];
    assert Located(r, h, d);
    forall k | h'.seen <= k < h'.polled + 16
      ensures OnOffer(r', h', k)
    {
      assert OnOffer(r, h, k);
    }
    forall k | h'.polled <= k < |h'.log|
      ensures Waiting(r', h', k)
    {
      assert Waiting(r, h, k);
    }
    forall b | 0 <= b < 16
      ensures Located(r', h', b)
    {
      assert Located(r, h, b);
    }
  }

  function Completed(h: History, d: nat, e: Event): History {
    h.(log := h.log + [e], place := if d < |h.place| then h.place[d := Done(|h.log|)] else h.place)
  }

  lemma CompleteInv(r: Ring, h: History, d: nat, e: Event)
    requires Inv(r, h) && CanComplete(r, d)
    ensures Inv(Complete(r, d, e), Completed(h, d, e))
  {
    var r', h' := Complete(r, d, e), Completed(h, d, e);
    WrapsNext(r.usedIdx, |h.log|);
    hide Wraps, Slot, Next;
    assert |r.inflight| >= 1 by { assert r.inflight == {d} + (r.inflight - {d}); }
    assert Located(r, h, d);
    forall k | h'.seen <= k < h'.polled + 16
      ensures OnOffer(r', h', k)
    {
      assert OnOffer(r, h, k);
    }
    forall k | h'.polled <= k < |h'.log|
      ensures Waiting(r', h', k)
    {
      if k < |h.log| {
        assert Waiting(r, h, k);
        SlotsApart(k, |h.log|);
      }
    }
    forall b | 0 <= b < 16
      ensures Located(r', h', b)
    {
      assert Located(r, h, b);
      if b != d && h.place[b].Done? {
        SlotsApart(h.place[b].k, |h.log|);
      }
    }
  }

  function HandedBack(r: Ring, h: History): History
    requires CanTake(r)
  {
    var d := Front(r);
    h.(polled := h.polled + 1, place := if d < |h.place| then h.place[d := Offered(h.polled + 16)] else h.place)
  }

  /** Handing back keeps the invariant: the avail entry written is never one the device still has to see. */
  lemma HandBackInv(r: Ring, h: History)
    requires Inv(r, h) && CanTake(r)
    ensures Inv(HandBack(r), HandedBack(r, h))
    ensures h.polled < |h.log| && Front(r) < 16 && r.events[Front(r)] == h.log[h.polled]
    ensures forall k :: h.seen <= k < h.polled + 16 ==> Slot(k) != Slot(r.availIdx)
  {
    var r', h' := HandBack(r), HandedBack(r, h);
    WrapsSame(r.lastUsed, h.polled, r.usedIdx, |h.log|);
    WrapsNext(r.lastUsed, h.polled);
    WrapsNext(r.availIdx, h.polled + 16);
    hide Wraps, Slot, Next;
    var d := Front(r);
    assert Waiting(r, h, h.polled);
    assert Located(r, h, d);
    forall k | h.seen <= k < h.polled + 16
      ensures Slot(k) != Slot(h.polled + 16) && OnOffer(r', h', k)
    {
      assert OnOffer(r, h, k);
      SlotsApart(k, h.polled + 16);
    }
    forall k | h'.polled <= k < |h'.log|
      ensures Waiting(r', h', k)
    {
      assert Waiting(r, h, k);
    }
    forall b | 0 <= b < 16
      ensures Located(r', h', b)
    {
      assert Located(r, h, b);
    }
  }

  // ----- runs of the device -----

  datatype DeviceStep = Take | Finish(d: nat, e: Event)

  /** One step of the device; a step it cannot make leaves everything as it is. */
  function Device(r: Ring, s: DeviceStep): Ring {
    match s
    case Take => if CanSee(r) then See(r) else r
    case Finish(d, e) => if CanComplete(r, d) then Complete(r, d, e) else r
  }

  function Observe(r: Ring, h: History, s: DeviceStep): History {
    match s
    case Take => if CanSee(r) then Saw(r, h) else h
    case Finish(d, e) => if CanComplete(r, d) then Completed(h, d, e) else h
  }

  lemma DeviceInv(r: Ring, h: History, s: DeviceStep)
    requires Inv(r, h)
    ensures Inv(Device(r, s), Observe(r, h, s)) && h.log <= Observe(r, h, s).log && Observe(r, h, s).polled == h.polled
  {
    match s
    case Take => if CanSee(r) { SeeInv(r, h); }
    case Finish(d, e) => if CanComplete(r, d) { CompleteInv(r, h, d, e); }
  }

  function Devices(r: Ring, ss: seq<DeviceStep>): Ring
    decreases |ss|
  {
    if ss == [] then r else Devices(Device(r, ss[0]), ss[1..])
  }

  function Observes(r: Ring, h: History, ss: seq<DeviceStep>): History
    decreases |ss|
  {
    if ss == [] then h else Observes(Device(r, ss[0]), Observe(r, h, ss[0]), ss[1..])
  }

  lemma {:induction false} DevicesInv(r: Ring, h: History, ss: seq<DeviceStep>)
    requires Inv(r, h)
    ensures Inv(Devices(r, ss), Observes(r, h, ss)) && h.log <= Observes(r, h, ss).log
    ensures Observes(r, h, ss).polled == h.polled
    decreases |ss|
  {
    if ss != [] {
      DeviceInv(r, h, ss[0]);
      DevicesInv(Device(r, ss[0]), Observe(r, h, ss[0]), ss[1..]);
    }
  }

  lemma {:induction false} DevicesConcat(r: Ring, a: seq<DeviceStep>, b: seq<DeviceStep>)
    ensures Devices(r, a + b) == Devices(Devices(r, a), b)
    decreases |a|
  {
    if a == [] {
      assert a + b == b;
    } else {
      assert (a + b)[0] == a[0] && (a + b)[1..] == a[1..] + b;
      DevicesConcat(Device(r, a[0]), a[1..], b);
    }
  }

  function Takes(ss: seq<DeviceStep>): nat {
    if ss == [] then 0 else (if ss[0].Take? then 1 else 0) + Takes(ss[1..])
  }

  // ----- when the event read after the hand-back is the one that was completed -----

  /** How many more buffers the device must take before it holds the one that a poll hands back now. */
  function Margin(h: History): int { h.polled + 17 - h.seen }

  /** A buffer is not written while it waits behind others on the avail ring. */
  lemma {:induction false} OfferedIsQuiet(r: Ring, h: History, ss: seq<DeviceStep>, d: nat, k: nat)
    requires Inv(r, h) && d < 16 && h.place[d] == Offered(k) && Takes(ss) <= k - h.seen
    ensures |Devices(r, ss).events| == 16 && Devices(r, ss).events[d] == r.events[d]
    decreases |ss|
  {
    if ss != [] {
      DeviceInv(r, h, ss[0]);
      assert Located(r, h, d);
      if ss[0].Take? && CanSee(r) {
        WrapsNext(r.seen, h.seen);
        assert OnOffer(r, h, h.seen) by { WrapsSame(r.seen, h.seen, r.availIdx, h.polled + 16); }
      }
      OfferedIsQuiet(Device(r, ss[0]), Observe(r, h, ss[0]), ss[1..], d, k);
    }
  }

  /** What a poll reads, if the device makes the steps `ss` between the hand-back and the read. */
  function Reads(r: Ring, ss: seq<DeviceStep>): (e: Event)
    requires CanTake(r) && Front(r) < |Devices(HandBack(r), ss).events|
  {
    Devices(HandBack(r), ss).events[Front(r)]
  }

  /** As long as the device takes fewer buffers than that, a poll reads the oldest event not yet read. */
  lemma PollReadsOldest(r: Ring, h: History, ss: seq<DeviceStep>)
    requires Inv(r, h) && CanTake(r) && Takes(ss) < Margin(h)
    ensures h.polled < |h.log| && Front(r) < |Devices(HandBack(r), ss).events|
    ensures Reads(r, ss) == h.log[h.polled]
  {
    HandBackInv(r, h);
    OfferedIsQuiet(HandBack(r), HandedBack(r, h), ss, Front(r), h.polled + 16);
  }

  /** The device may take any number of the buffers on offer; they are then in flight. */
  lemma {:induction false} TakeMany(r: Ring, h: History, n: nat)
    requires Inv(r, h) && n <= h.polled + 16 - h.seen
    ensures var h' := Observes(r, h, seq(n, i => Take));
            && Inv(Devices(r, seq(n, i => Take)), h')
            && (forall d :: 0 <= d < 16 && h.place[d] == InFlight ==> h'.place[d] == InFlight)
            && (forall d :: 0 <= d < 16 && h.place[d].Offered? && h.place[d].k < h.seen + n ==> h'.place[d] == InFlight)
    decreases n
  {
    var ss := seq(n, i => Take);
    if n > 0 {
      WrapsSame(r.seen, h.seen, r.availIdx, h.polled + 16);
      WrapsNext(r.seen, h.seen);
      SeeInv(r, h);
      assert ss[0] == Take && ss[1..] == seq(n - 1, i => Take);
      TakeMany(See(r), Saw(r, h), n - 1);
    }
    forall d | 0 <= d < 16 && h.place[d].Offered? && h.place[d].k < h.seen + n
      ensures Observes(r, h, ss).place[d] == InFlight
    {
      assert Located(r, h, d);
      assert n > 0 ==> OnOffer(r, h, h.seen);
    }
  }

  /** The margin is tight: a device that takes that many and completes the buffer anew changes what is read. */
  lemma PollReadsLater(r: Ring, h: History, e: Event)
    requires Inv(r, h) && CanTake(r)
    ensures Margin(h) >= 1
    ensures var ss := seq(Margin(h), i => Take) + [Finish(Front(r), e)];
            Front(r) < |Devices(HandBack(r), ss).events| && Reads(r, ss) == e
  {
    HandBackInv(r, h);
    var d, r1, h1, n := Front(r), HandBack(r), HandedBack(r, h), Margin(h);
    var takes := seq(n, i => Take);
    TakeMany(r1, h1, n);
    assert Located(Devices(r1, takes), Observes(r1, h1, takes), d);
    DevicesConcat(r1, takes, [Finish(d, e)]);
    var last := [Finish(d, e)];
    assert last[1..] == [];
  }

  // ----- the driver -----

  /** The keys among the events, in order. */
  function Keys(log: seq<Event>): seq<Report> {
    if log == [] then []
    else Keys(log[..|log| - 1]) + AsKey(Reported(log[|log| - 1]))
  }

  function AsKey(x: Report): seq<Report> { if x.Key? then [x] else [] }

  lemma KeysNext(log: seq<Event>, n: nat)
    requires n < |log|
    ensures Keys(log[..n + 1]) == Keys(log[..n]) + AsKey(Reported(log[n]))
  {
    assert log[..n + 1][..n] == log[..n];
  }

  /** A key is down if the last event of it was not its release. */
  predicate IsDown(log: seq<Event>, code: nat)
    decreases |log|
  {
    log != [] &&
    var e := log[|log| - 1];
    if e.typ == EV_KEY && e.code == code then e.value != 0 else IsDown(log[..|log| - 1], code)
  }

  /** What a program takes for it that has seen these reports. */
  predicate IsHeld(out: seq<Report>, code: nat)
    decreases |out|
  {
    out != [] &&
    var x := out[|out| - 1];
    if x.Key? && x.code == code then x.pressed else IsHeld(out[..|out| - 1], code)
  }

  /** A program that follows the reports knows of every key whether it is down. */
  lemma {:induction false} HeldIsDown(log: seq<Event>, code: nat)
    ensures IsHeld(Keys(log), code) <==> IsDown(log, code)
    decreases |log|
  {
    if log != [] {
      var init, x := log[..|log| - 1], Reported(log[|log| - 1]);
      HeldIsDown(init, code);
      if x.Key? {
        assert Keys(log)[..|Keys(log)| - 1] == Keys(init);
      } else {
        assert Keys(log) == Keys(init);
      }
    }
  }

  lemma AllHeld(log: seq<Event>, first: seq<Event>, out: seq<Report>)
    ensures Keys(log) == Keys(first) + out && first == [] ==> forall code :: IsHeld(out, code) <==> IsDown(log, code)
  {
    if Keys(log) == Keys(first) + out && first == [] {
      assert Keys(first) + out == out;
      forall code
        ensures IsHeld(out, code) <==> IsDown(log, code)
      {
        HeldIsDown(log, code);
      }
    }
  }

  /** Two events are reported alike exactly if neither is of a key, or both are releases or both not of the same key. */
  lemma ReportsTell(e: Event, f: Event)
    ensures Reported(e) == Reported(f) <==>
              || (e.typ != EV_KEY && f.typ != EV_KEY)
              || (e.typ == f.typ == EV_KEY && e.code == f.code && (e.value == 0 <==> f.value == 0))
    ensures Reported(e) == Nothing <==> e.typ != EV_KEY
  {
  }

  lemma MarginPositive(r: Ring, h: History)
    requires Inv(r, h)
    ensures h.polled <= |h.log| && (h.polled < |h.log| ==> Margin(h) >= 1)
  {
  }

  datatype Action = Dev(step: DeviceStep) | Poll(during: seq<DeviceStep>)

  /** The device takes no buffer while a poll is under way. */
  predicate Quiet(a: Action) { a.Poll? ==> Takes(a.during) == 0 }

  class Keyboard {
    var ring: Ring
    ghost var h: History

    ghost predicate Valid()
      reads this
    {
      Inv(ring, h)
    }

    constructor ()
      ensures Valid() && h.log == [] && h.polled == 0
    {
      var avail: seq<nat> := seq(16, i => 0);
      var i := 0;
      while i < 16
        invariant 0 <= i <= 16 && |avail| == 16
        invariant forall j :: 0 <= j < i ==> avail[j] == j
      {
        avail := avail[i := i];
        i := i + 1;
      }
      ring := Ring(avail, 16, seq(16, k => 0), 0, seq(16, k => Event(0, 0, 0)), 0, 0, {});
      h := Start();
      new;
      InitInv(ring);
    }

    method Advance(s: DeviceStep)
      requires Valid()
      modifies this
      ensures Valid() && ring == Device(old(ring), s) && h == Observe(old(ring), old(h), s)
      ensures old(h.log) <= h.log && h.polled == old(h.polled)
    {
      DeviceInv(ring, h, s);
      h := Observe(ring, h, s);
      ring := Device(ring, s);
    }

    /** The device makes the steps `during` between the hand-back and the read of the event. */
    method PollEvent(during: seq<DeviceStep>) returns (x: Report)
      requires Valid()
      modifies this
      ensures Valid() && old(h.log) <= h.log
      ensures h.polled <= |h.log|
      ensures h.polled == if old(h.polled) < |old(h.log)| then old(h.polled) + 1 else old(h.polled)
      ensures old(h.polled) == |old(h.log)| ==> x == Nothing && ring == old(ring) && h == old(h)
      ensures old(h.polled) < |old(h.log)| && Takes(during) < Margin(old(h)) ==> x == Reported(h.log[old(h.polled)])
    {
      WrapsSame(ring.lastUsed, h.polled, ring.usedIdx, |h.log|);
      if ring.lastUsed == ring.usedIdx {
        return Nothing;
      }
      ghost var r0, h0 := ring, h;
      HandBackInv(r0, h0);
      var d := ring.used[Slot(ring.lastUsed)];
      ring := ring.(lastUsed := Next(ring.lastUsed));
      ring := ring.(avail := ring.avail[Slot(ring.availIdx) := d]);
      ring := ring.(availIdx := Next(ring.availIdx));
      h := HandedBack(r0, h0);
      assert ring == HandBack(r0);
      DevicesInv(ring, h, during);
      if Takes(during) < Margin(h0) {
        PollReadsOldest(r0, h0, during);
      }
      h := Observes(ring, h, during);
      ring := Devices(ring, during);
      if ring.events[d].typ == EV_KEY {
        return Key(ring.events[d].code, ring.events[d].value > 0);
      }
      return Nothing;
    }

    /**
     Any interleaving of polls and device steps, of any length: the protocol invariant holds at the end, and if the
     device takes no buffer inside a poll, the keys reported are those of the events polled, in device order.
     */
    method Run(acts: seq<Action>) returns (out: seq<Report>)
      requires Valid()
      modifies this
      ensures Valid() && old(h.log) <= h.log && old(h.polled) <= h.polled <= |h.log|
      ensures (forall a <- acts :: Quiet(a)) ==> Keys(h.log[..h.polled]) == Keys(old(h.log)[..old(h.polled)]) + out
      ensures (forall a <- acts :: Quiet(a)) && old(h.polled) == 0 ==>
                forall code :: IsHeld(out, code) <==> IsDown(h.log[..h.polled], code)
    {
      hide Inv, Keys, Observe, Device, Takes, Reported;
      MarginPositive(ring, h);
      out := [];
      for i := 0 to |acts|
        invariant Valid() && old(h.log) <= h.log && old(h.polled) <= h.polled <= |h.log|
        invariant (forall a <- acts :: Quiet(a)) ==> Keys(h.log[..h.polled]) == Keys(old(h.log)[..old(h.polled)]) + out
      {
        ghost var was := h;
        MarginPositive(ring, h);
        match acts[i]
        case Dev(s) =>
          Advance(s);
          assert h.log[..h.polled] == was.log[..h.polled];
        case Poll(during) =>
          var x := PollEvent(during);
          assert h.log[..was.polled] == was.log[..was.polled];
          if h.polled > was.polled {
            KeysNext(h.log, was.polled);
            assert Quiet(acts[i]) ==> x == Reported(h.log[was.polled]);
          }
          out := out + AsKey(x);
      }
      AllHeld(h.log[..h.polled], old(h.log)[..old(h.polled)], out);
    }
  }
}
