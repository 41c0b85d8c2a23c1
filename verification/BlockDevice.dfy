/**
 The block driver: one request at a time through a virtqueue (section 2.6 of VIRTIO 1.1, Split Virtqueues; section 5.2,
 Block Device), then a busy-wait on the used index. The device completes each request once, after any delay, and may
 answer with an error. What the driver must provide is a simple map from sectors to bytes.
 */
module BlockDevice {
  import opened Codec

  type Sector = s: seq<byte> | |s| == 512 witness seq(512, i => 0)

  const T_IN: nat := 0
  const T_OUT: nat := 1

  datatype Request = Request(typ: nat, sector: nat, data: Sector, status: nat)

  datatype Desc = Desc(addr: nat, len: nat, more: bool, write: bool, next: nat)

  /**
   A drive: the request buffer at `addr`, the queue, the driver's `lastUsed`; then the device's progress and
   medium.
   */
  datatype Drive = Drive(addr: nat, req: Request, descs: seq<Desc>, avail: seq<nat>, availIdx: half, usedIdx: half,
                         lastUsed: half, seen: half, medium: seq<Sector>)

  function Next(i: half): half { (i + 1) % 0x1_0000 }

  /** What the driver takes for the number of sectors: the device's 64-bit capacity, cut to 32 bits. */
  function Capacity(medium: seq<Sector>): (n: word)
    ensures n <= |medium|
  {
    |medium| % 0x1_0000_0000
  }

  // ----- the device -----

  /**
   The three descriptors from `head` on name header, data and status of the request buffer; data goes the right
   way.
   */
  predicate IsRequest(d: Drive, head: nat)
    requires |d.descs| == 16
  {
    && head < 16
    && var h := d.descs[head];
    && h.addr == d.addr && h.len == 16 && !h.write && h.more && h.next < 16
    && var b := d.descs[h.next];
    && b.addr == d.addr + 16 && b.len == 512 && (b.write <==> d.req.typ == T_IN) && b.more && b.next < 16
    && var s := d.descs[b.next];
    && s.addr == d.addr + 528 && s.len == 1 && s.write && !s.more
  }

  /** What the device makes of a request: `fault` is its status. A malformed or unknown request is an error. */
  function Perform(d: Drive, fault: nat): Drive
    requires |d.descs| == |d.avail| == 16
  {
    var q := d.req;
    if !IsRequest(d, d.avail[d.seen % 16]) || q.sector >= |d.medium| || q.typ > T_OUT then
      d.(req := q.(status := 1))
    else if fault != 0 then
      d.(req := q.(status := fault))
    else if q.typ == T_OUT then
      d.(medium := d.medium[q.sector := q.data], req := q.(status := 0))
    else
      d.(req := q.(data := d.medium[q.sector], status := 0))
  }

  /** The device serves the next entry of the avail ring, if there is one. */
  function Serve(d: Drive, fault: nat): Drive
    requires |d.descs| == |d.avail| == 16
  {
    if d.seen == d.availIdx then d
    else Perform(d, fault).(seen := Next(d.seen), usedIdx := Next(d.usedIdx))
  }

  // ----- the driver -----

  /** Between requests, after `n` of them: nothing is outstanding, and the three indices agree. */
  ghost predicate Idle(d: Drive, n: nat) {
    && |d.descs| == |d.avail| == 16
    && d.availIdx == d.usedIdx == d.lastUsed == d.seen == n % 0x1_0000
  }

  /** A drive whose queue was cleared: nothing was asked of it yet. */
  function Fresh(addr: nat, medium: seq<Sector>): (d: Drive)
    ensures Idle(d, 0) && d.medium == medium
  {
    var none: Sector := seq(512, i => 0);
    var descs := seq(16, i => Desc(0, 0, false, false, 0));
    Drive(addr, Request(T_IN, 0, none, 0), descs, seq(16, i => 0), 0, 0, 0, 0, medium)
  }

  /** The simple map that the driver implements: sector `s` of drive `dev` becomes `data`. */
  function Put(media: seq<seq<Sector>>, dev: nat, s: nat, data: Sector): (m: seq<seq<Sector>>)
    requires dev < |media| && s < |media[dev]|
  {
    var medium: seq<Sector> := media[dev][s := data];
    media[dev := medium]
  }

  /** One request is outstanding: the avail entry the device reads next names the chain from descriptor 0. */
  ghost predicate Asked(d: Drive, n: nat, sector: nat, isWrite: bool) {
    && |d.descs| == |d.avail| == 16 && IsRequest(d, 0)
    && d.usedIdx == d.seen == n % 0x1_0000 && d.availIdx == d.lastUsed == (n + 1) % 0x1_0000
    && d.avail[d.seen % 16] == 0
    && d.req.sector == sector && d.req.typ == if isWrite then T_OUT else T_IN
  }

  /** Fills in the request and its descriptors, and kicks the queue. */
  method Kick(d0: Drive, ghost n: nat, buf: Sector, sector: word, isWrite: bool) returns (d: Drive)
    requires Idle(d0, n)
    ensures Asked(d, n, sector, isWrite) && d.medium == d0.medium && (isWrite ==> d.req.data == buf)
  {
    d := d0.(req := d0.req.(sector := sector, typ := if isWrite then T_OUT else T_IN));
    if isWrite {
      d := d.(req := d.req.(data := buf));
    }
    d := d.(descs := d.descs[0 := Desc(d.addr, 16, true, false, 1)]);
    d := d.(descs := d.descs[1 := Desc(d.addr + 16, 512, true, !isWrite, 2)]);
    d := d.(descs := d.descs[2 := Desc(d.addr + 528, 1, false, true, d.descs[2].next)]);
    d := d.(avail := d.avail[d.availIdx % 16 := 0]);
    d := d.(availIdx := Next(d.availIdx));
    d := d.(lastUsed := Next(d.lastUsed));
  }

  /** Busy-waits until the used index reaches the driver's; the device serves the request after `delay` looks. */
  method Await(d0: Drive, ghost n: nat, ghost sector: nat, ghost isWrite: bool, delay: nat, fault: nat)
    returns (d: Drive)
    requires Asked(d0, n, sector, isWrite)
    ensures d == Serve(d0, fault)
  {
    Different(n);
    d := d0;
    var wait := delay;
    while d.lastUsed != d.usedIdx
      invariant d == d0 || (d == Serve(d0, fault) && d.lastUsed == d.usedIdx)
      decreases d.lastUsed != d.usedIdx, wait
    {
      if wait == 0 {
        d := Serve(d, fault);
        hide Perform;
      } else {
        wait := wait - 1;
      }
    }
  }

  lemma Different(n: nat)
    ensures n % 0x1_0000 != (n + 1) % 0x1_0000 == Next(n % 0x1_0000)
  {
  }

  /** The answer to an outstanding request: nothing is outstanding any more, and the medium is read or written. */
  lemma Answer(d: Drive, n: nat, sector: nat, isWrite: bool, fault: nat)
    requires Asked(d, n, sector, isWrite) && sector < |d.medium|
    ensures var a := Serve(d, fault);
            && Idle(a, n + 1)
            && (fault == 0 <==> a.req.status == 0)
            && (fault != 0 || !isWrite ==> a.medium == d.medium)
            && (fault == 0 && isWrite ==> a.medium == d.medium[sector := d.req.data])
            && (fault == 0 && !isWrite ==> a.req.data == d.medium[sector])
  {
    Different(n);
  }

  datatype Outcome = Served(data: Sector) | BadDevice | BadSector | DeviceError

  /** The choices of the device during one request: how many times the driver finds it busy, and the status. */
  datatype Luck = Luck(delay: nat, fault: nat)

  /** A request together with the choices of the device. */
  datatype Op = Op(dev: nat, sector: word, isWrite: bool, data: Sector, luck: Luck)

  /** The simple map's answer to a request. */
  function Effect(media: seq<seq<Sector>>, op: Op): (r: (seq<seq<Sector>>, Outcome))
    requires |media| == 2
  {
    if op.dev >= 2 then (media, BadDevice)
    else if op.sector >= Capacity(media[op.dev]) then (media, BadSector)
    else if op.luck.fault != 0 then (media, DeviceError)
    else if op.isWrite then (Put(media, op.dev, op.sector, op.data), Served(op.data))
    else (media, Served(media[op.dev][op.sector]))
  }

  function Replay(media: seq<seq<Sector>>, ops: seq<Op>): (r: (seq<seq<Sector>>, seq<Outcome>))
    requires |media| == 2
    decreases |ops|
  {
    if ops == [] then (media, [])
    else
      var (next, o) := Effect(media, ops[0]);
      if !o.Served? then (next, [o])
      else
        var (last, os) := Replay(next, ops[1..]);
        (last, [o] + os)
  }

  /** What sector `s` of drive `dev` holds after some requests: what was written there last, or what was there. */
  function Latest(media: seq<seq<Sector>>, ops: seq<Op>, dev: nat, s: nat): Sector
    requires dev < |media| && s < |media[dev]|
    decreases |ops|
  {
    if ops == [] then media[dev][s]
    else
      var op := ops[|ops| - 1];
      if op.isWrite && op.dev == dev && op.sector == s then op.data else Latest(media, ops[..|ops| - 1], dev, s)
  }

  /**
   Over any requests that the machine survives, every sector holds what was written to it last; and the answer to each
   request is that, for a read what the sector held before.
   */
  lemma {:induction false} LastWriteWins(media: seq<seq<Sector>>, ops: seq<Op>)
    requires |media| == 2 && |Replay(media, ops).1| == |ops| && forall o <- Replay(media, ops).1 :: o.Served?
    ensures var m := Replay(media, ops).0;
            && |m| == 2 && |m[0]| == |media[0]| && |m[1]| == |media[1]|
            && (forall dev, s :: 0 <= dev < 2 && 0 <= s < |m[dev]| ==> m[dev][s] == Latest(media, ops, dev, s))
    ensures forall i :: 0 <= i < |ops| ==>
              && ops[i].dev < 2 && ops[i].sector < |media[ops[i].dev]|
              && Replay(media, ops).1[i].data ==
                   if ops[i].isWrite then ops[i].data else Latest(media, ops[..i], ops[i].dev, ops[i].sector)
    decreases |ops|
  {
    hide Replay, Effect;
    if ops == [] {
      assert Replay(media, []) == (media, []) by { NoRequests(media); }
    } else {
      var init, op := ops[..|ops| - 1], ops[|ops| - 1];
      assert ops == init + [op];
      ReplaySnoc(media, init, op);
      LastWriteWins(media, init);
      EffectIs(Replay(media, init).0, op);
      forall i | 0 <= i < |init|
        ensures init[..i] == ops[..i] && init[i] == ops[i]
      {
      }
    }
  }

  lemma NoRequests(media: seq<seq<Sector>>)
    requires |media| == 2
    ensures Replay(media, []) == (media, [])
  {
  }

  lemma EffectIs(media: seq<seq<Sector>>, op: Op)
    requires |media| == 2 && Effect(media, op).1.Served?
    ensures op.dev < 2 && op.sector < |media[op.dev]|
    ensures var (m, o) := Effect(media, op);
            && |m| == 2 && |m[0]| == |media[0]| && |m[1]| == |media[1]|
            && o.data == (if op.isWrite then op.data else media[op.dev][op.sector])
            && forall dev, s :: 0 <= dev < 2 && 0 <= s < |m[dev]| ==>
                 m[dev][s] == if op.isWrite && op.dev == dev && op.sector == s then op.data else media[dev][s]
  {
  }

  /** One more request. */
  lemma {:induction false} ReplaySnoc(media: seq<seq<Sector>>, ops: seq<Op>, op: Op)
    requires |media| == 2
    requires |Replay(media, ops + [op]).1| == |ops| + 1 && forall o <- Replay(media, ops + [op]).1 :: o.Served?
    ensures |Replay(media, ops).1| == |ops| && (forall o <- Replay(media, ops).1 :: o.Served?)
    ensures |Replay(media, ops).0| == 2
    ensures var (m, o) := Effect(Replay(media, ops).0, op);
            o.Served? && Replay(media, ops + [op]) == (m, Replay(media, ops).1 + [o])
    decreases |ops|
  {
    var all := ops + [op];
    var (next, o) := Effect(media, all[0]);
    var (last, os) := Replay(next, all[1..]);
    assert Replay(media, all).1[0] == o;
    if ops == [] {
      assert all[1..] == [] && Replay(next, []) == (next, []);
      assert [o] + [] == [o] && ops + [op] == [op] && Replay(media, ops).1 + [o] == [o];
    } else {
      assert all[1..] == ops[1..] + [op];
      assert Replay(media, all).1[1..] == os;
      ReplaySnoc(next, ops[1..], op);
      var r := Replay(next, ops[1..]);
      var p := Effect(r.0, op).1;
      assert [o] + (r.1 + [p]) == ([o] + r.1) + [p];
    }
  }

  /** The simple map's answer is the one that the driver's contract describes. */
  lemma IsEffect(media: seq<seq<Sector>>, op: Op, m: seq<seq<Sector>>, o: Outcome)
    requires |media| == 2
    requires op.dev >= 2 <==> o == BadDevice
    requires op.dev < 2 ==> (op.sector >= Capacity(media[op.dev]) <==> o == BadSector)
    requires op.dev < 2 && op.sector < Capacity(media[op.dev]) ==> (op.luck.fault != 0 <==> o == DeviceError)
    requires !o.Served? ==> m == media
    requires o.Served? && op.isWrite ==> o.data == op.data && m == Put(media, op.dev, op.sector, op.data)
    requires o.Served? && !op.isWrite ==> m == media && o.data == media[op.dev][op.sector]
    ensures (m, o) == Effect(media, op)
  {
  }

  /** A result that comes after the outcomes `out`. */
  ghost function After(out: seq<Outcome>, r: (seq<seq<Sector>>, seq<Outcome>)): (seq<seq<Sector>>, seq<Outcome>) {
    (r.0, out + r.1)
  }

  lemma AfterStep(media: seq<seq<Sector>>, ops: seq<Op>, out: seq<Outcome>)
    requires |media| == 2 && ops != []
    ensures var (m, o) := Effect(media, ops[0]);
            After(out, Replay(media, ops)) ==
              if o.Served? then After(out + [o], Replay(m, ops[1..])) else (m, out + [o])
  {
    var (m, o) := Effect(media, ops[0]);
    var t := Replay(m, ops[1..]);
    assert out + ([o] + t.1) == out + [o] + t.1;
  }

  // ----- blocks of two sectors -----

  datatype BlockOutcome = Block(data: Codec.Block) | Halted(why: Outcome)

  /** The first sector of a block: a 32-bit product, so that blocks 2^31 apart share their sectors. */
  function Sector0(block: word): (s: word)
    ensures s % 2 == 0 && s / 2 == block % 0x8000_0000
  {
    block * 2 % 0x1_0000_0000
  }

  lemma SecondSector(block: word)
    ensures (block * 2 + 1) % 0x1_0000_0000 == Sector0(block) + 1
  {
  }

  function Join(a: Sector, b: Sector): (c: Codec.Block)
    ensures c[..512] == a && c[512..] == b
  {
    var c: seq<byte> := a + b;
    c
  }

  function Blocks(medium: seq<Sector>): (bs: seq<Codec.Block>)
    ensures |bs| == |medium| / 2
  {
    seq(|medium| / 2, i requires 0 <= i < |medium| / 2 => Join(medium[2 * i], medium[2 * i + 1]))
  }

  function PutBlock(bs: seq<Codec.Block>, b: nat, buf: Codec.Block): seq<Codec.Block>
    requires b < |bs|
  {
    bs[b := buf]
  }

  /** Writing both sectors of a block writes the block. */
  lemma TwoHalves(media: seq<seq<Sector>>, dev: nat, s: nat, buf: Codec.Block)
    requires dev < |media| && s % 2 == 0 && s + 1 < |media[dev]|
    ensures var m := Put(Put(media, dev, s, buf[..512]), dev, s + 1, buf[512..]);
            && |m| == |media| && |m[dev]| == |media[dev]| && (forall e :: 0 <= e < |m| && e != dev ==> m[e] == media[e])
            && Blocks(m[dev]) == PutBlock(Blocks(media[dev]), s / 2, buf)
  {
    assert Join(buf[..512], buf[512..]) == buf;
  }

  class Driver {
    var devices: seq<Drive>
    ghost var served: seq<nat>

    ghost predicate Valid()
      reads this
    {
      |devices| == |served| == 2 && Idle(devices[0], served[0]) && Idle(devices[1], served[1])
    }

    /** `virtio_blk_init`: both queues are empty, and the request buffers at the given addresses zero. */
    constructor (addr0: nat, addr1: nat, media: seq<seq<Sector>>)
      requires |media| == 2
      ensures Valid() && Media() == media && served == [0, 0]
    {
      devices := [Fresh(addr0, media[0]), Fresh(addr1, media[1])];
      served := [0, 0];
      new;
      assert Media() == media;
    }

    /** What both drives hold. */
    ghost function Media(): (m: seq<seq<Sector>>)
      requires |devices| == 2
      reads this
    {
      [devices[0].medium, devices[1].medium]
    }

    method ReadWrite(dev: nat, buf: Sector, sector: word, isWrite: bool, luck: Luck) returns (o: Outcome)
      requires Valid()
      modifies this
      ensures Valid() && (dev < 2 ==> |Media()[dev]| == |old(Media())[dev]|)
      ensures dev >= 2 <==> o == BadDevice
      ensures dev < 2 ==> (sector >= Capacity(old(Media())[dev]) <==> o == BadSector)
      ensures dev < 2 && sector < Capacity(old(Media())[dev]) ==> (luck.fault != 0 <==> o == DeviceError)
      ensures !o.Served? ==> Media() == old(Media())
      ensures o.Served? && isWrite ==> o.data == buf && Media() == Put(old(Media()), dev, sector, buf)
      ensures o.Served? && !isWrite ==> Media() == old(Media()) && o.data == old(Media())[dev][sector]
      ensures o.Served? ==> served == old(served)[dev := old(served)[dev] + 1]
    {
      hide Serve, Asked, Idle;
      if dev >= 2 {
        return BadDevice;
      }
      var d := devices[dev];
      if sector >= Capacity(d.medium) {
        return BadSector;
      }
      ghost var n := served[dev];
      var asked := Kick(d, n, buf, sector, isWrite);
      Answer(asked, n, sector, isWrite, luck.fault);
      d := Await(asked, n, sector, isWrite, luck.delay, luck.fault);
      devices := devices[dev := d];
      served := served[dev := served[dev] + 1];
      if d.req.status != 0 {
        return DeviceError;
      }
      return Served(if isWrite then buf else d.req.data);
    }

    /** Requests one after the other, until one of them stops the machine. */
    method Run(ops: seq<Op>) returns (out: seq<Outcome>)
      requires Valid()
      modifies this
      ensures Valid()
      ensures (Media(), out) == Replay(old(Media()), ops)
    {
      hide Idle, Effect;
      out := [];
      ghost var before := Media();
      assert ops[0..] == ops && out + Replay(before, ops).1 == Replay(before, ops).1;
      for i := 0 to |ops|
        invariant Valid()
        invariant Replay(before, ops) == After(out, Replay(Media(), ops[i..]))
      {
        assert ops[i..][0] == ops[i] && ops[i..][1..] == ops[i + 1..];
        ghost var media := Media();
        var op := ops[i];
        var o := ReadWrite(op.dev, op.data, op.sector, op.isWrite, op.luck);
        IsEffect(media, op, Media(), o);
        AfterStep(media, ops[i..], out);
        out := out + [o];
        if !o.Served? {
          return;
        }
      }
      assert ops[|ops|..] == [] && out + Replay(Media(), []).1 == out;
    }

    method ReadBlock(dev: nat, block: word, lucks: (Luck, Luck)) returns (o: BlockOutcome)
      requires Valid()
      modifies this
      ensures Valid() && Media() == old(Media())
      ensures o.Block? <==>
                dev < 2 && Sector0(block) + 1 < Capacity(Media()[dev]) && lucks.0.fault == lucks.1.fault == 0
      ensures o.Block? ==> o.data == Blocks(Media()[dev])[Sector0(block) / 2]
    {
      hide Idle, Join, Sector0;
      SecondSector(block);
      var o0 := ReadWrite(dev, seq(512, i => 0), Sector0(block), false, lucks.0);
      if !o0.Served? {
        return Halted(o0);
      }
      var o1 := ReadWrite(dev, seq(512, i => 0), (block * 2 + 1) % 0x1_0000_0000, false, lucks.1);
      if !o1.Served? {
        return Halted(o1);
      }
      return Block(Join(o0.data, o1.data));
    }

    method WriteBlock(dev: nat, block: word, buf: Codec.Block, lucks: (Luck, Luck)) returns (o: BlockOutcome)
      requires Valid()
      modifies this
      ensures Valid() && (forall e :: 0 <= e < 2 && e != dev ==> Media()[e] == old(Media())[e])
      ensures o.Block? <==>
                dev < 2 && Sector0(block) + 1 < Capacity(old(Media())[dev]) && lucks.0.fault == lucks.1.fault == 0
      ensures o.Block? ==> Blocks(Media()[dev]) == PutBlock(Blocks(old(Media())[dev]), Sector0(block) / 2, buf)
    {
      hide Idle, Blocks, PutBlock, Sector0;
      SecondSector(block);
      var o0 := ReadWrite(dev, buf[..512], Sector0(block), true, lucks.0);
      if !o0.Served? {
        return Halted(o0);
      }
      var o1 := ReadWrite(dev, buf[512..], (block * 2 + 1) % 0x1_0000_0000, true, lucks.1);
      if !o1.Served? {
        return Halted(o1);
      }
      TwoHalves(old(Media()), dev, Sector0(block), buf);
      return Block(buf);
    }
  }
}
