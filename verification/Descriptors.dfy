/**
 What a program can rely on when it opens, reads, writes, cuts and closes files. The calls are described by what they
 answer and by what later calls answer, and not by how they change the tables.
 */
module Descriptors {
  import opened Basics
  import opened Codec
  import opened Layout
  import opened Paths
  import opened Items
  import opened World
  import R = Replay
  import M = Mounts
  import T = Tree

  ghost predicate IsOpen(w: World, p: nat, fd: int)
    requires Shape(w) && p < PROCS_MAX
  {
    0 <= fd < NOFILE && w.fds[NOFILE * p + fd].Some?
  }

  // ----- every descriptor has a file of its own -----

  predicate FileOk(h: Handle) {
    && (h.Free? || h.ref == 1)
    && (h.OnInode? ==> h.node.dev < 2 && (h.writable ==> h.node.dev == 1))
  }

  /** No file is longer than the index tables of an inode reach. */
  predicate SizesOk(s: seq<Item>) { forall i :: 0 <= i < |s| && s[i].File? ==> |s[i].bytes| <= MAXBYTES }

  /** No two descriptors share an open file, an open file has one descriptor at most, and device 0 is only read. */
  ghost predicate Tidy(w: World)
    requires Shape(w)
  {
    && (forall i :: 0 <= i < |w.fds| && w.fds[i].Some? ==> !w.files[w.fds[i].value].Free?)
    && (forall i, j :: 0 <= i < j < |w.fds| && w.fds[i].Some? && w.fds[j].Some? ==> w.fds[i].value != w.fds[j].value)
    && (forall f :: 0 <= f < |w.files| ==> FileOk(w.files[f]))
    && (forall p :: 0 <= p < |w.cwds| && w.cwds[p].Some? ==> w.cwds[p].value.dev < 2)
    && SizesOk(w.s0) && SizesOk(w.s1)
  }

  /** All descriptors but `fd` of process `p` are as they were; -1 is for no exception. */
  ghost predicate SameHandles(w: World, v: World, p: nat, fd: int)
    requires Shape(w) && Shape(v)
  {
    forall q, g {:trigger HandleAt(v, q, g)} :: 0 <= q < PROCS_MAX && 0 <= g < NOFILE && !(q == p && g == fd) ==>
      HandleAt(v, q, g) == HandleAt(w, q, g)
  }

  /** Of the items at most inode `x` of device 1 is not as it was. */
  predicate OnlyItem(w: World, v: World, x: nat) {
    v.s0 == w.s0 && |v.s1| == |w.s1| && forall i :: 0 <= i < |w.s1| && i != x ==> v.s1[i] == w.s1[i]
  }

  lemma SizesOf(w: World)
    requires Shape(w) && Tidy(w)
    ensures SizesOk(w.s0) && SizesOk(w.s1)
  {
  }

  lemma OpenIs(w: World, p: nat, fd: int)
    requires Shape(w) && Tidy(w) && p < PROCS_MAX
    ensures IsOpen(w, p, fd) <==> !HandleAt(w, p, fd).Free?
  {
  }

  // ----- reading -----

  /** What a read answers, and that it moves the offset of that descriptor and does nothing else. */
  lemma ReadGives(w: World, p: nat, fd: int, n: int, typed: seq<byte>)
    requires Shape(w) && Tidy(w) && p < PROCS_MAX && w.procs[p]
    ensures var (v, r) := Step(w, p, CRead(fd, n, typed));
            var h := HandleAt(w, p, fd);
            && (r == Fail(Invalid) <==> n <= 0)
            && (r == Fail(BadFile) <==> n > 0 && !IsOpen(w, p, fd))
            && (r == Fail(Denied) <==> n > 0 && !h.Free? && !h.readable)
            && (n > 0 && h.OnConsole? && h.readable ==> r == Data(typed))
            && (!r.Data? && !r.Entries? ==> v == w)
            && Shape(v) && v == w.(files := v.files) && SameHandles(w, v, p, fd)
  {
    OpenIs(w, p, fd);
  }

  /** A read of a file answers the bytes from the offset on, as many as asked for and there are. */
  lemma ReadBytes(w: World, p: nat, fd: int, n: int, typed: seq<byte>)
    requires Shape(w) && p < PROCS_MAX && w.procs[p] && n > 0
    requires var h := HandleAt(w, p, fd); h.OnInode? && h.readable && ItemAt(w, h.node).File?
    ensures var (v, r) := Step(w, p, CRead(fd, n, typed));
            var h := HandleAt(w, p, fd);
            var b := ItemAt(w, h.node).bytes;
            && (r == Fail(NotPermitted) <==> h.off > |b| || h.off + n >= 0x1_0000_0000)
            && (r != Fail(NotPermitted) ==>
                  && r.Data? && |r.bytes| <= n && h.off + |r.bytes| <= |b|
                  && (|r.bytes| == n || h.off + |r.bytes| == |b|)
                  && (forall i :: 0 <= i < |r.bytes| ==> r.bytes[i] == b[h.off + i])
                  && HandleAt(v, p, fd) == h.(off := h.off + |r.bytes|))
  {
  }

  /** A read of a directory answers how many of its bytes it gave; there is nothing to read of a removed inode. */
  lemma ReadElse(w: World, p: nat, fd: int, n: int, typed: seq<byte>)
    requires Shape(w) && p < PROCS_MAX && w.procs[p] && n > 0
    requires var h := HandleAt(w, p, fd); h.OnInode? && h.readable && !ItemAt(w, h.node).File?
    ensures var (v, r) := Step(w, p, CRead(fd, n, typed));
            var h := HandleAt(w, p, fd);
            var size := SizeOf(ItemAt(w, h.node));
            && (r == Fail(NotPermitted) <==>
                  ItemAt(w, h.node).Unused? || h.off > size || h.off + n >= 0x1_0000_0000)
            && (r != Fail(NotPermitted) ==>
                  && r.Entries? && r.n <= n && h.off + r.n <= size && (r.n == n || h.off + r.n == size)
                  && HandleAt(v, p, fd) == h.(off := h.off + r.n))
  {
  }

  /** Reading twice is reading once. */
  lemma ReadOn(w: World, p: nat, fd: int, n: nat, m: nat, typed: seq<byte>)
    requires Shape(w) && p < PROCS_MAX && w.procs[p] && n > 0 && m > 0
    requires var h := HandleAt(w, p, fd); h.OnInode? && h.readable && ItemAt(w, h.node).File?
    requires Step(w, p, CRead(fd, n + m, typed)).1.Data?
    ensures var (v, r) := Step(w, p, CRead(fd, n, typed));
            && Shape(v) && r.Data?
            && var (u, s) := Step(v, p, CRead(fd, m, typed));
               s.Data? && Step(w, p, CRead(fd, n + m, typed)) == (u, Data(r.bytes + s.bytes))
  {
    hide Step;
    var h := HandleAt(w, p, fd);
    var b := ItemAt(w, h.node).bytes;
    ReadState(w, p, fd, n + m, typed);
    ReadState(w, p, fd, n, typed);
    var mid, end := Ending(h.off, n, |b|), Ending(h.off, n + m, |b|);
    var v := Step(w, p, CRead(fd, n, typed)).0;
    SeekTwice(w, p, fd, mid, end);
    ReadState(v, p, fd, m, typed);
    assert Ending(mid, m, |b|) == end;
    assert b[h.off..mid] + b[mid..end] == b[h.off..end];
  }

  function Ending(off: nat, n: nat, size: nat): nat { if off + n <= size then off + n else size }

  lemma ReadState(w: World, p: nat, fd: int, n: nat, typed: seq<byte>)
    requires Shape(w) && p < PROCS_MAX && w.procs[p] && n > 0
    requires var h := HandleAt(w, p, fd); h.OnInode? && h.readable && ItemAt(w, h.node).File?
    ensures var h := HandleAt(w, p, fd);
            var b := ItemAt(w, h.node).bytes;
            var end := Ending(h.off, n, |b|);
            Step(w, p, CRead(fd, n, typed)) ==
              if h.off > |b| || h.off + n >= 0x1_0000_0000 then (w, Fail(NotPermitted))
              else (Seek(w, p, fd, end), Data(b[h.off..end]))
  {
    hide Seek, HandleAt, ItemAt;
  }

  lemma SeekTwice(w: World, p: nat, fd: int, a: nat, b: nat)
    requires Shape(w) && p < PROCS_MAX && HandleAt(w, p, fd).OnInode?
    ensures var v := Seek(w, p, fd, a);
            && Shape(v) && v.procs == w.procs && HandleAt(v, p, fd) == HandleAt(w, p, fd).(off := a)
            && (forall x :: ItemAt(v, x) == ItemAt(w, x)) && Seek(v, p, fd, b) == Seek(w, p, fd, b)
  {
    var f := w.fds[NOFILE * p + fd].value;
    assert Seek(Seek(w, p, fd, a), p, fd, b).files == Seek(w, p, fd, b).files;
  }

  // ----- writing -----

  lemma WriteAnswers(w: World, p: nat, fd: int, src: seq<byte>)
    requires Shape(w) && Tidy(w) && p < PROCS_MAX && w.procs[p]
    ensures var (v, r) := Step(w, p, CWrite(fd, src));
            var h := HandleAt(w, p, fd);
            && (r == Fail(BadFile) <==> !IsOpen(w, p, fd))
            && (r == Fail(Denied) <==> !h.Free? && !h.writable)
            && (r == Fail(NoSpace) <==>
                  h.OnInode? && h.writable && (h.off > SizeOf(ItemAt(w, h.node)) || h.off + |src| > MAXBYTES))
            && (r.Count? || r.Fail? || r.Untold?) && (r.Count? ==> r.n == |src|)
            && (r.Untold? <==>
                  h.OnInode? && h.writable && r != Fail(NoSpace) && src != [] && !ItemAt(w, h.node).File?)
            && (!r.Count? || !h.OnInode? ==> v == w)
  {
    OpenIs(w, p, fd);
  }

  /** A write to a file replaces the bytes at the offset and no other, and moves the offset behind them. */
  lemma WriteBytes(w: World, p: nat, fd: int, src: seq<byte>)
    requires Shape(w) && Tidy(w) && p < PROCS_MAX && w.procs[p] && Step(w, p, CWrite(fd, src)).1.Count?
    requires HandleAt(w, p, fd).OnInode? && ItemAt(w, HandleAt(w, p, fd).node).File?
    ensures var v, h := Step(w, p, CWrite(fd, src)).0, HandleAt(w, p, fd);
            var b, x := ItemAt(w, h.node).bytes, h.node.inum;
            && Shape(v) && v == w.(s1 := v.s1, files := v.files) && OnlyItem(w, v, x) && SameHandles(w, v, p, fd)
            && HandleAt(v, p, fd) == h.(off := h.off + |src|)
            && h.node.dev == 1 && x < |v.s1| && v.s1[x].File?
            && var c := v.s1[x].bytes;
               && |c| == (if |b| < h.off + |src| then h.off + |src| else |b|)
               && forall i :: 0 <= i < |c| ==>
                    c[i] == if h.off <= i < h.off + |src| then src[i - h.off] else b[i]
  {
    var h := HandleAt(w, p, fd);
    assert FileOk(h) by { assert w.files[w.fds[NOFILE * p + fd].value] == h; }
  }

  // ----- cutting -----

  lemma TruncateAnswers(w: World, p: nat, fd: int, n: int)
    requires Shape(w) && Tidy(w) && p < PROCS_MAX && w.procs[p]
    ensures var (v, r) := Step(w, p, CTruncate(fd, n));
            var h := HandleAt(w, p, fd);
            && (r == Fail(BadFile) <==> !IsOpen(w, p, fd))
            && (r == Fail(Denied) <==> !h.Free? && !h.writable)
            && (r == Fail(Invalid) <==> !h.Free? && h.writable && (h.OnConsole? || n < 0))
            && (r == Untold <==>
                  h.OnInode? && h.writable && ItemAt(w, h.node).Dir? && 0 <= n < SizeOf(ItemAt(w, h.node)))
            && (r == Success <==> h.OnInode? && h.writable && n >= 0 && r != Untold)
            && (r != Success || !ItemAt(w, h.node).File? ==> v == w)
  {
    OpenIs(w, p, fd);
  }

  /** Of a file the first `n` bytes are left, and nothing else changes: no other item, open file, descriptor or seat. */
  lemma TruncateBytes(w: World, p: nat, fd: int, n: int)
    requires Shape(w) && Tidy(w) && p < PROCS_MAX && w.procs[p] && Step(w, p, CTruncate(fd, n)).1 == Success
    requires HandleAt(w, p, fd).OnInode? && ItemAt(w, HandleAt(w, p, fd).node).File?
    ensures var v, h := Step(w, p, CTruncate(fd, n)).0, HandleAt(w, p, fd);
            var b, x := ItemAt(w, h.node).bytes, h.node.inum;
            && Shape(v) && v == w.(s1 := v.s1) && OnlyItem(w, v, x) && h.node.dev == 1 && x < |v.s1| && v.s1[x].File?
            && |v.s1[x].bytes| == (if n < |b| then n else |b|)
            && forall i :: 0 <= i < |v.s1[x].bytes| ==> v.s1[x].bytes[i] == b[i]
  {
    var h := HandleAt(w, p, fd);
    assert FileOk(h) by { assert w.files[w.fds[NOFILE * p + fd].value] == h; }
  }

  /**
   Whoever reads the file after it was cut to `n` bytes: what lies before `n` is read as before, at `n` there is
   nothing to read, and from behind `n` a read fails.
   */
  lemma TruncateReads(w: World, p: nat, fd: int, n: int, q: nat, g: int, k: int, typed: seq<byte>)
    requires Shape(w) && Tidy(w) && p < PROCS_MAX && w.procs[p] && Step(w, p, CTruncate(fd, n)).1 == Success
    requires HandleAt(w, p, fd).OnInode? && ItemAt(w, HandleAt(w, p, fd).node).File?
    requires q < PROCS_MAX && w.procs[q] && HandleAt(w, q, g).OnInode? && HandleAt(w, q, g).readable
    requires HandleAt(w, q, g).node == HandleAt(w, p, fd).node && k > 0 && HandleAt(w, q, g).off + k < 0x1_0000_0000
    ensures Shape(Step(w, p, CTruncate(fd, n)).0)
    ensures var v, off := Step(w, p, CTruncate(fd, n)).0, HandleAt(w, q, g).off;
            var size := SizeOf(ItemAt(w, HandleAt(w, p, fd).node));
            var before, after := Step(w, q, CRead(g, k, typed)).1, Step(v, q, CRead(g, k, typed)).1;
            && (off + k <= n || size <= n ==> after == before)
            && (off == n <= size ==> after == Data([]))
            && (off < n < off + k && n <= size ==>
                  before.Data? && after.Data? && |after.bytes| == n - off && after.bytes <= before.bytes)
            && (off > n && size > n ==> after == Fail(NotPermitted))
  {
    TruncateBytes(w, p, fd, n);
    var v := Step(w, p, CTruncate(fd, n)).0;
    assert HandleAt(v, q, g) == HandleAt(w, q, g);
    ReadBytes(w, q, g, k, typed);
    ReadBytes(v, q, g, k, typed);
  }

  // ----- closing -----

  /** A descriptor that was closed is not open, whoever asks; all others are as they were, and so is all else. */
  lemma CloseFrees(w: World, p: nat, fd: int)
    requires Shape(w) && Tidy(w) && p < PROCS_MAX && w.procs[p]
    ensures var (v, r) := Step(w, p, CClose(fd));
            && (r == Success <==> IsOpen(w, p, fd)) && (r == Fail(BadFile) <==> !IsOpen(w, p, fd))
            && (r != Success ==> v == w)
            && Shape(v) && Tidy(v) && v == w.(files := v.files, fds := v.fds) && SameHandles(w, v, p, fd)
            && !IsOpen(v, p, fd) && Step(v, p, CClose(fd)).1 == Fail(BadFile)
            && (r == Success ==> exists f :: 0 <= f < NFILE && !w.files[f].Free? && v.files == w.files[f := Free])
  {
    if IsOpen(w, p, fd) {
      var f := w.fds[NOFILE * p + fd].value;
      assert FileOk(w.files[f]);
      assert Step(w, p, CClose(fd)).0.files == w.files[f := Free];
    }
  }

  // ----- opening -----

  /** There is a free entry in the table of open files, and process `p` has a descriptor left. */
  ghost predicate HasRoom(w: World, p: nat)
    requires Shape(w) && p < PROCS_MAX
  {
    (exists f :: 0 <= f < NFILE && w.files[f].Free?) && (exists fd :: 0 <= fd < NOFILE && !IsOpen(w, p, fd))
  }

  /** `fd` is the first descriptor of process `p` that was not open, and now is; all others are as they were. */
  ghost predicate NewDescriptor(w: World, v: World, p: nat, fd: nat)
    requires Shape(w) && Shape(v) && p < PROCS_MAX
  {
    && fd < NOFILE && !IsOpen(w, p, fd) && IsOpen(v, p, fd) && (forall g :: 0 <= g < fd ==> IsOpen(w, p, g))
    && SameHandles(w, v, p, fd) && v == w.(s1 := v.s1, files := v.files, fds := v.fds)
  }

  lemma RoomIs(w: World, p: nat)
    requires Shape(w) && p < PROCS_MAX
    ensures HasRoom(w, p) <==>
              FirstFree(w.files, 0).Some? && FirstNone(w.fds, NOFILE * p, NOFILE * p + NOFILE).Some?
  {
    var f, i := FirstFree(w.files, 0), FirstNone(w.fds, NOFILE * p, NOFILE * p + NOFILE);
    if f.Some? && i.Some? {
      assert w.files[f.value].Free? && !IsOpen(w, p, i.value - NOFILE * p);
    } else if i.None? {
      forall fd | 0 <= fd < NOFILE
        ensures IsOpen(w, p, fd)
      {
        assert w.fds[NOFILE * p + fd].Some?;
      }
    }
  }

  /** Descriptor `i` and open file `f`, neither of them in use, get each other. */
  lemma PairTidy(w: World, v: World, i: nat, f: nat)
    requires Shape(w) && Tidy(w) && i < |w.fds| && w.fds[i].None? && f < NFILE && w.files[f].Free?
    requires |v.files| == NFILE && FileOk(v.files[f]) && !v.files[f].Free?
    requires v == w.(files := w.files[f := v.files[f]], fds := w.fds[i := Some(f)])
    ensures Shape(v) && Tidy(v)
  {
    assert forall j :: 0 <= j < |w.fds| && w.fds[j].Some? ==> w.fds[j].value != f;
  }

  lemma PairNew(w: World, v: World, p: nat, fd: nat, f: nat)
    requires Shape(w) && Shape(v) && Tidy(w) && p < PROCS_MAX && fd < NOFILE && !IsOpen(w, p, fd) && f < NFILE
    requires w.files[f].Free? && forall g :: 0 <= g < fd ==> IsOpen(w, p, g)
    requires v == w.(files := w.files[f := v.files[f]], fds := w.fds[NOFILE * p + fd := Some(f)])
    ensures NewDescriptor(w, v, p, fd) && HandleAt(v, p, fd) == v.files[f]
  {
    forall q, g | 0 <= q < PROCS_MAX && 0 <= g < NOFILE && !(q == p && g == fd)
      ensures HandleAt(v, q, g) == HandleAt(w, q, g)
    {
      assert NOFILE * q + g != NOFILE * p + fd;
      assert w.fds[NOFILE * q + g].Some? ==> w.fds[NOFILE * q + g].value != f;
    }
  }

  lemma AttachGives(w: World, p: nat, h: Handle)
    requires Shape(w) && Tidy(w) && p < PROCS_MAX && !h.Free? && FileOk(h)
    ensures var (v, r) := Attach(w, p, h);
            && Shape(v) && Tidy(v) && (r.Fd? <==> HasRoom(w, p))
            && (r.Fd? ==> NewDescriptor(w, v, p, r.fd) && HandleAt(v, p, r.fd) == h && v.s1 == w.s1)
            && (!r.Fd? ==> v == w && r == Fail(NoSpace))
  {
    hide Tidy, NewDescriptor, HasRoom, FirstFree, FirstNone;
    RoomIs(w, p);
    var f, i := FirstFree(w.files, 0), FirstNone(w.fds, NOFILE * p, NOFILE * p + NOFILE);
    if f.Some? && i.Some? {
      var v, fd := Attach(w, p, h).0, i.value - NOFILE * p;
      PairTidy(w, v, i.value, f.value);
      forall g | 0 <= g < fd
        ensures IsOpen(w, p, g)
      {
        assert w.fds[NOFILE * p + g].Some?;
      }
      PairNew(w, v, p, fd, f.value);
    }
  }

  /** The items do not matter. */
  lemma NewDescriptorOf(w: World, u: World, v: World, p: nat, fd: nat)
    requires Shape(w) && Shape(u) && Shape(v) && p < PROCS_MAX && u == w.(s1 := u.s1)
    ensures NewDescriptor(u, v, p, fd) ==> NewDescriptor(w, v, p, fd)
    ensures HasRoom(u, p) <==> HasRoom(w, p)
  {
    assert forall g :: IsOpen(u, p, g) <==> IsOpen(w, p, g);
    assert forall q: nat, g {:trigger HandleAt(u, q, g)} :: q < PROCS_MAX ==> HandleAt(u, q, g) == HandleAt(w, q, g);
    if NewDescriptor(u, v, p, fd) {
      forall q, g | 0 <= q < PROCS_MAX && 0 <= g < NOFILE && !(q == p && g == fd)
        ensures HandleAt(v, q, g) == HandleAt(w, q, g)
      {
        assert HandleAt(v, q, g) == HandleAt(u, q, g);
      }
      forall g | 0 <= g < fd
        ensures IsOpen(w, p, g)
      {
        assert IsOpen(u, p, g);
      }
    }
  }

  /** What an inode holds once it is open, if opening is to empty files or not. */
  function OnceOpen(i: Item, flags: Flags): Item { if flags.truncate && i.File? then Item.File([]) else i }

  /** The descriptor reads and writes inode `x` as asked for, from the start or, to append, from the end. */
  predicate IsHandle(h: Handle, w: World, x: T.Node, flags: Flags) {
    h == OnInode(1, flags.read, flags.write, x, if flags.append then SizeOf(ItemAt(w, x)) else 0)
  }

  lemma AttachInodeGives(w: World, p: nat, x: T.Node, flags: Flags)
    requires Shape(w) && Tidy(w) && p < PROCS_MAX && x.dev < 2 && (x.dev == 0 ==> !flags.write && !flags.truncate)
    ensures var (v, r) := AttachInode(Emptied(w, x, flags), p, x, flags);
            && Shape(v) && Tidy(v) && (r.Fd? <==> HasRoom(w, p)) && (!r.Fd? ==> r == Fail(NoSpace))
            && OnlyItem(w, v, x.inum) && (x.dev == 0 ==> v.s1 == w.s1) && ItemAt(v, x) == OnceOpen(ItemAt(w, x), flags)
            && (r.Fd? ==> NewDescriptor(w, v, p, r.fd) && IsHandle(HandleAt(v, p, r.fd), v, x, flags))
            && (!r.Fd? ==> v == w.(s1 := v.s1))
  {
    hide Attach, NewDescriptor, HasRoom, Tidy;
    var u := Emptied(w, x, flags);
    assert u == w.(s1 := u.s1);
    var off := if flags.append then SizeOf(ItemAt(u, x)) else 0;
    assert SizesOk(u.s1) by { SizesOf(w); }
    TidyItems(w, u);
    AttachGives(u, p, OnInode(1, flags.read, flags.write, x, off));
    var (v, r) := Attach(u, p, OnInode(1, flags.read, flags.write, x, off));
    if r.Fd? {
      NewDescriptorOf(w, u, v, p, r.fd);
    } else {
      NewDescriptorOf(w, u, v, p, 0);
    }
  }

  lemma TidyItems(w: World, u: World)
    requires Shape(w) && Tidy(w) && u == w.(s1 := u.s1) && SizesOk(u.s1)
    ensures Shape(u) && Tidy(u)
  {
  }

  lemma {:induction false} WalkStays(t: T.Dirs, x: T.Node, ts: seq<string>)
    requires x.dev < 2 && t.mount.dev == 0 && forall y <- t.dirs :: y.dev < 2
    ensures T.Walk(t, x, ts).Some? ==> T.Walk(t, x, ts).value.dev < 2
    decreases |ts|
  {
    if ts != [] && T.Step(t, x, ts[0]).Some? {
      WalkStays(t, T.Step(t, x, ts[0]).value, ts[1..]);
    }
  }

  /** There are two devices. */
  lemma GoalDevice(w: World, p: nat, path: string, parent: bool)
    requires Shape(w) && Tidy(w) && p < PROCS_MAX
    ensures Goal(w, p, path, parent).Some? ==> Goal(w, p, path, parent).value.dev < 2
  {
    hide M.Joined, Tokens;
    var t, ts := TreeOf(w), Tokens(path);
    M.JoinedIs(w.s0, w.s1, w.mount, T.Root);
    forall y <- t.dirs
      ensures y.dev < 2
    {
      M.JoinedIs(w.s0, w.s1, w.mount, y);
    }
    WalkStays(t, Start(w, p, path), ts);
    if ts != [] {
      WalkStays(t, Start(w, p, path), ts[..|ts| - 1]);
    }
  }

  /** `open` without creation: every answer, and what the descriptor then is. */
  lemma OpenGives(w: World, p: nat, path: string, flags: Flags)
    requires Shape(w) && Tidy(w) && p < PROCS_MAX && w.procs[p] && !flags.create && path != "console"
    ensures var (v, r) := Step(w, p, COpen(path, flags));
            var g := Goal(w, p, path, false);
            && Shape(v) && Tidy(v)
            && (r == Fail(NotFound) <==> g.None?)
            && (r == Fail(Denied) <==> g.Some? && g.value.dev == 0 && (flags.write || flags.truncate))
            && (r.Fd? <==> r != Fail(NotFound) && r != Fail(Denied) && HasRoom(w, p))
            && (r == Fail(NoSpace) <==> r != Fail(NotFound) && r != Fail(Denied) && !HasRoom(w, p))
            && (r.Fd? ==> NewDescriptor(w, v, p, r.fd) && IsHandle(HandleAt(v, p, r.fd), v, g.value, flags))
            && (r == Fail(NotFound) || r == Fail(Denied) ==> v == w)
            && (r == Fail(NoSpace) ==> v == w.(s1 := v.s1))
            && (g.Some? && r != Fail(Denied) ==>
                  && OnlyItem(w, v, g.value.inum) && (g.value.dev == 0 ==> v.s1 == w.s1)
                  && ItemAt(v, g.value) == OnceOpen(ItemAt(w, g.value), flags))
  {
    hide Goal, AttachInode, Emptied, NewDescriptor, HasRoom, Tidy, SameHandles;
    GoalDevice(w, p, path, false);
    var g := Goal(w, p, path, false);
    if g.Some? && !(g.value.dev == 0 && (flags.write || flags.truncate)) {
      AttachInodeGives(w, p, g.value, flags);
    }
  }

  /** `open` of the console. */
  lemma OpenConsole(w: World, p: nat, flags: Flags)
    requires Shape(w) && Tidy(w) && p < PROCS_MAX && w.procs[p] && !flags.create
    ensures var (v, r) := Step(w, p, COpen("console", flags));
            && Shape(v) && Tidy(v) && (r.Fd? <==> HasRoom(w, p)) && (!r.Fd? ==> v == w && r == Fail(NoSpace))
            && (r.Fd? ==>
                  && NewDescriptor(w, v, p, r.fd) && v.s1 == w.s1
                  && HandleAt(v, p, r.fd) == OnConsole(1, flags.read, flags.write))
  {
    hide Goal, Attach, NewDescriptor, HasRoom, Tidy;
    AttachGives(w, p, OnConsole(1, flags.read, flags.write));
  }

  /** Every inode of device 1 is in use. */
  predicate AllUsed(w: World) { forall i :: 1 <= i < |w.s1| ==> !w.s1[i].Unused? }

  /** `open` with creation, of a name that is there. */
  lemma CreateOld(w: World, p: nat, path: string, flags: Flags, x: nat)
    requires R.Good(w) && Tidy(w) && p < PROCS_MAX && w.procs[p] && flags.create
    requires Goal(w, p, path, true) == Some(T.Node(1, x)) && x < |w.s1| && w.s1[x].Dir? && Tokens(path) != []
    requires BaseName(path) in w.s1[x].names
    ensures var (v, r) := Step(w, p, COpen(path, flags));
            var c := T.Node(1, w.s1[x].names[BaseName(path)]);
            && Shape(v) && Tidy(v)
            && (r.Fd? <==> HasRoom(w, p)) && (!r.Fd? ==> r == Fail(NoSpace) && v == w.(s1 := v.s1))
            && (r.Fd? ==> NewDescriptor(w, v, p, r.fd) && IsHandle(HandleAt(v, p, r.fd), v, c, flags))
            && OnlyItem(w, v, c.inum) && ItemAt(v, c) == OnceOpen(ItemAt(w, c), flags)
  {
    hide Goal, AttachInode, Emptied, NewDescriptor, HasRoom, Tidy, R.Trees, R.Seated, Tokens, BaseName;
    GoalIsDir(w, p, path);
    AttachInodeGives(w, p, T.Node(1, w.s1[x].names[BaseName(path)]), flags);
  }

  /** `open` with creation, of a name that is not there: the first unused inode becomes an empty file of that name. */
  lemma CreateNew(w: World, p: nat, path: string, flags: Flags, x: nat)
    requires R.Good(w) && Tidy(w) && p < PROCS_MAX && w.procs[p] && flags.create
    requires Goal(w, p, path, true) == Some(T.Node(1, x)) && x < |w.s1| && w.s1[x].Dir? && Tokens(path) != []
    requires BaseName(path) !in w.s1[x].names
    ensures var (v, r) := Step(w, p, COpen(path, flags));
            && Shape(v) && Tidy(v)
            && (AllUsed(w) ==> v == w && r == if w.overruns then Beyond else Fail(NoSpace))
            && (!AllUsed(w) ==> (r.Fd? <==> HasRoom(w, p)) && (!r.Fd? ==> r == Fail(NoSpace) && v == w.(s1 := v.s1)))
            && (!AllUsed(w) ==>
                  exists c :: IsNewFile(w, v, x, BaseName(path), c) &&
                    (r.Fd? ==> NewDescriptor(w, v, p, r.fd) && IsHandle(HandleAt(v, p, r.fd), v, T.Node(1, c), flags)))
  {
    hide Goal, AttachInode, NewDescriptor, HasRoom, Tidy, Tokens, BaseName, Added, IsTree, R.Seated;
    GoalIsDir(w, p, path);
    var name, c := BaseName(path), FirstUnused(w.s1, 1);
    if c.Some? {
      assert w.s1[c.value].Unused?;
      var u := MakeIn(w, x, name, false).value.0;
      MadeIs(w, u, x, name, c.value);
      SizesOf(w);
      TidyItems(w, u);
      OpenedNew(u, p, T.Node(1, c.value), flags);
      var (v, r) := AttachInode(u, p, T.Node(1, c.value), flags);
      NewDescriptorOf(w, u, v, p, if r.Fd? then r.fd else 0);
    }
  }

  /** Inode `c`, the first that was unused, is an empty file, and directory `x` has it under the name `n`; no more. */
  predicate IsNewFile(w: World, v: World, x: nat, n: string, c: nat) {
    && v.s0 == w.s0 && |v.s1| == |w.s1| && x < |w.s1| && c < |w.s1| && c != x && w.s1[x].Dir?
    && w.s1[c].Unused? && (forall i :: 1 <= i < c ==> !w.s1[i].Unused?) && v.s1[c] == Item.File([])
    && v.s1[x].Dir? && v.s1[x].names == w.s1[x].names[n := c]
    && forall i :: 0 <= i < |w.s1| && i != c && i != x ==> v.s1[i] == w.s1[i]
  }

  lemma MadeIs(w: World, u: World, x: nat, n: string, c: nat)
    requires x < |w.s1| && w.s1[x].Dir? && FirstUnused(w.s1, 1) == Some(c) && u == MakeIn(w, x, n, false).value.0
    ensures IsNewFile(w, u, x, n, c) && u == w.(s1 := u.s1)
  {
    assert w.s1[c].Unused?;
  }

  lemma OpenedNew(u: World, p: nat, x: T.Node, flags: Flags)
    requires Shape(u) && Tidy(u) && p < PROCS_MAX && x.dev == 1
    ensures var (v, r) := AttachInode(u, p, x, flags);
            && Shape(v) && Tidy(v) && (r.Fd? <==> HasRoom(u, p)) && (!r.Fd? ==> r == Fail(NoSpace) && v == u)
            && v.s0 == u.s0 && v.s1 == u.s1
            && (r.Fd? ==> NewDescriptor(u, v, p, r.fd) && IsHandle(HandleAt(v, p, r.fd), v, x, flags))
  {
    hide Attach, HasRoom, Tidy, SameHandles;
    AttachGives(u, p, OnInode(1, flags.read, flags.write, x, if flags.append then SizeOf(ItemAt(u, x)) else 0));
  }

  /** Without a directory of device 1 to create in, `open` with creation says why. */
  lemma CreateRefused(w: World, p: nat, path: string, flags: Flags)
    requires Shape(w) && p < PROCS_MAX && w.procs[p] && flags.create
    ensures var (v, r) := Step(w, p, COpen(path, flags));
            var g := Goal(w, p, path, true);
            && (r == Fail(NotFound) <==> g.None?) && (r == Fail(Denied) <==> g.Some? && g.value.dev == 0)
            && (r == Fail(NotFound) || r == Fail(Denied) ==> v == w)
  {
    hide Goal, AttachInode, MakeIn, Emptied, Tokens, BaseName;
    GoalIsDir(w, p, path);
  }

  // ----- opening and then using -----

  /** An `open` call means inode `x`, which is there already. */
  ghost predicate Means(w: World, p: nat, path: string, flags: Flags, x: T.Node)
    requires Shape(w) && p < PROCS_MAX
  {
    if flags.create then
      var g := Goal(w, p, path, true);
      && g.Some? && g.value.dev == 1 && g.value.inum < |w.s1| && w.s1[g.value.inum].Dir? && Tokens(path) != []
      && BaseName(path) in w.s1[g.value.inum].names && x == T.Node(1, w.s1[g.value.inum].names[BaseName(path)])
    else path != "console" && Goal(w, p, path, false) == Some(x)
  }

  /** The descriptor is for that inode, with exactly the modes asked for; a file is emptied exactly if asked for. */
  lemma OpenMeans(w: World, p: nat, path: string, flags: Flags, x: T.Node)
    requires R.Good(w) && Tidy(w) && p < PROCS_MAX && w.procs[p] && Means(w, p, path, flags, x)
    requires Step(w, p, COpen(path, flags)).1.Fd?
    ensures var (v, r) := Step(w, p, COpen(path, flags));
            && Shape(v) && Tidy(v) && NewDescriptor(w, v, p, r.fd) && IsHandle(HandleAt(v, p, r.fd), v, x, flags)
            && OnlyItem(w, v, x.inum) && ItemAt(v, x) == OnceOpen(ItemAt(w, x), flags)
  {
    hide Goal, Step, NewDescriptor, HasRoom, Tidy, R.Trees, R.Seated, Tokens, BaseName;
    if flags.create {
      CreateOld(w, p, path, flags, Goal(w, p, path, true).value.inum);
    } else {
      OpenGives(w, p, path, flags);
    }
  }

  /** The first read after opening a file: its first bytes, and none if it was to be emptied or appended to. */
  lemma OpenThenRead(w: World, p: nat, path: string, flags: Flags, x: T.Node, n: int, typed: seq<byte>)
    requires R.Good(w) && Tidy(w) && p < PROCS_MAX && w.procs[p] && Means(w, p, path, flags, x)
    requires Step(w, p, COpen(path, flags)).1.Fd? && flags.read && ItemAt(w, x).File? && 0 < n < 0x8000_0000
    ensures var (v, r) := Step(w, p, COpen(path, flags));
            var b := ItemAt(w, x).bytes;
            && Shape(v)
            && Step(v, p, CRead(r.fd, n, typed)).1 ==
                 Data(if flags.truncate || flags.append then [] else if n < |b| then b[..n] else b)
  {
    hide Goal, NewDescriptor, HasRoom, Tidy, R.Trees, R.Seated, Tokens, BaseName, Means;
    OpenMeans(w, p, path, flags, x);
    var (v, r) := Step(w, p, COpen(path, flags));
    assert v.procs == w.procs by { SeatsOf(w, v, p, r.fd); }
    hide Step;
    SizesOf(w);
    ReadBytes(v, p, r.fd, n, typed);
  }

  lemma SeatsOf(w: World, v: World, p: nat, fd: nat)
    requires Shape(w) && Shape(v) && p < PROCS_MAX && NewDescriptor(w, v, p, fd)
    ensures R.SameSeats(w, v)
  {
  }

  /** The first write to a file opened to append to: the old bytes, unless they were to go, and the new ones. */
  lemma OpenThenAppend(w: World, p: nat, path: string, flags: Flags, x: T.Node, src: seq<byte>)
    requires R.Good(w) && Tidy(w) && p < PROCS_MAX && w.procs[p] && Means(w, p, path, flags, x)
    requires Step(w, p, COpen(path, flags)).1.Fd? && flags.write && flags.append && ItemAt(w, x).File?
    requires |ItemAt(w, x).bytes| + |src| <= MAXBYTES
    ensures var (v, r) := Step(w, p, COpen(path, flags));
            && Shape(v)
            && var (u, c) := Step(v, p, CWrite(r.fd, src));
               && c == Count(|src|)
               && ItemAt(u, x) == Item.File((if flags.truncate then [] else ItemAt(w, x).bytes) + src)
  {
    hide Goal, NewDescriptor, HasRoom, Tidy, R.Trees, R.Seated, Tokens, BaseName, Means;
    OpenMeans(w, p, path, flags, x);
    var (v, r) := Step(w, p, COpen(path, flags));
    assert v.procs == w.procs by { SeatsOf(w, v, p, r.fd); }
    hide Step;
    WriteAnswers(v, p, r.fd, src);
    WriteBytes(v, p, r.fd, src);
    var u := Step(v, p, CWrite(r.fd, src)).0;
    assert ItemAt(u, x).bytes == (if flags.truncate then [] else ItemAt(w, x).bytes) + src;
  }

  /** A file that was created reads as empty. */
  lemma CreateThenRead(w: World, p: nat, path: string, flags: Flags, x: nat, n: int, typed: seq<byte>)
    requires R.Good(w) && Tidy(w) && p < PROCS_MAX && w.procs[p] && flags.create && flags.read && 0 < n < 0x8000_0000
    requires Goal(w, p, path, true) == Some(T.Node(1, x)) && x < |w.s1| && w.s1[x].Dir? && Tokens(path) != []
    requires BaseName(path) !in w.s1[x].names && Step(w, p, COpen(path, flags)).1.Fd?
    ensures var (v, r) := Step(w, p, COpen(path, flags));
            Shape(v) && Step(v, p, CRead(r.fd, n, typed)).1 == Data([])
  {
    hide Goal, NewDescriptor, HasRoom, Tidy, R.Trees, R.Seated, Tokens, BaseName;
    CreateNew(w, p, path, flags, x);
    var (v, r) := Step(w, p, COpen(path, flags));
    hide Step;
    var c :| IsNewFile(w, v, x, BaseName(path), c) && NewDescriptor(w, v, p, r.fd) &&
             IsHandle(HandleAt(v, p, r.fd), v, T.Node(1, c), flags);
    SeatsOf(w, v, p, r.fd);
    ReadBytes(v, p, r.fd, n, typed);
  }

  // ----- every call keeps it so -----

  lemma OpenTidy(w: World, p: nat, path: string, flags: Flags)
    requires R.Good(w) && Tidy(w) && p < PROCS_MAX && w.procs[p]
    ensures var v := Step(w, p, COpen(path, flags)).0;
            && Shape(v) && Tidy(v)
            && forall q, g {:trigger HandleAt(v, q, g)} :: 0 <= q < PROCS_MAX && q != p ==>
                 HandleAt(v, q, g) == HandleAt(w, q, g)
  {
    hide Goal, Step, HasRoom, Tidy, R.Trees, R.Seated, Tokens, BaseName;
    if !flags.create {
      if path == "console" {
        OpenConsole(w, p, flags);
      } else {
        OpenGives(w, p, path, flags);
      }
    } else {
      CreateRefused(w, p, path, flags);
      GoalIsDir(w, p, path);
      var g := Goal(w, p, path, true);
      if g.Some? && g.value.dev == 1 {
        if BaseName(path) in w.s1[g.value.inum].names {
          CreateOld(w, p, path, flags, g.value.inum);
        } else {
          CreateNew(w, p, path, flags, g.value.inum);
        }
      }
    }
  }
}
