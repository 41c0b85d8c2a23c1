/**
 Whole runs of the storage engine. A volume is seen as a sequence of files, each a type and a byte
 sequence; any sequence of file operations changes that sequence as plain byte-sequence operations
 would and keeps the storage invariant. It stops only if the disk is full, or at a creation that finds no
 record or one that still owns blocks.
 */
module Runs {
  import opened Basics
  import opened Codec
  import opened Layout
  import opened Forests
  import opened Contents
  import opened Volumes
  import opened Hazards

  datatype File = File(typ: half, bytes: seq<byte>)

  datatype Op =
    | Create(typ: half)
    | Write(inum: nat, off: word, src: seq<byte>)
    | Truncate(inum: nat, size: word)
    | Remove(inum: nat)

  // ----- the specification: files as byte sequences -----

  /** The inode that `ialloc` claims: number 0 is never given out. */
  function Claimed(files: seq<File>): (c: Option<nat>)
    ensures c.Some? ==> 1 <= c.value < |files| && files[c.value].typ == FT_UNUSED
    ensures c.Some? ==> forall x :: 1 <= x < c.value ==> files[x].typ != FT_UNUSED
    ensures c.None? ==> forall x :: 1 <= x < |files| ==> files[x].typ != FT_UNUSED
  {
    First(files, (f: File) => f.typ == FT_UNUSED, 1)
  }

  function Step(files: seq<File>, op: Op): (files': seq<File>)
    requires Allowed(|files|, op)
    ensures |files'| == |files|
  {
    match op
    case Create(typ) =>
      var c := Claimed(files);
      if c.None? then files else files[c.value := File(typ, [])]
    case Write(i, off, src) =>
      if off > |files[i].bytes| || off + |src| > MAXBYTES then files
      else files[i := File(files[i].typ, Overwrite(files[i].bytes, off, src))]
    case Truncate(i, size) =>
      if size >= |files[i].bytes| then files else files[i := File(files[i].typ, files[i].bytes[..size])]
    case Remove(i) => files[i := File(FT_UNUSED, [])]
  }

  /** Operations name existing inodes, and an inode is created with a type. */
  predicate Allowed(n: nat, op: Op) {
    match op
    case Create(typ) => typ != FT_UNUSED
    case Write(i, _, src) => i < n && |src| < 0x1_0000_0000
    case Truncate(i, _) => i < n
    case Remove(i) => i < n
  }

  predicate AllAllowed(n: nat, ops: seq<Op>) { forall k :: 0 <= k < |ops| ==> Allowed(n, ops[k]) }

  function Replay(files: seq<File>, ops: seq<Op>): (files': seq<File>)
    requires AllAllowed(|files|, ops)
    ensures |files'| == |files|
    decreases |ops|
  {
    if ops == [] then files else Step(Replay(files, ops[..|ops| - 1]), ops[|ops| - 1])
  }

  function ByteAt(f: File, o: nat): Option<byte> { if o < |f.bytes| then Some(f.bytes[o]) else None }

  /** Whether an operation, made in state `files`, puts a byte at position `o` of file `i`, or takes it away. */
  predicate Touches(files: seq<File>, op: Op, i: nat, o: nat) {
    match op
    case Create(_) =>
      && 1 <= i < |files| && files[i].typ == FT_UNUSED
      && forall x :: 1 <= x < i ==> files[x].typ != FT_UNUSED
    case Write(j, off, src) =>
      j == i < |files| && off <= o < off + |src| <= MAXBYTES && off <= |files[i].bytes|
    case Truncate(j, size) => j == i && size <= o
    case Remove(j) => j == i
  }

  /** What the last operation that touched position `o` of file `i` left there. */
  function LastByte(files: seq<File>, ops: seq<Op>, i: nat, o: nat): Option<byte>
    requires AllAllowed(|files|, ops) && i < |files|
    decreases |ops|
  {
    if ops == [] then ByteAt(files[i], o)
    else
      var init, op := ops[..|ops| - 1], ops[|ops| - 1];
      if !Touches(Replay(files, init), op, i, o) then LastByte(files, init, i, o)
      else if op.Write? then Some(op.src[o - op.off])
      else None
  }

  /** After any operations every position of every file has what was last put there, and no file has more than that. */
  lemma {:induction false} BytesAreLast(files: seq<File>, ops: seq<Op>, i: nat, o: nat)
    requires AllAllowed(|files|, ops) && i < |files|
    ensures ByteAt(Replay(files, ops)[i], o) == LastByte(files, ops, i, o)
    decreases |ops|
  {
    hide Claimed;
    if ops != [] {
      BytesAreLast(files, ops[..|ops| - 1], i, o);
      var prev, op := Replay(files, ops[..|ops| - 1]), ops[|ops| - 1];
      if op.Create? && Claimed(prev).Some? {
        assert prev[Claimed(prev).value].typ == FT_UNUSED;
      }
    }
  }

  // ----- the implementation refines it -----

  ghost function Files(v: Volume): (files: seq<File>)
    reads v
    requires v.Formatted()
    ensures |files| == v.sb.ninodes
  {
    seq(v.sb.ninodes, i requires 0 <= i < v.sb.ninodes reads v requires v.Formatted() =>
          File(v.Inodes()[i].typ, v.Bytes(i)))
  }

  /** Why a run stops: all is done, no block or no inode is left, or the claimed record still owned blocks. */
  datatype End = Done | NoBlock | NoRecord | Orphans

  /** What a run that stops before operation `op`, made in state `files`, has come across. */
  ghost predicate Stopped(v: Volume, files: seq<File>, op: Op, e: End)
    reads v
  {
    match e
    case Done => false
    case NoBlock => v.Formatted() && v.Full()
    case NoRecord => op.Create? && Claimed(files).None? && v.Overruns()
    case Orphans =>
      && op.Create? && Claimed(files).Some? && files[Claimed(files).value].bytes != [] && !Consistent(v.sb, v.disk)
  }

  /** `ialloc` on the real volume. The claim of a record that still owns blocks, and no other, destroys the volume. */
  method Claim(v: Volume, typ: half) returns (e: End)
    requires v.Valid() && typ != FT_UNUSED
    modifies v
    ensures e != Done ==> Stopped(v, old(Files(v)), Create(typ), e)
    ensures e == Done ==> v.Valid() && Files(v) == Step(old(Files(v)), Create(typ))
    ensures Claimed(old(Files(v))).None? ==> (e == Done <==> !v.Overruns())
  {
    hide Stored, Shaped, FileBytes, Claimed, Consistent;
    ghost var files, ino := Files(v), v.Inodes();
    assert forall x :: 0 <= x < |files| ==> files[x].typ == ino[x].typ && |files[x].bytes| == ino[x].size;
    var before := v.disk;
    var i, d := v.Ialloc(typ);
    ClaimedIs(files, if i.Hit? then i.i else 0);
    if !i.Hit? {
      assert v.Inodes() == ino && Files(v) == files;
      return if i.PastEnd? then NoRecord else Done;
    }
    ReuseIff(v.sb, old(v.disk), v.forest, v.disk, i.i, d);
    if Record(v.sb, before, i.i).size != 0 {
      return Orphans;
    }
    assert files[i.i].bytes == [];
    assert Files(v) == files[i.i := File(typ, [])];
    e := Done;
  }

  lemma ClaimedIs(files: seq<File>, i: nat)
    requires i == 0 ==> forall x :: 1 <= x < |files| ==> files[x].typ != FT_UNUSED
    requires i != 0 ==> i < |files| && files[i].typ == FT_UNUSED && forall x :: 1 <= x < i ==> files[x].typ != FT_UNUSED
    ensures Claimed(files) == if i == 0 then None else Some(i)
  {
  }

  /** One operation on the real volume, as the kernel carries it out. */
  method Do(v: Volume, op: Op) returns (e: End)
    requires v.Valid() && Allowed(v.sb.ninodes, op)
    modifies v
    ensures e != Done ==> Stopped(v, old(Files(v)), op, e)
    ensures e == Done ==> v.Valid() && Files(v) == Step(old(Files(v)), op)
  {
    hide Stored, Shaped, FileBytes, Claimed, Consistent;
    match op {
      case Create(typ) =>
        e := Claim(v, typ);
        return;
      case Write(i, off, src) =>
        var w, d := v.Writei(i, v.Load(i), src, off);
        if w.Panic? { return NoBlock; }
      case Truncate(i, size) =>
        var r, d := v.Itrunc(i, v.Load(i), size);
      case Remove(i) =>
        var r, d := v.Discard(i, v.Load(i));
    }
    assert Files(v) == Step(old(Files(v)), op);
    return Done;
  }

  /** Every run: the invariant holds at its end and the files are what the specification says. */
  method Run(v: Volume, ops: seq<Op>) returns (n: nat, e: End)
    requires v.Valid() && AllAllowed(v.sb.ninodes, ops)
    modifies v
    ensures n <= |ops| && (e == Done <==> n == |ops|)
    ensures e == Done ==> v.Valid() && Files(v) == Replay(old(Files(v)), ops)
    ensures e != Done ==> Stopped(v, Replay(old(Files(v)), ops[..n]), ops[n], e)
  {
    hide Stored, Shaped, FileBytes, Step;
    n := 0;
    ghost var files := Files(v);
    while n < |ops|
      invariant 0 <= n <= |ops| && v.Valid() && Files(v) == Replay(files, ops[..n])
    {
      assert ops[..n + 1][..n] == ops[..n];
      e := Do(v, ops[n]);
      if e != Done { return; }
      n := n + 1;
    }
    assert ops[..n] == ops;
    e := Done;
  }

  // ----- growing and shrinking back -----

  /** Two states with the same file sizes whose blocks both lie where a third state has them use the same blocks. */
  lemma SameForest(sb: Superblock, disk: Disk, ino: seq<Dinode>, f: Forest, disk': Disk, ino': seq<Dinode>, f': Forest,
                   mid: map<Key, nat>)
    requires Stored(sb, disk, ino, f) && Shaped(ino, f.loc, |ino|, 0) && Extends(f.loc, mid)
    requires Stored(sb, disk', ino', f') && Shaped(ino', f'.loc, |ino'|, 0) && Extends(f'.loc, mid)
    requires |ino| == |ino'| && forall x :: 0 <= x < |ino| ==> ino[x].size == ino'[x].size
    ensures f == f'
    ensures forall b: nat :: b < sb.size ==> Bits(sb, disk)[b] == Bits(sb, disk')[b]
  {
    forall k: Key
      ensures (k in f.loc <==> k in f'.loc) && Expected(f.loc, k) == Expected(f'.loc, k)
    {
      InRange(sb, |ino|, f.loc, k);
      InRange(sb, |ino|, f'.loc, k);
    }
    SameMaps(f.loc, f'.loc);
    InverseUnique(f, f');
  }

  /** Appending to a file and cutting it back restores the bitmap bit for bit, and the file. */
  method AppendThenTruncate(v: Volume, i: nat, src: seq<byte>) returns (r: Outcome<int>)
    requires v.Valid() && i < v.sb.ninodes && |src| < 0x1_0000_0000
    modifies v
    ensures r.Panic? ==> r.reason == OutOfBlocks
    ensures r.Ok? ==> && v.Valid() && v.forest == old(v.forest) && v.Bytes(i) == old(v.Bytes(i))
                      && forall b: nat :: b < v.sb.size ==> Bits(v.sb, v.disk)[b] == old(Bits(v.sb, v.disk))[b]
  {
    hide Stored, Shaped, FileBytes, Extends;
    var size := v.Load(i).size;
    var d;
    r, d := v.Writei(i, v.Load(i), src, size);
    if r.Panic? { return; }
    ghost var mid := v.forest.loc;
    SelfExtends(mid);
    var t;
    t, d := v.Itrunc(i, d, size);
    SameForest(v.sb, old(v.disk), old(v.Inodes()), old(v.forest), v.disk, v.Inodes(), v.forest, mid);
  }

  lemma SelfExtends(loc: map<Key, nat>)
    ensures Extends(loc, loc)
  {
  }

  // ----- writing through a stale inode -----

  /**
   Writing keeps unused records empty exactly if the inode is in use or nothing is written. A file
   removed while open fails this: its next write gives blocks to an unused record (see `ReuseIff`).
   */
  method WriteKeepsUnusedEmpty(v: Volume, i: nat, src: seq<byte>, off: word) returns (r: Outcome<int>)
    requires v.Valid() && v.UnusedEmpty() && i < v.sb.ninodes && |src| < 0x1_0000_0000
    requires off <= v.Load(i).size && off + |src| <= MAXBYTES
    modifies v
    ensures r.Ok? ==> v.Valid() && (v.UnusedEmpty() <==> old(v.Load(i).typ) != FT_UNUSED || src == [])
  {
    hide Stored, Shaped, FileBytes;
    var d;
    r, d := v.Writei(i, v.Load(i), src, off);
    assert r.Ok? ==> v.Inodes()[i] == d;
  }
}
