/**
 What the storage invariant hangs on. The forest of a volume is determined by its blocks, so the
 invariant is a property of the disk alone; with that, the two ways the kernel can break it are
 stated exactly: reusing an inode record that still owns blocks, and an inode area that runs into
 the bitmap.
 */
module Hazards {
  import opened Basics
  import opened Codec
  import opened Layout
  import opened Forests
  import opened Volumes

  // ----- the disk determines its forest -----

  function Depth(n: Node): nat {
    match n
    case Direct(_) => 0
    case Single => 0
    case Root => 0
    case Leaf(_) => 1
    case Sub(_) => 1
    case DeepLeaf(_, _) => 2
  }

  lemma {:induction false} AgreeAt(sb: Superblock, disk: Disk, ino: seq<Dinode>, f: Forest, disk': Disk,
                                   ino': seq<Dinode>, f': Forest, k: Key)
    requires Stored(sb, disk, ino, f) && Stored(sb, disk', ino', f')
    requires k.inum < |ino| && k.inum < |ino'| && ValidNode(k.node) && ino[k.inum].addrs == ino'[k.inum].addrs
    requires SameData(sb, disk, disk', {})
    ensures Expected(f.loc, k) == Expected(f'.loc, k) && (k in f.loc <==> k in f'.loc)
    decreases Depth(k.node)
  {
    match HomeOf(k.node) {
      case InInode =>
        InodeEntry(sb, disk, ino, f, k);
        InodeEntry(sb, disk', ino', f', k);
      case InTable(t) =>
        var h := Key(k.inum, t);
        HomeInRange(k.node);
        AgreeAt(sb, disk, ino, f, disk', ino', f', h);
        if h in f.loc {
          TableEntry(sb, disk, ino, f, k, f.loc[h]);
          TableEntry(sb, disk', ino', f', k, f.loc[h]);
        } else {
          PlacedHome(sb, |ino|, f.loc, k);
          PlacedHome(sb, |ino'|, f'.loc, k);
        }
    }
  }

  /** Two forests that fit the same disk and dinodes are the same. */
  lemma ForestUnique(sb: Superblock, disk: Disk, ino: seq<Dinode>, f: Forest, f': Forest)
    requires Stored(sb, disk, ino, f) && Stored(sb, disk, ino, f')
    ensures f == f'
  {
    forall k: Key
      ensures (k in f.loc <==> k in f'.loc) && Expected(f.loc, k) == Expected(f'.loc, k)
    {
      PlacedHome(sb, |ino|, f.loc, k);
      PlacedHome(sb, |ino|, f'.loc, k);
      if k.inum < |ino| && ValidNode(k.node) {
        AgreeAt(sb, disk, ino, f, disk, ino, f', k);
      } else {
        InRange(sb, |ino|, f.loc, k);
        InRange(sb, |ino|, f'.loc, k);
      }
    }
    assert f.loc == f'.loc by { SameMaps(f.loc, f'.loc); }
    InverseUnique(f, f');
  }

  lemma InRange(sb: Superblock, n: nat, loc: map<Key, nat>, k: Key)
    requires Placed(sb, n, loc)
    ensures k in loc ==> k.inum < n && ValidNode(k.node)
  {
    assert k in loc ==> sb.IsData(loc[k]);
  }

  lemma SameMaps(a: map<Key, nat>, b: map<Key, nat>)
    requires forall k :: (k in a <==> k in b) && Expected(a, k) == Expected(b, k)
    ensures a == b
  {
    assert a.Keys == b.Keys;
    forall k | k in a
      ensures a[k] == b[k]
    {
      assert Expected(a, k) == Expected(b, k);
    }
  }

  lemma InverseUnique(f: Forest, f': Forest)
    requires f.Inverse() && f'.Inverse() && f.loc == f'.loc
    ensures f == f'
  {
    forall b
      ensures b in f.owner <==> b in f'.owner
      ensures b in f.owner ==> f.owner[b] == f'.owner[b]
    {
      if b in f.owner { assert f.loc[f.owner[b]] == b; }
      if b in f'.owner { assert f'.loc[f'.owner[b]] == b; }
    }
  }

  /** A disk is consistent if some forest, and then only one, satisfies the invariant. */
  ghost predicate Consistent(sb: Superblock, disk: Disk) {
    && sb.WellFormed() && |disk| == sb.size
    && exists f :: Stored(sb, disk, Records(sb, disk), f) && Shaped(Records(sb, disk), f.loc, sb.ninodes, 0)
  }

  // ----- reusing a record -----

  /**
   `ialloc` clears the record it claims without looking at its addresses. That keeps the disk
   consistent exactly if the record owned nothing; otherwise its blocks stay marked for ever.
   */
  lemma ReuseIff(sb: Superblock, disk: Disk, f: Forest, disk': Disk, i: nat, d: Dinode)
    requires sb.WellFormed() && |disk| == sb.size
    requires Stored(sb, disk, Records(sb, disk), f) && Shaped(Records(sb, disk), f.loc, sb.ninodes, 0)
    requires Updated(sb, disk, disk', i, d) && d.size == 0 && d.addrs == NoAddrs
    requires Records(sb, disk)[i].size <= MAXBYTES
    ensures Consistent(sb, disk') <==> Records(sb, disk)[i].size == 0
  {
    var ino, ino' := Records(sb, disk), Records(sb, disk');
    if ino[i].size == 0 {
      EmptyInode(sb, disk, ino, f, i);
      FieldsUpdated(sb, disk, disk', ino, f, i, d);
      ShapedSizes(ino, ino', f.loc);
      assert Consistent(sb, disk');
    } else if Consistent(sb, disk') {
      var f' :| Stored(sb, disk', ino', f') && Shaped(ino', f'.loc, sb.ninodes, 0);
      Orphan(sb, disk, f, disk', f', i);
    }
  }

  /** The first block of the old file is marked, and no inode of the new state owns it. */
  lemma Orphan(sb: Superblock, disk: Disk, f: Forest, disk': Disk, f': Forest, i: nat)
    requires sb.WellFormed() && |disk| == |disk'| == sb.size && i < sb.ninodes
    requires Stored(sb, disk, Records(sb, disk), f) && Shaped(Records(sb, disk), f.loc, sb.ninodes, 0)
    requires forall x: nat :: sb.bmapstart <= x < sb.size ==> disk'[x] == disk[x]
    requires forall x :: 0 <= x < sb.ninodes && x != i ==> Records(sb, disk')[x] == Records(sb, disk)[x]
    requires 0 < Records(sb, disk)[i].size <= MAXBYTES && Records(sb, disk')[i].size == 0
    ensures !(Stored(sb, disk', Records(sb, disk'), f') && Shaped(Records(sb, disk'), f'.loc, sb.ninodes, 0))
  {
    hide Stored, Shaped;
    var ino, ino' := Records(sb, disk), Records(sb, disk');
    if Stored(sb, disk', ino', f') && Shaped(ino', f'.loc, sb.ninodes, 0) {
      var k := Key(i, Direct(0));
      ShapedKey(ino, f.loc, k);
      OwnedIsMarked(sb, disk, ino, f, k);
      var b := f.loc[k];
      assert Bits(sb, disk')[b];
      MarkedIsOwned(sb, disk', ino', f', b);
      var k' := f'.owner[b];
      ShapedKey(ino', f'.loc, k');
      AgreeAt(sb, disk, ino, f, disk', ino', f', k');
      OwnerOf(sb, disk, ino, f, k);
      OwnerOf(sb, disk, ino, f, k');
    }
  }

  lemma ShapedKey(ino: seq<Dinode>, loc: map<Key, nat>, k: Key)
    requires Shaped(ino, loc, |ino|, 0) && k.inum < |ino| && ValidNode(k.node)
    ensures k in loc <==> Present(Blocks(ino[k.inum].size), k.node)
  {
  }

  lemma MarkedIsOwned(sb: Superblock, disk: Disk, ino: seq<Dinode>, f: Forest, b: nat)
    requires Stored(sb, disk, ino, f) && sb.IsData(b) && Bits(sb, disk)[b]
    ensures b in f.owner && f.owner[b] in f.loc && f.loc[f.owner[b]] == b
    ensures f.owner[b].inum < |ino| && ValidNode(f.owner[b].node)
  {
    InRange(sb, |ino|, f.loc, f.owner[b]);
  }

  lemma OwnerOf(sb: Superblock, disk: Disk, ino: seq<Dinode>, f: Forest, k: Key)
    requires Stored(sb, disk, ino, f) && k in f.loc
    ensures f.loc[k] in f.owner && f.owner[f.loc[k]] == k
  {
  }

  // ----- an inode area that runs into the bitmap -----

  /** The layout that the image builder writes: room for 32 records, but 64 of them declared. */
  const Shipped := Superblock(8192, 8185, 64, 2, 6)

  /**
   The declared inode numbers of the shipped layout do not fit: records 32 to 39 lie in the bitmap
   block and the rest in data blocks 7 to 9. Numbers below 32 are the ones that fit.
   */
  lemma ShippedLayout(i: nat)
    requires i < Shipped.ninodes
    ensures !Shipped.WellFormed()
    ensures Shipped.InodeBlock(i) < Shipped.bmapstart <==> i < 32
    ensures Shipped.InodeBlock(i) == Shipped.bmapstart <==> 32 <= i < 40
    ensures 40 <= i ==> 7 <= Shipped.InodeBlock(i) <= 9
    ensures Shipped.(ninodes := 32).WellFormed()
  {
  }

  /** The 128 bytes of a record. */
  function RecordBytes(d: Dinode): (r: seq<byte>)
    ensures |r| == 128
  {
    seq(128, i requires 0 <= i < 128 => WordBytes(InodeToWords(d)[i / 4])[i % 4])
  }

  /** A block in which `ialloc` or `iupdate` overwrote record `k`, whatever the block is. */
  function Patched(b: Block, k: nat, d: Dinode): (r: Block)
    requires k < 8
  {
    var r := seq(1024, i requires 0 <= i < 1024 =>
                   if 128 * k <= i < 128 * k + 128 then RecordBytes(d)[i - 128 * k] else b[i]);
    assert |r| == 1024;
    r
  }

  lemma {:induction false} WordsIndex(b: Block, k: nat, q: nat)
    requires k <= q < 256
    ensures WordsFrom(b, k)[q - k] == WordAt(b, 4 * q)
    decreases q - k
  {
    if k < q {
      WordsIndex(b, k + 1, q);
    }
  }

  lemma {:induction false} InodesIndex(w: Table, j: nat, k: nat)
    requires j <= k < 8
    ensures InodesFrom(w, j)[k - j] == InodeFromWords(w[32 * k..32 * k + 32])
    decreases k - j
  {
    if j < k {
      InodesIndex(w, j + 1, k);
    }
  }

  /** The type of a record is in its first two bytes. */
  lemma TypeBytes(b: Block, k: nat)
    requires k < 8
    ensures DecodeInodes(b)[k].typ == b[128 * k] as int + 0x100 * b[128 * k + 1] as int
  {
    hide DecodeWords, WordAt;
    InodesIndex(DecodeWords(b), 0, k);
    assert DecodeWords(b)[32 * k..32 * k + 32][0] == WordAt(b, 128 * k) by { FirstWord(b, k); }
    LowHalf(b, 128 * k);
  }

  lemma FirstWord(b: Block, k: nat)
    requires k < 8
    ensures DecodeWords(b)[32 * k] == WordAt(b, 128 * k)
  {
    WordsIndex(b, 0, 32 * k);
  }

  lemma LowHalf(b: Block, i: nat)
    requires i + 4 <= 1024
    ensures WordAt(b, i) % 0x1_0000 == b[i] as int + 0x100 * b[i + 1] as int
  {
  }

  lemma SameWord(a: seq<byte>, i: nat, b: seq<byte>, j: nat)
    requires i + 4 <= |a| && j + 4 <= |b| && a[i..i + 4] == b[j..j + 4]
    ensures WordAt(a, i) == WordAt(b, j)
  {
    var s, t := a[i..i + 4], b[j..j + 4];
    assert s[0] == a[i] && s[1] == a[i + 1] && s[2] == a[i + 2] && s[3] == a[i + 3];
    assert t[0] == b[j] && t[1] == b[j + 1] && t[2] == b[j + 2] && t[3] == b[j + 3];
  }

  lemma RecordWord(d: Dinode, r: nat)
    requires r < 32
    ensures WordAt(RecordBytes(d), 4 * r) == InodeToWords(d)[r]
  {
    hide WordAt, InodeToWords, WordBytes;
    var w := WordBytes(InodeToWords(d)[r]);
    assert RecordBytes(d)[4 * r..4 * r + 4] == w[0..4];
    SameWord(RecordBytes(d), 4 * r, w, 0);
  }

  lemma PatchedInside(b: Block, k: nat, d: Dinode, r: nat)
    requires k < 8 && r < 32
    ensures DecodeWords(Patched(b, k, d))[32 * k + r] == InodeToWords(d)[r]
  {
    hide WordAt, InodeToWords, RecordBytes, WordsFrom;
    var c, q := Patched(b, k, d), 128 * k + 4 * r;
    WordsIndex(c, 0, 32 * k + r);
    assert c[q..q + 4] == RecordBytes(d)[4 * r..4 * r + 4];
    SameWord(c, q, RecordBytes(d), 4 * r);
    RecordWord(d, r);
  }

  lemma PatchedOutside(b: Block, k: nat, d: Dinode, q: nat)
    requires k < 8 && q < 256 && q / 32 != k
    ensures DecodeWords(Patched(b, k, d))[q] == DecodeWords(b)[q]
  {
    hide WordAt, InodeToWords, RecordBytes, WordsFrom;
    var c := Patched(b, k, d);
    WordsIndex(c, 0, q);
    WordsIndex(b, 0, q);
    assert c[4 * q..4 * q + 4] == b[4 * q..4 * q + 4];
    SameWord(c, 4 * q, b, 4 * q);
  }

  /** Read back, the block has record `d` at `k`, and the other records as before. */
  lemma PatchedRecord(b: Block, k: nat, d: Dinode)
    requires k < 8
    ensures DecodeInodes(Patched(b, k, d)) == DecodeInodes(b)[k := d]
  {
    hide Patched, DecodeWords;
    var w, w' := DecodeWords(b), DecodeWords(Patched(b, k, d));
    forall q | 0 <= q < 256
      ensures w'[q] == if q / 32 == k then InodeToWords(d)[q % 32] else w[q]
    {
      if q / 32 == k {
        PatchedInside(b, k, d, q % 32);
      } else {
        PatchedOutside(b, k, d, q);
      }
    }
    forall j | 0 <= j < 8
      ensures InodesFrom(w', 0)[j] == if j == k then d else InodesFrom(w, 0)[j]
    {
      InodesIndex(w, 0, j);
      InodesIndex(w', 0, j);
      if j == k {
        assert w'[32 * j..32 * j + 32] == InodeToWords(d);
        InodeRoundTrip(d);
      } else {
        assert w'[32 * j..32 * j + 32] == w[32 * j..32 * j + 32];
      }
    }
  }

  lemma PatchedBytes(b: Block, k: nat, typ: half)
    requires k < 8
    ensures var c := Patched(b, k, Dinode(typ, 1, 0, NoAddrs));
            && (forall i :: 0 <= i < 1024 && i / 128 != k ==> c[i] == b[i])
            && c[128 * k] == typ % 0x100 && c[128 * k + 1] == typ / 0x100 && c[128 * k + 6] == 1
            && (forall i :: 128 * k <= i < 128 * k + 128 && i % 128 !in {0, 1, 6} ==> c[i] == 0)
  {
    var d := Dinode(typ, 1, 0, NoAddrs);
    forall i | 0 <= i < 128
      ensures RecordBytes(d)[i] ==
                if i == 0 then typ % 0x100 else if i == 1 then typ / 0x100 else if i == 6 then 1 else 0
    {
      assert InodeToWords(d)[i / 4] == if i / 4 == 0 then typ else if i / 4 == 1 then 0x1_0000 else 0;
    }
  }

  /** On any layout, claiming an unused record changes exactly the block that the record is in, be it the bitmap. */
  lemma ClaimKeepsBlockIff(sb: Superblock, disk: Disk, i: nat, typ: half, x: nat)
    requires sb.InodeBlock(i) < |disk| && x < |disk| && typ != FT_UNUSED
    requires DecodeInodes(disk[sb.InodeBlock(i)])[i % 8].typ == FT_UNUSED
    ensures var q := sb.InodeBlock(i);
            var disk' := disk[q := Patched(disk[q], i % 8, Dinode(typ, 1, 0, NoAddrs))];
            disk'[x] == disk[x] <==> x != q
  {
    hide Patched, DecodeInodes;
    var q := sb.InodeBlock(i);
    PatchedRecord(disk[q], i % 8, Dinode(typ, 1, 0, NoAddrs));
  }

  /**
   Claiming an unused record of the shipped layout leaves everything from the bitmap on as it was exactly if the
   record is one of those that fit.
   */
  lemma ShippedClaim(disk: Disk, i: nat, typ: half)
    requires |disk| == Shipped.size && i < Shipped.ninodes && typ != FT_UNUSED
    requires DecodeInodes(disk[Shipped.InodeBlock(i)])[i % 8].typ == FT_UNUSED
    ensures var q := Shipped.InodeBlock(i);
            var disk' := disk[q := Patched(disk[q], i % 8, Dinode(typ, 1, 0, NoAddrs))];
            && ((forall x :: 6 <= x < 8192 ==> disk'[x] == disk[x]) <==> i < 32)
            && (disk'[6] == disk[6] <==> i < 32 || i >= 40)
            && (40 <= i ==> 7 <= q <= 9 && disk'[q] != disk[q])
  {
    hide Patched, DecodeInodes;
    ShippedLayout(i);
    ClaimKeepsBlockIff(Shipped, disk, i, typ, 6);
    ClaimKeepsBlockIff(Shipped, disk, i, typ, Shipped.InodeBlock(i));
  }

  /** The marks of a record in the bitmap block: `o` counts from the record's first mark. */
  predicate NewMark(typ: half, o: nat) { o == 48 || (typ == FT_DIRECTORY && o == 0) || (typ == FT_FILE && o == 1) }

  lemma ShiftZero(n: nat)
    ensures Shr(0, n) == 0
    decreases n
  {
  }

  lemma ByteOne(r: nat)
    requires r < 8
    ensures Shr(1, r) % 2 == 1 <==> r == 0
  {
    if r > 0 {
      ShiftZero(r - 1);
    }
  }

  lemma ByteTwo(r: nat)
    requires r < 8
    ensures Shr(2, r) % 2 == 1 <==> r == 1
  {
    if r > 0 {
      ByteOne(r - 1);
    }
  }

  /**
   Which marks are lost: claiming record 32 + `k` of the shipped layout, for a file or a directory, clears the
   marks of the 1024 blocks from 1024 * k on, but for two that it sets; all other marks stay.
   */
  lemma ShippedMarks(b: Block, k: nat, typ: half)
    requires k < 8 && (typ == FT_FILE || typ == FT_DIRECTORY)
    ensures var c := Patched(b, k, Dinode(typ, 1, 0, NoAddrs));
            forall x :: 0 <= x < 8192 ==>
              DecodeBits(c)[x] == if x / 1024 == k then NewMark(typ, x % 1024) else DecodeBits(b)[x]
  {
    var c := Patched(b, k, Dinode(typ, 1, 0, NoAddrs));
    PatchedBytes(b, k, typ);
    forall x | 0 <= x < 8192
      ensures TestBit(c, x) == if x / 1024 == k then NewMark(typ, x % 1024) else TestBit(b, x)
    {
      MarkAt(b, k, typ, x);
    }
  }

  lemma MarkAt(b: Block, k: nat, typ: half, x: nat)
    requires k < 8 && (typ == FT_FILE || typ == FT_DIRECTORY) && x < 8192
    ensures TestBit(Patched(b, k, Dinode(typ, 1, 0, NoAddrs)), x) ==
              if x / 1024 == k then NewMark(typ, x % 1024) else TestBit(b, x)
  {
    var c := Patched(b, k, Dinode(typ, 1, 0, NoAddrs));
    PatchedBytes(b, k, typ);
    hide Patched;
    var q, r := x / 8, x % 8;
    if x / 1024 == k {
      var i := q - 128 * k;
      assert x % 1024 == 8 * i + r && c[128 * k + i] == c[q];
      ShiftZero(r);
      ByteOne(r);
      ByteTwo(r);
    } else {
      assert q / 128 != k;
    }
  }

  /** Record 32 starts at the mark of block 0, so it is never taken for unused. */
  lemma Record32InUse(b: Block)
    requires DecodeBits(b)[0]
    ensures DecodeInodes(b)[0].typ != FT_UNUSED
  {
    TypeBytes(b, 0);
    assert TestBit(b, 0);
  }

  // ----- the scan of the shipped layout -----

  /** The type that `ialloc` finds in the record of inode `i`, wherever it lies. */
  function TypeAt(sb: Superblock, disk: Disk, i: nat): half
    requires sb.InodeBlock(i) < |disk|
  {
    DecodeInodes(disk[sb.InodeBlock(i)])[i % 8].typ
  }

  /** The first record from number `i` on, of those that the superblock declares, that looks unused. */
  function ScanFrom(sb: Superblock, disk: Disk, i: nat): (r: Option<nat>)
    requires sb.InodeBlock(sb.ninodes) < |disk|
    ensures r.Some? ==> i <= r.value < sb.ninodes && TypeAt(sb, disk, r.value) == FT_UNUSED
    ensures r.Some? ==> forall x :: i <= x < r.value ==> TypeAt(sb, disk, x) != FT_UNUSED
    ensures r.None? ==> forall x :: i <= x < sb.ninodes ==> TypeAt(sb, disk, x) != FT_UNUSED
    decreases sb.ninodes - i
  {
    if i >= sb.ninodes then None else if TypeAt(sb, disk, i) == FT_UNUSED then Some(i) else ScanFrom(sb, disk, i + 1)
  }

  /** The disk after `ialloc`, which stores record `d`. */
  function AfterClaim(sb: Superblock, disk: Disk, d: Dinode): Disk
    requires sb.InodeBlock(sb.ninodes) < |disk|
  {
    var r := ScanFrom(sb, disk, 1);
    if r.None? then disk
    else disk[sb.InodeBlock(r.value) := Patched(disk[sb.InodeBlock(r.value)], r.value % 8, d)]
  }

  /**
   Scanning the 64 declared records finds what scanning the 32 that fit finds exactly if one of those is unused; and
   it leaves the same disk exactly if, beyond that, none of the 64 looks unused.
   */
  lemma ShippedScan(disk: Disk, typ: half)
    requires |disk| == Shipped.size && typ != FT_UNUSED
    ensures var near, far := ScanFrom(Shipped.Fitting(), disk, 1), ScanFrom(Shipped, disk, 1);
            && (far.Some? && near == far <==> exists i :: 1 <= i < 32 && TypeAt(Shipped, disk, i) == FT_UNUSED)
            && var d := Dinode(typ, 1, 0, NoAddrs);
               (AfterClaim(Shipped.Fitting(), disk, d) == AfterClaim(Shipped, disk, d) <==> near.Some? || far.None?)
  {
    hide Patched, TypeAt, ScanFrom;
    SameTypes(disk);
    var near, far := ScanFrom(Shipped.Fitting(), disk, 1), ScanFrom(Shipped, disk, 1);
    if near.None? && far.Some? {
      assert DecodeInodes(disk[Shipped.InodeBlock(far.value)])[far.value % 8].typ == FT_UNUSED
               by { TypeIs(disk, far.value); }
      ClaimKeepsBlockIff(Shipped, disk, far.value, typ, Shipped.InodeBlock(far.value));
    }
  }

  lemma TypeIs(disk: Disk, i: nat)
    requires |disk| == Shipped.size && i < 64
    ensures TypeAt(Shipped, disk, i) == DecodeInodes(disk[Shipped.InodeBlock(i)])[i % 8].typ
  {
    hide DecodeInodes;
  }

  /** For a layout on which the records fit, the scan reads the types of its records. */
  lemma TypesOfRecords(sb: Superblock, disk: Disk)
    requires sb.WellFormed() && |disk| == sb.size
    ensures forall i :: 0 <= i < sb.ninodes ==> Records(sb, disk)[i].typ == TypeAt(sb, disk, i)
  {
  }

  /**
   `ialloc` on a volume with the shipped layout: what it finds among the records that fit is what the scan of all 64
   finds, and it writes that one record. It goes past them exactly if none of the 31 is unused.
   */
  method ShippedIalloc(v: Volume, typ: half) returns (r: Search, d: Dinode)
    requires v.Valid() && v.sb == Shipped.Fitting() && v.declared == Shipped.ninodes
    modifies v
    ensures |old(v.disk)| == |v.disk| == Shipped.size && !r.NoneLeft?
    ensures r.PastEnd? <==> forall i :: 1 <= i < 32 ==> TypeAt(Shipped, old(v.disk), i) != FT_UNUSED
    ensures r.PastEnd? ==> v.disk == old(v.disk)
    ensures r.Hit? ==> d == Dinode(typ, 1, 0, NoAddrs) && ScanFrom(Shipped, old(v.disk), 1) == Some(r.i)
    ensures r.Hit? ==> var w := AfterClaim(Shipped, old(v.disk), d);
                       && Records(v.sb, v.disk) == Records(v.sb, w)
                       && (forall x :: 6 <= x < Shipped.size ==> v.disk[x] == w[x])
  {
    hide TypeAt, ScanFrom, Patched, Volume.Valid, DecodeInodes, Records;
    SameTypes(v.disk);
    TypesOfRecords(v.sb, v.disk);
    r, d := v.Ialloc(typ);
    if r.Hit? {
      assert TypeAt(Shipped, old(v.disk), r.i) == FT_UNUSED;
      ClaimedRecords(old(v.disk), r.i, d);
    } else {
      forall i | 1 <= i < 32
        ensures TypeAt(Shipped, old(v.disk), i) != FT_UNUSED
      {
        assert TypeAt(v.sb, old(v.disk), i) == old(v.Inodes())[i].typ;
      }
    }
  }

  lemma ClaimedRecords(disk: Disk, i: nat, d: Dinode)
    requires |disk| == Shipped.size && 1 <= i < 32 && ScanFrom(Shipped, disk, 1) == Some(i)
    ensures Records(Shipped.Fitting(), AfterClaim(Shipped, disk, d)) == Records(Shipped.Fitting(), disk)[i := d]
    ensures forall x :: 6 <= x < Shipped.size ==> AfterClaim(Shipped, disk, d)[x] == disk[x]
  {
    hide Patched, DecodeInodes, ScanFrom;
    var q := Shipped.InodeBlock(i);
    PatchedRecord(disk[q], i % 8, d);
    var w := AfterClaim(Shipped, disk, d);
    forall j | 0 <= j < 32
      ensures Record(Shipped.Fitting(), w, j) == if j == i then d else Record(Shipped.Fitting(), disk, j)
    {
      assert j / 8 == i / 8 && j % 8 == i % 8 ==> j == i;
    }
  }

  /** A byte without a bit is zero. */
  lemma NoBit(b: Block, q: nat)
    requires q < 1024 && forall x :: 8 * q <= x < 8 * q + 8 ==> !TestBit(b, x)
    ensures b[q] == 0
  {
    forall j | 0 <= j < 8
      ensures Shr(b[q], j) % 2 == 0
    {
      assert !TestBit(b, 8 * q + j);
    }
    EvenByte(b[q]);
  }

  lemma EvenByte(v: byte)
    requires forall j :: 0 <= j < 8 ==> Shr(v, j) % 2 == 0
    ensures v == 0
  {
    assert Shr(v, 0) == v && Shr(v, 1) == v / 2 && Shr(v, 2) == v / 4 && Shr(v, 3) == v / 8;
    assert Shr(v, 4) == Shr(v / 16, 0) && Shr(v, 5) == Shr(v / 16, 1);
    assert Shr(v, 6) == Shr(v / 16, 2) && Shr(v, 7) == Shr(v / 16, 3);
  }

  /**
   On every image with at most 1024 blocks in use, marked from block 0 on as the builder does, the scan that finds
   nothing among the records that fit goes on to inode 33, which lies in the bitmap.
   */
  lemma ShippedOverrun(disk: Disk, n: nat)
    requires |disk| == Shipped.size && 7 <= n <= 1024
    requires forall x :: 0 <= x < 8192 ==> (DecodeBits(disk[6])[x] <==> x < n)
    requires ScanFrom(Shipped.Fitting(), disk, 1).None?
    ensures ScanFrom(Shipped, disk, 1) == Some(33) && Shipped.InodeBlock(33) == Shipped.bmapstart
  {
    hide TypeAt, ScanFrom, DecodeInodes, DecodeBits;
    SameTypes(disk);
    TypeIs(disk, 32);
    Record32InUse(disk[6]);
    TypeIs(disk, 33);
    Unmarked33(disk[6], n);
    var far := ScanFrom(Shipped, disk, 1);
  }

  /** Both layouts have their records in the same places. */
  lemma SameTypes(disk: Disk)
    requires |disk| == Shipped.size
    ensures forall i :: 0 <= i < 64 ==> TypeAt(Shipped.Fitting(), disk, i) == TypeAt(Shipped, disk, i)
    ensures Shipped.Fitting().ninodes == 32 && Shipped.Fitting().WellFormed()
  {
    hide DecodeInodes;
  }

  lemma Unmarked33(b: Block, n: nat)
    requires n <= 1024 && forall x :: 0 <= x < 8192 ==> (DecodeBits(b)[x] <==> x < n)
    ensures DecodeInodes(b)[1].typ == FT_UNUSED
  {
    forall x | 1024 <= x < 1040
      ensures !TestBit(b, x)
    {
      assert !DecodeBits(b)[x];
    }
    NoBit(b, 128);
    NoBit(b, 129);
    TypeBytes(b, 1);
  }

  /** An image on which blocks 1024 to 1039 are free and those after them in use: claiming inode 33 frees block 1500. */
  lemma Claim33()
    ensures var b := EncodeBits(seq(8192, x => x < 1024 || 1040 <= x < 2048));
            && DecodeInodes(b)[1].typ == FT_UNUSED && DecodeBits(b)[1500]
            && !DecodeBits(Patched(b, 1, Dinode(FT_FILE, 1, 0, NoAddrs)))[1500]
  {
    var s: Bitmap := seq(8192, x => x < 1024 || 1040 <= x < 2048);
    var b := EncodeBits(s);
    BitsRoundTrip(s);
    ShippedMarks(b, 1, FT_FILE);
    TypeBytes(b, 1);
    assert s[1024..1032] == seq(8, i => false) && s[1032..1040] == seq(8, i => false);
    NoBits(8);
  }

  lemma {:induction false} NoBits(n: nat)
    ensures BitsValue(seq(n, i => false)) == 0
  {
    if n > 0 {
      NoBits(n - 1);
      assert seq(n, i => false)[1..] == seq(n - 1, i => false);
    }
  }
}
