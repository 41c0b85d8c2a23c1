/**
 A directory is a file of 32-byte entries, a 16-bit inode number and a name of at most 29 bytes; an entry with
 inode number 0 is free. Seen through its entries a directory is a finite map from names to inode numbers.
 */
module Directory {
  import opened Codec
  import opened Layout
  import opened Forests
  import opened Contents
  import opened Volumes

  const ENTRY: nat := 32

  type Name = string

  /** A name as `skipto` delivers it: it fits an entry with its terminating zero. */
  predicate IsName(n: Name) { |n| <= 29 && IsText(n) }

  /** The characters are bytes other than zero. */
  predicate IsText(n: Name) { forall i :: 0 <= i < |n| ==> 0 < n[i] as int < 0x100 }

  datatype Dirent = Dirent(inum: half, name: Name)

  const Free: Dirent := Dirent(0, [])

  // ----- entries as bytes -----

  /** The characters before the first zero. */
  function UpToZero(b: seq<byte>): (n: Name)
    ensures |n| <= |b| && IsText(n)
  {
    if b == [] || b[0] == 0 then [] else [b[0] as char] + UpToZero(b[1..])
  }

  function AsBytes(n: Name): (b: seq<byte>)
    requires IsText(n)
    ensures |b| == |n|
  {
    if n == [] then [] else [n[0] as int] + AsBytes(n[1..])
  }

  function Zeros(n: nat): (z: seq<byte>)
    ensures |z| == n && forall i :: 0 <= i < n ==> z[i] == 0
  {
    seq(n, i => 0)
  }

  function EncodeEntry(e: Dirent): (b: seq<byte>)
    requires IsName(e.name)
    ensures |b| == ENTRY
  {
    [e.inum % 0x100, e.inum / 0x100] + AsBytes(e.name) + Zeros(30 - |e.name|)
  }

  function DecodeEntry(b: seq<byte>): (e: Dirent)
    requires |b| == ENTRY
  {
    Dirent(b[0] as int + 0x100 * b[1] as int, UpToZero(b[2..]))
  }

  lemma {:induction false} ZeroEnds(n: Name, z: seq<byte>)
    requires IsText(n) && z != [] && z[0] == 0
    ensures UpToZero(AsBytes(n) + z) == n
  {
    var b := AsBytes(n);
    if n == [] {
      assert b + z == z;
    } else {
      assert (b + z)[0] == b[0] && (b + z)[1..] == AsBytes(n[1..]) + z;
      ZeroEnds(n[1..], z);
    }
  }

  lemma EntryRoundTrip(e: Dirent)
    requires IsName(e.name)
    ensures DecodeEntry(EncodeEntry(e)) == e
  {
    ZeroEnds(e.name, Zeros(30 - |e.name|));
    assert EncodeEntry(e)[2..] == AsBytes(e.name) + Zeros(30 - |e.name|);
  }

  // ----- a directory as a map -----

  function EntryAt(s: seq<byte>, k: nat): Dirent
    requires 32 * k + 32 <= |s|
  {
    DecodeEntry(s[32 * k..32 * k + 32])
  }

  function Dirents(s: seq<byte>): (es: seq<Dirent>)
    ensures |es| == |s| / 32
  {
    seq(|s| / 32, k requires 0 <= k < |s| / 32 => EntryAt(s, k))
  }

  /** The first live entry with this name, from index `from` on. */
  function Find(es: seq<Dirent>, name: Name, from: nat): (k: nat)
    requires from <= |es|
    ensures from <= k <= |es|
    ensures k < |es| ==> es[k].inum != 0 && es[k].name == name
    ensures forall j :: from <= j < k ==> es[j].inum == 0 || es[j].name != name
    decreases |es| - from
  {
    if from == |es| || (es[from].inum != 0 && es[from].name == name) then from else Find(es, name, from + 1)
  }

  function LiveNames(es: seq<Dirent>): set<Name> { set k | 0 <= k < |es| && es[k].inum != 0 :: es[k].name }

  /** The finite map that the entries denote. */
  function Listing(es: seq<Dirent>): (m: map<Name, nat>)
    ensures m.Keys == LiveNames(es)
  {
    map n | n in LiveNames(es) :: Inum(es, n)
  }

  function Inum(es: seq<Dirent>, n: Name): nat {
    var k := Find(es, n, 0);
    if k < |es| then es[k].inum else 0
  }

  /** No two live entries have the same name. */
  predicate Unique(es: seq<Dirent>) {
    forall j, k :: 0 <= j < k < |es| && es[j].inum != 0 && es[k].inum != 0 ==> es[j].name != es[k].name
  }

  lemma LiveIs(es: seq<Dirent>, n: Name)
    ensures n in LiveNames(es) <==> Find(es, n, 0) < |es|
    ensures n in LiveNames(es) ==> Inum(es, n) != 0
  {
    if n in LiveNames(es) {
      var k :| 0 <= k < |es| && es[k].inum != 0 && es[k].name == n;
    }
  }

  /** Lookup is the map's own. */
  lemma FindIsLookup(es: seq<Dirent>, n: Name)
    ensures Find(es, n, 0) < |es| <==> n in Listing(es)
    ensures n in Listing(es) ==> Listing(es)[n] == es[Find(es, n, 0)].inum
  {
    LiveIs(es, n);
  }

  /** With unique names, each live entry is what the map says. */
  lemma UniqueInum(es: seq<Dirent>, k: nat)
    requires Unique(es) && k < |es| && es[k].inum != 0
    ensures es[k].name in Listing(es) && Listing(es)[es[k].name] == es[k].inum
  {
    var j := Find(es, es[k].name, 0);
  }

  /** `es` with entry `k` replaced, or added at the end. */
  function Set(es: seq<Dirent>, k: nat, e: Dirent): (es': seq<Dirent>)
    requires k <= |es|
    ensures |es'| == (if k < |es| then |es| else |es| + 1) && es'[k] == e
    ensures forall j :: 0 <= j < |es'| && j != k ==> j < |es| && es'[j] == es[j]
  {
    if k < |es| then es[k := e] else es + [e]
  }

  lemma SetUnique(es: seq<Dirent>, k: nat, e: Dirent)
    requires Unique(es) && k <= |es| && (e.inum == 0 || (e.name !in Listing(es)))
    ensures Unique(Set(es, k, e))
  {
    hide Set, Listing;
    var es' := Set(es, k, e);
    forall j | 0 <= j < |es| && es[j].inum != 0 && e.inum != 0
      ensures es[j].name != e.name
    {
      UniqueInum(es, j);
    }
  }

  /** Other names are untouched when entry `k` changes. */
  lemma SetOther(es: seq<Dirent>, k: nat, e: Dirent, n: Name)
    requires Unique(es) && k <= |es| && Unique(Set(es, k, e))
    requires (k < |es| && es[k].inum != 0 ==> n != es[k].name) && (e.inum != 0 ==> n != e.name)
    ensures n in Listing(Set(es, k, e)) <==> n in Listing(es)
    ensures n in Listing(es) ==> Listing(Set(es, k, e))[n] == Listing(es)[n]
  {
    hide Set, Listing, Unique;
    var es' := Set(es, k, e);
    FindIsLookup(es, n);
    FindIsLookup(es', n);
    if n in Listing(es) {
      UniqueInum(es', Find(es, n, 0));
    } else if n in Listing(es') {
      UniqueInum(es, Find(es', n, 0));
    }
  }

  /** A new name in a free entry, or in one more entry, adds to the map. */
  lemma LinkListing(es: seq<Dirent>, k: nat, e: Dirent)
    requires Unique(es) && e.inum != 0 && e.name !in Listing(es) && k <= |es| && (k < |es| ==> es[k].inum == 0)
    ensures Unique(Set(es, k, e)) && Listing(Set(es, k, e)) == Listing(es)[e.name := e.inum]
  {
    SetUnique(es, k, e);
    hide Set, Listing, Unique;
    UniqueInum(Set(es, k, e), k);
    forall n: Name | n != e.name
      ensures n in Listing(Set(es, k, e)) <==> n in Listing(es)
      ensures n in Listing(es) ==> Listing(Set(es, k, e))[n] == Listing(es)[n]
    {
      SetOther(es, k, e, n);
    }
  }

  /** Clearing the entry of a name removes it from the map. */
  lemma ClearListing(es: seq<Dirent>, k: nat)
    requires Unique(es) && k < |es| && es[k].inum != 0
    ensures Unique(Set(es, k, Free)) && Listing(Set(es, k, Free)) == Listing(es) - {es[k].name}
  {
    SetUnique(es, k, Free);
    var es', name := Set(es, k, Free), es[k].name;
    assert name !in Listing(es') by {
      FindIsLookup(es', name);
      assert Find(es', name, 0) < |es'| ==> es[Find(es', name, 0)].name == name;
    }
    hide Set, Listing, Unique;
    forall n: Name | n != name
      ensures n in Listing(es') <==> n in Listing(es)
      ensures n in Listing(es) ==> Listing(es')[n] == Listing(es)[n]
    {
      SetOther(es, k, Free, n);
    }
  }

  /** With unique names there are as many names as live entries. */
  lemma {:induction false} LiveCount(es: seq<Dirent>)
    requires Unique(es)
    ensures |LiveNames(es)| <= |es|
    ensures |LiveNames(es)| == |es| <==> forall k :: 0 <= k < |es| ==> es[k].inum != 0
  {
    if es != [] {
      var init, last := es[..|es| - 1], es[|es| - 1];
      LiveCount(init);
      if last.inum == 0 {
        assert LiveNames(es) == LiveNames(init);
      } else {
        assert LiveNames(es) == LiveNames(init) + {last.name};
        assert last.name !in LiveNames(init);
        assert forall k :: 0 <= k < |init| ==> init[k] == es[k];
      }
    }
  }

  // ----- writing one entry -----

  lemma EntrySlice(s: seq<byte>, k: nat, b: seq<byte>, j: nat)
    requires |b| == 32 && |s| % 32 == 0 && 32 * k <= |s| && 32 * j + 32 <= |Overwrite(s, 32 * k, b)|
    ensures j == k ==> Overwrite(s, 32 * k, b)[32 * j..32 * j + 32] == b
    ensures j != k ==> 32 * j + 32 <= |s| && Overwrite(s, 32 * k, b)[32 * j..32 * j + 32] == s[32 * j..32 * j + 32]
  {
    var s' := Overwrite(s, 32 * k, b);
    if j < k {
      assert s'[..32 * k] == s[..32 * k];
      assert s'[..32 * k][32 * j..32 * j + 32] == s[..32 * k][32 * j..32 * j + 32];
    } else if j > k {
      assert s'[32 * k + 32..] == s[32 * k + 32..];
      var o := 32 * (j - k - 1);
      assert s'[32 * k + 32..][o..o + 32] == s[32 * k + 32..][o..o + 32];
    }
  }

  /** Overwriting at entry `k`, or at the end, replaces or adds that entry. */
  lemma EntriesWrite(s: seq<byte>, k: nat, e: Dirent)
    requires |s| % 32 == 0 && 32 * k <= |s| && IsName(e.name)
    ensures var s' := Overwrite(s, 32 * k, EncodeEntry(e)); |s'| % 32 == 0 && Dirents(s') == Set(Dirents(s), k, e)
  {
    var b := EncodeEntry(e);
    var s' := Overwrite(s, 32 * k, b);
    EntryRoundTrip(e);
    hide Overwrite, EncodeEntry, DecodeEntry;
    forall j | 0 <= j < |s'| / 32
      ensures Dirents(s')[j] == Set(Dirents(s), k, e)[j]
    {
      EntrySlice(s, k, b, j);
    }
  }

  // ----- the operations on a volume -----

  /** The invariant of a directory's contents. */
  predicate IsDirectory(s: seq<byte>) { |s| % 32 == 0 && Unique(Dirents(s)) }

  /** The map that directory `i` of a volume stores. */
  ghost function Map(v: Volume, i: nat): map<Name, nat>
    reads v
    requires v.Formatted() && i < v.sb.ninodes
  {
    Listing(Dirents(v.Bytes(i)))
  }

  lemma SizeFits(v: Volume, i: nat)
    requires v.Valid() && i < v.sb.ninodes
    ensures v.Inodes()[i].size == |v.Bytes(i)| <= MAXBYTES
  {
  }

  /** Reads entry `k`; fails at the end of the directory and on an incomplete last entry. */
  method ReadEntry(v: Volume, i: nat, d: Dinode, k: nat) returns (ok: bool, e: Dirent)
    requires v.Valid() && i < v.sb.ninodes && d == v.Inodes()[i] && d.typ != FT_UNUSED && 32 * k < d.size
    ensures ok <==> k < |Dirents(v.Bytes(i))|
    ensures ok ==> e == Dirents(v.Bytes(i))[k]
  {
    hide Stored, Shaped, FileBytes;
    SizeFits(v, i);
    var r, b := v.Readi(i, d, 32 * k, 32);
    if r.value != 32 {
      return false, Free;
    }
    return true, DecodeEntry(b);
  }

  /** `dirlookup`: the inode number and the offset of the entry, or 0. */
  method Dirlookup(v: Volume, i: nat, d: Dinode, name: Name) returns (inum: nat, off: nat)
    requires v.Valid() && i < v.sb.ninodes && d == v.Inodes()[i]
    ensures d.typ != FT_DIRECTORY ==> inum == 0
    ensures d.typ == FT_DIRECTORY ==> (inum != 0 <==> name in Map(v, i)) && (inum != 0 ==> Map(v, i)[name] == inum)
    ensures inum != 0 ==> off == 32 * Find(Dirents(v.Bytes(i)), name, 0) < d.size
  {
    hide Stored, Shaped, FileBytes, Listing;
    if d.typ != FT_DIRECTORY {
      return 0, 0;
    }
    ghost var es := Dirents(v.Bytes(i));
    SizeFits(v, i);
    FindIsLookup(es, name);
    var k := 0;
    while 32 * k < d.size
      invariant 0 <= k <= |es| && Find(es, name, 0) == Find(es, name, k)
    {
      var ok, e := ReadEntry(v, i, d, k);
      if !ok {
        return 0, 0;
      }
      if e.inum != 0 && e.name == name {
        return e.inum, 32 * k;
      }
      k := k + 1;
    }
    return 0, 0;
  }

  /** The index of the first free entry, or of the one after the last. */
  method FindSlot(v: Volume, i: nat, d: Dinode) returns (k: nat)
    requires v.Valid() && i < v.sb.ninodes && d == v.Inodes()[i] && d.typ == FT_DIRECTORY && IsDirectory(v.Bytes(i))
    ensures k <= |Dirents(v.Bytes(i))| && (k < |Dirents(v.Bytes(i))| ==> Dirents(v.Bytes(i))[k].inum == 0)
    ensures forall j :: 0 <= j < k ==> Dirents(v.Bytes(i))[j].inum != 0
  {
    hide Stored, Shaped, FileBytes, Unique;
    SizeFits(v, i);
    ghost var es := Dirents(v.Bytes(i));
    assert d.size == 32 * |es|;
    hide Dirents, IsDirectory;
    k := 0;
    while 32 * k < d.size
      invariant 0 <= k <= |es|
      invariant forall j :: 0 <= j < k ==> es[j].inum != 0
    {
      var ok, e := ReadEntry(v, i, d, k);
      if e.inum == 0 {
        return;
      }
      k := k + 1;
    }
  }

  /** Writes entry `k`, or one more at the end. */
  method PutEntry(v: Volume, i: nat, d: Dinode, k: nat, e: Dirent) returns (r: Outcome<int>, d': Dinode)
    requires v.Valid() && i < v.sb.ninodes && d == v.Inodes()[i] && d.size % 32 == 0 && 32 * k <= d.size
    requires IsName(e.name)
    modifies v
    ensures r.Panic? ==> v.Formatted() && r.reason == OutOfBlocks && v.Full()
    ensures 32 * k + 32 <= MAXBYTES && r.Ok? ==> r.value == 32
    ensures r.Ok? && r.value != 32 ==> r.value == -1 && v.disk == old(v.disk) && v.forest == old(v.forest) && d' == d
    ensures r.Ok? && r.value == 32 ==>
              && v.Valid() && d' == d.(size := Max(d.size, 32 * k + 32), addrs := d'.addrs)
              && v.Inodes() == old(v.Inodes())[i := d'] && |v.Bytes(i)| % 32 == 0
              && Dirents(v.Bytes(i)) == Set(old(Dirents(v.Bytes(i))), k, e)
              && (forall j: nat :: j < v.sb.ninodes && j != i ==> v.Bytes(j) == old(v.Bytes(j)))
  {
    hide Stored, Shaped, FileBytes, EncodeEntry, Overwrite, Dirents, Set;
    SizeFits(v, i);
    r, d' := v.Writei(i, d, EncodeEntry(e), 32 * k);
    if r == Ok(32) {
      EntriesWrite(old(v.Bytes(i)), k, e);
    }
  }

  /** The entries are all live exactly if the names fill the directory. */
  lemma EntryCount(s: seq<byte>)
    requires IsDirectory(s)
    ensures var es := Dirents(s);
            |s| == 32 * |es| && (32 * |Listing(es)| == |s| <==> forall k :: 0 <= k < |es| ==> es[k].inum != 0)
  {
    LiveCount(Dirents(s));
  }

  /** `dirlink`: refuses a name that exists, else uses the first free entry or appends one. */
  method Dirlink(v: Volume, i: nat, d: Dinode, name: Name, inum: half) returns (r: Outcome<int>, d': Dinode)
    requires v.Valid() && i < v.sb.ninodes && d == v.Inodes()[i] && d.typ == FT_DIRECTORY && IsDirectory(v.Bytes(i))
    requires IsName(name) && inum != 0
    modifies v
    ensures r.Panic? ==> v.Formatted() && r.reason == OutOfBlocks && v.Full()
    ensures name in old(Map(v, i)) ==> r == Ok(-1)
    ensures r == Ok(-1) && name !in old(Map(v, i)) ==>
              && d.size + 32 > MAXBYTES
              && forall k :: 0 <= k < |old(Dirents(v.Bytes(i)))| ==> old(Dirents(v.Bytes(i)))[k].inum != 0
    ensures r == Ok(-1) ==> v.disk == old(v.disk) && v.forest == old(v.forest) && d' == d
    ensures r.Ok? && r.value != -1 ==>
              && r.value == 0 && v.Valid() && d' == d.(size := d'.size, addrs := d'.addrs)
              && v.Inodes() == old(v.Inodes())[i := d']
              && IsDirectory(v.Bytes(i)) && Map(v, i) == old(Map(v, i))[name := inum]
              && |v.Bytes(i)| == old(if 32 * |Map(v, i)| == |v.Bytes(i)| then |v.Bytes(i)| + 32 else |v.Bytes(i)|)
              && (forall j: nat :: j < v.sb.ninodes && j != i ==> v.Bytes(j) == old(v.Bytes(j)))
  {
    hide Stored, Shaped, FileBytes, Listing, Dirents, Unique, Find, Set;
    var found, _ := Dirlookup(v, i, d, name);
    if found != 0 {
      return Ok(-1), d;
    }
    SizeFits(v, i);
    ghost var es := Dirents(v.Bytes(i));
    var k := FindSlot(v, i, d);
    LinkListing(es, k, Dirent(inum, name));
    EntryCount(v.Bytes(i));
    r, d' := PutEntry(v, i, d, k, Dirent(inum, name));
    if r == Ok(32) {
      r := Ok(0);
    }
  }

  /** The end of `fs_rm` for the parent: the entry at `off` is overwritten with zeros. */
  method ClearEntry(v: Volume, i: nat, d: Dinode, off: nat) returns (r: Outcome<int>, d': Dinode)
    requires v.Valid() && i < v.sb.ninodes && d == v.Inodes()[i] && d.typ == FT_DIRECTORY && IsDirectory(v.Bytes(i))
    requires off % 32 == 0 && off < d.size && Dirents(v.Bytes(i))[off / 32].inum != 0
    modifies v
    ensures r.Panic? ==> v.Formatted() && r.reason == OutOfBlocks && v.Full()
    ensures r.Ok? ==>
              && r.value == 32 && v.Valid() && d' == d.(addrs := d'.addrs)
              && v.Inodes() == old(v.Inodes())[i := d']
              && IsDirectory(v.Bytes(i)) && Map(v, i) == old(Map(v, i)) - {old(Dirents(v.Bytes(i)))[off / 32].name}
              && (forall j: nat :: j < v.sb.ninodes && j != i ==> v.Bytes(j) == old(v.Bytes(j)))
  {
    hide Stored, Shaped, FileBytes, Listing, Dirents, Unique, Set, EncodeEntry;
    SizeFits(v, i);
    ClearListing(Dirents(v.Bytes(i)), off / 32);
    r, d' := PutEntry(v, i, d, off / 32, Free);
  }

  const Dot: Name := "."
  const DotDot: Name := ".."

  lemma OnlyDots(es: seq<Dirent>)
    ensures (forall k :: 0 <= k < |es| ==> es[k].inum == 0 || es[k].name in {Dot, DotDot}) <==>
              LiveNames(es) <= {Dot, DotDot}
  {
    forall k | 0 <= k < |es| && es[k].inum != 0
      ensures es[k].name in LiveNames(es)
    {
    }
  }

  /** `is_dir_empty`: no entries but the dots. */
  method IsDirEmpty(v: Volume, i: nat, d: Dinode) returns (empty: bool)
    requires v.Valid() && i < v.sb.ninodes && d == v.Inodes()[i] && d.typ == FT_DIRECTORY && IsDirectory(v.Bytes(i))
    ensures empty <==> Map(v, i).Keys <= {Dot, DotDot}
  {
    hide Stored, Shaped, FileBytes, Unique;
    SizeFits(v, i);
    ghost var es := Dirents(v.Bytes(i));
    OnlyDots(es);
    hide Listing, LiveNames, Dirents;
    var k := 0;
    while 32 * k < d.size
      invariant 0 <= k <= |es|
      invariant forall j :: 0 <= j < k ==> es[j].inum == 0 || es[j].name in {Dot, DotDot}
    {
      var ok, e := ReadEntry(v, i, d, k);
      if !ok {
        return false;
      }
      if e.inum != 0 && e.name != Dot && e.name != DotDot {
        return false;
      }
      k := k + 1;
    }
    return true;
  }
}
