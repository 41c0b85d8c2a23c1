/**
 The names on one volume: what the kernel's routines do to the inodes of a device, seen as items. A routine works on the
 record `d` of an inode in memory, which must be the one on disk, and returns the record it leaves there.
 */
module Namespace {
  import opened Basics
  import opened Codec
  import opened Layout
  import opened Forests
  import opened Contents
  import opened Volumes
  import opened Directory
  import opened Items
  import opened Entries

  /** An inode of a record's type with these contents. */
  ghost function ItemOf(d: Dinode, b: seq<byte>): Item {
    if d.typ == FT_UNUSED then Unused
    else if d.typ == FT_DIRECTORY then DirOf(b)
    else Item.File(b)
  }

  ghost function ItemsOf(ino: seq<Dinode>, bs: seq<seq<byte>>): (s: seq<Item>)
    requires |ino| == |bs|
    ensures |s| == |ino|
  {
    seq(|ino|, i requires 0 <= i < |ino| => ItemOf(ino[i], bs[i]))
  }

  ghost function AllBytes(v: Volume): (bs: seq<seq<byte>>)
    reads v
    requires v.Formatted()
    ensures |bs| == v.sb.ninodes && forall i :: 0 <= i < |bs| ==> bs[i] == v.Bytes(i)
  {
    seq(v.sb.ninodes, i requires 0 <= i < v.sb.ninodes reads v requires v.Formatted() => v.Bytes(i))
  }

  /** The items of a volume. */
  ghost function View(v: Volume): (s: seq<Item>)
    reads v
    requires v.Formatted()
    ensures |s| == v.sb.ninodes
  {
    ItemsOf(v.Inodes(), AllBytes(v))
  }

  ghost predicate Typed(ino: seq<Dinode>) {
    forall i :: 0 <= i < |ino| ==> ino[i].typ == FT_UNUSED || ino[i].typ == FT_DIRECTORY || ino[i].typ == FT_FILE
  }

  ghost predicate DirsOk(ino: seq<Dinode>, bs: seq<seq<byte>>)
    requires |ino| == |bs|
  {
    forall i :: 0 <= i < |ino| && ino[i].typ == FT_DIRECTORY ==> IsDirectory(bs[i])
  }

  /** A consistent volume whose unused inodes are empty and whose directories are well formed. */
  ghost predicate Sound(v: Volume)
    reads v
    ensures Sound(v) ==> v.Valid()
  {
    v.Valid() && v.UnusedEmpty() && Typed(v.Inodes()) && DirsOk(v.Inodes(), AllBytes(v))
  }

  // ----- records and items -----

  lemma UnusedHasNoBytes(v: Volume, i: nat)
    requires Sound(v) && i < v.sb.ninodes
    ensures v.Inodes()[i].typ == FT_UNUSED ==> |v.Bytes(i)| == 0
  {
    hide Volume.Valid;
  }

  lemma ItemAt(ino: seq<Dinode>, bs: seq<seq<byte>>, i: nat)
    requires |ino| == |bs| && i < |ino|
    ensures ItemsOf(ino, bs)[i] == ItemOf(ino[i], bs[i])
  {
  }

  /** What the type of a record says about its item. */
  lemma TypeIs(v: Volume, i: nat)
    requires Sound(v) && i < v.sb.ninodes
    ensures View(v)[i].Unused? <==> v.Inodes()[i].typ == FT_UNUSED
    ensures View(v)[i].Dir? <==> v.Inodes()[i].typ == FT_DIRECTORY
    ensures View(v)[i].File? <==> v.Inodes()[i].typ == FT_FILE
    ensures View(v)[i].Dir? ==> View(v)[i] == Dir(Map(v, i), |v.Bytes(i)|) && IsDirectory(v.Bytes(i))
    ensures View(v)[i].File? ==> View(v)[i] == Item.File(v.Bytes(i))
    ensures v.Inodes()[i].size == |v.Bytes(i)| <= MAXBYTES
  {
    hide FileBytes, Listing, Dirents, IsDirectory, Stored, Shaped;
    ItemAt(v.Inodes(), AllBytes(v), i);
    SizeFits(v, i);
  }

  lemma ItemsUpdate(ino: seq<Dinode>, bs: seq<seq<byte>>, i: nat, d: Dinode, b: seq<byte>)
    requires |ino| == |bs| && i < |ino|
    ensures ItemsOf(ino[i := d], bs[i := b]) == ItemsOf(ino, bs)[i := ItemOf(d, b)]
  {
    hide ItemOf;
  }

  /** One inode changes: its record, and its contents. */
  lemma Changed(ino: seq<Dinode>, bs: seq<seq<byte>>, i: nat, d: Dinode, b: seq<byte>)
    requires |ino| == |bs| && i < |ino| && Typed(ino) && DirsOk(ino, bs)
    requires d.typ == FT_UNUSED || d.typ == FT_FILE || (d.typ == FT_DIRECTORY && IsDirectory(b))
    ensures ItemsOf(ino[i := d], bs[i := b]) == ItemsOf(ino, bs)[i := ItemOf(d, b)]
    ensures Typed(ino[i := d]) && DirsOk(ino[i := d], bs[i := b])
  {
    hide ItemOf, IsDirectory;
    ItemsUpdate(ino, bs, i, d, b);
  }

  // ----- looking up -----

  /** The entry of a name is at offset `off` of directory `x`. */
  ghost predicate IsEntry(v: Volume, x: nat, name: Name, off: nat)
    reads v
    requires v.Formatted() && x < v.sb.ninodes
  {
    off == 32 * Find(Dirents(v.Bytes(x)), name, 0) < v.Inodes()[x].size
  }

  /** `dirlookup` in directory `x`: the inode number of a name and where its entry is, or 0. */
  method LookupIn(v: Volume, x: nat, d: Dinode, name: Name) returns (c: nat, off: nat)
    requires Sound(v) && x < v.sb.ninodes && d == v.Inodes()[x] && View(v)[x].Dir?
    ensures (c != 0 <==> name in View(v)[x].names) && (c != 0 ==> View(v)[x].names[name] == c)
    ensures c != 0 ==> IsEntry(v, x, name, off)
  {
    hide Sound, View, FileBytes, Listing, Dirents, Find, IsDirectory;
    TypeIs(v, x);
    c, off := Dirlookup(v, x, d, name);
  }

  /** `is_dir_empty` */
  method IsEmpty(v: Volume, c: nat, d: Dinode) returns (b: bool)
    requires Sound(v) && c < v.sb.ninodes && d == v.Inodes()[c] && View(v)[c].Dir?
    ensures b <==> IsEmptyDir(View(v)[c])
  {
    hide Sound, View, FileBytes, Listing, Dirents, IsDirectory;
    TypeIs(v, c);
    b := IsDirEmpty(v, c, d);
  }

  // ----- claiming an inode -----

  /**
   `ialloc`: the first unused inode becomes an empty file or directory; or the scan finds none, and goes past
   the end.
   */
  method Claim(v: Volume, typ: half) returns (r: Search, d: Dinode)
    requires Sound(v) && (typ == FT_FILE || typ == FT_DIRECTORY)
    modifies v
    ensures Sound(v)
    ensures !r.Hit? ==> v.Inodes() == old(v.Inodes()) && View(v) == old(View(v)) && FirstUnused(View(v), 1) == None
    ensures !r.Hit? ==> (r.PastEnd? <==> v.Overruns())
    ensures r.Hit? ==> FirstUnused(old(View(v)), 1) == Some(r.i) && d.typ == typ
    ensures r.Hit? ==> v.Inodes() == old(v.Inodes())[r.i := d]
    ensures r.Hit? ==> View(v) == old(View(v))[r.i := if typ == FT_FILE then Item.File([]) else Dir(map[], 0)]
  {
    hide FileBytes, Listing, Dirents, IsDirectory, ItemsOf, DirsOk, Typed, View, Stored, Shaped;
    ghost var ino, bs, s := v.Inodes(), AllBytes(v), View(v);
    assert s == ItemsOf(ino, bs) by { ViewIs(v); }
    r, d := v.Ialloc(typ);
    if !r.Hit? {
      assert v.Inodes() == ino && AllBytes(v) == bs;
      NoneUnused(ino, bs);
      ViewIs(v);
    } else {
      var c := r.i;
      FirstClaimed(ino, bs, c);
      assert AllBytes(v) == bs && |bs[c]| == 0;
      assert bs == bs[c := bs[c]];
      EmptyDirectory(bs[c]);
      Changed(ino, bs, c, d, bs[c]);
      ViewIs(v);
    }
  }

  lemma ViewIs(v: Volume)
    requires v.Formatted()
    ensures View(v) == ItemsOf(v.Inodes(), AllBytes(v))
  {
  }

  lemma EmptyDirectory(b: seq<byte>)
    requires |b| == 0
    ensures IsDirectory(b) && Listing(Dirents(b)) == map[]
  {
  }

  lemma NoneUnused(ino: seq<Dinode>, bs: seq<seq<byte>>)
    requires |ino| == |bs| && forall x :: 1 <= x < |ino| ==> ino[x].typ != FT_UNUSED
    ensures FirstUnused(ItemsOf(ino, bs), 1) == None
  {
    var c := FirstUnused(ItemsOf(ino, bs), 1);
  }

  lemma FirstClaimed(ino: seq<Dinode>, bs: seq<seq<byte>>, c: nat)
    requires |ino| == |bs| && 1 <= c < |ino| && ino[c].typ == FT_UNUSED
    requires forall x :: 1 <= x < c ==> ino[x].typ != FT_UNUSED
    ensures FirstUnused(ItemsOf(ino, bs), 1) == Some(c)
  {
    FirstIs(ItemsOf(ino, bs), 1, c);
  }

  // ----- a directory always has room for one more entry -----

  /** A directory of a tree has at most as many names as there are inodes: the root and inode 0 make up for its dots. */
  lemma FewNames(s: seq<Item>, x: nat)
    requires IsTree(s) && x < |s| && s[x].Dir?
    ensures |s[x].names| <= |s|
  {
    var m := s[x].names;
    var ns := m.Keys - {".", ".."};
    forall a <- ns
      ensures Has(s, x, a) && 1 < m[a] < |s|
    {
      assert Has(s, x, a);
      assert IsChild(s, x, m[a]);
    }
    var all := set a | a in ns :: m[a];
    Injective(m, ns, all);
    Below(all + {0, 1}, |s|);
    assert |all + {0, 1}| == |all| + 2;
    Subset(m.Keys, ns + {".", ".."});
    assert |m| == |m.Keys|;
    assert |ns + {".", ".."}| == |ns| + 2;
  }

  /** `dirlink`: a new name. The directory's file is never too long for it, so it fails only for want of blocks. */
  method LinkIn(v: Volume, x: nat, d: Dinode, name: Name, c: nat) returns (ok: bool, d': Dinode)
    requires Sound(v) && x < v.sb.ninodes && d == v.Inodes()[x] && View(v)[x].Dir? && IsName(name)
    requires name !in View(v)[x].names && 0 < c < v.sb.ninodes && |View(v)[x].names| <= v.sb.ninodes
    modifies v
    ensures !ok ==> v.Formatted() && v.Full()
    ensures ok ==> Sound(v) && v.Inodes() == old(v.Inodes())[x := d'] && d'.typ == d.typ
    ensures ok ==> View(v) == Linked(old(View(v)), x, name, c)
  {
    hide FileBytes, Listing, Dirents, IsDirectory, ItemsOf, DirsOk, Typed, View, Stored, Shaped;
    ghost var ino, bs := v.Inodes(), AllBytes(v);
    TypeIs(v, x);
    EntryCount(v.Bytes(x));
    ViewIs(v);
    var l;
    l, d' := Dirlink(v, x, d, name, c);
    if l.Panic? {
      return false, d';
    }
    assert AllBytes(v) == bs[x := v.Bytes(x)];
    Changed(ino, bs, x, d', v.Bytes(x));
    ViewIs(v);
    return true, d';
  }

  /** `writei` of the entry of a new directory that comes next: ".", then "..". */
  method PutDot(v: Volume, x: nat, d: Dinode, name: Name, c: nat) returns (ok: bool, d': Dinode)
    requires Sound(v) && x < v.sb.ninodes && d == v.Inodes()[x] && View(v)[x].Dir? && IsName(name)
    requires name !in View(v)[x].names && 0 < c < v.sb.ninodes && d.size == 32 * |View(v)[x].names| <= 32
    modifies v
    ensures !ok ==> v.Formatted() && v.Full()
    ensures ok ==>
              Sound(v) && v.Inodes() == old(v.Inodes())[x := d'] && d' == d.(size := d.size + 32, addrs := d'.addrs)
    ensures ok ==> View(v) == Linked(old(View(v)), x, name, c)
  {
    hide FileBytes, Listing, Dirents, ItemsOf, DirsOk, Typed, View, Stored, Shaped, Unique;
    ghost var ino, bs := v.Inodes(), AllBytes(v);
    TypeIs(v, x);
    EntryCount(v.Bytes(x));
    ViewIs(v);
    LinkListing(Dirents(v.Bytes(x)), d.size / 32, Dirent(c, name));
    var r;
    r, d' := PutEntry(v, x, d, d.size / 32, Dirent(c, name));
    if r.Panic? {
      return false, d';
    }
    SizeFits(v, x);
    assert AllBytes(v) == bs[x := v.Bytes(x)];
    Changed(ino, bs, x, d', v.Bytes(x));
    ViewIs(v);
    return true, d';
  }

  /** `writei` of a free entry over that of a name. */
  method Unlink(v: Volume, x: nat, d: Dinode, name: Name, off: nat) returns (ok: bool, d': Dinode)
    requires Sound(v) && x < v.sb.ninodes && d == v.Inodes()[x] && View(v)[x].Dir? && name in View(v)[x].names
    requires IsEntry(v, x, name, off)
    modifies v
    ensures !ok ==> v.Formatted() && v.Full()
    ensures ok ==> Sound(v) && v.Inodes() == old(v.Inodes())[x := d'] && d'.typ == d.typ
    ensures ok ==> View(v) == Unlinked(old(View(v)), x, name)
  {
    hide FileBytes, Listing, Dirents, ItemsOf, DirsOk, Typed, View, Stored, Shaped, Unique;
    ghost var ino, bs := v.Inodes(), AllBytes(v);
    TypeIs(v, x);
    ViewIs(v);
    FindIsLookup(Dirents(v.Bytes(x)), name);
    assert off % 32 == 0 && off / 32 == Find(Dirents(v.Bytes(x)), name, 0);
    hide Find;
    var r;
    r, d' := ClearEntry(v, x, d, off);
    if r.Panic? {
      return false, d';
    }
    SizeFits(v, x);
    assert AllBytes(v) == bs[x := v.Bytes(x)];
    Changed(ino, bs, x, d', v.Bytes(x));
    ViewIs(v);
    return true, d';
  }

  /** The end of `fs_rm`: the inode is emptied and marked unused. */
  method Drop(v: Volume, c: nat, d: Dinode) returns (d': Dinode)
    requires Sound(v) && c < v.sb.ninodes && d == v.Inodes()[c]
    modifies v
    ensures Sound(v) && v.Inodes() == old(v.Inodes())[c := d'] && d'.typ == FT_UNUSED
    ensures View(v) == old(View(v))[c := Unused]
  {
    hide FileBytes, Listing, Dirents, IsDirectory, ItemsOf, DirsOk, Typed, View, Stored, Shaped;
    ghost var ino, bs := v.Inodes(), AllBytes(v);
    ViewIs(v);
    var r;
    r, d' := v.Discard(c, d);
    assert AllBytes(v) == bs[c := []];
    Changed(ino, bs, c, d', []);
    ViewIs(v);
  }

  // ----- contents -----

  /** `writei` on any inode changes exactly its record and its bytes. */
  method Put(v: Volume, i: nat, d: Dinode, off: word, src: seq<byte>) returns (r: Outcome<int>, d': Dinode)
    requires v.Valid() && i < v.sb.ninodes && d == v.Inodes()[i] && |src| < 0x1_0000_0000
    modifies v
    ensures r.Panic? ==> v.Formatted() && v.Full()
    ensures r.Ok? ==> v.Valid() && v.Inodes() == old(v.Inodes())[i := d'] && d'.typ == d.typ
    ensures r.Ok? ==> r.value == if off > d.size || off + |src| > MAXBYTES then -1 else |src|
    ensures r.Ok? && (r.value < 0 || src == []) ==> d'.size == d.size && AllBytes(v) == old(AllBytes(v))
    ensures r.Ok? && r.value >= 0 ==>
              && off <= |old(v.Bytes(i))|
              && AllBytes(v) == old(AllBytes(v))[i := Overwrite(old(v.Bytes(i)), off, src)]
  {
    hide FileBytes, Stored, Shaped, Overwrite;
    ghost var bs := AllBytes(v);
    SizeFits(v, i);
    assert v.Inodes() == v.Inodes()[i := d];
    r, d' := v.Writei(i, d, src, off);
    if r.Ok? && r.value >= 0 {
      assert AllBytes(v) == bs[i := v.Bytes(i)];
      if src == [] {
        NothingOver(bs[i], off);
      }
    } else if r.Ok? {
      assert AllBytes(v) == bs;
    }
  }

  ghost predicate NoneHidden(ino: seq<Dinode>) {
    forall i :: 0 <= i < |ino| && ino[i].typ == FT_UNUSED ==> ino[i].size == 0
  }

  lemma SoundIs(v: Volume)
    requires v.Valid()
    ensures Sound(v) <==> NoneHidden(v.Inodes()) && Typed(v.Inodes()) && DirsOk(v.Inodes(), AllBytes(v))
  {
    hide Volume.Valid, DirsOk;
  }

  /**
   `writei` on any inode keeps the volume valid and changes exactly that inode's bytes; on a file the names stay as
   they are.
   */
  method Write(v: Volume, i: nat, d: Dinode, off: word, src: seq<byte>) returns (r: Outcome<int>, d': Dinode)
    requires v.Valid() && i < v.sb.ninodes && d == v.Inodes()[i] && |src| < 0x1_0000_0000
    modifies v
    ensures r.Panic? ==> v.Formatted() && v.Full()
    ensures r.Ok? ==> v.Valid() && v.Inodes() == old(v.Inodes())[i := d'] && d'.typ == d.typ
    ensures r.Ok? ==> r.value == if off > d.size || off + |src| > MAXBYTES then -1 else |src|
    ensures r.Ok? && (r.value < 0 || src == []) ==> View(v) == old(View(v)) && (old(Sound(v)) ==> Sound(v))
    ensures r.Ok? && r.value >= 0 ==>
              && off <= |old(v.Bytes(i))|
              && View(v) == old(View(v))[i := ItemOf(d', Overwrite(old(v.Bytes(i)), off, src))]
    ensures r.Ok? && r.value >= 0 && old(Sound(v) && View(v)[i].File?) ==>
              && Sound(v) && off <= |old(View(v))[i].bytes|
              && View(v) == old(View(v))[i := Item.File(Overwrite(old(View(v))[i].bytes, off, src))]
  {
    hide FileBytes, Listing, Dirents, IsDirectory, ItemsOf, DirsOk, Typed, View, Overwrite, Volume.Valid, Sound;
    ghost var ino, bs := v.Inodes(), AllBytes(v);
    SoundIs(v);
    if Sound(v) {
      TypeIs(v, i);
    }
    ViewIs(v);
    r, d' := Put(v, i, d, off, src);
    if r.Ok? {
      SoundIs(v);
      ViewIs(v);
      if r.value < 0 || src == [] {
        SameItems(ino, bs, i, d');
      }
      if r.value >= 0 {
        ItemsUpdate(ino, bs, i, d', v.Bytes(i));
        if old(Sound(v) && View(v)[i].File?) {
          Changed(ino, bs, i, d', v.Bytes(i));
        }
      }
    }
  }

  /** A record of the same type with the same contents makes no difference. */
  lemma SameItems(ino: seq<Dinode>, bs: seq<seq<byte>>, i: nat, d: Dinode)
    requires |ino| == |bs| && i < |ino| && d.typ == ino[i].typ
    ensures ItemsOf(ino[i := d], bs[i := bs[i]]) == ItemsOf(ino, bs) && bs[i := bs[i]] == bs
    ensures Typed(ino) ==> Typed(ino[i := d])
    ensures DirsOk(ino, bs) ==> DirsOk(ino[i := d], bs)
  {
    hide IsDirectory, Dirents, Listing;
    assert ItemOf(d, bs[i]) == ItemOf(ino[i], bs[i]);
  }

  lemma NothingOver(b: seq<byte>, off: nat)
    requires off <= |b|
    ensures Overwrite(b, off, []) == b
  {
  }

  /**
   `itrunc` on any inode keeps the volume valid and cuts exactly that inode's bytes; on a file the names stay as they
   are.
   */
  method Truncate(v: Volume, i: nat, d: Dinode, size: word) returns (d': Dinode)
    requires v.Valid() && i < v.sb.ninodes && d == v.Inodes()[i]
    modifies v
    ensures v.Valid() && v.Inodes() == old(v.Inodes())[i := d'] && d'.typ == d.typ
    ensures size >= d.size ==> d' == d && View(v) == old(View(v)) && (old(Sound(v)) ==> Sound(v))
    ensures View(v) == old(View(v))[i := ItemOf(d', CutTo(old(v.Bytes(i)), size))]
    ensures old(Sound(v) && View(v)[i].File?) ==>
              && Sound(v)
              && View(v) == old(View(v))[i := Item.File(CutTo(old(View(v))[i].bytes, size))]
  {
    hide FileBytes, Listing, Dirents, IsDirectory, ItemsOf, DirsOk, Typed, View, Stored, Shaped;
    ghost var ino, bs := v.Inodes(), AllBytes(v);
    SizeFits(v, i);
    assert v.Inodes() == v.Inodes()[i := d];
    if Sound(v) {
      TypeIs(v, i);
    }
    ViewIs(v);
    var r;
    r, d' := v.Itrunc(i, d, size);
    assert AllBytes(v) == bs[i := v.Bytes(i)];
    ItemsUpdate(ino, bs, i, d', v.Bytes(i));
    ViewIs(v);
    if size >= d.size {
      assert v.Inodes() == ino && AllBytes(v) == bs;
    } else if old(Sound(v) && View(v)[i].File?) {
      Changed(ino, bs, i, d', v.Bytes(i));
    }
  }
}
