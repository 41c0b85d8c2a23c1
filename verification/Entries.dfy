/**
 Programs can open a directory for writing, write into its entries, and cut it. What that does to the names, and exactly
 when they stay a tree.
 */
module Entries {
  import opened Codec
  import opened Layout
  import opened Contents
  import opened Items
  import opened Directory

  /** A directory with these bytes. */
  function DirOf(b: seq<byte>): Item { Dir(Listing(Dirents(b)), |b|) }

  /** What an inode in use becomes when its bytes do. */
  function Rewritten(i: Item, b: seq<byte>): Item { if i.Dir? then DirOf(b) else Item.File(b) }

  /** Fewer entries, or some of them cleared. */
  ghost predicate Fewer(fs: seq<Dirent>, es: seq<Dirent>) {
    Unique(es) && |fs| <= |es| && forall k :: 0 <= k < |fs| ==> fs[k] == es[k] || fs[k].inum == 0
  }

  lemma FewerHas(fs: seq<Dirent>, es: seq<Dirent>, n: Name)
    requires Fewer(fs, es) && n in LiveNames(fs)
    ensures n in LiveNames(es) && Inum(fs, n) == Inum(es, n)
  {
    LiveIs(fs, n);
    var k := Find(fs, n, 0);
    assert es[k] == fs[k];
    LiveIs(es, n);
    var j := Find(es, n, 0);
    assert es[j].name == es[k].name;
  }

  /** A live entry is there still exactly if its name is. */
  lemma FewerAt(fs: seq<Dirent>, es: seq<Dirent>, k: nat)
    requires Fewer(fs, es) && k < |es| && es[k].inum != 0
    ensures es[k].name in LiveNames(es)
    ensures es[k].name in LiveNames(fs) <==> k < |fs| && fs[k] == es[k]
  {
    if es[k].name in LiveNames(fs) {
      var j :| 0 <= j < |fs| && fs[j].inum != 0 && fs[j].name == es[k].name;
      assert fs[j] == es[j];
    }
  }

  /** No name is new, and all are there exactly if only free entries went. */
  lemma LostNames(es: seq<Dirent>, fs: seq<Dirent>)
    requires Fewer(fs, es)
    ensures Listing(fs).Keys <= Listing(es).Keys && forall n <- Listing(fs) :: Listing(fs)[n] == Listing(es)[n]
    ensures Listing(fs) == Listing(es) <==> forall k :: 0 <= k < |es| && es[k].inum != 0 ==> k < |fs| && fs[k] == es[k]
  {
    hide Fewer, Inum, Find;
    forall n <- LiveNames(fs)
      ensures n in LiveNames(es) && Inum(fs, n) == Inum(es, n)
    {
      FewerHas(fs, es, n);
    }
    forall k | 0 <= k < |es| && es[k].inum != 0
      ensures es[k].name in LiveNames(es) && (es[k].name in LiveNames(fs) <==> k < |fs| && fs[k] == es[k])
    {
      FewerAt(fs, es, k);
    }
    if forall k :: 0 <= k < |es| && es[k].inum != 0 ==> k < |fs| && fs[k] == es[k] {
      assert LiveNames(es) <= LiveNames(fs);
    }
  }

  /** The entries before `n` of a directory cut to any length. */
  lemma CutEntries(b: seq<byte>, size: nat)
    requires size <= |b|
    ensures Dirents(b[..size]) == Dirents(b)[..size / 32]
  {
    forall k | 0 <= k < size / 32
      ensures EntryAt(b[..size], k) == EntryAt(b, k)
    {
      assert b[..size][32 * k..32 * k + 32] == b[32 * k..32 * k + 32];
    }
  }

  /** `fs_ftruncate` of a directory keeps the tree exactly if all entries that go are free. */
  lemma CutKeepsTreeIff(s: seq<Item>, x: nat, b: seq<byte>, size: nat)
    requires IsTree(s) && x < |s| && s[x] == DirOf(b) && IsDirectory(b) && size <= |b|
    ensures IsTree(s[x := DirOf(b[..size])]) <==> forall k :: size / 32 <= k < |b| / 32 ==> Dirents(b)[k].inum == 0
  {
    hide Dirents, Listing, IsTree;
    CutEntries(b, size);
    var es, fs := Dirents(b), Dirents(b[..size]);
    LostNames(es, fs);
    FewerNamesIff(s, x, Listing(fs), size);
  }

  /** So cutting a directory to nothing never does: it has its dots. */
  lemma EmptyingBreaksTree(s: seq<Item>, x: nat, b: seq<byte>)
    requires IsTree(s) && x < |s| && s[x] == DirOf(b) && IsDirectory(b)
    ensures !IsTree(s[x := DirOf(b[..0])])
  {
    assert HasDots(s, x);
    DotEntry(b);
    CutKeepsTreeIff(s, x, b, 0);
  }

  lemma DotEntry(b: seq<byte>)
    requires "." in Listing(Dirents(b))
    ensures exists k :: 0 <= k < |b| / 32 && Dirents(b)[k].inum != 0
  {
    LiveIs(Dirents(b), ".");
  }

  const Zeros: seq<byte> := seq(32, i => 0)

  lemma ZeroEntry()
    ensures DecodeEntry(Zeros).inum == 0
  {
  }

  /** `fs_write` of zeros over an entry keeps the tree exactly if the entry is free. */
  lemma ClearKeepsTreeIff(s: seq<Item>, x: nat, b: seq<byte>, k: nat)
    requires IsTree(s) && x < |s| && s[x] == DirOf(b) && IsDirectory(b) && k < |b| / 32
    ensures IsTree(s[x := DirOf(Overwrite(b, 32 * k, Zeros))]) <==> Dirents(b)[k].inum == 0
  {
    hide Dirents, Listing, IsTree, DecodeEntry, Overwrite;
    ClearedEntries(b, k);
    var es, fs := Dirents(b), Dirents(Overwrite(b, 32 * k, Zeros));
    LostNames(es, fs);
    FewerNamesIff(s, x, Listing(fs), |b|);
  }

  lemma ClearedEntries(b: seq<byte>, k: nat)
    requires IsDirectory(b) && k < |b| / 32
    ensures var es, fs := Dirents(b), Dirents(Overwrite(b, 32 * k, Zeros));
            |fs| == |es| && fs[k].inum == 0 && forall j :: 0 <= j < |es| && j != k ==> fs[j] == es[j]
  {
    hide DecodeEntry, Overwrite;
    var c := Overwrite(b, 32 * k, Zeros);
    ZeroEntry();
    forall j | 0 <= j < |b| / 32
      ensures EntryAt(c, j) == if j == k then DecodeEntry(Zeros) else EntryAt(b, j)
    {
      EntrySlice(b, k, Zeros, j);
    }
  }

  /**
   Writing to an inode in use keeps the tree, whatever is written and where, exactly if that is not a directory: one
   that is has its dots, and a write of zeros over them breaks the tree.
   */
  lemma WriteKeepsTreeIff(s: seq<Item>, x: nat, b: seq<byte>)
    requires IsTree(s) && x < |s| && !s[x].Unused? && s[x] == Rewritten(s[x], b) && |b| <= MAXBYTES
    requires s[x].Dir? ==> IsDirectory(b)
    ensures (forall off, src :: 0 <= off <= |b| && off + |src| <= MAXBYTES ==>
               IsTree(s[x := Rewritten(s[x], Overwrite(b, off, src))])) <==> !s[x].Dir?
  {
    hide Dirents, Listing, IsTree, Overwrite;
    if s[x].Dir? {
      TreeHasDots(s, x);
      DotEntry(b);
      var k :| 0 <= k < |b| / 32 && Dirents(b)[k].inum != 0;
      ClearKeepsTreeIff(s, x, b, k);
      var off, src := 32 * k, Zeros;
      assert 0 <= off <= |b| && off + |src| <= MAXBYTES && !IsTree(s[x := Rewritten(s[x], Overwrite(b, off, src))]);
    } else {
      forall off, src | 0 <= off <= |b| && off + |src| <= MAXBYTES
        ensures IsTree(s[x := Rewritten(s[x], Overwrite(b, off, src))])
      {
        FileTree(s, x, Item.File(Overwrite(b, off, src)));
      }
    }
  }

  lemma TreeHasDots(s: seq<Item>, x: nat)
    requires IsTree(s) && x < |s| && s[x].Dir?
    ensures "." in s[x].names
  {
    assert HasDots(s, x);
  }
}
