/**
 The tables of the kernel: the inode cache, the open files, the descriptors and current directories of the
 processes. What each routine does to them, and that every count is the number of references.
 */
module Tables {
  import opened Basics
  import opened Codec
  import opened Layout
  import W = World
  import T = Tree

  const NINODE: nat := W.NINODE

  /** A slot of the inode cache; it is live while `ref` is positive. */
  datatype Slot = Slot(dev: nat, inum: nat, ref: nat, valid: bool, d: Dinode)

  datatype Kind = Unset | Inode | Console

  datatype File = File(ref: nat, kind: Kind, readable: bool, writable: bool, ip: Option<nat>, off: word)

  /** `held` are the slots, and `loose` the files, that the running code holds a reference to. */
  datatype Tab = Tab(
    slots: seq<Slot>, files: seq<File>, cwds: seq<Option<nat>>, fds: seq<Option<nat>>, held: multiset<nat>,
    loose: multiset<nat>)

  // ----- reference counts -----

  function Ips(files: seq<File>): (s: seq<Option<nat>>)
    ensures |s| == |files| && forall f :: 0 <= f < |files| ==> s[f] == files[f].ip
  {
    seq(|files|, f requires 0 <= f < |files| => files[f].ip)
  }

  /** The references to slot `k`: open files, current directories, and what the running code holds. */
  ghost function Holders(files: seq<File>, cwds: seq<Option<nat>>, held: multiset<nat>, k: nat): nat {
    multiset(Ips(files))[Some(k)] + multiset(cwds)[Some(k)] + held[k]
  }

  ghost predicate Counted(slots: seq<Slot>, files: seq<File>, cwds: seq<Option<nat>>, held: multiset<nat>) {
    forall k :: 0 <= k < |slots| ==> slots[k].ref == Holders(files, cwds, held, k)
  }

  /** The references to a file: descriptors, and what the running code holds. */
  ghost predicate FilesCounted(files: seq<File>, fds: seq<Option<nat>>, loose: multiset<nat>) {
    forall f :: 0 <= f < |files| ==> files[f].ref == multiset(fds)[Some(f)] + loose[f]
  }

  ghost predicate Counts(t: Tab) { Counted(t.slots, t.files, t.cwds, t.held) }

  ghost predicate FileCounts(t: Tab) { FilesCounted(t.files, t.fds, t.loose) }

  // ----- the cache -----

  function Recs(dev: nat, ino0: seq<Dinode>, ino1: seq<Dinode>): seq<Dinode> { if dev == 0 then ino0 else ino1 }

  predicate SlotOk(s: Slot, ino0: seq<Dinode>, ino1: seq<Dinode>) {
    && s.dev < 2 && s.inum < |Recs(s.dev, ino0, ino1)|
    && (s.valid ==> s.d == Recs(s.dev, ino0, ino1)[s.inum])
  }

  /** Every live slot agrees with the disk once it has been read. */
  ghost predicate Coherent(slots: seq<Slot>, ino0: seq<Dinode>, ino1: seq<Dinode>) {
    forall k :: 0 <= k < |slots| && slots[k].ref > 0 ==> SlotOk(slots[k], ino0, ino1)
  }

  predicate Same(s: Slot, t: Slot) { s.dev == t.dev && s.inum == t.inum }

  /** No inode is cached twice. */
  ghost predicate Distinct(slots: seq<Slot>) {
    forall j, k :: 0 <= j < k < |slots| && slots[j].ref > 0 && slots[k].ref > 0 ==> !Same(slots[j], slots[k])
  }

  /**
   An open file is on the console or has an inode, which has been read; if it is open for writing, not on device
   0.
   */
  predicate FileOk(f: File, slots: seq<Slot>) {
    && (f.ref == 0 ==> f.ip == None)
    && (f.ref > 0 ==> f.kind != Unset && (f.kind == Inode <==> f.ip.Some?))
    && (f.ip.Some? ==> f.ip.value < |slots| && slots[f.ip.value].valid && (f.writable ==> slots[f.ip.value].dev != 0))
  }

  ghost predicate FilesOk(files: seq<File>, slots: seq<Slot>) {
    forall f :: 0 <= f < |files| ==> FileOk(files[f], slots)
  }

  ghost predicate InRange(s: seq<Option<nat>>, n: nat) {
    forall i :: 0 <= i < |s| && s[i].Some? ==> s[i].value < n
  }

  ghost predicate Under(m: multiset<nat>, n: nat) { forall k <- m :: k < n }

  lemma UnderSum(a: multiset<nat>, b: multiset<nat>, n: nat)
    ensures Under(a + b, n) <==> Under(a, n) && Under(b, n)
  {
    assert forall k <- a :: k in a + b;
    assert forall k <- b :: k in a + b;
  }

  lemma UnderOne(o: Option<nat>, n: nat)
    ensures Under(Bag(o), n) <==> (o.Some? ==> o.value < n)
  {
    if o.Some? && Under(Bag(o), n) {
      assert o.value in Bag(o);
    }
  }

  /** Every reference is counted, every count is a reference, and the cache agrees with the disks. */
  ghost predicate Exact(t: Tab, ino0: seq<Dinode>, ino1: seq<Dinode>) {
    && Counted(t.slots, t.files, t.cwds, t.held) && FilesCounted(t.files, t.fds, t.loose) && FilesOk(t.files, t.slots)
    && InRange(t.cwds, |t.slots|) && InRange(t.fds, |t.files|)
    && Under(t.held, |t.slots|) && Under(t.loose, |t.files|)
    && Distinct(t.slots) && Coherent(t.slots, ino0, ino1)
  }

  ghost predicate AreJust(held: multiset<nat>, lost: seq<nat>) { held == multiset(lost) }

  /** Among the held slots are those that were lost. */
  ghost predicate Covers(held: multiset<nat>, lost: seq<nat>) { multiset(lost) <= held }

  lemma CoversMore(held: multiset<nat>, lost: seq<nat>, k: nat)
    requires Covers(held, lost)
    ensures Covers(held + multiset{k}, lost)
  {
  }

  /** The slots in `h` keep their inode, and its record once read. */
  ghost predicate Kept(h: multiset<nat>, a: seq<Slot>, b: seq<Slot>) {
    |a| == |b| && forall k <- h :: k < |a| ==> Same(a[k], b[k]) && (a[k].valid ==> b[k].valid)
  }

  lemma KeptRefl(h: multiset<nat>, a: seq<Slot>)
    ensures Kept(h, a, a)
  {
  }

  lemma KeptTrans(h: multiset<nat>, h1: multiset<nat>, h2: multiset<nat>, a: seq<Slot>, b: seq<Slot>, c: seq<Slot>)
    requires Kept(h1, a, b) && Kept(h2, b, c) && h <= h1 && h <= h2
    ensures Kept(h, a, c)
  {
  }

  lemma KeptAt(h: multiset<nat>, a: seq<Slot>, b: seq<Slot>, k: nat)
    requires Kept(h, a, b) && k in h && k < |a|
    ensures |b| == |a| && Same(a[k], b[k]) && (a[k].valid ==> b[k].valid)
  {
  }

  lemma KeptSet(h: multiset<nat>, a: seq<Slot>, k: nat, s: Slot)
    requires k < |a| && Same(a[k], s) && (a[k].valid ==> s.valid)
    ensures Kept(h, a, a[k := s])
  {
  }

  // ----- what programs see of the tables -----

  function InodeOf(s: Slot): T.Node { T.Node(s.dev, s.inum) }

  function NodeAt(slots: seq<Slot>, k: Option<nat>): Option<T.Node> {
    if k.Some? && k.value < |slots| then Some(InodeOf(slots[k.value])) else None
  }

  function HandleOf(slots: seq<Slot>, f: File): W.Handle {
    if f.ref == 0 then W.Free
    else if NodeAt(slots, f.ip).Some? then W.OnInode(f.ref, f.readable, f.writable, NodeAt(slots, f.ip).value, f.off)
    else W.OnConsole(f.ref, f.readable, f.writable)
  }

  function Handles(slots: seq<Slot>, files: seq<File>): (s: seq<W.Handle>)
    ensures |s| == |files|
  {
    seq(|files|, f requires 0 <= f < |files| => HandleOf(slots, files[f]))
  }

  function Seats(slots: seq<Slot>, cwds: seq<Option<nat>>): (s: seq<Option<T.Node>>)
    ensures |s| == |cwds|
  {
    seq(|cwds|, p requires 0 <= p < |cwds| => NodeAt(slots, cwds[p]))
  }

  function Nodes(slots: seq<Slot>, ks: seq<nat>): (s: seq<T.Node>)
    ensures |s| == |ks|
  {
    seq(|ks|, i requires 0 <= i < |ks| => if ks[i] < |slots| then InodeOf(slots[ks[i]]) else T.Root)
  }

  lemma HandlesSet(slots: seq<Slot>, files: seq<File>, f: nat, g: File)
    requires f < |files|
    ensures Handles(slots, files[f := g]) == Handles(slots, files)[f := HandleOf(slots, g)]
  {
  }

  lemma SeatsSet(slots: seq<Slot>, cwds: seq<Option<nat>>, p: nat, c: Option<nat>)
    requires p < |cwds|
    ensures Seats(slots, cwds[p := c]) == Seats(slots, cwds)[p := NodeAt(slots, c)]
  {
  }

  lemma NodesMore(slots: seq<Slot>, ks: seq<nat>, k: nat)
    requires k < |slots|
    ensures Nodes(slots, ks + [k]) == Nodes(slots, ks) + [InodeOf(slots[k])]
  {
  }

  /** The slots `a` and `b` look the same to files, processes and whoever holds `lost`. */
  ghost predicate LookSame(t: Tab, lost: seq<nat>, b: seq<Slot>) {
    && Handles(b, t.files) == Handles(t.slots, t.files)
    && Seats(b, t.cwds) == Seats(t.slots, t.cwds)
    && Nodes(b, lost) == Nodes(t.slots, lost)
  }

  /** If the live slots keep their inodes, nobody sees a difference. */
  lemma LiveLookSame(t: Tab, lost: seq<nat>, b: seq<Slot>)
    requires Counts(t) && FilesOk(t.files, t.slots) && InRange(t.cwds, |t.slots|) && |b| == |t.slots|
    requires Covers(t.held, lost)
    requires forall k :: 0 <= k < |b| && t.slots[k].ref > 0 ==> Same(t.slots[k], b[k])
    ensures LookSame(t, lost, b)
  {
    forall f | 0 <= f < |t.files|
      ensures HandleOf(b, t.files[f]) == HandleOf(t.slots, t.files[f])
    {
      assert FileOk(t.files[f], t.slots);
      if t.files[f].ip.Some? {
        FileIsLive(t, f);
      }
    }
    forall p | 0 <= p < |t.cwds|
      ensures NodeAt(b, t.cwds[p]) == NodeAt(t.slots, t.cwds[p])
    {
      if t.cwds[p].Some? {
        CwdIsLive(t, p);
      }
    }
    forall i | 0 <= i < |lost|
      ensures lost[i] < |t.slots| ==> InodeOf(b[lost[i]]) == InodeOf(t.slots[lost[i]])
    {
      assert lost[i] in multiset(lost);
      if lost[i] < |t.slots| {
        HeldIsLive(t, lost[i]);
      }
    }
  }

  // ----- who is live -----

  lemma HeldIsLive(t: Tab, k: nat)
    requires Counts(t) && k < |t.slots| && k in t.held
    ensures t.slots[k].ref > 0
  {
    assert t.slots[k].ref == Holders(t.files, t.cwds, t.held, k);
  }

  lemma FileIsLive(t: Tab, f: nat)
    requires Counts(t) && f < |t.files| && t.files[f].ip.Some? && t.files[f].ip.value < |t.slots|
    ensures t.slots[t.files[f].ip.value].ref > 0
  {
    var k := t.files[f].ip.value;
    assert t.slots[k].ref == Holders(t.files, t.cwds, t.held, k);
    assert Ips(t.files)[f] in multiset(Ips(t.files));
  }

  lemma CwdIsLive(t: Tab, p: nat)
    requires Counts(t) && p < |t.cwds| && t.cwds[p].Some? && t.cwds[p].value < |t.slots|
    ensures t.slots[t.cwds[p].value].ref > 0
  {
    var k := t.cwds[p].value;
    assert t.slots[k].ref == Holders(t.files, t.cwds, t.held, k);
    assert t.cwds[p] in multiset(t.cwds);
  }

  /** No file holds a slot that is not live. */
  lemma DeadSlot(t: Tab, k: nat)
    requires Counts(t) && k < |t.slots| && t.slots[k].ref == 0
    ensures k !in t.held && forall f :: 0 <= f < |t.files| ==> t.files[f].ip != Some(k)
  {
    forall f | 0 <= f < |t.files| && t.files[f].ip == Some(k)
      ensures false
    {
      FileIsLive(t, f);
    }
    if k in t.held {
      HeldIsLive(t, k);
    }
  }

  lemma LiveSlot(t: Tab, ino0: seq<Dinode>, ino1: seq<Dinode>, k: nat)
    requires Exact(t, ino0, ino1) && k < |t.slots| && t.slots[k].ref > 0
    ensures SlotOk(t.slots[k], ino0, ino1)
  {
  }

  lemma HeldSlot(t: Tab, ino0: seq<Dinode>, ino1: seq<Dinode>, k: nat)
    requires Exact(t, ino0, ino1) && k in t.held
    ensures k < |t.slots| && t.slots[k].ref > 0 && SlotOk(t.slots[k], ino0, ino1)
  {
    HeldIsLive(t, k);
  }

  lemma CwdSlot(t: Tab, ino0: seq<Dinode>, ino1: seq<Dinode>, p: nat)
    requires Exact(t, ino0, ino1) && p < |t.cwds| && t.cwds[p].Some?
    ensures t.cwds[p].value < |t.slots| && SlotOk(t.slots[t.cwds[p].value], ino0, ino1)
  {
    CwdIsLive(t, p);
  }

  /** The file of a descriptor, and its slot. */
  lemma FdFile(t: Tab, ino0: seq<Dinode>, ino1: seq<Dinode>, i: nat)
    requires Exact(t, ino0, ino1) && i < |t.fds| && t.fds[i].Some?
    ensures t.fds[i].value < |t.files| && t.files[t.fds[i].value].ref > 0 && FileOk(t.files[t.fds[i].value], t.slots)
    ensures var ip := t.files[t.fds[i].value].ip;
            ip.Some? ==> t.slots[ip.value].ref > 0 && SlotOk(t.slots[ip.value], ino0, ino1)
  {
    var f := t.fds[i].value;
    assert t.fds[i] in multiset(t.fds);
    if t.files[f].ip.Some? {
      FileIsLive(t, f);
    }
  }

  lemma LooseIsOpen(t: Tab, ino0: seq<Dinode>, ino1: seq<Dinode>, f: nat)
    requires Exact(t, ino0, ino1) && f in t.loose
    ensures f < |t.files| && t.files[f].ref > 0 && FileOk(t.files[f], t.slots)
  {
  }

  // ----- how the counts change -----

  lemma Hold(t: Tab, k: nat, s: Slot)
    requires Counts(t) && k < |t.slots| && s.ref == t.slots[k].ref + 1
    ensures Counts(t.(slots := t.slots[k := s], held := t.held + multiset{k}))
  {
    var u := t.(slots := t.slots[k := s], held := t.held + multiset{k});
    forall j | 0 <= j < |u.slots|
      ensures u.slots[j].ref == Holders(u.files, u.cwds, u.held, j)
    {
      assert t.slots[j].ref == Holders(t.files, t.cwds, t.held, j);
    }
  }

  lemma Unhold(t: Tab, k: nat, h: multiset<nat>)
    requires Counts(t) && k < |t.slots| && t.held == h + multiset{k}
    ensures t.slots[k].ref > 0
    ensures Counts(t.(slots := t.slots[k := t.slots[k].(ref := t.slots[k].ref - 1)], held := h))
  {
    HeldIsLive(t, k);
    var u := t.(slots := t.slots[k := t.slots[k].(ref := t.slots[k].ref - 1)], held := h);
    forall j | 0 <= j < |u.slots|
      ensures u.slots[j].ref == Holders(u.files, u.cwds, u.held, j)
    {
      assert t.slots[j].ref == Holders(t.files, t.cwds, t.held, j);
    }
  }

  /** A file takes over a held reference, gives one back, or keeps what it has. */
  lemma FileTakes(t: Tab, f: nat, g: File, h: multiset<nat>)
    requires Counts(t) && f < |t.files| && t.files[f].ip == None && g.ip.Some? && t.held == h + multiset{g.ip.value}
    ensures Counts(t.(files := t.files[f := g], held := h))
  {
    assert Ips(t.files[f := g]) == Ips(t.files)[f := g.ip];
    var u := t.(files := t.files[f := g], held := h);
    forall k | 0 <= k < |t.slots|
      ensures u.slots[k].ref == Holders(u.files, u.cwds, u.held, k)
    {
      assert t.slots[k].ref == Holders(t.files, t.cwds, t.held, k);
    }
  }

  lemma FileGives(t: Tab, f: nat, g: File)
    requires Counts(t) && f < |t.files| && t.files[f].ip.Some? && g.ip == None
    ensures Counts(t.(files := t.files[f := g], held := t.held + multiset{t.files[f].ip.value}))
  {
    assert Ips(t.files[f := g]) == Ips(t.files)[f := g.ip];
    assert Ips(t.files)[f] in multiset(Ips(t.files));
    var u := t.(files := t.files[f := g], held := t.held + multiset{t.files[f].ip.value});
    forall k | 0 <= k < |t.slots|
      ensures u.slots[k].ref == Holders(u.files, u.cwds, u.held, k)
    {
      assert t.slots[k].ref == Holders(t.files, t.cwds, t.held, k);
    }
  }

  lemma FileKeeps(t: Tab, f: nat, g: File)
    requires Counts(t) && f < |t.files| && t.files[f].ip == g.ip
    ensures Counts(t.(files := t.files[f := g]))
  {
    assert Ips(t.files[f := g]) == Ips(t.files);
    var u := t.(files := t.files[f := g]);
    forall k | 0 <= k < |t.slots|
      ensures u.slots[k].ref == Holders(u.files, u.cwds, u.held, k)
    {
      assert t.slots[k].ref == Holders(t.files, t.cwds, t.held, k);
    }
  }

  /** The references in an option, as a multiset. */
  function Bag(o: Option<nat>): multiset<nat> { if o.Some? then multiset{o.value} else multiset{} }

  /** A process takes a held reference as its current directory and gives back the one before. */
  lemma CwdSwaps(t: Tab, p: nat, c: Option<nat>, h: multiset<nat>)
    requires Counts(t) && p < |t.cwds| && t.held == h + Bag(c)
    ensures Counts(t.(cwds := t.cwds[p := c], held := h + Bag(t.cwds[p])))
  {
    assert t.cwds[p] in multiset(t.cwds);
    var u := t.(cwds := t.cwds[p := c], held := h + Bag(t.cwds[p]));
    forall k | 0 <= k < |t.slots|
      ensures u.slots[k].ref == Holders(u.files, u.cwds, u.held, k)
    {
      assert t.slots[k].ref == Holders(t.files, t.cwds, t.held, k);
    }
  }

  lemma CountUpdate<V>(s: seq<V>, i: nat, x: V, y: V)
    requires i < |s|
    ensures multiset(s[i := x])[y] == multiset(s)[y] - (if s[i] == y then 1 else 0) + (if x == y then 1 else 0)
  {
    assert s == s[..i] + [s[i]] + s[i + 1..];
    assert s[i := x] == s[..i] + [x] + s[i + 1..];
  }

  /** Descriptor `i` changes hands with the running code. */
  lemma FdSwaps(t: Tab, i: nat, f: Option<nat>, m: multiset<nat>)
    requires FileCounts(t) && i < |t.fds| && t.loose == m + Bag(f)
    ensures FileCounts(t.(fds := t.fds[i := f], loose := m + Bag(t.fds[i])))
  {
    var u := t.(fds := t.fds[i := f], loose := m + Bag(t.fds[i]));
    forall g | 0 <= g < |t.files|
      ensures u.files[g].ref == multiset(u.fds)[Some(g)] + u.loose[g]
    {
      assert t.files[g].ref == multiset(t.fds)[Some(g)] + t.loose[g];
      CountUpdate(t.fds, i, f, Some(g));
      assert Bag(f)[g] == (if f == Some(g) then 1 else 0);
      assert Bag(t.fds[i])[g] == (if t.fds[i] == Some(g) then 1 else 0);
    }
  }

  // ----- what the routines do to the tables -----

  /** `iget`: one more reference to a live slot, or the first to a free one. */
  lemma AfterIget(t: Tab, ino0: seq<Dinode>, ino1: seq<Dinode>, lost: seq<nat>, k: nat, s: Slot)
    requires Exact(t, ino0, ino1) && k < |t.slots| && SlotOk(s, ino0, ino1) && Covers(t.held, lost)
    requires s.ref == t.slots[k].ref + 1 && (t.slots[k].ref > 0 ==> s == t.slots[k].(ref := s.ref))
    requires t.slots[k].ref == 0 ==> forall j :: 0 <= j < |t.slots| && t.slots[j].ref > 0 ==> !Same(t.slots[j], s)
    ensures Exact(t.(slots := t.slots[k := s], held := t.held + multiset{k}), ino0, ino1)
    ensures Kept(t.held, t.slots, t.slots[k := s]) && LookSame(t, lost, t.slots[k := s])
  {
    Hold(t, k, s);
    LiveLookSame(t, lost, t.slots[k := s]);
    UnderSum(t.held, multiset{k}, |t.slots|);
    IgetFiles(t, k, s);
    hide Counted, FilesCounted, SlotOk, LookSame, FilesOk, Under;
  }

  lemma IgetFiles(t: Tab, k: nat, s: Slot)
    requires Counts(t) && FilesOk(t.files, t.slots) && k < |t.slots|
    requires (t.slots[k].ref > 0 ==> s == t.slots[k].(ref := s.ref))
    ensures FilesOk(t.files, t.slots[k := s]) && Kept(t.held, t.slots, t.slots[k := s])
  {
    if t.slots[k].ref == 0 {
      DeadSlot(t, k);
    }
    hide Counted;
  }

  lemma SetFiles(files: seq<File>, slots: seq<Slot>, k: nat, s: Slot)
    requires FilesOk(files, slots) && k < |slots| && Same(slots[k], s) && (slots[k].valid ==> s.valid)
    ensures FilesOk(files, slots[k := s])
  {
  }

  /** `iput` */
  lemma AfterIput(t: Tab, ino0: seq<Dinode>, ino1: seq<Dinode>, lost: seq<nat>, k: nat, h: multiset<nat>)
    requires Exact(t, ino0, ino1) && t.held == h + multiset{k} && Covers(t.held, lost)
    ensures k < |t.slots| && t.slots[k].ref > 0
    ensures var slots := t.slots[k := t.slots[k].(ref := t.slots[k].ref - 1)];
            Exact(t.(slots := slots, held := h), ino0, ino1) && Kept(t.held, t.slots, slots) && LookSame(t, lost, slots)
  {
    UnderSum(h, multiset{k}, |t.slots|);
    assert k in multiset{k};
    Unhold(t, k, h);
    var slots := t.slots[k := t.slots[k].(ref := t.slots[k].ref - 1)];
    LiveLookSame(t, lost, slots);
    KeptSet(t.held, t.slots, k, slots[k]);
    SetFiles(t.files, t.slots, k, slots[k]);
    hide Counted, FilesCounted, FilesOk, Kept, LookSame, Under, InRange;
  }

  /** A live slot gets the record that its inode has on disk from now on; no other inode changes. */
  lemma AfterUpdate(t: Tab, ino0: seq<Dinode>, ino1: seq<Dinode>, ino1': seq<Dinode>, lost: seq<nat>, k: nat, d: Dinode)
    requires Exact(t, ino0, ino1) && k < |t.slots| && t.slots[k].ref > 0 && Covers(t.held, lost)
    requires t.slots[k].dev == 1 && t.slots[k].inum < |ino1| && ino1' == ino1[t.slots[k].inum := d]
    ensures var slots := t.slots[k := t.slots[k].(valid := true, d := d)];
            Exact(t.(slots := slots), ino0, ino1') && LookSame(t, lost, slots) && Kept(t.held, t.slots, slots)
  {
    var slots := t.slots[k := t.slots[k].(valid := true, d := d)];
    var u := t.(slots := slots);
    SlotKeeps(t, k, slots[k]);
    LiveLookSame(t, lost, slots);
    KeptSet(t.held, t.slots, k, slots[k]);
    SetFiles(t.files, t.slots, k, slots[k]);
    hide Counted, FilesCounted, FilesOk, Kept, LookSame, Under, InRange;
    forall j | 0 <= j < |slots| && slots[j].ref > 0
      ensures SlotOk(slots[j], ino0, ino1')
    {
      assert SlotOk(t.slots[j], ino0, ino1);
      assert j != k ==> !Same(t.slots[j], t.slots[k]);
    }
  }

  /** `ilock` of a slot that has not been read: the record on disk is loaded. */
  lemma AfterLoad(t: Tab, ino0: seq<Dinode>, ino1: seq<Dinode>, lost: seq<nat>, k: nat)
    requires Exact(t, ino0, ino1) && k < |t.slots| && t.slots[k].ref > 0 && Covers(t.held, lost)
    ensures SlotOk(t.slots[k], ino0, ino1)
    ensures var slots := t.slots[k := t.slots[k].(valid := true,
              d := Recs(t.slots[k].dev, ino0, ino1)[t.slots[k].inum])];
            Exact(t.(slots := slots), ino0, ino1) && LookSame(t, lost, slots) && Kept(t.held, t.slots, slots)
  {
    assert SlotOk(t.slots[k], ino0, ino1);
    var slots := t.slots[k := t.slots[k].(valid := true, d := Recs(t.slots[k].dev, ino0, ino1)[t.slots[k].inum])];
    SlotKeeps(t, k, slots[k]);
    LiveLookSame(t, lost, slots);
    KeptSet(t.held, t.slots, k, slots[k]);
    SetFiles(t.files, t.slots, k, slots[k]);
    hide Counted, FilesCounted, FilesOk, Kept, LookSame, Under, InRange;
  }

  /** A slot changes, but not its count. */
  lemma SlotKeeps(t: Tab, k: nat, s: Slot)
    requires Counts(t) && k < |t.slots| && s.ref == t.slots[k].ref
    ensures Counts(t.(slots := t.slots[k := s]))
  {
    var u := t.(slots := t.slots[k := s]);
    forall j | 0 <= j < |u.slots|
      ensures u.slots[j].ref == Holders(u.files, u.cwds, u.held, j)
    {
      assert t.slots[j].ref == Holders(t.files, t.cwds, t.held, j);
    }
  }

  /** The record of an inode changes on disk while no live slot has read it. */
  lemma AfterClaim(t: Tab, ino0: seq<Dinode>, ino1: seq<Dinode>, c: nat, d: Dinode)
    requires Exact(t, ino0, ino1) && c < |ino1|
    requires forall k :: 0 <= k < |t.slots| && t.slots[k].ref > 0 ==> t.slots[k].dev != 1 || t.slots[k].inum != c
    ensures Exact(t, ino0, ino1[c := d])
  {
    hide Counted, FilesCounted, FileOk;
    forall k | 0 <= k < |t.slots| && t.slots[k].ref > 0
      ensures SlotOk(t.slots[k], ino0, ino1[c := d])
    {
      assert SlotOk(t.slots[k], ino0, ino1);
    }
  }

  /** `ialloc`: inode `c` was claimed on disk; its slot, the live one or a free one, gets the new record. */
  lemma AfterNew(t: Tab, ino0: seq<Dinode>, ino1: seq<Dinode>, lost: seq<nat>, c: nat, d: Dinode, k: nat, s: Slot)
    requires Exact(t, ino0, ino1) && c < |ino1| && k < |t.slots| && Covers(t.held, lost)
    requires s == Slot(1, c, t.slots[k].ref + 1, true, d)
    requires if t.slots[k].ref > 0 then Same(t.slots[k], s)
             else forall j :: 0 <= j < |t.slots| && t.slots[j].ref > 0 ==> !Same(t.slots[j], s)
    ensures Exact(t.(slots := t.slots[k := s], held := t.held + multiset{k}), ino0, ino1[c := d])
    ensures Kept(t.held, t.slots, t.slots[k := s]) && LookSame(t, lost, t.slots[k := s])
  {
    if t.slots[k].ref > 0 {
      var u := t.(slots := t.slots[k := t.slots[k].(valid := true, d := d)]);
      AfterUpdate(t, ino0, ino1, ino1[c := d], lost, k, d);
      AfterIget(u, ino0, ino1[c := d], lost, k, s);
      KeptTrans(t.held, t.held, t.held, t.slots, u.slots, u.slots[k := s]);
      hide Exact, Kept;
      assert u.slots[k := s] == t.slots[k := s];
    } else {
      AfterClaim(t, ino0, ino1, c, d);
      AfterIget(t, ino0, ino1[c := d], lost, k, s);
    }
  }

  /** A free file is opened; it takes over the held reference to its inode. */
  lemma AfterOpen(t: Tab, ino0: seq<Dinode>, ino1: seq<Dinode>, f: nat, g: File, h: multiset<nat>)
    requires Exact(t, ino0, ino1) && f < |t.files| && t.files[f].ref == 0 && g.ref == 1 && FileOk(g, t.slots)
    requires t.held == h + Bag(g.ip)
    ensures Exact(t.(files := t.files[f := g], held := h, loose := t.loose + multiset{f}), ino0, ino1)
  {
    assert t.files[f].ip == None by { assert FileOk(t.files[f], t.slots); }
    if g.ip.Some? {
      FileTakes(t, f, g, h);
    } else {
      FileKeeps(t, f, g);
    }
    UnderSum(h, Bag(g.ip), |t.slots|);
    UnderSum(t.loose, multiset{f}, |t.files|);
    hide Counted, SlotOk, Distinct, Coherent, FileOk, Under;
  }

  /** A descriptor takes over a loose file, or gives up the one it has. */
  lemma AfterFd(t: Tab, ino0: seq<Dinode>, ino1: seq<Dinode>, i: nat, f: Option<nat>, m: multiset<nat>)
    requires Exact(t, ino0, ino1) && i < |t.fds| && t.loose == m + Bag(f)
    ensures Exact(t.(fds := t.fds[i := f], loose := m + Bag(t.fds[i])), ino0, ino1)
  {
    FdSwaps(t, i, f, m);
    UnderSum(m, Bag(f), |t.files|);
    UnderSum(m, Bag(t.fds[i]), |t.files|);
    UnderOne(f, |t.files|);
    UnderOne(t.fds[i], |t.files|);
    hide Counted, FilesCounted, SlotOk, Distinct, Coherent, FileOk, Under, Bag;
  }

  /** A loose file gives up one of several references. */
  lemma AfterDrop(t: Tab, ino0: seq<Dinode>, ino1: seq<Dinode>, f: nat, m: multiset<nat>)
    requires Exact(t, ino0, ino1) && t.loose == m + multiset{f} && f < |t.files| && t.files[f].ref > 1
    ensures Exact(t.(files := t.files[f := t.files[f].(ref := t.files[f].ref - 1)], loose := m), ino0, ino1)
  {
    FileKeeps(t, f, t.files[f].(ref := t.files[f].ref - 1));
    UnderSum(m, multiset{f}, |t.files|);
    hide Counted, SlotOk, Distinct, Coherent, Under;
  }

  /** A loose file gives up its last reference; the inode it had is held by the running code. */
  lemma AfterLast(t: Tab, ino0: seq<Dinode>, ino1: seq<Dinode>, f: nat, g: File, m: multiset<nat>)
    requires Exact(t, ino0, ino1) && t.loose == m + multiset{f} && f < |t.files| && t.files[f].ref == 1
    requires g.ref == 0 && g.ip == None
    ensures Exact(t.(files := t.files[f := g], held := t.held + Bag(t.files[f].ip), loose := m), ino0, ino1)
  {
    hide Counted, SlotOk, Distinct, Coherent, Under, InRange;
    assert FileOk(t.files[f], t.slots);
    if t.files[f].ip.Some? {
      FileGives(t, f, g);
    } else {
      FileKeeps(t, f, g);
      assert t.held + multiset{} == t.held;
    }
    UnderSum(m, multiset{f}, |t.files|);
    UnderSum(t.held, Bag(t.files[f].ip), |t.slots|);
    UnderOne(t.files[f].ip, |t.slots|);
  }

  /** Only the offset of a file changes. */
  lemma AfterSeek(t: Tab, ino0: seq<Dinode>, ino1: seq<Dinode>, f: nat, off: word)
    requires Exact(t, ino0, ino1) && f < |t.files|
    ensures Exact(t.(files := t.files[f := t.files[f].(off := off)]), ino0, ino1)
  {
    FileKeeps(t, f, t.files[f].(off := off));
    hide Counted, SlotOk, Distinct, Coherent;
  }

  /** A process changes its current directory to a held slot, or to none; the one before is held by the running code. */
  lemma AfterCwd(t: Tab, ino0: seq<Dinode>, ino1: seq<Dinode>, p: nat, c: Option<nat>, h: multiset<nat>)
    requires Exact(t, ino0, ino1) && p < |t.cwds| && t.held == h + Bag(c)
    ensures Exact(t.(cwds := t.cwds[p := c], held := h + Bag(t.cwds[p])), ino0, ino1)
  {
    CwdSwaps(t, p, c, h);
    UnderSum(h, Bag(c), |t.slots|);
    UnderSum(h, Bag(t.cwds[p]), |t.slots|);
    UnderOne(c, |t.slots|);
    UnderOne(t.cwds[p], |t.slots|);
    hide Counted, FilesCounted, SlotOk, Distinct, Coherent, FileOk, Under, Bag;
  }

  /** With nothing open, nothing is referred to. */
  lemma Nobody(t: Tab, ino0: seq<Dinode>, ino1: seq<Dinode>)
    requires forall k :: 0 <= k < |t.slots| ==> t.slots[k].ref == 0
    requires forall f :: 0 <= f < |t.files| ==> t.files[f].ref == 0 && t.files[f].ip == None
    requires forall p :: 0 <= p < |t.cwds| ==> t.cwds[p] == None
    requires forall i :: 0 <= i < |t.fds| ==> t.fds[i] == None
    requires t.held == multiset{} && t.loose == multiset{}
    ensures Exact(t, ino0, ino1)
  {
    forall k | 0 <= k < |t.slots|
      ensures Holders(t.files, t.cwds, t.held, k) == 0
    {
    }
    forall f: nat | f < |t.files|
      ensures multiset(t.fds)[Some(f)] == 0
    {
    }
  }

  /** What the holder of slot `k` refers to is seen by programs, unless the holder is the running code. */
  lemma SeenBy(t: Tab, lost: seq<nat>, k: nat)
    requires FilesOk(t.files, t.slots) && k < |t.slots| && (Some(k) in Ips(t.files) || Some(k) in t.cwds || k in lost)
    ensures InodeOf(t.slots[k]) in W.Referenced(Handles(t.slots, t.files), Seats(t.slots, t.cwds), Nodes(t.slots, lost))
  {
    if Some(k) in Ips(t.files) {
      var f: nat :| f < |t.files| && t.files[f].ip == Some(k);
      assert FileOk(t.files[f], t.slots) && Handles(t.slots, t.files)[f].OnInode?;
    } else if Some(k) in t.cwds {
      var p: nat :| p < |t.cwds| && t.cwds[p] == Some(k);
      assert Seats(t.slots, t.cwds)[p] == Some(InodeOf(t.slots[k]));
    } else {
      var i: nat :| i < |lost| && lost[i] == k;
      assert Nodes(t.slots, lost)[i] == InodeOf(t.slots[k]);
    }
  }

  /** The slots below `n` that programs refer to. */
  ghost function SeenSlots(t: Tab, lost: seq<nat>): set<nat> {
    set k | 0 <= k < |t.slots| && (Some(k) in Ips(t.files) || Some(k) in t.cwds || k in lost)
  }

  lemma SeenCount(t: Tab, lost: seq<nat>)
    requires FilesOk(t.files, t.slots) && Distinct(t.slots) && forall k :: 0 <= k < |t.slots| ==> t.slots[k].ref > 0
    ensures var seen := W.Referenced(Handles(t.slots, t.files), Seats(t.slots, t.cwds), Nodes(t.slots, lost));
            |SeenSlots(t, lost)| <= |seen|
  {
    hide FilesOk, Handles, Seats, Nodes, W.Referenced;
    var seen := W.Referenced(Handles(t.slots, t.files), Seats(t.slots, t.cwds), Nodes(t.slots, lost));
    var a := SeenSlots(t, lost);
    var m := map k | 0 <= k < |t.slots| :: InodeOf(t.slots[k]);
    forall k <- a
      ensures m[k] in seen
    {
      SeenBy(t, lost, k);
    }
    forall j, k | j in a && k in a && m[j] == m[k]
      ensures j == k
    {
      assert Same(t.slots[j], t.slots[k]);
    }
    Injective(m, a, seen);
  }

  /** A live slot is seen by programs or held beside what was lost. */
  lemma SeenOrHeld(t: Tab, lost: seq<nat>, k: nat)
    requires Counts(t) && Covers(t.held, lost) && k < |t.slots| && t.slots[k].ref > 0
    ensures k in SeenSlots(t, lost) || k in t.held - multiset(lost)
  {
    assert Holders(t.files, t.cwds, t.held, k) > 0;
    if k !in lost {
      assert k !in multiset(lost);
    }
  }

  /**
   A cache without a free slot holds as many inodes as it has slots: those that programs see, and those held
   beside.
   */
  lemma FullCount(t: Tab, lost: seq<nat>)
    requires Counts(t) && FilesOk(t.files, t.slots) && Distinct(t.slots) && Covers(t.held, lost)
    requires forall k :: 0 <= k < |t.slots| ==> t.slots[k].ref > 0
    ensures var seen := W.Referenced(Handles(t.slots, t.files), Seats(t.slots, t.cwds), Nodes(t.slots, lost));
            |t.slots| <= |seen| + |t.held| - |lost|
  {
    hide FilesOk, Handles, Seats, Nodes, W.Referenced, SeenSlots, Counts, Distinct;
    var a, rest := SeenSlots(t, lost), t.held - multiset(lost);
    var c := set k | 0 <= k < |t.slots| && k in rest;
    forall k | 0 <= k < |t.slots|
      ensures k in a + c
    {
      SeenOrHeld(t, lost, k);
    }
    AllBelow(a + c, |t.slots|);
    SeenCount(t, lost);
    FewMembers(rest, c);
    assert |a + c| <= |a| + |c|;
  }
}
