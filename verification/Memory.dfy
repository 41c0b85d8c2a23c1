/**
 Pages over the life of processes: creation, `sbrk`, and reaping. Every page in use is either
 reserved by the kernel or owned once, by one process, for one purpose.
 */
module Memory {
  import opened Basics
  import opened Codec
  import opened Ram

  const USER_VPN: nat := 0x1000       // USER_BASE / PAGE_SIZE

  const PAGE_R: nat := 2
  const PAGE_W: nat := 4
  const PAGE_X: nat := 8
  const PAGE_U: nat := 16

  function Vpn(v: VPage): nat { 1024 * v.v1 + v.v0 }

  function At(s: nat, vpn: nat): VPage { VPage(s, vpn / 1024, vpn % 1024) }

  function PagesOf(bytes: nat): nat { (bytes + 4095) / 4096 }

  function SetRun(u: seq<bool>, i: nat, n: nat, b: bool): (r: seq<bool>)
    requires i + n <= |u|
  {
    u[..i] + seq(n, j => b) + u[i + n..]
  }

  predicate FreeRun(u: seq<bool>, i: nat, n: nat) {
    i + n <= |u| && forall j :: i <= j < i + n ==> !u[j]
  }

  /** Other processes keep their pages and translations. */
  ghost predicate OnlySlot(o: Owners, x: map<VPage, word>, o': Owners, x': map<VPage, word>, s: nat) {
    && (forall k: Key {:trigger k in o'.loc} {:trigger k in o.loc} :: k.slot != s ==>
         (k in o.loc <==> k in o'.loc) && (k in o.loc ==> o.loc[k] == o'.loc[k]))
    && (forall v: VPage {:trigger v in x'} {:trigger v in x} :: v.slot != s ==>
         (v in x <==> v in x') && (v in x ==> x[v] == x'[v]))
  }

  /** The virtual page and the table entry that a call of `map_page` is about. */
  function Target(s: nat, vaddr: word): VPage { VPage(s, vaddr / 0x40_0000, vaddr / 4096 % 1024) }

  function Content(paddr: word, flags: nat): word
    requires flags < 1024 && flags % 2 == 0
  {
    Pte(paddr / 4096, flags)
  }

  ghost function Backing(base: nat, v1: nat, e: word): set<nat> {
    if Owning(base, v1, e) then {Ppn(e) - base} else {}
  }

  ghost predicate Grew(o: Owners, o': Owners, added: set<Key>) {
    && o'.loc.Keys == o.loc.Keys + added
    && (forall k {:trigger o.loc[k]} {:trigger k in o.loc} :: k in o.loc ==> o'.loc[k] == o.loc[k])
  }

  // ----- what is in the user pages -----

  /** The user pages of all processes but `s` stay where they are, with the same contents; -1 is for no exception. */
  ghost predicate SameContents(o: Owners, mem: seq<Page>, o': Owners, mem': seq<Page>, s: int) {
    forall k {:trigger k in o.loc} {:trigger k in o'.loc} :: k in o.loc && k.node.UserPage? && k.slot != s ==>
      k in o'.loc && o.loc[k] == o'.loc[k] && o.loc[k] < |mem| && o.loc[k] < |mem'| && mem[o.loc[k]] == mem'[o.loc[k]]
  }

  lemma ContentsTrans(o: Owners, mem: seq<Page>, o': Owners, mem': seq<Page>, o'': Owners, mem'': seq<Page>, s: int,
                      r: int)
    requires SameContents(o, mem, o', mem', s) && SameContents(o', mem', o'', mem'', r)
    requires s == r || s == -1 || r == -1
    ensures SameContents(o, mem, o'', mem'', if s == -1 then r else s)
  {
  }

  lemma ContentsOthers(o: Owners, mem: seq<Page>, o': Owners, mem': seq<Page>, s: nat)
    requires SameContents(o, mem, o', mem', -1)
    ensures SameContents(o, mem, o', mem', s)
  {
  }

  /** A page that no process has as a user page may be overwritten. */
  lemma ContentsKept(base: nat, used: seq<bool>, mem: seq<Page>, reserved: set<nat>, o: Owners, x: map<VPage, word>,
                     p: nat, page: Page)
    requires Consistent(base, used, mem, reserved, o, x) && p < NUM_PAGES
    requires p !in o.owner || !o.owner[p].node.UserPage?
    ensures SameContents(o, mem, o, mem[p := page], -1)
  {
    forall k | k in o.loc && k.node.UserPage?
      ensures o.loc[k] < NUM_PAGES && o.loc[k] != p
    {
      assert o.owner[o.loc[k]] == k;
    }
  }

  lemma ContentsSelf(base: nat, used: seq<bool>, mem: seq<Page>, reserved: set<nat>, o: Owners, x: map<VPage, word>)
    requires Consistent(base, used, mem, reserved, o, x)
    ensures SameContents(o, mem, o, mem, -1)
  {
    forall k | k in o.loc
      ensures o.loc[k] < NUM_PAGES
    {
    }
  }

  /** More may be owned. */
  lemma ContentsGrew(o: Owners, mem: seq<Page>, o': Owners, mem': seq<Page>, o'': Owners, added: set<Key>)
    requires SameContents(o, mem, o', mem', -1) && Grew(o', o'', added)
    ensures SameContents(o, mem, o'', mem', -1)
  {
    forall k | k in o.loc && k.node.UserPage?
      ensures k in o''.loc && o''.loc[k] == o'.loc[k]
    {
      assert k in o'.loc;
    }
  }

  /** Byte `i` of a page. */
  function ByteIn(p: Page, i: nat): byte
    requires i < 4096
  {
    WordBytes(p[i / 4])[i % 4]
  }

  function ImageByte(image: seq<byte>, i: nat): byte { if i < |image| then image[i] else 0 }

  /** Page `n` of an image, copied to a page of zeros. */
  function ImagePage(image: seq<byte>, n: nat): (p: Page) {
    seq(1024, j requires 0 <= j < 1024 =>
      var i := 4096 * n + 4 * j;
      WordAt([ImageByte(image, i), ImageByte(image, i + 1), ImageByte(image, i + 2), ImageByte(image, i + 3)], 0))
  }

  lemma ImagePageByte(image: seq<byte>, n: nat, i: nat)
    requires i < 4096
    ensures ByteIn(ImagePage(image, n), i) == ImageByte(image, 4096 * n + i)
  {
    var j := 4096 * n + 4 * (i / 4);
    var b := [ImageByte(image, j), ImageByte(image, j + 1), ImageByte(image, j + 2), ImageByte(image, j + 3)];
    WordOfBytes(b);
    assert b[i % 4] == ImageByte(image, j + i % 4);
  }

  lemma WordOfBytes(b: seq<byte>)
    requires |b| == 4
    ensures WordBytes(WordAt(b, 0)) == b
  {
    var w := WordAt(b, 0);
    var u := b[1] as int + 0x100 * b[2] as int + 0x1_0000 * b[3] as int;
    var t := b[2] as int + 0x100 * b[3] as int;
    assert w == b[0] as int + 0x100 * u && u == b[1] as int + 0x100 * t;
    assert w / 0x100 == u && u / 0x100 == t && t / 0x100 == b[3] as int;
    assert w / 0x1_0000 == t && w / 0x100_0000 == b[3] as int;
  }

  /** The page that is mapped at `v` holds `page`. */
  ghost predicate HasPage(o: Owners, mem: seq<Page>, v: VPage, page: Page) {
    var k := Key(v.slot, UserPage(v.v1, v.v0));
    k in o.loc && o.loc[k] < |mem| && mem[o.loc[k]] == page
  }

  lemma HasPageStill(o: Owners, mem: seq<Page>, o': Owners, mem': seq<Page>, v: VPage, page: Page)
    requires HasPage(o, mem, v, page) && SameContents(o, mem, o', mem', -1)
    ensures HasPage(o', mem', v, page)
  {
    assert Key(v.slot, UserPage(v.v1, v.v0)) in o.loc;
  }

  /** The first `n` user pages of process `s` hold the image. */
  ghost predicate Loaded(o: Owners, mem: seq<Page>, s: nat, image: seq<byte>, n: nat) {
    forall k {:trigger ImagePage(image, k)} :: 0 <= k < n ==> HasPage(o, mem, At(s, USER_VPN + k), ImagePage(image, k))
  }

  /** User pages `[from, to)` of process `s` all hold `page`. */
  ghost predicate AllHave(o: Owners, mem: seq<Page>, s: nat, from: nat, to: nat, page: Page) {
    forall e {:trigger At(s, e)} :: from <= e < to ==> HasPage(o, mem, At(s, e), page)
  }

  lemma AllHaveMore(o: Owners, mem: seq<Page>, o': Owners, mem': seq<Page>, s: nat, from: nat, e: nat, page: Page)
    requires AllHave(o, mem, s, from, e, page) && SameContents(o, mem, o', mem', -1)
    requires HasPage(o', mem', At(s, e), page)
    ensures AllHave(o', mem', s, from, e + 1, page)
  {
    hide HasPage, SameContents, At;
    forall k | from <= k < e
      ensures HasPage(o', mem', At(s, k), page)
    {
      HasPageStill(o, mem, o', mem', At(s, k), page);
    }
  }

  lemma NoneHave(o: Owners, mem: seq<Page>, s: nat, from: nat, page: Page)
    ensures AllHave(o, mem, s, from, from, page)
  {
  }

  lemma NothingLoaded(o: Owners, mem: seq<Page>, s: nat, image: seq<byte>)
    ensures Loaded(o, mem, s, image, 0)
  {
  }

  lemma LoadedMore(o: Owners, mem: seq<Page>, o': Owners, mem': seq<Page>, s: nat, image: seq<byte>, n: nat)
    requires Loaded(o, mem, s, image, n) && SameContents(o, mem, o', mem', -1)
    requires HasPage(o', mem', At(s, USER_VPN + n), ImagePage(image, n))
    ensures Loaded(o', mem', s, image, n + 1)
  {
    hide HasPage, SameContents, ImagePage, At;
    forall k | 0 <= k < n
      ensures HasPage(o', mem', At(s, USER_VPN + k), ImagePage(image, k))
    {
      HasPageStill(o, mem, o', mem', At(s, USER_VPN + k), ImagePage(image, k));
    }
  }

  /** What a program reads at `USER_BASE + i`, by the hardware's walk, is byte `i` of its image. */
  lemma LoadedByte(base: nat, used: seq<bool>, mem: seq<Page>, reserved: set<nat>, o: Owners, x: map<VPage, word>,
                   s: nat, image: seq<byte>, i: nat)
    requires Consistent(base, used, mem, reserved, o, x) && Key(s, RootPage) in o.loc && i < |image| < 0x1000_0000
    requires Loaded(o, mem, s, image, PagesOf(|image|))
    ensures o.loc[Key(s, RootPage)] < NUM_PAGES
    ensures var v := At(s, (4096 * USER_VPN + i) / 4096);
            && v.v1 < 1024
            && var e := Walk(base, mem, o.loc[Key(s, RootPage)], v.v1, v.v0);
               Present(e) && base <= Ppn(e) < base + NUM_PAGES && ByteIn(mem[Ppn(e) - base], i % 4096) == image[i]
  {
    hide ImagePage, TablesHold;
    var n := i / 4096;
    var v := At(s, USER_VPN + n);
    var q := Key(s, UserPage(v.v1, v.v0));
    assert HasPage(o, mem, v, ImagePage(image, n));
    UserIsMapped(base, o.loc, x, q);
    WalkIsTranslation(base, used, mem, reserved, o, x, s, v.v1, v.v0);
    ImagePageByte(image, n, i % 4096);
    assert Owning(base, v.v1, x[v]);
  }

  // ----- the user part of an address space -----

  lemma TargetOf(s: nat, vpn: nat)
    requires vpn < 0x10_0000
    ensures Target(s, 4096 * vpn) == At(s, vpn) && At(s, vpn).v1 < 1024 && At(s, vpn).v0 < 1024
    ensures Vpn(At(s, vpn)) == vpn
    ensures At(s, vpn).v1 < 512 <==> vpn < 0x8_0000
  {
  }

  lemma AtVpn(v: VPage)
    requires v.v0 < 1024
    ensures At(v.slot, Vpn(v)) == v
  {
  }

  /** User pages `[USER_VPN, a)` and `[b, e)`: while the heap shrinks, `[a, b)` is already gone. */
  predicate Mapped(vpn: nat, a: nat, b: nat, e: nat) { USER_VPN <= vpn < a || b <= vpn < e }

  /**
   Below the kernel half, process `s` maps exactly its user pages, which it owns, and the device pages
   from 0x10001 up to `m`, which it does not.
   */
  ghost predicate UserShape(base: nat, x: map<VPage, word>, s: nat, a: nat, b: nat, e: nat, m: nat) {
    && a <= b <= e && (e <= 0x10001 || m <= 0x10001)
    && (forall v: VPage {:trigger v in x} :: v.slot == s && v.v1 < 512 && v.v0 < 1024 ==>
          (v in x <==> Mapped(Vpn(v), a, b, e) || 0x10001 <= Vpn(v) < m))
    && (forall v: VPage {:trigger x[v]} :: v in x && v.slot == s && v.v1 < 512 && v.v0 < 1024 ==>
          (Owning(base, v.v1, x[v]) <==> Mapped(Vpn(v), a, b, e)))
  }

  ghost predicate Outside(x: map<VPage, word>, x': map<VPage, word>, s: nat, lo: nat, hi: nat) {
    forall v: VPage {:trigger v in x'} {:trigger v in x} :: !(v.slot == s && v.v1 < 512 && lo <= Vpn(v) < hi) ==>
      (v in x <==> v in x') && (v in x ==> x[v] == x'[v])
  }

  // ----- what every address space has, and with which rights -----

  /** Pages `[lo, hi)` are mapped to themselves with the rights `flags`. */
  ghost predicate Identity(x: map<VPage, word>, s: nat, lo: nat, hi: nat, flags: nat)
    requires hi <= 0x10_0000 && flags < 1024 && flags % 2 == 0
  {
    forall n {:trigger At(s, n)} :: lo <= n < hi ==> At(s, n) in x && x[At(s, n)] == Content(4096 * n, flags)
  }

  /** The kernel with all of RAM, and the devices, are where they are, in every address space. */
  ghost predicate HasKernel(x: map<VPage, word>, s: nat, kernel: nat, base: nat)
    requires base + NUM_PAGES <= 0x10_0000
  {
    && Identity(x, s, kernel, base + NUM_PAGES, PAGE_R + PAGE_W + PAGE_X)
    && Identity(x, s, 0x10001, 0x10004, PAGE_R + PAGE_W)
  }

  lemma NoIdentity(x: map<VPage, word>, s: nat, lo: nat, flags: nat)
    requires lo <= 0x10_0000 && flags < 1024 && flags % 2 == 0
    ensures Identity(x, s, lo, lo, flags)
  {
  }

  lemma IdentityMore(x: map<VPage, word>, s: nat, lo: nat, n: nat, flags: nat)
    requires n < 0x10_0000 && flags < 1024 && flags % 2 == 0 && Identity(x, s, lo, n, flags)
    ensures Identity(x[At(s, n) := Content(4096 * n, flags)], s, lo, n + 1, flags)
  {
    forall m | lo <= m < n
      ensures At(s, m) != At(s, n)
    {
    }
  }

  lemma IdentityOther(x: map<VPage, word>, s: nat, lo: nat, hi: nat, flags: nat, n: nat, e: word)
    requires hi <= 0x10_0000 && flags < 1024 && flags % 2 == 0 && Identity(x, s, lo, hi, flags) && !(lo <= n < hi)
    ensures Identity(x[At(s, n) := e], s, lo, hi, flags)
  {
    forall m | lo <= m < hi
      ensures At(s, m) != At(s, n)
    {
    }
  }

  /** User pages may change. */
  lemma KernelOutside(x: map<VPage, word>, x': map<VPage, word>, s: nat, lo: nat, hi: nat, kernel: nat, base: nat)
    requires Outside(x, x', s, lo, hi) && hi <= 0x10001 && kernel >= 0x8_0000 && base + NUM_PAGES <= 0x10_0000
    requires HasKernel(x, s, kernel, base)
    ensures HasKernel(x', s, kernel, base)
  {
    forall n | kernel <= n < base + NUM_PAGES || 0x10001 <= n < 0x10004
      ensures At(s, n) in x && At(s, n) in x' && x[At(s, n)] == x'[At(s, n)]
    {
      TargetOf(s, n);
    }
  }

  lemma KernelOnly(o: Owners, x: map<VPage, word>, o': Owners, x': map<VPage, word>, s: nat, q: nat, kernel: nat,
                   base: nat)
    requires OnlySlot(o, x, o', x', s) && q != s && base + NUM_PAGES <= 0x10_0000 && HasKernel(x, q, kernel, base)
    ensures HasKernel(x', q, kernel, base)
  {
    forall n | kernel <= n < base + NUM_PAGES || 0x10001 <= n < 0x10004
      ensures At(q, n) in x && At(q, n) in x' && x[At(q, n)] == x'[At(q, n)]
    {
      assert At(q, n) in x;
    }
  }

  /** Pages `[from, to)` are mapped with exactly the rights `flags`. */
  ghost predicate HasRights(x: map<VPage, word>, s: nat, from: nat, to: nat, flags: nat) {
    forall n {:trigger At(s, n)} :: from <= n < to ==> At(s, n) in x && x[At(s, n)] % 1024 == flags + 1
  }

  lemma NoRights(x: map<VPage, word>, s: nat, from: nat, flags: nat)
    ensures HasRights(x, s, from, from, flags)
  {
  }

  lemma RightsMore(x: map<VPage, word>, x': map<VPage, word>, s: nat, from: nat, n: nat, flags: nat)
    requires HasRights(x, s, from, n, flags) && Outside(x, x', s, n, n + 1) && n < 0x8_0000
    requires At(s, n) in x' && x'[At(s, n)] % 1024 == flags + 1
    ensures HasRights(x', s, from, n + 1, flags)
  {
    forall m | from <= m < n
      ensures At(s, m) in x' && x'[At(s, m)] == x[At(s, m)]
    {
      TargetOf(s, m);
    }
  }

  // ----- counting: a process cannot own more pages than there are -----

  lemma {:induction false} CountUser(base: nat, o: Owners, x: map<VPage, word>, s: nat, a: nat, b: nat, e: nat, m: nat,
                                     n: nat) returns (pages: set<nat>)
    requires o.Inverse() && Placed(o.loc) && Translated(base, o.loc, x) && UserShape(base, x, s, a, b, e, m)
    requires USER_VPN + n <= a <= 0x8_0000
    ensures |pages| == n
    ensures forall p {:trigger p in pages} :: p in pages ==>
              && p < NUM_PAGES && p in o.owner && o.owner[p].slot == s && o.owner[p].node.UserPage?
              && USER_VPN <= 1024 * o.owner[p].node.v1 + o.owner[p].node.v0 < USER_VPN + n
  {
    if n == 0 {
      pages := {};
    } else {
      var rest := CountUser(base, o, x, s, a, b, e, m, n - 1);
      var v := At(s, USER_VPN + n - 1);
      TargetOf(s, USER_VPN + n - 1);
      assert v in x && v.v0 < 1024 && Owning(base, v.v1, x[v]);
      var k := Key(s, UserPage(v.v1, v.v0));
      var p := o.loc[k];
      assert o.owner[p] == k;
      assert p !in rest;
      pages := rest + {p};
    }
  }

  /** So the user pages end far below the device pages at 0x10001. */
  lemma UserFits(base: nat, used: seq<bool>, mem: seq<Page>, reserved: set<nat>, o: Owners, x: map<VPage, word>, s: nat,
                 e: nat, m: nat)
    requires Consistent(base, used, mem, reserved, o, x) && UserShape(base, x, s, e, e, e, m)
    requires USER_VPN <= e <= 0x8_0000
    ensures e <= USER_VPN + NUM_PAGES
  {
    var pages := CountUser(base, o, x, s, e, e, e, m, e - USER_VPN);
    Below(pages, NUM_PAGES);
  }

  /** One more user page at the end. */
  lemma ShapeGrow(base: nat, x: map<VPage, word>, s: nat, e: nat, m: nat, entry: word)
    requires UserShape(base, x, s, e, e, e, m) && USER_VPN <= e < 0x10001 && Owning(base, At(s, e).v1, entry)
    ensures UserShape(base, x[At(s, e) := entry], s, e + 1, e + 1, e + 1, m)
    ensures At(s, e) !in x
  {
    TargetOf(s, e);
    var x' := x[At(s, e) := entry];
    forall v: VPage | v.slot == s && v.v1 < 512 && v.v0 < 1024
      ensures v in x' <==> Mapped(Vpn(v), e + 1, e + 1, e + 1) || 0x10001 <= Vpn(v) < m
      ensures v in x' ==> (Owning(base, v.v1, x'[v]) <==> Mapped(Vpn(v), e + 1, e + 1, e + 1))
    {
      AtVpn(v);
    }
  }

  /** One more device page. */
  lemma ShapeDevice(base: nat, x: map<VPage, word>, s: nat, m: nat, entry: word)
    requires UserShape(base, x, s, USER_VPN, USER_VPN, USER_VPN, m) && 0x10001 <= m < 0x8_0000
    requires !Owning(base, At(s, m).v1, entry)
    ensures UserShape(base, x[At(s, m) := entry], s, USER_VPN, USER_VPN, USER_VPN, m + 1)
  {
    TargetOf(s, m);
    var x' := x[At(s, m) := entry];
    forall v: VPage | v.slot == s && v.v1 < 512 && v.v0 < 1024
      ensures v in x' <==> Mapped(Vpn(v), USER_VPN, USER_VPN, USER_VPN) || 0x10001 <= Vpn(v) < m + 1
      ensures v in x' ==> (Owning(base, v.v1, x'[v]) <==> Mapped(Vpn(v), USER_VPN, USER_VPN, USER_VPN))
    {
      AtVpn(v);
    }
  }

  /** One more user page of the shrinking heap gone. */
  lemma ShapeShrink(base: nat, x: map<VPage, word>, s: nat, a: nat, b: nat, e: nat, m: nat)
    requires UserShape(base, x, s, a, b, e, m) && USER_VPN <= a <= b < e <= 0x10001
    ensures At(s, b) in x && Owning(base, At(s, b).v1, x[At(s, b)])
    ensures UserShape(base, x - {At(s, b)}, s, a, b + 1, e, m)
  {
    TargetOf(s, b);
    var x' := x - {At(s, b)};
    forall v: VPage | v.slot == s && v.v1 < 512 && v.v0 < 1024
      ensures v in x' <==> Mapped(Vpn(v), a, b + 1, e) || 0x10001 <= Vpn(v) < m
      ensures v in x' ==> (Owning(base, v.v1, x'[v]) <==> Mapped(Vpn(v), a, b + 1, e))
    {
      AtVpn(v);
    }
  }

  lemma ShapeJoin(base: nat, x: map<VPage, word>, s: nat, a: nat, e: nat, m: nat)
    requires a <= e
    ensures UserShape(base, x, s, e, e, e, m) && USER_VPN <= a ==> UserShape(base, x, s, a, a, e, m)
    ensures UserShape(base, x, s, a, e, e, m) ==> UserShape(base, x, s, a, a, a, m)
  {
  }

  lemma OutsideTrans(x: map<VPage, word>, x': map<VPage, word>, x'': map<VPage, word>, s: nat, lo: nat, hi: nat)
    requires Outside(x, x', s, lo, hi) && Outside(x', x'', s, lo, hi)
    ensures Outside(x, x'', s, lo, hi)
  {
  }

  lemma OnlySlotTrans(o: Owners, x: map<VPage, word>, o': Owners, x': map<VPage, word>, o'': Owners, 
                      x'': map<VPage, word>, s: nat)
    requires OnlySlot(o, x, o', x', s) && OnlySlot(o', x', o'', x'', s)
    ensures OnlySlot(o, x, o'', x'', s)
  {
  }

  lemma GrewOnly(o: Owners, x: map<VPage, word>, o': Owners, s: nat, added: set<Key>, v: VPage, e: word)
    requires Grew(o, o', added) && (forall k :: k in added ==> k.slot == s) && v.slot == s
    ensures OnlySlot(o, x, o', x[v := e], s)
  {
  }

  /** The memory fields of a process slot; `live` is a non-null page table. */
  datatype Proc = Proc(live: bool, root: nat, heapStart: nat, heapEnd: nat)

  /** What holds of slot `s` between system calls: the user pages are exactly those below the heap's end. */
  ghost predicate ProcOk(base: nat, o: Owners, x: map<VPage, word>, p: Proc, s: nat) {
    if p.live then
      && Key(s, RootPage) in o.loc && o.loc[Key(s, RootPage)] == p.root
      && p.heapStart % 4096 == 0 && 4096 * USER_VPN <= p.heapStart <= p.heapEnd < 0x8000_0000
      && UserShape(base, x, s, PagesOf(p.heapEnd), PagesOf(p.heapEnd), PagesOf(p.heapEnd), 0x10004)
    else
      Key(s, RootPage) !in o.loc
  }

  lemma ProcKept(base: nat, o: Owners, x: map<VPage, word>, o': Owners, x': map<VPage, word>, s: nat, p: Proc, q: nat)
    requires ProcOk(base, o, x, p, q) && OnlySlot(o, x, o', x', s) && q != s
    ensures ProcOk(base, o', x', p, q)
  {
  }

  /** The second-level tables with numbers from `lo` up to `hi`. */
  ghost function TableKeys(s: nat, lo: nat, hi: nat): set<Key> {
    set v1 | lo <= v1 < hi :: Key(s, TablePage(v1))
  }

  lemma {:induction false} TableCount(s: nat, lo: nat, hi: nat)
    requires lo <= hi
    ensures |TableKeys(s, lo, hi)| == hi - lo
  {
    if lo < hi {
      TableCount(s, lo, hi - 1);
      assert TableKeys(s, lo, hi) == TableKeys(s, lo, hi - 1) + {Key(s, TablePage(hi - 1))};
    } else {
      assert TableKeys(s, lo, hi) == {};
    }
  }

  /** The tables for the kernel's identity mapping, which starts at page number `k`. */
  ghost function KernelTables(s: nat, k: nat, base: nat): set<Key> {
    TableKeys(s, k / 1024, (base + NUM_PAGES - 1) / 1024 + 1)
  }

  /** The tables of an address space without user pages: the kernel's, and that of the devices. */
  ghost function BareTables(s: nat, k: nat, base: nat): set<Key> {
    KernelTables(s, k, base) + {Key(s, TablePage(64))}
  }

  /** Nothing is owned by a process slot that does not exist. */
  ghost predicate SlotsOnly(o: Owners) { forall k {:trigger k in o.loc} :: k in o.loc ==> k.slot < PROCS_MAX }

  class Machine {
    var procs: seq<Proc>
    const kernelVpn: nat       // page number of the kernel image
    const base: nat            // page number of the managed RAM
    const used: array<bool>
    var mem: seq<Page>
    ghost var reserved: set<nat>
    ghost var owners: Owners
    ghost var x: map<VPage, word>

    /** Memory at the start: nothing is in use, and there is no process. */
    constructor (kernelVpn: nat, base: nat)
      requires 0x80200 <= kernelVpn <= base && base + NUM_PAGES <= 0x10_0000
      ensures this.kernelVpn == kernelVpn && this.base == base && fresh(used) && reserved == {}
      ensures Running() && forall s :: 0 <= s < PROCS_MAX ==> !procs[s].live
      ensures forall p :: 0 <= p < NUM_PAGES ==> !used[p]
    {
      this.kernelVpn, this.base := kernelVpn, base;
      procs := seq(PROCS_MAX, i => Proc(false, 0, 0, 0));
      used := new bool[NUM_PAGES](i => false);
      mem := seq(NUM_PAGES, i => ZeroPage);
      reserved, owners, x := {}, Owners(map[], map[]), map[];
      new;
      NothingOwned(base, used[..], mem);
    }

    ghost predicate Valid()
      reads this, used
    {
      && used.Length == NUM_PAGES && 0x80200 <= base && base + NUM_PAGES <= 0x10_0000
      && Consistent(base, used[..], mem, reserved, owners, x)
    }

    /** First fit for `n` consecutive pages, zeroed; false for PANIC. */
    method AllocPages(n: nat) returns (ok: bool, i: nat)
      requires used.Length == NUM_PAGES && |mem| == NUM_PAGES && n <= NUM_PAGES
      modifies used, this`mem
      ensures !ok ==> used[..] == old(used[..]) && mem == old(mem)
      ensures !ok ==> forall k: nat :: k + n <= NUM_PAGES ==> !FreeRun(used[..], k, n)
      ensures ok ==> FreeRun(old(used[..]), i, n) && (forall k: nat :: k < i ==> !FreeRun(old(used[..]), k, n))
      ensures ok ==> used[..] == SetRun(old(used[..]), i, n, true)
      ensures ok ==> |mem| == NUM_PAGES
      ensures ok ==> forall p :: 0 <= p < NUM_PAGES ==> mem[p] == if i <= p < i + n then ZeroPage else old(mem)[p]
    {
      i := 0;
      while i <= NUM_PAGES - n
        invariant 0 <= i <= NUM_PAGES - n + 1
        invariant used[..] == old(used[..]) && mem == old(mem)
        invariant forall k: nat :: k < i ==> !FreeRun(used[..], k, n)
      {
        var found := true;
        var j := 0;
        while j < n && found
          invariant 0 <= j <= n
          invariant found ==> forall k :: i <= k < i + j ==> !used[k]
          invariant !found ==> !FreeRun(used[..], i, n)
        {
          if used[i + j] {
            found := false;
            assert used[..][i + j];
          }
          j := j + 1;
        }
        if found {
          TakeRun(i, n);
          return true, i;
        }
        i := i + 1;
      }
      ok := false;
    }

    method TakeRun(i: nat, n: nat)
      requires used.Length == NUM_PAGES && |mem| == NUM_PAGES && i + n <= NUM_PAGES
      modifies used, this`mem
      ensures used[..] == SetRun(old(used[..]), i, n, true)
      ensures |mem| == NUM_PAGES
      ensures forall p :: 0 <= p < NUM_PAGES ==> mem[p] == if i <= p < i + n then ZeroPage else old(mem)[p]
    {
      var j := 0;
      while j < n
        invariant 0 <= j <= n && |mem| == NUM_PAGES
        invariant forall p :: 0 <= p < NUM_PAGES ==> used[p] == if i <= p < i + j then true else old(used[p])
        invariant forall p :: 0 <= p < NUM_PAGES ==> mem[p] == if i <= p < i + j then ZeroPage else old(mem)[p]
      {
        used[i + j] := true;
        mem := mem[i + j := ZeroPage];
        j := j + 1;
      }
    }

    /** Marks `n` pages from physical page number `ppn` free; false for PANIC. */
    method FreePages(ppn: nat, n: nat) returns (ok: bool)
      requires used.Length == NUM_PAGES
      modifies used
      ensures ok <==> base <= ppn < base + NUM_PAGES && ppn - base + n <= NUM_PAGES
      ensures !ok ==> used[..] == old(used[..])
      ensures ok ==> used[..] == SetRun(old(used[..]), ppn - base, n, false)
    {
      if ppn < base || ppn >= base + NUM_PAGES {
        return false;
      }
      var start := ppn - base;
      if start + n > NUM_PAGES {
        return false;
      }
      var j := 0;
      while j < n
        invariant 0 <= j <= n
        invariant forall p :: 0 <= p < NUM_PAGES ==> used[p] == if start <= p < start + j then false else old(used[p])
      {
        used[start + j] := false;
        j := j + 1;
      }
      ok := true;
    }

    /** A zeroed page that nobody owns yet. */
    method AllocPage() returns (ok: bool, p: nat)
      requires Valid()
      modifies used, this`mem, this`reserved
      ensures ok ==> Valid() && p < NUM_PAGES && mem[p] == ZeroPage && p !in old(reserved)
      ensures ok ==> reserved == old(reserved) + {p} && p !in owners.owner
      ensures |mem| == NUM_PAGES && SameContents(owners, old(mem), owners, mem, -1)
      ensures forall q :: 0 <= q < NUM_PAGES && q in old(reserved) ==> mem[q] == old(mem)[q]
      ensures !ok ==>
                Valid() && reserved == old(reserved) && mem == old(mem) && forall q :: 0 <= q < NUM_PAGES ==> used[q]
    {
      hide Consistent;
      ConsistentSizes();
      ContentsSelf(base, used[..], mem, reserved, owners, x);
      ok, p := AllocPages(1);
      if ok {
        Reserve(base, old(used[..]), old(mem), reserved, owners, x, p);
        assert used[..] == old(used[..])[p := true];
        assert mem == old(mem)[p := ZeroPage];
        ContentsKept(base, old(used[..]), old(mem), reserved, owners, x, p, ZeroPage);
        reserved := reserved + {p};
      } else {
        forall q | 0 <= q < NUM_PAGES
          ensures used[q]
        {
          assert !FreeRun(used[..], q, 1);
        }
      }
    }

    lemma ConsistentSizes()
      requires Valid()
      ensures |mem| == NUM_PAGES
    {
    }

    /** Second-level table `v1` of process `s`, created if missing. */
    method EnsureTable(root: nat, v1: nat, ghost s: nat) returns (ok: bool, t: nat)
      requires Valid() && Key(s, RootPage) in owners.loc && owners.loc[Key(s, RootPage)] == root && v1 < 1024
      modifies used, this`mem, this`reserved, this`owners
      ensures Valid()
      ensures !ok ==> forall q :: 0 <= q < NUM_PAGES ==> used[q]
      ensures ok ==> reserved == old(reserved) && Grew(old(owners), owners, {Key(s, TablePage(v1))})
      ensures ok ==> owners.loc[Key(s, TablePage(v1))] == t && t < NUM_PAGES
      ensures owners.loc.Keys <= old(owners.loc.Keys) + {Key(s, TablePage(v1))}
      ensures ok ==> SameContents(old(owners), old(mem), owners, mem, -1)
      ensures ok ==> |mem| == NUM_PAGES && forall q :: 0 <= q < NUM_PAGES && q in reserved ==> mem[q] == old(mem)[q]
    {
      hide Consistent, SameContents;
      ConsistentSizes();
      ContentsSelf(base, used[..], mem, reserved, owners, x);
      RootEntry(s, v1);
      if !Present(mem[root][v1]) {
        ok, t := AllocPage();
        if !ok { return; }
        AddTable(base, used[..], mem, reserved, owners, x, s, v1, t);
        ConsistentSizes();
        OwnedFor(Key(s, RootPage));
        ghost var mem1 := mem;
        ContentsKept(base, used[..], mem, reserved, owners, x, root, mem[root][v1 := Pte(base + t, 0)]);
        mem := mem[root := mem[root][v1 := Pte(base + t, 0)]];
        reserved := reserved - {t};
        owners := owners.Add(Key(s, TablePage(v1)), t);
        ContentsTrans(old(owners), old(mem), old(owners), mem1, old(owners), mem, -1, -1);
        ContentsGrew(old(owners), old(mem), old(owners), mem, owners, {Key(s, TablePage(v1))});
      } else {
        ok, t := true, Ppn(mem[root][v1]) - base;
      }
    }

    /** A page is owned for what it is owned for, and is not reserved. */
    lemma OwnedFor(k: Key)
      requires Valid() && k in owners.loc
      ensures owners.loc[k] < NUM_PAGES && owners.loc[k] in owners.owner && owners.owner[owners.loc[k]] == k
      ensures owners.loc[k] !in reserved
    {
    }

    lemma RootEntry(s: nat, v1: nat)
      requires Valid() && Key(s, RootPage) in owners.loc && v1 < 1024
      ensures owners.loc[Key(s, RootPage)] < NUM_PAGES == |mem|
      ensures mem[owners.loc[Key(s, RootPage)]][v1] ==
                if Key(s, TablePage(v1)) in owners.loc then Pte(base + owners.loc[Key(s, TablePage(v1))], 0) else 0
      ensures Key(s, TablePage(v1)) in owners.loc ==> owners.loc[Key(s, TablePage(v1))] < NUM_PAGES
    {
      assert RootHolds(base, mem, owners.loc, s);
    }

    /**
     Maps `vaddr` to `paddr` for process `s`: a point update of its translation. A user mapping of a
     page of managed RAM makes the process its owner. False for PANIC.
     */
    method MapPage(root: nat, vaddr: word, paddr: word, flags: nat, ghost s: nat) returns (ok: bool)
      requires Valid() && Key(s, RootPage) in owners.loc && owners.loc[Key(s, RootPage)] == root && flags < 1024
      requires flags % 2 == 0
      requires var v, e := Target(s, vaddr), Content(paddr, flags);
               && Key(s, UserPage(v.v1, v.v0)) !in owners.loc
               && (Owning(base, v.v1, e) ==> v !in x && Ppn(e) - base in reserved)
      modifies used, this`mem, this`reserved, this`owners, this`x
      ensures !ok ==> vaddr % 4096 != 0 || paddr % 4096 != 0 || forall q :: 0 <= q < NUM_PAGES ==> used[q]
      ensures ok ==> vaddr % 4096 == 0 && paddr % 4096 == 0 && Valid()
      ensures ok ==> x == old(x)[Target(s, vaddr) := Content(paddr, flags)]
      ensures ok ==> reserved == old(reserved) - Backing(base, Target(s, vaddr).v1, Content(paddr, flags))
      ensures ok ==> var v, e := Target(s, vaddr), Content(paddr, flags);
                Grew(old(owners), owners,
                     {Key(s, TablePage(v.v1))} + if Owning(base, v.v1, e) then {Key(s, UserPage(v.v1, v.v0))} else {})
      ensures ok ==> SameContents(old(owners), old(mem), owners, mem, -1)
      ensures ok ==>
                |mem| == NUM_PAGES && forall q :: 0 <= q < NUM_PAGES && q in old(reserved) ==> mem[q] == old(mem)[q]
    {
      hide Consistent, SameContents;
      if vaddr % 4096 != 0 {
        return false;
      }
      if paddr % 4096 != 0 {
        return false;
      }
      var v1 := vaddr / 0x40_0000 % 1024;
      assert v1 == Target(s, vaddr).v1;
      var t;
      ok, t := EnsureTable(root, v1, s);
      if !ok { return; }
      var v0 := vaddr / 4096 % 1024;
      var e := Content(paddr, flags);
      ghost var v := VPage(s, v1, v0);
      if v1 < 512 && base <= Ppn(e) < base + NUM_PAGES {
        AddUser(base, used[..], mem, reserved, owners, x, v, e, Ppn(e) - base);
      } else {
        SetEntry(base, used[..], mem, reserved, owners, x, v, e);
        assert reserved - Backing(base, v1, e) == reserved;
      }
      ConsistentSizes();
      OwnedFor(Key(s, TablePage(v1)));
      ContentsKept(base, used[..], mem, reserved, owners, x, t, mem[t][v0 := e]);
      ghost var o1, mem1 := owners, mem;
      mem := mem[t := mem[t][v0 := e]];
      ContentsTrans(old(owners), old(mem), o1, mem1, o1, mem, -1, -1);
      reserved := reserved - Backing(base, v1, e);
      x := x[v := e];
      owners := if Owning(base, v1, e) then owners.Add(Key(s, UserPage(v1, v0)), Ppn(e) - base) else owners;
      ContentsGrew(old(owners), old(mem), o1, mem, owners,
                   if Owning(base, v1, e) then {Key(s, UserPage(v1, v0))} else {});
    }

    /**
     One turn of the page loops of `create_process` and `sbrk`: a fresh page at the end of the user pages. `page` is
     what is copied there before it is mapped; `sbrk` leaves it as zeros.
     */
    method AddUserPage(root: nat, e: nat, flags: nat, page: Page, ghost s: nat, ghost m: nat) returns (ok: bool)
      requires Valid() && Key(s, RootPage) in owners.loc && owners.loc[Key(s, RootPage)] == root && flags < 1024
      requires flags % 2 == 0
      requires UserShape(base, x, s, e, e, e, m) && USER_VPN <= e < 0x8_0000
      modifies used, this`mem, this`reserved, this`owners, this`x
      ensures !ok ==> forall q :: 0 <= q < NUM_PAGES ==> used[q]
      ensures ok ==> e < USER_VPN + NUM_PAGES && Valid() && UserShape(base, x, s, e + 1, e + 1, e + 1, m)
      ensures ok ==> reserved == old(reserved)
      ensures ok ==> Outside(old(x), x, s, e, e + 1) && OnlySlot(old(owners), old(x), owners, x, s)
      ensures ok ==> Key(s, RootPage) in owners.loc && owners.loc[Key(s, RootPage)] == root
      ensures ok ==> SameContents(old(owners), old(mem), owners, mem, -1) && HasPage(owners, mem, At(s, e), page)
      ensures ok ==> At(s, e) in x && x[At(s, e)] % 1024 == flags + 1
    {
      hide Consistent, UserShape, Outside, OnlySlot, SameContents;
      var p;
      ok, p := AllocPage();
      if !ok { return; }
      FillReserved(base, used[..], mem, reserved, owners, x, p, page);
      ContentsKept(base, used[..], mem, reserved, owners, x, p, page);
      ghost var mem1 := mem;
      mem := mem[p := page];
      ContentsTrans(old(owners), old(mem), owners, mem1, owners, mem, -1, -1);
      UserFits(base, used[..], mem, reserved, owners, x, s, e, m);
      TargetOf(s, e);
      ghost var entry := Content(4096 * (base + p), flags);
      ShapeGrow(base, x, s, e, m, entry);
      NotUser(s, At(s, e));
      ghost var o1, mem2 := owners, mem;
      ok := MapPage(root, 4096 * e, 4096 * (base + p), flags, s);
      if !ok { return; }
      ContentsTrans(o1, old(mem), o1, mem2, owners, mem, -1, -1);
      assert reserved == old(reserved);
      assert Outside(old(x), x, s, e, e + 1) by { OutsideAt(old(x), s, e, entry); }
      GrewOnly(o1, old(x), owners, s, owners.loc.Keys - o1.loc.Keys, At(s, e), entry);
      OwnedThrough(At(s, e));
      UserFits(base, used[..], mem, reserved, owners, x, s, e + 1, m);
    }

    lemma OwnedThrough(v: VPage)
      requires Valid() && v in x && Owning(base, v.v1, x[v])
      ensures var k := Key(v.slot, UserPage(v.v1, v.v0)); k in owners.loc && owners.loc[k] == Ppn(x[v]) - base
    {
    }

    lemma NotUser(s: nat, v: VPage)
      requires Valid() && v !in x && v.slot == s
      ensures Key(s, UserPage(v.v1, v.v0)) !in owners.loc
    {
      UserIsMapped(base, owners.loc, x, Key(s, UserPage(v.v1, v.v0)));
    }

    ghost predicate Running()
      reads this, used
    {
      && Valid() && 0x80200 <= kernelVpn <= base
      && |procs| == PROCS_MAX
      && (forall s {:trigger procs[s]} :: 0 <= s < PROCS_MAX ==> ProcOk(base, owners, x, procs[s], s))
      && SlotsOnly(owners)
      && (forall s {:trigger procs[s]} :: 0 <= s < PROCS_MAX && procs[s].live ==> HasKernel(x, s, kernelVpn, base))
    }

    /** After a step that touched only process `s`, the others are as they were. */
    lemma OthersOk(o: Owners, y: map<VPage, word>, ps: seq<Proc>, s: nat)
      requires |ps| == PROCS_MAX == |procs| && s < PROCS_MAX && OnlySlot(o, y, owners, x, s)
      requires forall q :: 0 <= q < PROCS_MAX ==> ProcOk(base, o, y, ps[q], q)
      requires forall q :: 0 <= q < PROCS_MAX && q != s ==> procs[q] == ps[q]
      requires SlotsOnly(o) && base + NUM_PAGES <= 0x10_0000
      requires forall q :: 0 <= q < PROCS_MAX && ps[q].live ==> HasKernel(y, q, kernelVpn, base)
      ensures forall q :: 0 <= q < PROCS_MAX && q != s ==> ProcOk(base, owners, x, procs[q], q)
      ensures forall q :: 0 <= q < PROCS_MAX && q != s && procs[q].live ==> HasKernel(x, q, kernelVpn, base)
      ensures SlotsOnly(owners)
    {
      hide UserShape, HasKernel;
      forall q | 0 <= q < PROCS_MAX && q != s
        ensures ProcOk(base, owners, x, procs[q], q) && (procs[q].live ==> HasKernel(x, q, kernelVpn, base))
      {
        ProcKept(base, o, y, owners, x, s, ps[q], q);
        if ps[q].live {
          KernelOnly(o, y, owners, x, s, q, kernelVpn, base);
        }
      }
    }

    // ----- sbrk -----

    /** The growing loop of `sbrk`. */
    method Grow(s: nat, from: nat, to: nat) returns (ok: bool)
      requires Valid() && s < |procs| && Key(s, RootPage) in owners.loc && owners.loc[Key(s, RootPage)] == procs[s].root
      requires UserShape(base, x, s, from, from, from, 0x10004) && USER_VPN <= from <= to <= 0x8_0000
      modifies used, this`mem, this`reserved, this`owners, this`x
      ensures !ok ==> forall q :: 0 <= q < NUM_PAGES ==> used[q]
      ensures ok ==> Valid() && UserShape(base, x, s, to, to, to, 0x10004) && reserved == old(reserved)
      ensures ok ==> Outside(old(x), x, s, from, to) && OnlySlot(old(owners), old(x), owners, x, s)
      ensures ok ==> Key(s, RootPage) in owners.loc && owners.loc[Key(s, RootPage)] == procs[s].root
      ensures ok ==> SameContents(old(owners), old(mem), owners, mem, -1)
      ensures ok ==> AllHave(owners, mem, s, from, to, ZeroPage)
      ensures ok ==> HasRights(x, s, from, to, PAGE_U + PAGE_R + PAGE_W)
    {
      hide Consistent, UserShape, Outside, OnlySlot, SameContents, AllHave, HasPage, HasRights;
      NoRights(x, s, from, PAGE_U + PAGE_R + PAGE_W);
      NoneHave(owners, mem, s, from, ZeroPage);
      ContentsSelf(base, used[..], mem, reserved, owners, x);
      var va := from;
      SelfSame(owners, x, s, from, to);
      while va < to
        invariant from <= va <= to
        invariant Valid() && UserShape(base, x, s, va, va, va, 0x10004) && reserved == old(reserved)
        invariant Outside(old(x), x, s, from, to) && OnlySlot(old(owners), old(x), owners, x, s)
        invariant Key(s, RootPage) in owners.loc && owners.loc[Key(s, RootPage)] == procs[s].root
        invariant SameContents(old(owners), old(mem), owners, mem, -1)
        invariant AllHave(owners, mem, s, from, va, ZeroPage) && HasRights(x, s, from, va, PAGE_U + PAGE_R + PAGE_W)
      {
        ghost var o1, x1, mem1 := owners, x, mem;
        ok := AddUserPage(procs[s].root, va, PAGE_U + PAGE_R + PAGE_W, ZeroPage, s, 0x10004);
        if !ok { return; }
        ContentsTrans(old(owners), old(mem), o1, mem1, owners, mem, -1, -1);
        RightsMore(x1, x, s, from, va, PAGE_U + PAGE_R + PAGE_W);
        AllHaveMore(o1, mem1, owners, mem, s, from, va, ZeroPage);
        OutsideWiden(x1, x, s, va, va + 1, from, to);
        OutsideTrans(old(x), x1, x, s, from, to);
        OnlySlotTrans(old(owners), old(x), o1, x1, owners, x, s);
        va := va + 1;
      }
      ok := true;
    }

    /** One turn of the shrinking loop: the page at `b` is found through the tables, freed and unmapped. */
    method DropUserPage(s: nat, b: nat, ghost a: nat, ghost e: nat) returns (ok: bool)
      requires Valid() && s < |procs| && Key(s, RootPage) in owners.loc && owners.loc[Key(s, RootPage)] == procs[s].root
      requires UserShape(base, x, s, a, b, e, 0x10004) && USER_VPN <= a <= b < e <= 0x10001
      modifies used, this`mem, this`owners, this`x
      ensures ok && Valid() && UserShape(base, x, s, a, b + 1, e, 0x10004)
      ensures Outside(old(x), x, s, b, b + 1) && OnlySlot(old(owners), old(x), owners, x, s)
      ensures Key(s, RootPage) in owners.loc && owners.loc[Key(s, RootPage)] == procs[s].root
      ensures SameContents(old(owners), old(mem), owners, mem, s)
    {
      hide Consistent, UserShape, Outside, OnlySlot;
      ok := true;
      var va := 4096 * b;
      TargetOf(s, b);
      ShapeShrink(base, x, s, a, b, e, 0x10004);
      DropUser(base, used[..], mem, reserved, owners, x, At(s, b));
      RootEntry(s, va / 0x40_0000);
      LeafEntry(s, At(s, b));
      var t1 := mem[procs[s].root];
      var v1 := va / 0x40_0000 % 1024;
      if Present(t1[v1]) {
        var t := Ppn(t1[v1]) - base;
        var v0 := va / 4096 % 1024;
        if Present(mem[t][v0]) {
          OwnedFor(Key(s, TablePage(v1)));
          ok := FreePages(Ppn(mem[t][v0]), 1);
          assert used[..] == old(used[..])[Ppn(old(mem)[t][v0]) - base := false];
          ContentsKept(base, old(used[..]), mem, reserved, owners, x, t, mem[t][v0 := 0]);
          mem := mem[t := mem[t][v0 := 0]];
          owners := owners.Remove(Key(s, UserPage(v1, v0)));
          x := x - {At(s, b)};
          DropOnly(old(owners), old(x), s, At(s, b));
        }
      }
    }

    lemma LeafEntry(s: nat, v: VPage)
      requires Valid() && v in x && v.slot == s
      ensures Key(s, TablePage(v.v1)) in owners.loc && owners.loc[Key(s, TablePage(v.v1))] < NUM_PAGES == |mem|
      ensures v.v1 < 1024 && v.v0 < 1024 && mem[owners.loc[Key(s, TablePage(v.v1))]][v.v0] == x[v] && Present(x[v])
    {
      assert TableHolds(mem, owners.loc, x, s, v.v1);
    }

    /** The shrinking loop of `sbrk`. */
    method Shrink(s: nat, to: nat, from: nat) returns (ok: bool)
      requires Valid() && s < |procs| && Key(s, RootPage) in owners.loc && owners.loc[Key(s, RootPage)] == procs[s].root
      requires UserShape(base, x, s, from, from, from, 0x10004) && USER_VPN <= to <= from <= 0x10001
      modifies used, this`mem, this`owners, this`x
      ensures ok && Valid() && UserShape(base, x, s, to, to, to, 0x10004)
      ensures Outside(old(x), x, s, to, from) && OnlySlot(old(owners), old(x), owners, x, s)
      ensures Key(s, RootPage) in owners.loc && owners.loc[Key(s, RootPage)] == procs[s].root
      ensures SameContents(old(owners), old(mem), owners, mem, s)
    {
      hide Consistent, UserShape, Outside, OnlySlot, SameContents;
      ContentsSelf(base, used[..], mem, reserved, owners, x);
      ContentsOthers(owners, mem, owners, mem, s);
      ok := true;
      var va := to;
      SelfSame(owners, x, s, to, from);
      ShapeJoin(base, x, s, to, from, 0x10004);
      while va < from
        invariant to <= va <= from && ok
        invariant Valid() && UserShape(base, x, s, to, va, from, 0x10004)
        invariant Outside(old(x), x, s, to, from) && OnlySlot(old(owners), old(x), owners, x, s)
        invariant Key(s, RootPage) in owners.loc && owners.loc[Key(s, RootPage)] == procs[s].root
        invariant SameContents(old(owners), old(mem), owners, mem, s)
      {
        ghost var o1, x1, mem1 := owners, x, mem;
        ok := DropUserPage(s, va, to, from);
        ContentsTrans(old(owners), old(mem), o1, mem1, owners, mem, s, s);
        OutsideWiden(x1, x, s, va, va + 1, to, from);
        OutsideTrans(old(x), x1, x, s, to, from);
        OnlySlotTrans(old(owners), old(x), o1, x1, owners, x, s);
        va := va + 1;
      }
      ShapeJoin(base, x, s, to, from, 0x10004);
    }

    /**
     Moves the end of the heap; the result is the old end, or -1 with nothing changed. Not `ok` is the
     out-of-memory PANIC.
     */
    method Sbrk(s: nat, increment: int) returns (ok: bool, ret: int)
      requires Running() && s < PROCS_MAX && procs[s].live && -0x8000_0000 <= increment < 0x8000_0000
      modifies used, this`mem, this`reserved, this`owners, this`x, this`procs
      ensures !ok ==> increment > 0 && forall q :: 0 <= q < NUM_PAGES ==> used[q]
      ensures ok ==> Running() && reserved == old(reserved) && OnlySlot(old(owners), old(x), owners, x, s)
      ensures ok ==> var brk, new_ := old(procs)[s].heapEnd, old(procs)[s].heapEnd + increment;
                if old(procs)[s].heapStart <= new_ < 0x8000_0000
                then ret == brk && procs == old(procs)[s := old(procs)[s].(heapEnd := new_)]
                     && Outside(old(x), x, s, PagesOf(if increment < 0 then new_ else brk),
                          PagesOf(if increment < 0 then brk else new_))
                else ret == -1 && procs == old(procs) && x == old(x) && used[..] == old(used[..])
      ensures ok ==> SameContents(old(owners), old(mem), owners, mem, s)
      ensures ok && increment >= 0 ==> SameContents(old(owners), old(mem), owners, mem, -1)
      ensures ok && ret != -1 ==>
                || increment <= 0
                || (AllHave(owners, mem, s, PagesOf(ret), PagesOf(ret + increment), ZeroPage)
                    && HasRights(x, s, PagesOf(ret), PagesOf(ret + increment), PAGE_U + PAGE_R + PAGE_W))
    {
      hide Consistent, UserShape, Outside, OnlySlot, SameContents, AllHave, HasRights, HasKernel;
      ContentsSelf(base, used[..], mem, reserved, owners, x);
      ContentsOthers(owners, mem, owners, mem, s);
      var p := procs[s];
      var oldBrk := p.heapEnd;
      var newBrk := (oldBrk + increment) % 0x1_0000_0000;
      HeapFits(s);
      ok := true;
      SelfSame(owners, x, s, PagesOf(oldBrk), PagesOf(oldBrk));
      if increment < 0 {
        if newBrk < p.heapStart || newBrk > oldBrk {
          return true, -1;
        }
        if PagesOf(newBrk) < PagesOf(oldBrk) {
          ok := Shrink(s, PagesOf(newBrk), PagesOf(oldBrk));
          KernelOutside(old(x), x, s, PagesOf(newBrk), PagesOf(oldBrk), kernelVpn, base);
        }
        procs := procs[s := p.(heapEnd := newBrk)];
        ret := oldBrk;
      } else if increment > 0 {
        if newBrk < oldBrk || newBrk >= 0x8000_0000 {
          return true, -1;
        }
        ok := Grow(s, PagesOf(oldBrk), PagesOf(newBrk));
        if !ok {
          return false, -1;
        }
        ContentsOthers(old(owners), old(mem), owners, mem, s);
        UserFits(base, used[..], mem, reserved, owners, x, s, PagesOf(newBrk), 0x10004);
        KernelOutside(old(x), x, s, PagesOf(oldBrk), PagesOf(newBrk), kernelVpn, base);
        procs := procs[s := p.(heapEnd := newBrk)];
        ret := oldBrk;
      } else {
        ret := oldBrk;
        assert procs == procs[s := p.(heapEnd := oldBrk)];
      }
      OthersOk(old(owners), old(x), old(procs), s);
    }

    lemma HeapFits(s: nat)
      requires Running() && s < PROCS_MAX && procs[s].live
      ensures USER_VPN <= PagesOf(procs[s].heapEnd) <= USER_VPN + NUM_PAGES
    {
      hide Consistent, UserShape;
      UserFits(base, used[..], mem, reserved, owners, x, s, PagesOf(procs[s].heapEnd), 0x10004);
    }

    /** Growing the heap and shrinking it back restores every translation. */
    method GrowThenShrink(s: nat, k: nat) returns (ok: bool, ret: int)
      requires Running() && s < PROCS_MAX && procs[s].live && 0 < k < 0x8000_0000
      modifies used, this`mem, this`reserved, this`owners, this`x, this`procs
      ensures !ok ==> forall q :: 0 <= q < NUM_PAGES ==> used[q]
      ensures ok ==> Running() && x == old(x) && procs == old(procs)
    {
      hide Consistent, UserShape, Outside, OnlySlot;
      InRange();
      ok, ret := Sbrk(s, k);
      if ok && ret != -1 {
        ghost var x1 := x;
        HeapFits(s);
        ok, ret := Sbrk(s, 0 - k as int);
        if ok {
          InRange();
          HeapFits(s);
          Restored(base, old(x), x1, x, s, PagesOf(procs[s].heapEnd), PagesOf(procs[s].heapEnd + k));
        }
      }
    }

    lemma InRange()
      requires Valid()
      ensures forall v :: v in x ==> v.v0 < 1024
    {
      forall v | v in x
        ensures v.v0 < 1024
      {
        assert Present(x[v]);
      }
    }

    // ----- creating a process -----

    /** The identity mapping of the kernel image and the managed RAM. */
    method MapKernel(root: nat, ghost s: nat) returns (ok: bool)
      requires Valid() && 0x80200 <= kernelVpn <= base && Key(s, RootPage) in owners.loc
      requires owners.loc[Key(s, RootPage)] == root
      requires UserShape(base, x, s, USER_VPN, USER_VPN, USER_VPN, 0x10001)
      modifies used, this`mem, this`reserved, this`owners, this`x
      ensures !ok ==> forall q :: 0 <= q < NUM_PAGES ==> used[q]
      ensures ok ==>
                Valid() && UserShape(base, x, s, USER_VPN, USER_VPN, USER_VPN, 0x10001) && reserved == old(reserved)
      ensures ok ==> OnlySlot(old(owners), old(x), owners, x, s)
      ensures ok ==> owners.loc.Keys == old(owners.loc.Keys) + KernelTables(s, kernelVpn, base)
      ensures ok ==> Key(s, RootPage) in owners.loc && owners.loc[Key(s, RootPage)] == root
      ensures ok ==> SameContents(old(owners), old(mem), owners, mem, -1)
      ensures ok ==> Identity(x, s, kernelVpn, base + NUM_PAGES, PAGE_R + PAGE_W + PAGE_X)
    {
      hide Consistent, UserShape, OnlySlot, SameContents, Identity, TableKeys;
      var ppn := kernelVpn;
      NoTables(s, kernelVpn / 1024);
      SelfSame(owners, x, s, 0, 0);
      NoIdentity(x, s, kernelVpn, PAGE_R + PAGE_W + PAGE_X);
      ContentsSelf(base, used[..], mem, reserved, owners, x);
      while ppn < base + NUM_PAGES
        invariant kernelVpn <= ppn <= base + NUM_PAGES
        invariant Valid() && UserShape(base, x, s, USER_VPN, USER_VPN, USER_VPN, 0x10001) && reserved == old(reserved)
        invariant OnlySlot(old(owners), old(x), owners, x, s)
        invariant owners.loc.Keys ==
                  old(owners.loc.Keys) +
                    TableKeys(s, kernelVpn / 1024, if ppn == kernelVpn then kernelVpn / 1024 else (ppn - 1) / 1024 + 1)
        invariant Key(s, RootPage) in owners.loc && owners.loc[Key(s, RootPage)] == root
        invariant SameContents(old(owners), old(mem), owners, mem, -1)
        invariant Identity(x, s, kernelVpn, ppn, PAGE_R + PAGE_W + PAGE_X)
      {
        ghost var o1, x1, mem1 := owners, x, mem;
        TargetOf(s, ppn);
        KernelKey(s, At(s, ppn));
        ok := MapPage(root, 4096 * ppn, 4096 * ppn, PAGE_R + PAGE_W + PAGE_X, s);
        if !ok { return; }
        ContentsTrans(old(owners), old(mem), o1, mem1, owners, mem, -1, -1);
        IdentityMore(x1, s, kernelVpn, ppn, PAGE_R + PAGE_W + PAGE_X);
        ShapeKernel(base, x1, s, At(s, ppn), Content(4096 * ppn, PAGE_R + PAGE_W + PAGE_X));
        GrewOnly(o1, x1, owners, s, owners.loc.Keys - o1.loc.Keys, At(s, ppn),
          Content(4096 * ppn, PAGE_R + PAGE_W + PAGE_X));
        OnlySlotTrans(old(owners), old(x), o1, x1, owners, x, s);
        assert reserved == old(reserved);
        OneMoreTable(s, kernelVpn, ppn);
        ppn := ppn + 1;
      }
      ok := true;
    }

    lemma KernelKey(s: nat, v: VPage)
      requires Valid() && v.v1 >= 512
      ensures Key(s, UserPage(v.v1, v.v0)) !in owners.loc
    {
      UserIsMapped(base, owners.loc, x, Key(s, UserPage(v.v1, v.v0)));
    }

    /** The three device pages. */
    method MapDevices(root: nat, ghost s: nat) returns (ok: bool)
      requires Valid() && Key(s, RootPage) in owners.loc && owners.loc[Key(s, RootPage)] == root
      requires UserShape(base, x, s, USER_VPN, USER_VPN, USER_VPN, 0x10001)
      requires Identity(x, s, kernelVpn, base + NUM_PAGES, PAGE_R + PAGE_W + PAGE_X) && 0x80200 <= kernelVpn
      modifies used, this`mem, this`reserved, this`owners, this`x
      ensures !ok ==> forall q :: 0 <= q < NUM_PAGES ==> used[q]
      ensures ok ==>
                Valid() && UserShape(base, x, s, USER_VPN, USER_VPN, USER_VPN, 0x10004) && reserved == old(reserved)
      ensures ok ==> OnlySlot(old(owners), old(x), owners, x, s)
      ensures ok ==> owners.loc.Keys == old(owners.loc.Keys) + {Key(s, TablePage(64))}
      ensures ok ==> Key(s, RootPage) in owners.loc && owners.loc[Key(s, RootPage)] == root
      ensures ok ==> SameContents(old(owners), old(mem), owners, mem, -1)
      ensures ok ==> HasKernel(x, s, kernelVpn, base)
    {
      hide Consistent, UserShape, OnlySlot, SameContents, Identity;
      var m := 0x10001;
      SelfSame(owners, x, s, 0, 0);
      NoIdentity(x, s, 0x10001, PAGE_R + PAGE_W);
      ContentsSelf(base, used[..], mem, reserved, owners, x);
      while m < 0x10004
        invariant 0x10001 <= m <= 0x10004
        invariant Valid() && UserShape(base, x, s, USER_VPN, USER_VPN, USER_VPN, m) && reserved == old(reserved)
        invariant OnlySlot(old(owners), old(x), owners, x, s)
        invariant owners.loc.Keys == old(owners.loc.Keys) + if m == 0x10001 then {} else {Key(s, TablePage(64))}
        invariant Key(s, RootPage) in owners.loc && owners.loc[Key(s, RootPage)] == root
        invariant SameContents(old(owners), old(mem), owners, mem, -1)
        invariant Identity(x, s, kernelVpn, base + NUM_PAGES, PAGE_R + PAGE_W + PAGE_X)
        invariant Identity(x, s, 0x10001, m, PAGE_R + PAGE_W)
      {
        ghost var o1, x1, mem1 := owners, x, mem;
        ghost var e := Content(4096 * m, PAGE_R + PAGE_W);
        TargetOf(s, m);
        ShapeDevice(base, x, s, m, e);
        Unmapped(base, x, s, m, m);
        NotUser(s, At(s, m));
        ok := MapPage(root, 4096 * m, 4096 * m, PAGE_R + PAGE_W, s);
        if !ok { return; }
        ContentsTrans(old(owners), old(mem), o1, mem1, owners, mem, -1, -1);
        IdentityMore(x1, s, 0x10001, m, PAGE_R + PAGE_W);
        IdentityOther(x1, s, kernelVpn, base + NUM_PAGES, PAGE_R + PAGE_W + PAGE_X, m, e);
        GrewOnly(o1, x1, owners, s, owners.loc.Keys - o1.loc.Keys, At(s, m), e);
        OnlySlotTrans(old(owners), old(x), o1, x1, owners, x, s);
        assert reserved == old(reserved);
        m := m + 1;
      }
      ok := true;
    }

    /** The image pages, from `USER_BASE` on. */
    method MapImage(root: nat, image: seq<byte>, ghost s: nat) returns (ok: bool)
      requires Valid() && Key(s, RootPage) in owners.loc && owners.loc[Key(s, RootPage)] == root
      requires UserShape(base, x, s, USER_VPN, USER_VPN, USER_VPN, 0x10004)
      requires HasKernel(x, s, kernelVpn, base) && 0x80200 <= kernelVpn
      modifies used, this`mem, this`reserved, this`owners, this`x
      ensures !ok ==> forall q :: 0 <= q < NUM_PAGES ==> used[q]
      ensures ok ==> Valid() && reserved == old(reserved)
      ensures ok ==> USER_VPN + PagesOf(|image|) <= USER_VPN + NUM_PAGES
      ensures ok ==> UserShape(base, x, s, USER_VPN + PagesOf(|image|), USER_VPN + PagesOf(|image|),
                               USER_VPN + PagesOf(|image|), 0x10004)
      ensures ok ==> OnlySlot(old(owners), old(x), owners, x, s)
      ensures ok ==> Key(s, RootPage) in owners.loc && owners.loc[Key(s, RootPage)] == root
      ensures ok ==> SameContents(old(owners), old(mem), owners, mem, -1)
      ensures ok ==> Loaded(owners, mem, s, image, PagesOf(|image|)) && HasKernel(x, s, kernelVpn, base)
      ensures ok ==> HasRights(x, s, USER_VPN, USER_VPN + PagesOf(|image|), PAGE_U + PAGE_R + PAGE_W + PAGE_X)
    {
      hide Consistent, UserShape, OnlySlot, Outside, SameContents, Loaded, ImagePage, HasKernel, HasRights;
      var n := 0;
      SelfSame(owners, x, s, 0, 0);
      ContentsSelf(base, used[..], mem, reserved, owners, x);
      assert Loaded(owners, mem, s, image, 0) by { NothingLoaded(owners, mem, s, image); }
      NoRights(x, s, USER_VPN, PAGE_U + PAGE_R + PAGE_W + PAGE_X);
      while 4096 * n < |image|
        invariant 0 <= n <= PagesOf(|image|) && n <= NUM_PAGES
        invariant Valid() && UserShape(base, x, s, USER_VPN + n, USER_VPN + n, USER_VPN + n, 0x10004)
        invariant reserved == old(reserved)
        invariant OnlySlot(old(owners), old(x), owners, x, s)
        invariant Key(s, RootPage) in owners.loc && owners.loc[Key(s, RootPage)] == root
        invariant SameContents(old(owners), old(mem), owners, mem, -1) && Loaded(owners, mem, s, image, n)
        invariant HasKernel(x, s, kernelVpn, base)
        invariant HasRights(x, s, USER_VPN, USER_VPN + n, PAGE_U + PAGE_R + PAGE_W + PAGE_X)
        decreases PagesOf(|image|) - n
      {
        ghost var o1, x1, mem1 := owners, x, mem;
        ok := AddUserPage(root, USER_VPN + n, PAGE_U + PAGE_R + PAGE_W + PAGE_X, ImagePage(image, n), s, 0x10004);
        if !ok { return; }
        ContentsTrans(old(owners), old(mem), o1, mem1, owners, mem, -1, -1);
        OnlySlotTrans(old(owners), old(x), o1, x1, owners, x, s);
        KernelOutside(x1, x, s, USER_VPN + n, USER_VPN + n + 1, kernelVpn, base);
        RightsMore(x1, x, s, USER_VPN, USER_VPN + n, PAGE_U + PAGE_R + PAGE_W + PAGE_X);
        LoadedMore(o1, mem1, owners, mem, s, image, n);
        n := n + 1;
      }
      ok := true;
    }

    /** An address space for slot `s` without user pages: the first-level table, the kernel and the devices. */
    method NewSpace(s: nat) returns (ok: bool, root: nat)
      requires Valid() && 0x80200 <= kernelVpn <= base && Key(s, RootPage) !in owners.loc
      modifies used, this`mem, this`reserved, this`owners, this`x
      ensures !ok ==> forall q :: 0 <= q < NUM_PAGES ==> used[q]
      ensures ok ==> Valid() && reserved == old(reserved) && OnlySlot(old(owners), old(x), owners, x, s)
      ensures ok ==> UserShape(base, x, s, USER_VPN, USER_VPN, USER_VPN, 0x10004)
      ensures ok ==> Key(s, RootPage) in owners.loc && owners.loc[Key(s, RootPage)] == root
      ensures ok ==> owners.loc.Keys == old(owners.loc.Keys) + {Key(s, RootPage)} + BareTables(s, kernelVpn, base)
      ensures ok ==> SameContents(old(owners), old(mem), owners, mem, -1) && HasKernel(x, s, kernelVpn, base)
    {
      hide Consistent, UserShape, OnlySlot, TableKeys, SameContents, Identity, HasKernel;
      ok, root := AllocPage();
      if !ok { return; }
      AddRoot(base, used[..], mem, reserved, owners, x, s, root);
      FreshShape(base, x, s);
      reserved := reserved - {root};
      owners := owners.Add(Key(s, RootPage), root);
      ContentsGrew(old(owners), old(mem), old(owners), mem, owners, {Key(s, RootPage)});
      RootOnly(old(owners), x, s, root);
      assert reserved == old(reserved);
      ghost var o1, x1, mem1 := owners, x, mem;
      ok := MapKernel(root, s);
      if !ok { return; }
      OnlySlotTrans(old(owners), old(x), o1, x1, owners, x, s);
      ContentsTrans(old(owners), old(mem), o1, mem1, owners, mem, -1, -1);
      o1, x1, mem1 := owners, x, mem;
      ok := MapDevices(root, s);
      if !ok { return; }
      OnlySlotTrans(old(owners), old(x), o1, x1, owners, x, s);
      ContentsTrans(old(owners), old(mem), o1, mem1, owners, mem, -1, -1);
    }

    /** A new process in slot `s` with the bytes of an image; false for PANIC. */
    method CreateProcess(s: nat, image: seq<byte>) returns (ok: bool)
      requires Running() && s < PROCS_MAX && !procs[s].live && |image| < 0x1_0000_0000
      modifies used, this`mem, this`reserved, this`owners, this`x, this`procs
      ensures !ok ==> forall q :: 0 <= q < NUM_PAGES ==> used[q]
      ensures ok ==> Running() && reserved == old(reserved) && OnlySlot(old(owners), old(x), owners, x, s)
      ensures ok ==> && procs[s].live && procs[s].heapStart == procs[s].heapEnd == 4096 * (USER_VPN + PagesOf(|image|))
                     && procs == old(procs)[s := procs[s]]
      ensures ok ==> SameContents(old(owners), old(mem), owners, mem, -1)
      ensures ok ==> Loaded(owners, mem, s, image, PagesOf(|image|)) && HasKernel(x, s, kernelVpn, base)
      ensures ok ==> HasRights(x, s, USER_VPN, USER_VPN + PagesOf(|image|), PAGE_U + PAGE_R + PAGE_W + PAGE_X)
    {
      hide Consistent, UserShape, OnlySlot, SameContents, Loaded, HasKernel, HasRights;
      var root;
      ok, root := NewSpace(s);
      if !ok { return; }
      ghost var o1, x1, mem1 := owners, x, mem;
      ok := MapImage(root, image, s);
      if !ok { return; }
      OnlySlotTrans(old(owners), old(x), o1, x1, owners, x, s);
      ContentsTrans(old(owners), old(mem), o1, mem1, owners, mem, -1, -1);
      var heapStart := 4096 * (USER_VPN + PagesOf(|image|));
      procs := procs[s := Proc(true, root, heapStart, heapStart)];
      assert PagesOf(heapStart) == USER_VPN + PagesOf(|image|);
      OthersOk(old(owners), old(x), old(procs), s);
    }

    // ----- reaping a process -----

    /** Pages of slot `s` whose key comes before position (`v1`, `v0`) of the sweep have been freed. */
    ghost predicate Swept(s: nat, v1: nat, v0: nat, gone: set<nat>)
      reads this
    {
      && (forall p {:trigger p in gone} :: p in gone ==> p in owners.owner && owners.owner[p].slot == s)
      && (forall k {:trigger owners.loc[k]} :: k in owners.loc && k.slot == s ==>
            match k.node
            case RootPage => true
            case TablePage(w1) => w1 < v1 ==> owners.loc[k] in gone
            case UserPage(w1, w0) => w1 < v1 || (w1 == v1 && w0 < v0) ==> owners.loc[k] in gone)
    }

    /** Frees the user pages below second-level table `t` of slot `s`. */
    method SweepTable(s: nat, v1: nat, t: nat, ghost was: seq<bool>, ghost start: set<nat>)
      returns (ok: bool, ghost gone: set<nat>)
      requires used.Length == NUM_PAGES && Consistent(base, was, mem, reserved, owners, x)
      requires FreedFrom(was, used[..], start)
      requires v1 < 512 && Key(s, TablePage(v1)) in owners.loc && owners.loc[Key(s, TablePage(v1))] == t
      requires Swept(s, v1, 0, start)
      modifies used
      ensures ok && FreedFrom(was, used[..], gone) && Swept(s, v1, 1024, gone)
    {
      hide Consistent, FreedFrom;
      ok, gone := true, start;
      var v0 := 0;
      while v0 < 1024
        invariant 0 <= v0 <= 1024 && ok
        invariant FreedFrom(was, used[..], gone) && Swept(s, v1, v0, gone)
      {
        ghost var v := VPage(s, v1, v0);
        SweepEntry(was, s, v);
        var e := mem[t][v0];
        if Present(e) {
          if Ppn(e) >= base && Ppn(e) < base + NUM_PAGES {
            label L:
            ok := FreePages(Ppn(e), 1);
            FreedOne(was, old@L(used[..]), used[..], gone, Ppn(e) - base);
            gone := gone + {Ppn(e) - base};
          }
        }
        v0 := v0 + 1;
      }
    }

    /** What the sweep finds at a virtual page. */
    lemma SweepEntry(was: seq<bool>, s: nat, v: VPage)
      requires Consistent(base, was, mem, reserved, owners, x)
      requires v.slot == s && v.v1 < 512 && v.v0 < 1024 && Key(s, TablePage(v.v1)) in owners.loc
      ensures owners.loc[Key(s, TablePage(v.v1))] < NUM_PAGES == |mem|
      ensures var e := mem[owners.loc[Key(s, TablePage(v.v1))]][v.v0];
              (Present(e) && base <= Ppn(e) < base + NUM_PAGES) <==> Key(s, UserPage(v.v1, v.v0)) in owners.loc
      ensures var e := mem[owners.loc[Key(s, TablePage(v.v1))]][v.v0];
              Key(s, UserPage(v.v1, v.v0)) in owners.loc ==>
                && owners.loc[Key(s, UserPage(v.v1, v.v0))] == Ppn(e) - base
                && Ppn(e) - base in owners.owner && owners.owner[Ppn(e) - base] == Key(s, UserPage(v.v1, v.v0))
    {
      assert TableHolds(mem, owners.loc, x, s, v.v1);
      UserIsMapped(base, owners.loc, x, Key(s, UserPage(v.v1, v.v0)));
      if v in x { assert Present(x[v]); }
    }

    /** The sweep over the first-level table: user pages, then second-level tables. */
    method SweepTables(s: nat, root: nat) returns (ok: bool, ghost gone: set<nat>)
      requires Valid() && Key(s, RootPage) in owners.loc && owners.loc[Key(s, RootPage)] == root
      modifies used
      ensures ok && used.Length == NUM_PAGES && FreedFrom(old(used[..]), used[..], gone) && Swept(s, 1024, 0, gone)
    {
      hide Consistent, FreedFrom, Swept;
      ghost var was := used[..];
      ok, gone := true, {};
      FreedNone(was);
      SweptNone(was, s);
      var v1 := 0;
      while v1 < 1024
        invariant 0 <= v1 <= 1024 && ok
        invariant FreedFrom(was, used[..], gone) && Swept(s, v1, 0, gone)
      {
        SweepRoot(was, s, v1);
        var e := mem[root][v1];
        if Present(e) {
          var t := Ppn(e) - base;
          if v1 < 512 {
            ok, gone := SweepTable(s, v1, t, was, gone);
          } else {
            NoUserAbove(was, s, v1, gone);
          }
          label L:
          ok := FreePages(Ppn(e), 1);
          FreedOne(was, old@L(used[..]), used[..], gone, t);
          SweptNext(was, s, v1, gone, t);
          gone := gone + {t};
        } else {
          SweptEmpty(was, s, v1, gone);
        }
        v1 := v1 + 1;
      }
    }

    lemma SweptNone(was: seq<bool>, s: nat)
      ensures Swept(s, 0, 0, {})
    {
    }

    lemma SweptNext(was: seq<bool>, s: nat, v1: nat, gone: set<nat>, t: nat)
      requires Consistent(base, was, mem, reserved, owners, x) && Swept(s, v1, 1024, gone)
      requires t in owners.owner && owners.owner[t] == Key(s, TablePage(v1))
      ensures Swept(s, v1 + 1, 0, gone + {t})
    {
      UserBelow(was, s);
    }

    lemma SweptEmpty(was: seq<bool>, s: nat, v1: nat, gone: set<nat>)
      requires Consistent(base, was, mem, reserved, owners, x) && Swept(s, v1, 0, gone)
      requires Key(s, TablePage(v1)) !in owners.loc
      ensures Swept(s, v1 + 1, 0, gone)
    {
      UserBelow(was, s);
    }

    lemma SweepRoot(was: seq<bool>, s: nat, v1: nat)
      requires Consistent(base, was, mem, reserved, owners, x) && Key(s, RootPage) in owners.loc && v1 < 1024
      ensures owners.loc[Key(s, RootPage)] < NUM_PAGES == |mem|
      ensures var e := mem[owners.loc[Key(s, RootPage)]][v1];
              && (Present(e) <==> Key(s, TablePage(v1)) in owners.loc)
              && (Present(e) ==> && base <= Ppn(e) < base + NUM_PAGES
                                 && owners.loc[Key(s, TablePage(v1))] == Ppn(e) - base
                                 && Ppn(e) - base in owners.owner
                                 && owners.owner[Ppn(e) - base] == Key(s, TablePage(v1)))
    {
      assert RootHolds(base, mem, owners.loc, s);
      if Key(s, TablePage(v1)) in owners.loc {
        assert owners.owner[owners.loc[Key(s, TablePage(v1))]] == Key(s, TablePage(v1));
      }
    }

    lemma NoUserAbove(was: seq<bool>, s: nat, v1: nat, gone: set<nat>)
      requires Consistent(base, was, mem, reserved, owners, x) && v1 >= 512 && Swept(s, v1, 0, gone)
      ensures Swept(s, v1, 1024, gone)
    {
      forall k | k in owners.loc && k.slot == s && k.node.UserPage?
        ensures k.node.v1 < 512
      {
        UserIsMapped(base, owners.loc, x, k);
      }
    }

    /** User pages lie below second-level tables, and within them. */
    lemma UserBelow(was: seq<bool>, s: nat)
      requires Consistent(base, was, mem, reserved, owners, x)
      ensures forall k {:trigger owners.loc[k]} :: k in owners.loc && k.slot == s && k.node.UserPage? ==>
                k.node.v0 < 1024 && Key(s, TablePage(k.node.v1)) in owners.loc
    {
      forall k | k in owners.loc && k.slot == s && k.node.UserPage?
        ensures k.node.v0 < 1024 && Key(s, TablePage(k.node.v1)) in owners.loc
      {
        UserIsMapped(base, owners.loc, x, k);
        assert Present(x[VPage(k.slot, k.node.v1, k.node.v0)]);
      }
    }

    /** Frees exactly the pages that process `s` owns; every other process keeps its pages. */
    method FreeProcessPages(s: nat) returns (ok: bool)
      requires Running() && s < PROCS_MAX && procs[s].live
      modifies used, this`owners, this`x, this`procs
      ensures ok && Running() && procs == old(procs)[s := old(procs)[s].(live := false)]
      ensures owners == Without(old(owners), s) && x == WithoutPages(old(x), s)
      ensures forall p :: 0 <= p < NUM_PAGES ==> (used[p] <==> old(used[p]) && p !in OwnedBy(old(owners), s))
      ensures SameContents(old(owners), mem, owners, mem, s)
    {
      hide Consistent, FreedFrom, UserShape;
      ContentsSelf(base, used[..], mem, reserved, owners, x);
      ghost var was := used[..];
      ghost var gone;
      ok, gone := SweepTables(s, procs[s].root);
      RootOwned(was, s);
      label L:
      ok := FreePages(base + procs[s].root, 1);
      FreedOne(was, old@L(used[..]), used[..], gone, procs[s].root);
      gone := gone + {procs[s].root};
      AllSwept(was, s, gone);
      FreedMeans(was, used[..], gone);
      DropProcess(base, was, mem, reserved, owners, x, s, used[..]);
      owners := Without(owners, s);
      x := WithoutPages(x, s);
      procs := procs[s := procs[s].(live := false)];
      WithoutOnly(old(owners), old(x), s);
      OthersOk(old(owners), old(x), old(procs), s);
    }

    lemma RootOwned(was: seq<bool>, s: nat)
      requires Consistent(base, was, mem, reserved, owners, x) && Key(s, RootPage) in owners.loc
      ensures owners.loc[Key(s, RootPage)] < NUM_PAGES
      ensures owners.loc[Key(s, RootPage)] in owners.owner
      ensures owners.owner[owners.loc[Key(s, RootPage)]] == Key(s, RootPage)
    {
    }

    lemma AllSwept(was: seq<bool>, s: nat, gone: set<nat>)
      requires Consistent(base, was, mem, reserved, owners, x) && Key(s, RootPage) in owners.loc
      requires Swept(s, 1024, 0, gone) && owners.loc[Key(s, RootPage)] in gone
      ensures gone == OwnedBy(owners, s)
    {
      forall p | p in owners.owner && owners.owner[p].slot == s
        ensures p in gone
      {
        var k := owners.owner[p];
        assert owners.loc[k] == p;
        if k.node.UserPage? { UserIsMapped(base, owners.loc, x, k); }
      }
    }

    /** A whole life: created, any number of heap changes, reaped. The allocation map is what it was. */
    method Lifetime(s: nat, image: seq<byte>, increments: seq<int>) returns (ok: bool)
      requires Running() && s < PROCS_MAX && !procs[s].live && |image| < 0x1_0000_0000
      requires forall i :: 0 <= i < |increments| ==> -0x8000_0000 <= increments[i] < 0x8000_0000
      modifies used, this`mem, this`reserved, this`owners, this`x, this`procs
      ensures !ok ==> forall q :: 0 <= q < NUM_PAGES ==> used[q]
      ensures ok ==> Running() && reserved == old(reserved) && used[..] == old(used[..])
      ensures ok ==> owners.loc == old(owners.loc) && x == old(x) && SameContents(old(owners), old(mem), owners, mem, s)
    {
      hide Consistent, UserShape, Outside, OnlySlot, SameContents;
      ok := CreateProcess(s, image);
      if !ok { return; }
      ContentsOthers(old(owners), old(mem), owners, mem, s);
      var n := 0;
      while n < |increments|
        invariant 0 <= n <= |increments|
        invariant Running() && procs[s].live && reserved == old(reserved) && OnlySlot(old(owners), old(x), owners, x, s)
        invariant SameContents(old(owners), old(mem), owners, mem, s)
      {
        ghost var o1, x1, mem1 := owners, x, mem;
        var ret;
        ok, ret := Sbrk(s, increments[n]);
        if !ok { return; }
        OnlySlotTrans(old(owners), old(x), o1, x1, owners, x, s);
        ContentsTrans(old(owners), old(mem), o1, mem1, owners, mem, s, s);
        n := n + 1;
      }
      ghost var o1, x1 := owners, x;
      ok := FreeProcessPages(s);
      ContentsTrans(old(owners), old(mem), o1, mem, owners, mem, s, s);
      WithoutOnly(o1, x1, s);
      OnlySlotTrans(old(owners), old(x), o1, x1, owners, x, s);
      SameAgain(base, old(used[..]), old(mem), used[..], mem, reserved, old(owners), old(x), owners, x, s);
    }

    /** How many pages a failed spawn costs. */
    function SpawnLoss(): nat
      requires kernelVpn <= base
    {
      (base + NUM_PAGES - 1) / 1024 - kernelVpn / 1024 + 2
    }

    /**
     The path of `create_process` for a file that does not exist: it frees the first-level table alone. The
     second-level tables of the kernel's mapping and of the devices stay in use, but belong to nobody: exactly
     those pages are lost. Nothing else changes.
     */
    method SpawnNotFound(s: nat) returns (ok: bool, ghost lost: set<nat>)
      requires Running() && s < PROCS_MAX && !procs[s].live
      modifies used, this`mem, this`reserved, this`owners, this`x
      ensures !ok ==> forall q :: 0 <= q < NUM_PAGES ==> used[q]
      ensures ok ==> Running() && reserved == old(reserved) + lost && lost !! old(reserved) && |lost| == SpawnLoss()
      ensures ok ==> owners.loc == old(owners.loc) && x == old(x) && SameContents(old(owners), old(mem), owners, mem, s)
      ensures ok ==> LeftOver(old(used[..]), used[..], lost)
    {
      hide Consistent, UserShape, OnlySlot, BareTables, SlotsOnly, SetRun, LeftOver, SameContents, Without,
           WithoutPages;
      lost := {};
      var root;
      ok, root := NewSpace(s);
      if !ok { return; }
      lost := FailureLeaves(base, kernelVpn, old(used[..]), old(mem), old(owners), old(x), used[..], mem, owners, x,
                            reserved, s, root);
      ok := FreePages(base + root, 1);
      reserved, owners, x := reserved + lost, Without(owners, s), WithoutPages(x, s);
      OthersOk(old(owners), old(x), procs, s);
    }

    // ----- many processes -----

    /** The processes there are. */
    ghost function Lives(): set<nat>
      reads this
    {
      set s | 0 <= s < |procs| && procs[s].live
    }

    /**
     Any interleaving of creations, failed spawns, heap changes and ends; an operation on a slot in the wrong state is
     not made. Each failed spawn costs the same number of pages, and nothing else is ever lost.
     */
    method RunOps(ops: seq<Op>) returns (ok: bool)
      requires Running() && forall op <- ops :: IsOp(op)
      modifies used, this`mem, this`reserved, this`owners, this`x, this`procs
      ensures !ok ==> forall q :: 0 <= q < NUM_PAGES ==> used[q]
      ensures ok ==> Running() && Lives() == LiveAfter(old(Lives()), ops)
      ensures ok ==>
                reserved >= old(reserved) && |reserved - old(reserved)| == SpawnLoss() * Failures(old(Lives()), ops)
      ensures ok && Lives() == {} ==> forall p :: 0 <= p < NUM_PAGES ==> (used[p] <==> p in reserved)
    {
      hide Consistent, UserShape, Outside, OnlySlot, SameContents, Loaded, ProcOk, SlotsOnly, LeftOver, AllHave, HasKernel,
           HasRights;
      var n := 0;
      assert ops[..0] == [];
      assert reserved - old(reserved) == {};
      while n < |ops|
        invariant 0 <= n <= |ops| && Running() && Lives() == LiveAfter(old(Lives()), ops[..n])
        invariant reserved >= old(reserved)
        invariant |reserved - old(reserved)| == SpawnLoss() * Failures(old(Lives()), ops[..n])
      {
        var op := ops[n];
        assert IsOp(op);
        assert ops[..n + 1][..n] == ops[..n];
        ghost var r1, l1 := reserved, Lives();
        assert op.s in l1 <==> procs[op.s].live;
        if op.Create? && !procs[op.s].live {
          ok := CreateProcess(op.s, op.image);
          if !ok { return; }
          assert Lives() == l1 + {op.s};
        } else if op.NotFound? && !procs[op.s].live {
          ghost var lost;
          ok, lost := SpawnNotFound(op.s);
          if !ok { return; }
          assert Lives() == l1;
          LossGrows(old(reserved), r1, lost);
          Times(SpawnLoss(), Failures(old(Lives()), ops[..n]));
        } else if op.Brk? && procs[op.s].live {
          var ret;
          ok, ret := Sbrk(op.s, op.increment);
          if !ok { return; }
          assert Lives() == l1;
        } else if op.Reap? && procs[op.s].live {
          ok := FreeProcessPages(op.s);
          assert Lives() == l1 - {op.s};
        }
        n := n + 1;
      }
      ok := true;
      assert ops[..|ops|] == ops;
      if Lives() == {} {
        assert forall s :: 0 <= s < PROCS_MAX ==> (procs[s].live ==> s in Lives());
        NobodyLeft();
      }
    }

    lemma OwnerLives(p: nat)
      requires Running() && p in owners.owner
      ensures owners.owner[p].slot < PROCS_MAX && procs[owners.owner[p].slot].live
    {
      hide UserShape;
      var k := owners.owner[p];
      assert owners.loc[k] == p && k in owners.loc;
      var proc := procs[k.slot];
    }

    /** Without processes exactly the reserved pages are in use. */
    lemma NobodyLeft()
      requires Running() && forall s :: 0 <= s < PROCS_MAX ==> !procs[s].live
      ensures forall p :: 0 <= p < NUM_PAGES ==> (used[p] <==> p in reserved)
    {
      hide UserShape;
      forall p
        ensures p !in owners.owner
      {
        if p in owners.owner {
          OwnerLives(p);
        }
      }
      assert forall p :: 0 <= p < NUM_PAGES ==> (used[..][p] <==> p in reserved);
    }
  }

  lemma Times(a: nat, b: nat)
    ensures a * (b + 1) == a * b + a
  {
  }

  lemma LossGrows(r0: set<nat>, r1: set<nat>, lost: set<nat>)
    requires r0 <= r1 && lost !! r1
    ensures |r1 + lost - r0| == |r1 - r0| + |lost|
  {
    assert r1 + lost - r0 == (r1 - r0) + lost;
  }

  datatype Op = Create(s: nat, image: seq<byte>) | NotFound(s: nat) | Brk(s: nat, increment: int) | Reap(s: nat)

  /** The processes there are after some operations. */
  function LiveAfter(live: set<nat>, ops: seq<Op>): set<nat>
    decreases |ops|
  {
    if ops == [] then live
    else
      var l, op := LiveAfter(live, ops[..|ops| - 1]), ops[|ops| - 1];
      if op.Create? then l + {op.s} else if op.Reap? then l - {op.s} else l
  }

  /** How many of the operations are spawns that fail. */
  function Failures(live: set<nat>, ops: seq<Op>): nat
    decreases |ops|
  {
    if ops == [] then 0
    else
      var op := ops[|ops| - 1];
      Failures(live, ops[..|ops| - 1]) +
        if op.NotFound? && op.s !in LiveAfter(live, ops[..|ops| - 1]) then 1 else 0
  }

  predicate IsOp(op: Op) {
    && op.s < PROCS_MAX
    && (op.Create? ==> |op.image| < 0x1_0000_0000)
    && (op.Brk? ==> -0x8000_0000 <= op.increment < 0x8000_0000)
  }

  /** Besides the pages that were in use before, exactly those in `lost` are in use. */
  ghost predicate LeftOver(was: seq<bool>, now: seq<bool>, lost: set<nat>) {
    && |was| == |now|
    && (forall p :: 0 <= p < |was| ==> (now[p] <==> was[p] || p in lost))
    && (forall p <- lost :: p < |was| && !was[p])
  }

  lemma LeftOverIs(was: seq<bool>, now: seq<bool>, root: nat, lost: set<nat>)
    requires |was| == |now| && root < |was| && root !in lost && !was[root] && forall p <- lost :: p < |was| && !was[p]
    requires forall p :: 0 <= p < |was| ==> (now[p] <==> was[p] || p == root || p in lost)
    ensures LeftOver(was, SetRun(now, root, 1, false), lost)
  {
    assert SetRun(now, root, 1, false) == now[root := false];
  }

  lemma NoTables(s: nat, lo: nat)
    ensures TableKeys(s, lo, lo) == {}
  {
  }

  lemma OneMoreTable(s: nat, k: nat, ppn: nat)
    requires k <= ppn
    ensures TableKeys(s, k / 1024, ppn / 1024 + 1) ==
            TableKeys(s, k / 1024, if ppn == k then k / 1024 else (ppn - 1) / 1024 + 1) +
              {Key(s, TablePage(ppn / 1024))}
  {
  }

  lemma LostCount(s: nat, k: nat, base: nat)
    requires 0x80200 <= k <= base
    ensures |BareTables(s, k, base)| == (base + NUM_PAGES - 1) / 1024 - k / 1024 + 2
    ensures forall t <- BareTables(s, k, base) :: t.slot == s && t.node.TablePage?
  {
    TableCount(s, k / 1024, (base + NUM_PAGES - 1) / 1024 + 1);
    assert Key(s, TablePage(64)) !in KernelTables(s, k, base);
  }

  /**
   If slot `s` had nothing and now has a first-level table and the tables `ks`, those pages and no others came
   into use.
   */
  lemma OwnedByIs(o: Owners, o': Owners, s: nat, ks: set<Key>, lost: set<nat>)
    requires o'.Inverse() && (forall k :: k in o.loc ==> k.slot != s) && forall k <- ks :: k.slot == s
    requires o'.loc.Keys == o.loc.Keys + {Key(s, RootPage)} + ks && lost == set k | k in ks :: o'.loc[k]
    ensures OwnedBy(o', s) == lost + {o'.loc[Key(s, RootPage)]}
  {
    forall p | p in OwnedBy(o', s)
      ensures p in lost || p == o'.loc[Key(s, RootPage)]
    {
      assert o'.loc[o'.owner[p]] == p;
    }
    forall k | k in ks || k == Key(s, RootPage)
      ensures o'.loc[k] in OwnedBy(o', s)
    {
      assert k in o'.loc;
    }
  }

  /** Without its address space a process that was not there before leaves no trace. */
  lemma SpaceDropped(base: nat, was: seq<bool>, m: seq<Page>, o: Owners, y: map<VPage, word>, now: seq<bool>,
                     m': seq<Page>, o': Owners, y': map<VPage, word>, reserved: set<nat>, s: nat)
    requires Consistent(base, was, m, reserved, o, y) && Consistent(base, now, m', reserved, o', y')
    requires OnlySlot(o, y, o', y', s) && Key(s, RootPage) !in o.loc && SameContents(o, m, o', m', -1)
    requires |was| == NUM_PAGES && forall p :: 0 <= p < NUM_PAGES ==> (was[p] <==> now[p] && p !in OwnedBy(o', s))
    ensures Consistent(base, was, m', reserved, Without(o', s), WithoutPages(y', s))
    ensures OnlySlot(o, y, Without(o', s), WithoutPages(y', s), s)
    ensures Without(o', s).loc == o.loc && WithoutPages(y', s) == y && SameContents(o, m, Without(o', s), m', s)
    ensures Key(s, RootPage) !in Without(o', s).loc
  {
    hide Consistent, OnlySlot, SameContents, OwnedBy, WithoutPages;
    ContentsOthers(o, m, o', m', s);
    ContentsSelf(base, now, m', reserved, o', y');
    WithoutContents(o', m', s);
    ContentsTrans(o, m, o', m', Without(o', s), m', s, s);
    DropProcess(base, now, m', reserved, o', y', s, was);
    WithoutOnly(o', y', s);
    OnlySlotTrans(o, y, o', y', Without(o', s), WithoutPages(y', s), s);
    SameAgain(base, was, m, was, m', reserved, o, y, Without(o', s), WithoutPages(y', s), s);
  }

  /** After a failed spawn, with the page of its first-level table freed again. */
  lemma FailureLeaves(base: nat, kernel: nat, was: seq<bool>, m: seq<Page>, o: Owners, y: map<VPage, word>,
                      now: seq<bool>, m': seq<Page>, o': Owners, y': map<VPage, word>, reserved: set<nat>, s: nat,
                      root: nat)
    returns (lost: set<nat>)
    requires Consistent(base, was, m, reserved, o, y) && Consistent(base, now, m', reserved, o', y')
    requires OnlySlot(o, y, o', y', s) && Key(s, RootPage) !in o.loc && SameContents(o, m, o', m', -1)
    requires o'.loc.Keys == o.loc.Keys + {Key(s, RootPage)} + BareTables(s, kernel, base)
    requires o'.loc[Key(s, RootPage)] == root && 0x80200 <= kernel <= base
    ensures |lost| == (base + NUM_PAGES - 1) / 1024 - kernel / 1024 + 2 && lost !! reserved
    ensures |was| == |now| == NUM_PAGES && root < NUM_PAGES && LeftOver(was, SetRun(now, root, 1, false), lost)
    ensures Consistent(base, SetRun(now, root, 1, false), m', reserved + lost, Without(o', s), WithoutPages(y', s))
    ensures OnlySlot(o, y, Without(o', s), WithoutPages(y', s), s)
    ensures Without(o', s).loc == o.loc && WithoutPages(y', s) == y && SameContents(o, m, Without(o', s), m', s)
  {
    hide Consistent, OnlySlot, SameContents, WithoutPages, BareTables, SetRun, LeftOver, OwnedBy;
    UsedSize(base, was, m, reserved, o, y);
    UsedSize(base, now, m', reserved, o', y');
    LostCount(s, kernel, base);
    lost := LostPages(base, was, m, o, y, now, m', o', y', reserved, s, BareTables(s, kernel, base));
    LeftOverIs(was, now, root, lost);
    SpaceDropped(base, was, m, o, y, now, m', o', y', reserved, s);
    LeftOverMeans(was, SetRun(now, root, 1, false), lost);
    NotReserved(base, was, m, reserved, o, y, lost);
    SetAside(base, was, m', reserved, Without(o', s), WithoutPages(y', s), lost, SetRun(now, root, 1, false));
  }

  lemma UsedSize(base: nat, used: seq<bool>, mem: seq<Page>, reserved: set<nat>, o: Owners, x: map<VPage, word>)
    requires Consistent(base, used, mem, reserved, o, x)
    ensures |used| == NUM_PAGES
  {
  }

  lemma LeftOverMeans(was: seq<bool>, now: seq<bool>, lost: set<nat>)
    requires LeftOver(was, now, lost)
    ensures |was| == |now| && forall p :: 0 <= p < |was| ==> (now[p] <==> was[p] || p in lost)
    ensures forall p <- lost :: p < |was| && !was[p]
  {
  }

  lemma NotReserved(base: nat, used: seq<bool>, mem: seq<Page>, reserved: set<nat>, o: Owners, x: map<VPage, word>,
                    lost: set<nat>)
    requires Consistent(base, used, mem, reserved, o, x) && forall p <- lost :: p < |used| && !used[p]
    ensures lost !! reserved
  {
  }

  lemma WithoutContents(o: Owners, mem: seq<Page>, s: nat)
    requires SameContents(o, mem, o, mem, -1)
    ensures SameContents(o, mem, Without(o, s), mem, s)
  {
  }

  lemma LostPages(base: nat, was: seq<bool>, m: seq<Page>, o: Owners, y: map<VPage, word>,
                  now: seq<bool>, m': seq<Page>, o': Owners, y': map<VPage, word>, reserved: set<nat>, s: nat,
                  ks: set<Key>)
    returns (lost: set<nat>)
    requires Consistent(base, was, m, reserved, o, y) && Consistent(base, now, m', reserved, o', y')
    requires OnlySlot(o, y, o', y', s) && Key(s, RootPage) !in o.loc
    requires o'.loc.Keys == o.loc.Keys + {Key(s, RootPage)} + ks
    requires forall k <- ks :: k.slot == s && k.node.TablePage?
    ensures |lost| == |ks| && o'.loc[Key(s, RootPage)] < NUM_PAGES && o'.loc[Key(s, RootPage)] !in lost
    ensures OwnedBy(o', s) == lost + {o'.loc[Key(s, RootPage)]}
    ensures forall p :: 0 <= p < NUM_PAGES ==> (now[p] <==> was[p] || p == o'.loc[Key(s, RootPage)] || p in lost)
    ensures forall p <- lost :: p < NUM_PAGES && !was[p]
    ensures !was[o'.loc[Key(s, RootPage)]]
  {
    lost := set k | k in ks :: o'.loc[k];
    NoRoot(o.loc, s);
    forall p | 0 <= p < NUM_PAGES
      ensures p in o'.owner <==> p in o.owner || p == o'.loc[Key(s, RootPage)] || p in lost
      ensures p in o.owner ==> p != o'.loc[Key(s, RootPage)] && p !in lost
    {
      OwnerOf(o, o', y, y', s, ks, p);
    }
    forall a, b | a in ks && b in ks && o'.loc[a] == o'.loc[b]
      ensures a == b
    {
      assert o'.owner[o'.loc[a]] == a;
    }
    OwnedByIs(o, o', s, ks, lost);
    ImageSize(o'.loc, ks, lost);
  }

  lemma OwnerOf(o: Owners, o': Owners, y: map<VPage, word>, y': map<VPage, word>, s: nat, ks: set<Key>, p: nat)
    requires o.Inverse() && o'.Inverse() && OnlySlot(o, y, o', y', s) && (forall k <- o.loc :: k.slot != s)
    requires o'.loc.Keys == o.loc.Keys + {Key(s, RootPage)} + ks && forall k <- ks :: k.slot == s
    ensures p in o'.owner <==> p in o.owner || p == o'.loc[Key(s, RootPage)] || exists k :: k in ks && o'.loc[k] == p
    ensures p in o.owner ==> p != o'.loc[Key(s, RootPage)] && !exists k :: k in ks && o'.loc[k] == p
  {
    if p in o'.owner {
      var k := o'.owner[p];
      assert o'.loc[k] == p;
    }
    if p in o.owner {
      var k := o.owner[p];
      assert o.loc[k] == p && o'.loc[k] == p && o'.owner[p] == k;
    }
  }

  lemma NothingOwned(base: nat, used: seq<bool>, mem: seq<Page>)
    requires |used| == NUM_PAGES == |mem| && base + NUM_PAGES <= 0x40_0000
    requires forall p :: 0 <= p < NUM_PAGES ==> !used[p]
    ensures Consistent(base, used, mem, {}, Owners(map[], map[]), map[])
  {
    var o, x: map<VPage, word> := Owners(map[], map[]), map[];
    forall s ensures RootHolds(base, mem, o.loc, s) { }
    forall s, v1 ensures TableHolds(mem, o.loc, x, s, v1) { }
  }

  lemma FreedNone(was: seq<bool>)
    requires |was| == NUM_PAGES
    ensures FreedFrom(was, was, {})
  {
  }

  lemma FreedMeans(was: seq<bool>, now: seq<bool>, gone: set<nat>)
    requires FreedFrom(was, now, gone)
    ensures |now| == NUM_PAGES == |was| && forall p :: 0 <= p < NUM_PAGES ==> (now[p] <==> was[p] && p !in gone)
  {
  }

  lemma WithoutOnly(o: Owners, x: map<VPage, word>, s: nat)
    ensures OnlySlot(o, x, Without(o, s), WithoutPages(x, s), s)
  {
  }

  /** Two consistent states without process `s` that agree on the other processes use the same pages. */
  lemma SameAgain(base: nat, used: seq<bool>, mem: seq<Page>, used': seq<bool>, mem': seq<Page>, reserved: set<nat>,
                  o: Owners, x: map<VPage, word>, o': Owners, x': map<VPage, word>, s: nat)
    requires Consistent(base, used, mem, reserved, o, x) && Consistent(base, used', mem', reserved, o', x')
    requires OnlySlot(o, x, o', x', s) && Key(s, RootPage) !in o.loc && Key(s, RootPage) !in o'.loc
    ensures used == used' && o.loc == o'.loc && x == x'
  {
    SameMaps(base, o, x, o', x', s);
    SameUse(used, used', reserved, o, o');
  }

  lemma SameMaps(base: nat, o: Owners, x: map<VPage, word>, o': Owners, x': map<VPage, word>, s: nat)
    requires Placed(o.loc) && Placed(o'.loc) && Translated(base, o.loc, x) && Translated(base, o'.loc, x')
    requires OnlySlot(o, x, o', x', s) && Key(s, RootPage) !in o.loc && Key(s, RootPage) !in o'.loc
    ensures o.loc == o'.loc && x == x'
  {
    hide Placed, Translated;
    NoRoot(o.loc, s);
    NoRoot(o'.loc, s);
    NoPages(base, o.loc, x, s);
    NoPages(base, o'.loc, x', s);
    assert o.loc == o'.loc;
    assert x == x';
  }

  lemma SameUse(used: seq<bool>, used': seq<bool>, reserved: set<nat>, o: Owners, o': Owners)
    requires Accounted(used, reserved, o.owner) && Accounted(used', reserved, o'.owner)
    requires o.Inverse() && o'.Inverse() && o.loc == o'.loc
    ensures used == used'
  {
    forall p | 0 <= p < NUM_PAGES
      ensures used[p] == used'[p]
    {
      if p in o.owner { assert o.loc[o.owner[p]] == p; }
      if p in o'.owner { assert o'.loc[o'.owner[p]] == p; }
    }
  }

  lemma NoPages(base: nat, loc: map<Key, nat>, x: map<VPage, word>, s: nat)
    requires Translated(base, loc, x) && forall k :: k in loc ==> k.slot != s
    ensures forall v :: v in x ==> v.slot != s
  {
    forall v | v in x
      ensures v.slot != s
    {
      assert Present(x[v]);
    }
  }

  /** The allocation map `now` is `was` without the pages in `gone`. */
  ghost predicate FreedFrom(was: seq<bool>, now: seq<bool>, gone: set<nat>) {
    |now| == NUM_PAGES == |was| && forall p :: 0 <= p < NUM_PAGES ==> (now[p] <==> was[p] && p !in gone)
  }

  lemma FreedOne(was: seq<bool>, before: seq<bool>, now: seq<bool>, gone: set<nat>, p: nat)
    requires FreedFrom(was, before, gone) && p < NUM_PAGES == |before| && now == SetRun(before, p, 1, false)
    ensures FreedFrom(was, now, gone + {p})
  {
    assert now == before[p := false];
  }

  /** Nothing is mapped at device page `m` or above before it is. */
  lemma Unmapped(base: nat, x: map<VPage, word>, s: nat, m: nat, vpn: nat)
    requires UserShape(base, x, s, USER_VPN, USER_VPN, USER_VPN, m) && 0x10001 <= m <= vpn < 0x8_0000
    ensures At(s, vpn) !in x
  {
    TargetOf(s, vpn);
  }

  lemma FreshShape(base: nat, x: map<VPage, word>, s: nat)
    requires forall v :: v in x ==> v.slot != s
    ensures UserShape(base, x, s, USER_VPN, USER_VPN, USER_VPN, 0x10001)
  {
  }

  lemma ShapeKernel(base: nat, x: map<VPage, word>, s: nat, v: VPage, e: word)
    requires UserShape(base, x, s, USER_VPN, USER_VPN, USER_VPN, 0x10001) && v.v1 >= 512
    ensures UserShape(base, x[v := e], s, USER_VPN, USER_VPN, USER_VPN, 0x10001)
  {
  }

  lemma RootOnly(o: Owners, x: map<VPage, word>, s: nat, p: nat)
    ensures OnlySlot(o, x, o.Add(Key(s, RootPage), p), x, s)
  {
  }

  lemma Restored(base: nat, x: map<VPage, word>, x1: map<VPage, word>, x2: map<VPage, word>, s: nat, lo: nat, hi: nat)
    requires Outside(x, x1, s, lo, hi) && Outside(x1, x2, s, lo, hi) && USER_VPN <= lo <= hi <= 0x10001
    requires UserShape(base, x, s, lo, lo, lo, 0x10004) && UserShape(base, x2, s, lo, lo, lo, 0x10004)
    requires forall v :: v in x || v in x2 ==> v.v0 < 1024
    ensures x2 == x
  {
    forall v: VPage
      ensures v in x <==> v in x2
      ensures v in x ==> x[v] == x2[v]
    {
    }
  }

  lemma SelfSame(o: Owners, x: map<VPage, word>, s: nat, lo: nat, hi: nat)
    ensures Outside(x, x, s, lo, hi) && OnlySlot(o, x, o, x, s)
  {
  }

  lemma OutsideWiden(x: map<VPage, word>, x': map<VPage, word>, s: nat, lo: nat, hi: nat, lo': nat, hi': nat)
    requires Outside(x, x', s, lo, hi) && lo' <= lo && hi <= hi'
    ensures Outside(x, x', s, lo', hi')
  {
  }

  lemma DropOnly(o: Owners, x: map<VPage, word>, s: nat, v: VPage)
    requires v.slot == s && v.v0 < 1024 && Key(s, UserPage(v.v1, v.v0)) in o.loc
    ensures OnlySlot(o, x, o.Remove(Key(s, UserPage(v.v1, v.v0))), x - {v}, s)
    ensures v.v1 < 512 ==> Outside(x, x - {v}, s, Vpn(v), Vpn(v) + 1)
  {
  }

  lemma OutsideAt(x: map<VPage, word>, s: nat, e: nat, entry: word)
    requires e < 0x8_0000
    ensures Outside(x, x[At(s, e) := entry], s, e, e + 1)
  {
    TargetOf(s, e);
  }
}
