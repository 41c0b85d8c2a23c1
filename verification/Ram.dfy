/**
 The page allocator and the two-level page tables (Sv32, section 4.3 of the RISC-V Privileged
 Architecture). Pages of the managed RAM are numbered from 0; page `p` has physical page number
 `base + p`. A page table is a page of 1024 words; the top half of the address space (first-level
 index 512 and up) is the kernel's.
 */
module Ram {
  import opened Codec

  const NUM_PAGES: nat := 16384

  type Page = p: seq<word> | |p| == 1024 witness seq(1024, i => 0)

  const ZeroPage: Page := seq(1024, i => 0)

  // ----- page table entries -----

  /** `(ppn << 10) | flags | PAGE_V` */
  function Pte(ppn: nat, flags: nat): (e: word)
    requires ppn < 0x40_0000 && flags < 1024 && flags % 2 == 0
    ensures Present(e) && Ppn(e) == ppn
  {
    1024 * ppn + flags + 1
  }

  predicate Present(e: word) { e % 2 == 1 }

  function Ppn(e: word): nat { e / 1024 }

  // ----- who owns a page -----

  datatype Node = RootPage | TablePage(v1: nat) | UserPage(v1: nat, v0: nat)

  datatype Key = Key(slot: nat, node: Node)

  datatype Owners = Owners(loc: map<Key, nat>, owner: map<nat, Key>) {
    ghost predicate Inverse() {
      && (forall k {:trigger loc[k]} :: k in loc ==> loc[k] in owner && owner[loc[k]] == k)
      && (forall p {:trigger owner[p]} :: p in owner ==> owner[p] in loc && loc[owner[p]] == p)
    }

    ghost function Add(k: Key, p: nat): Owners { Owners(loc[k := p], owner[p := k]) }

    ghost function Remove(k: Key): Owners
      requires k in loc
    { Owners(loc - {k}, owner - {loc[k]}) }
  }

  /** A virtual page of a process: first- and second-level index. */
  datatype VPage = VPage(slot: nat, v1: nat, v0: nat)

  /** Entry `e` of virtual page `v` maps a page that the process owns: a user address, backed by managed RAM. */
  predicate Owning(base: nat, v1: nat, e: word) { v1 < 512 && base <= Ppn(e) < base + NUM_PAGES }

  ghost predicate Placed(loc: map<Key, nat>) {
    forall k {:trigger loc[k]} :: k in loc ==> loc[k] < NUM_PAGES && Key(k.slot, RootPage) in loc
  }

  /** The first-level table of process `s` points to its second-level tables. */
  ghost predicate RootHolds(base: nat, mem: seq<Page>, loc: map<Key, nat>, s: nat)
    requires |mem| == NUM_PAGES && Placed(loc) && base + NUM_PAGES <= 0x40_0000
  {
    Key(s, RootPage) in loc ==>
      forall v1 {:trigger mem[loc[Key(s, RootPage)]][v1]} :: 0 <= v1 < 1024 ==>
        mem[loc[Key(s, RootPage)]][v1] ==
          if Key(s, TablePage(v1)) in loc then Pte(base + loc[Key(s, TablePage(v1))], 0) else 0
  }

  /** Second-level table `v1` of process `s` holds its translations. */
  ghost predicate TableHolds(mem: seq<Page>, loc: map<Key, nat>, x: map<VPage, word>, s: nat, v1: nat)
    requires |mem| == NUM_PAGES && Placed(loc)
  {
    Key(s, TablePage(v1)) in loc ==>
      forall v0 {:trigger mem[loc[Key(s, TablePage(v1))]][v0]} :: 0 <= v0 < 1024 ==>
        mem[loc[Key(s, TablePage(v1))]][v0] == if VPage(s, v1, v0) in x then x[VPage(s, v1, v0)] else 0
  }

  ghost predicate TablesHold(base: nat, mem: seq<Page>, loc: map<Key, nat>, x: map<VPage, word>)
    requires |mem| == NUM_PAGES && Placed(loc) && base + NUM_PAGES <= 0x40_0000
  {
    && (forall s {:trigger RootHolds(base, mem, loc, s)} :: RootHolds(base, mem, loc, s))
    && (forall s, v1 {:trigger TableHolds(mem, loc, x, s, v1)} :: TableHolds(mem, loc, x, s, v1))
  }

  /** Translations are valid entries below an existing table; those that own a page say so in `loc`, and only those. */
  ghost predicate Translated(base: nat, loc: map<Key, nat>, x: map<VPage, word>) {
    && (forall v {:trigger x[v]} :: v in x ==>
         v.v1 < 1024 && v.v0 < 1024 && Present(x[v]) && Key(v.slot, TablePage(v.v1)) in loc)
    && (forall v {:trigger x[v]} :: v in x && Owning(base, v.v1, x[v]) ==>
          Key(v.slot, UserPage(v.v1, v.v0)) in loc && base + loc[Key(v.slot, UserPage(v.v1, v.v0))] == Ppn(x[v]))
    && (forall k {:trigger loc[k]} :: k in loc && k.node.UserPage? ==>
          VPage(k.slot, k.node.v1, k.node.v0) in x && Owning(base, k.node.v1, x[VPage(k.slot, k.node.v1, k.node.v0)]))
    && (forall k {:trigger loc[k]} :: k in loc && k.node.TablePage? ==> k.node.v1 < 1024)
  }

  /** Exactly the reserved and the owned pages are in use. */
  ghost predicate Accounted(used: seq<bool>, reserved: set<nat>, owner: map<nat, Key>) {
    && |used| == NUM_PAGES
    && (forall p {:trigger used[p]} :: 0 <= p < NUM_PAGES ==> (used[p] <==> p in reserved || p in owner))
    && (forall p {:trigger p in reserved} :: p in reserved ==> 0 <= p < NUM_PAGES && p !in owner)
  }

  /** The invariant of memory: `x` is the translation of every process. */
  ghost predicate Consistent(base: nat, used: seq<bool>, mem: seq<Page>, reserved: set<nat>, o: Owners, x: map<VPage,
                             word>) {
    && base + NUM_PAGES <= 0x40_0000
    && |mem| == NUM_PAGES
    && o.Inverse() && Placed(o.loc)
    && Translated(base, o.loc, x)
    && Accounted(used, reserved, o.owner)
    && TablesHold(base, mem, o.loc, x)
  }

  /** The hardware's walk: what the tables in memory say about a virtual page. */
  function Walk(base: nat, mem: seq<Page>, root: nat, v1: nat, v0: nat): (e: word)
    requires |mem| == NUM_PAGES && root < NUM_PAGES && v1 < 1024 && v0 < 1024
  {
    var e1 := mem[root][v1];
    if !Present(e1) || Ppn(e1) < base || Ppn(e1) - base >= NUM_PAGES then 0
    else
      var e0 := mem[Ppn(e1) - base][v0];
      if Present(e0) then e0 else 0
  }

  /** The two-level walk computes the translation map. */
  lemma WalkIsTranslation(base: nat, used: seq<bool>, mem: seq<Page>, reserved: set<nat>, o: Owners, x: map<VPage,
                          word>, s: nat, v1: nat, v0: nat)
    requires Consistent(base, used, mem, reserved, o, x) && Key(s, RootPage) in o.loc && v1 < 1024 && v0 < 1024
    ensures o.loc[Key(s, RootPage)] < NUM_PAGES
    ensures Walk(base, mem, o.loc[Key(s, RootPage)], v1, v0) == if VPage(s, v1, v0) in x then x[VPage(s, v1, v0)] else 0
  {
    var root := o.loc[Key(s, RootPage)];
    assert RootHolds(base, mem, o.loc, s);
    if Key(s, TablePage(v1)) in o.loc {
      assert TableHolds(mem, o.loc, x, s, v1);
      assert o.loc[Key(s, TablePage(v1))] < NUM_PAGES;
    }
    if VPage(s, v1, v0) in x {
      assert Present(x[VPage(s, v1, v0)]);
    }
  }

  // ----- the steps that keep the invariant -----

  /** A free page is taken and zeroed; it stays reserved until it gets an owner. */
  lemma Reserve(base: nat, used: seq<bool>, mem: seq<Page>, reserved: set<nat>, o: Owners, x: map<VPage, word>, p: nat)
    requires Consistent(base, used, mem, reserved, o, x) && p < NUM_PAGES && !used[p]
    ensures p !in reserved && p !in o.owner
    ensures Consistent(base, used[p := true], mem[p := ZeroPage], reserved + {p}, o, x)
  {
    var mem' := mem[p := ZeroPage];
    forall s
      ensures RootHolds(base, mem', o.loc, s)
    {
      assert RootHolds(base, mem, o.loc, s);
    }
    forall s, v1
      ensures TableHolds(mem', o.loc, x, s, v1)
    {
      assert TableHolds(mem, o.loc, x, s, v1);
    }
  }

  /** What a reserved page holds does not matter. */
  lemma FillReserved(base: nat, used: seq<bool>, mem: seq<Page>, reserved: set<nat>, o: Owners, x: map<VPage, word>,
                     p: nat, page: Page)
    requires Consistent(base, used, mem, reserved, o, x) && p in reserved && p < NUM_PAGES
    ensures Consistent(base, used, mem[p := page], reserved, o, x)
  {
    var mem' := mem[p := page];
    forall s
      ensures RootHolds(base, mem', o.loc, s)
    {
      assert RootHolds(base, mem, o.loc, s);
    }
    forall s, v1
      ensures TableHolds(mem', o.loc, x, s, v1)
    {
      assert TableHolds(mem, o.loc, x, s, v1);
    }
  }

  /** Free pages may be set aside. */
  lemma SetAside(base: nat, used: seq<bool>, mem: seq<Page>, reserved: set<nat>, o: Owners, x: map<VPage, word>,
                 lost: set<nat>, used': seq<bool>)
    requires Consistent(base, used, mem, reserved, o, x) && |used'| == NUM_PAGES
    requires forall p <- lost :: p < NUM_PAGES && !used[p]
    requires forall p :: 0 <= p < NUM_PAGES ==> (used'[p] <==> used[p] || p in lost)
    ensures Consistent(base, used', mem, reserved + lost, o, x)
  {
  }

  /** A reserved, zeroed page becomes the first-level table of a process that has none. */
  lemma AddRoot(base: nat, used: seq<bool>, mem: seq<Page>, reserved: set<nat>, o: Owners, x: map<VPage, word>, s: nat,
                p: nat)
    requires Consistent(base, used, mem, reserved, o, x) && p in reserved && p < NUM_PAGES && mem[p] == ZeroPage
    requires Key(s, RootPage) !in o.loc
    ensures Consistent(base, used, mem, reserved - {p}, o.Add(Key(s, RootPage), p), x)
    ensures forall v :: v in x ==> v.slot != s
  {
    var o' := o.Add(Key(s, RootPage), p);
    forall q
      ensures RootHolds(base, mem, o'.loc, q)
    {
      assert RootHolds(base, mem, o.loc, q);
      NoRoot(o.loc, q);
    }
    forall q, v1
      ensures TableHolds(mem, o'.loc, x, q, v1)
    {
      assert TableHolds(mem, o.loc, x, q, v1);
    }
    forall v | v in x
      ensures v.slot != s
    {
      assert Present(x[v]);
      NoRoot(o.loc, s);
    }
  }

  lemma NoRoot(loc: map<Key, nat>, s: nat)
    requires Placed(loc)
    ensures Key(s, RootPage) !in loc ==> forall k :: k in loc ==> k.slot != s
  {
    forall k | k in loc && k.slot == s
      ensures Key(s, RootPage) in loc
    {
      assert loc[k] < NUM_PAGES;
    }
  }

  /** A reserved, zeroed page becomes second-level table `v1` of process `s`. */
  lemma AddTable(base: nat, used: seq<bool>, mem: seq<Page>, reserved: set<nat>, o: Owners, x: map<VPage, word>, s: nat,
                 v1: nat, p: nat)
    requires Consistent(base, used, mem, reserved, o, x) && p in reserved && p < NUM_PAGES && mem[p] == ZeroPage
    requires Key(s, RootPage) in o.loc && v1 < 1024 && Key(s, TablePage(v1)) !in o.loc
    ensures o.loc[Key(s, RootPage)] < NUM_PAGES
    ensures var root := o.loc[Key(s, RootPage)];
            Consistent(base, used, mem[root := mem[root][v1 := Pte(base + p, 0)]], reserved - {p},
              o.Add(Key(s, TablePage(v1)), p), x)
  {
    var root := o.loc[Key(s, RootPage)];
    var mem' := mem[root := mem[root][v1 := Pte(base + p, 0)]];
    var o' := o.Add(Key(s, TablePage(v1)), p);
    assert root in o.owner;
    forall q
      ensures RootHolds(base, mem', o'.loc, q)
    {
      assert RootHolds(base, mem, o.loc, q);
      if Key(q, RootPage) in o.loc && q != s { assert o.owner[o.loc[Key(q, RootPage)]] == Key(q, RootPage); }
    }
    forall q, w1
      ensures TableHolds(mem', o'.loc, x, q, w1)
    {
      assert TableHolds(mem, o.loc, x, q, w1);
      if Key(q, TablePage(w1)) in o.loc { assert o.owner[o.loc[Key(q, TablePage(w1))]] == Key(q, TablePage(w1)); }
    }
  }

  /** Writing entry `e` for virtual page `v` in its second-level table, when nothing is owned through it. */
  lemma SetEntry(base: nat, used: seq<bool>, mem: seq<Page>, reserved: set<nat>, o: Owners, x: map<VPage, word>,
                 v: VPage, e: word)
    requires Consistent(base, used, mem, reserved, o, x) && v.v1 < 1024 && v.v0 < 1024
    requires Key(v.slot, TablePage(v.v1)) in o.loc && Key(v.slot, UserPage(v.v1, v.v0)) !in o.loc
    requires Present(e) && !Owning(base, v.v1, e)
    ensures o.loc[Key(v.slot, TablePage(v.v1))] < NUM_PAGES
    ensures var t := o.loc[Key(v.slot, TablePage(v.v1))];
            Consistent(base, used, mem[t := mem[t][v.v0 := e]], reserved, o, x[v := e])
  {
    var t := o.loc[Key(v.slot, TablePage(v.v1))];
    var mem' := mem[t := mem[t][v.v0 := e]];
    TableWritten(base, used, mem, reserved, o, x, v, mem', x[v := e]);
    forall k | k in o.loc && k.node.UserPage?
      ensures VPage(k.slot, k.node.v1, k.node.v0) in x[v := e]
      ensures Owning(base, k.node.v1, x[v := e][VPage(k.slot, k.node.v1, k.node.v0)])
    {
      assert Owning(base, k.node.v1, x[VPage(k.slot, k.node.v1, k.node.v0)]);
    }
  }

  /** One entry of one table changed, and the translation with it. */
  lemma TableWritten(base: nat, used: seq<bool>, mem: seq<Page>, reserved: set<nat>, o: Owners, x: map<VPage, word>,
                     v: VPage, mem': seq<Page>, x': map<VPage, word>)
    requires Consistent(base, used, mem, reserved, o, x) && v.v1 < 1024 && v.v0 < 1024
    requires Key(v.slot, TablePage(v.v1)) in o.loc
    requires var t := o.loc[Key(v.slot, TablePage(v.v1))];
             && |mem'| == NUM_PAGES && t < NUM_PAGES
             && mem' == mem[t := mem[t][v.v0 := if v in x' then x'[v] else 0]]
    requires forall w :: w != v ==> (w in x' <==> w in x) && (w in x ==> x'[w] == x[w])
    ensures TablesHold(base, mem', o.loc, x')
  {
    var t := o.loc[Key(v.slot, TablePage(v.v1))];
    assert o.owner[t] == Key(v.slot, TablePage(v.v1));
    forall s
      ensures RootHolds(base, mem', o.loc, s)
    {
      assert RootHolds(base, mem, o.loc, s);
      if Key(s, RootPage) in o.loc { assert o.owner[o.loc[Key(s, RootPage)]] == Key(s, RootPage); }
    }
    forall s, v1
      ensures TableHolds(mem', o.loc, x', s, v1)
    {
      assert TableHolds(mem, o.loc, x, s, v1);
      if Key(s, TablePage(v1)) in o.loc { assert o.owner[o.loc[Key(s, TablePage(v1))]] == Key(s, TablePage(v1)); }
    }
  }

  /** Frames the tables when pages of other kinds get or lose owners. */
  lemma TablesKept(base: nat, mem: seq<Page>, loc: map<Key, nat>, loc': map<Key, nat>, x: map<VPage, word>)
    requires |mem| == NUM_PAGES && Placed(loc) && Placed(loc') && base + NUM_PAGES <= 0x40_0000
    requires TablesHold(base, mem, loc, x)
    requires forall k: Key {:trigger k in loc} {:trigger k in loc'} :: !k.node.UserPage? ==>
               (k in loc <==> k in loc') && (k in loc ==> loc[k] == loc'[k])
    ensures TablesHold(base, mem, loc', x)
  {
    forall s
      ensures RootHolds(base, mem, loc', s)
    {
      assert RootHolds(base, mem, loc, s);
    }
    forall s, v1
      ensures TableHolds(mem, loc', x, s, v1)
    {
      assert TableHolds(mem, loc, x, s, v1);
    }
  }

  lemma UserIsMapped(base: nat, loc: map<Key, nat>, x: map<VPage, word>, k: Key)
    requires Translated(base, loc, x) && k.node.UserPage?
    ensures k in loc ==> VPage(k.slot, k.node.v1, k.node.v0) in x && k.node.v1 < 512
  {
    assert k in loc ==> loc[k] == loc[k];
  }

  /** A reserved page is mapped at an unmapped user address and is owned through that mapping. */
  lemma AddUser(base: nat, used: seq<bool>, mem: seq<Page>, reserved: set<nat>, o: Owners, x: map<VPage, word>,
                v: VPage, e: word, p: nat)
    requires Consistent(base, used, mem, reserved, o, x) && v.v1 < 512 && v.v0 < 1024 && v !in x
    requires Key(v.slot, TablePage(v.v1)) in o.loc && p in reserved && Present(e) && Ppn(e) == base + p
    ensures o.loc[Key(v.slot, TablePage(v.v1))] < NUM_PAGES
    ensures var t := o.loc[Key(v.slot, TablePage(v.v1))];
            Consistent(base, used, mem[t := mem[t][v.v0 := e]], reserved - {p},
              o.Add(Key(v.slot, UserPage(v.v1, v.v0)), p), x[v := e])
  {
    var t := o.loc[Key(v.slot, TablePage(v.v1))];
    var k := Key(v.slot, UserPage(v.v1, v.v0));
    var mem' := mem[t := mem[t][v.v0 := e]];
    TableWritten(base, used, mem, reserved, o, x, v, mem', x[v := e]);
    var o' := o.Add(k, p);
    UserIsMapped(base, o.loc, x, k);
    assert Placed(o'.loc);
    TablesKept(base, mem', o.loc, o'.loc, x[v := e]);
    assert Translated(base, o'.loc, x[v := e]);
  }

  /** A user mapping is cleared and its page freed. */
  lemma DropUser(base: nat, used: seq<bool>, mem: seq<Page>, reserved: set<nat>, o: Owners, x: map<VPage, word>,
                 v: VPage)
    requires Consistent(base, used, mem, reserved, o, x) && v in x && Owning(base, v.v1, x[v])
    ensures v.v1 < 1024 && v.v0 < 1024 && Key(v.slot, TablePage(v.v1)) in o.loc
    ensures o.loc[Key(v.slot, TablePage(v.v1))] < NUM_PAGES
    ensures Key(v.slot, UserPage(v.v1, v.v0)) in o.loc && Ppn(x[v]) - base < NUM_PAGES && used[Ppn(x[v]) - base]
    ensures o.loc[Key(v.slot, UserPage(v.v1, v.v0))] == Ppn(x[v]) - base
    ensures var t := o.loc[Key(v.slot, TablePage(v.v1))];
            Consistent(base, used[Ppn(x[v]) - base := false], mem[t := mem[t][v.v0 := 0]], reserved,
                       o.Remove(Key(v.slot, UserPage(v.v1, v.v0))), x - {v})
  {
    var t := o.loc[Key(v.slot, TablePage(v.v1))];
    var k := Key(v.slot, UserPage(v.v1, v.v0));
    var p := Ppn(x[v]) - base;
    assert o.owner[p] == k;
    var mem' := mem[t := mem[t][v.v0 := 0]];
    TableWritten(base, used, mem, reserved, o, x, v, mem', x - {v});
    var o' := o.Remove(k);
    RemovePlaced(o, k);
    TablesKept(base, mem', o.loc, o'.loc, x - {v});
    RemoveTranslated(base, o, x, v);
    assert Accounted(used[p := false], reserved, o'.owner);
  }

  lemma RemovePlaced(o: Owners, k: Key)
    requires o.Inverse() && Placed(o.loc) && k in o.loc && k.node.UserPage?
    ensures o.Remove(k).Inverse() && Placed(o.Remove(k).loc)
  {
    forall q | q in o.Remove(k).loc
      ensures Key(q.slot, RootPage) in o.Remove(k).loc
    {
      assert o.loc[q] < NUM_PAGES;
    }
  }

  lemma RemoveTranslated(base: nat, o: Owners, x: map<VPage, word>, v: VPage)
    requires Translated(base, o.loc, x) && v in x && Key(v.slot, UserPage(v.v1, v.v0)) in o.loc
    ensures Translated(base, o.Remove(Key(v.slot, UserPage(v.v1, v.v0))).loc, x - {v})
  {
    var loc' := o.Remove(Key(v.slot, UserPage(v.v1, v.v0))).loc;
    forall w | w in x - {v}
      ensures Present(x[w]) && Key(w.slot, TablePage(w.v1)) in loc'
    {
      assert Present(x[w]);
    }
    forall k | k in loc' && k.node.UserPage?
      ensures VPage(k.slot, k.node.v1, k.node.v0) in x - {v}
    {
      assert k in o.loc && o.loc[k] == loc'[k];
    }
  }

  // ----- a process goes -----

  ghost function Without(o: Owners, s: nat): Owners {
    Owners(map k | k in o.loc && k.slot != s :: o.loc[k], map p | p in o.owner && o.owner[p].slot != s :: o.owner[p])
  }

  ghost function WithoutPages(x: map<VPage, word>, s: nat): map<VPage, word> { map v | v in x && v.slot != s :: x[v] }

  /** The pages that process `s` owns. */
  ghost function OwnedBy(o: Owners, s: nat): set<nat> { set p | p in o.owner && o.owner[p].slot == s }

  lemma DropProcess(base: nat, used: seq<bool>, mem: seq<Page>, reserved: set<nat>, o: Owners, x: map<VPage, word>,
                    s: nat, used': seq<bool>)
    requires Consistent(base, used, mem, reserved, o, x) && |used'| == NUM_PAGES
    requires forall p :: 0 <= p < NUM_PAGES ==> (used'[p] <==> used[p] && p !in OwnedBy(o, s))
    ensures Consistent(base, used', mem, reserved, Without(o, s), WithoutPages(x, s))
  {
    var o', x' := Without(o, s), WithoutPages(x, s);
    WithoutPlaced(o, s);
    WithoutTranslated(base, o, x, s);
    forall q
      ensures RootHolds(base, mem, o'.loc, q)
    {
      assert RootHolds(base, mem, o.loc, q);
    }
    forall q, v1
      ensures TableHolds(mem, o'.loc, x', q, v1)
    {
      assert TableHolds(mem, o.loc, x, q, v1);
    }
  }

  lemma WithoutPlaced(o: Owners, s: nat)
    requires o.Inverse() && Placed(o.loc)
    ensures Without(o, s).Inverse() && Placed(Without(o, s).loc)
  {
    forall k | k in Without(o, s).loc
      ensures Key(k.slot, RootPage) in Without(o, s).loc
    {
      assert o.loc[k] < NUM_PAGES;
    }
  }

  lemma WithoutTranslated(base: nat, o: Owners, x: map<VPage, word>, s: nat)
    requires Translated(base, o.loc, x)
    ensures Translated(base, Without(o, s).loc, WithoutPages(x, s))
  {
    forall v | v in WithoutPages(x, s)
      ensures Key(v.slot, TablePage(v.v1)) in Without(o, s).loc
    {
      assert Present(x[v]);
    }
    forall k | k in Without(o, s).loc && k.node.UserPage?
      ensures VPage(k.slot, k.node.v1, k.node.v0) in WithoutPages(x, s)
    {
      UserIsMapped(base, o.loc, x, k);
    }
  }
}
