/** Searching sequences and counting finite sets; the number of processes. */
module Basics {

  /** How many processes there can be. */
  const PROCS_MAX: nat := 8

  datatype Option<T> = None | Some(value: T)

  /** The first element from index `i` on that satisfies `p`. */
  function First<T>(s: seq<T>, p: T -> bool, i: nat): (c: Option<nat>)
    ensures c.Some? ==> i <= c.value < |s| && p(s[c.value]) && forall j :: i <= j < c.value ==> !p(s[j])
    ensures c.None? ==> forall j :: i <= j < |s| ==> !p(s[j])
    decreases |s| - i
  {
    if i >= |s| then None else if p(s[i]) then Some(i) else First(s, p, i + 1)
  }

  /** A set of numbers below `n` has at most `n` elements. */
  lemma {:induction false} Below(t: set<nat>, n: nat)
    requires forall c <- t :: c < n
    ensures |t| <= n
  {
    if n > 0 {
      Below(t - {n - 1}, n - 1);
    } else {
      assert t == {};
    }
  }

  lemma {:induction false} Subset<T>(a: set<T>, b: set<T>)
    requires a <= b
    ensures |a| <= |b|
  {
    if x :| x in a {
      Subset(a - {x}, b - {x});
    }
  }

  /** Keys with different values in `vs` are no more than `vs`. */
  lemma {:induction false} Injective<K, V>(m: map<K, V>, ks: set<K>, vs: set<V>)
    requires ks <= m.Keys && forall a <- ks :: m[a] in vs
    requires forall a, b :: a in ks && b in ks && m[a] == m[b] ==> a == b
    ensures |ks| <= |vs|
  {
    if a :| a in ks {
      Injective(m, ks - {a}, vs - {m[a]});
    }
  }

  /** Keys with different values have as many values. */
  lemma {:induction false} ImageSize<K, V>(m: map<K, V>, ks: set<K>, vs: set<V>)
    requires ks <= m.Keys && forall v :: v in vs <==> exists a :: a in ks && m[a] == v
    requires forall a, b :: a in ks && b in ks && m[a] == m[b] ==> a == b
    ensures |ks| == |vs|
  {
    if a :| a in ks {
      ImageSize(m, ks - {a}, vs - {m[a]});
    } else {
      assert vs == {};
    }
  }

  lemma {:induction false} FewMembers(m: multiset<nat>, ks: set<nat>)
    requires forall k <- ks :: k in m
    ensures |ks| <= |m|
    decreases |ks|
  {
    if k :| k in ks {
      FewMembers(m - multiset{k}, ks - {k});
    }
  }

  lemma {:induction false} AllBelow(ks: set<nat>, n: nat)
    requires forall k :: 0 <= k < n ==> k in ks
    ensures n <= |ks|
  {
    if n > 0 {
      AllBelow(ks - {n - 1}, n - 1);
    }
  }
}
