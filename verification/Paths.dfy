/**
 Path names as text: splitting into components, and the lexical normal form kept in a process's `cwd_path`.
 A C string is the sequence of its characters without the terminating NUL.
 */
module Paths {

  const MAX_DEPTH: nat := 32      // MAX_PATH_DEPTH
  const NAME_CAP: nat := 127      // MAX_FILENAME - 1
  const BUF_CAP: nat := 255       // characters that fit the join buffer

  function Cut(s: string, n: nat): (t: string)
    ensures |t| <= n && t <= s && (|s| <= n ==> t == s)
  {
    if |s| <= n then s else s[..n]
  }

  // ----- components -----

  function Flush(cur: string): seq<string> { if cur == "" then [] else [cur] }

  /** The components of `s` when the characters `cur` of the first one have already been read. */
  function Scan(s: string, cur: string): seq<string>
    decreases |s|
  {
    if s == "" then Flush(cur)
    else if s[0] == '/' then Flush(cur) + Scan(s[1..], "")
    else Scan(s[1..], cur + [s[0]])
  }

  /** The non-empty components of a path between slashes. */
  function Tokens(s: string): seq<string> { Scan(s, "") }

  lemma {:induction false} ScanJoin(a: string, b: string, cur: string)
    ensures Scan(a + "/" + b, cur) == Scan(a, cur) + Scan(b, "")
    decreases |a|
  {
    var s := a + "/" + b;
    if a == "" {
      assert s[1..] == b;
    } else {
      assert s[0] == a[0] && s[1..] == a[1..] + "/" + b;
      ScanJoin(a[1..], b, if a[0] == '/' then "" else cur + [a[0]]);
    }
  }

  /** Characters without a slash extend the component being read. */
  lemma {:induction false} ScanWord(w: string, s: string, cur: string)
    requires '/' !in w
    ensures Scan(w + s, cur) == Scan(s, cur + w)
    decreases |w|
  {
    if w == "" {
      assert w + s == s && cur + w == cur;
    } else {
      assert (w + s)[1..] == w[1..] + s;
      assert w[0] in w && forall c <- w[1..] :: c in w;
      ScanWord(w[1..], s, cur + [w[0]]);
      assert cur + [w[0]] + w[1..] == cur + w;
    }
  }

  predicate IsDots(name: string) { name == "." || name == ".." }

  /** A component: not empty and without a slash. */
  predicate IsName(t: string) { t != "" && '/' !in t }

  lemma {:induction false} ScanNames(s: string, cur: string)
    requires '/' !in cur
    ensures forall t <- Scan(s, cur) :: IsName(t)
    decreases |s|
  {
    if s != "" {
      if s[0] == '/' {
        ScanNames(s[1..], "");
      } else {
        ScanNames(s[1..], cur + [s[0]]);
      }
    }
  }

  // ----- the stack of components -----

  function Pop(st: seq<string>): seq<string> { if st == [] then [] else st[..|st| - 1] }

  /** One component applied to the stack as the kernel does it: 32 entries of at most 127 characters. */
  function Push(st: seq<string>, t: string): seq<string> {
    if t == "." then st
    else if t == ".." then Pop(st)
    else if |st| < MAX_DEPTH then st + [Cut(t, NAME_CAP)]
    else st
  }

  function PushAll(st: seq<string>, ts: seq<string>): seq<string>
    decreases |ts|
  {
    if ts == [] then st else PushAll(Push(st, ts[0]), ts[1..])
  }

  /** The same without limits: the canonical path. */
  function Apply(st: seq<string>, t: string): seq<string> {
    if t == "." then st else if t == ".." then Pop(st) else st + [t]
  }

  function ApplyAll(st: seq<string>, ts: seq<string>): seq<string>
    decreases |ts|
  {
    if ts == [] then st else ApplyAll(Apply(st, ts[0]), ts[1..])
  }

  lemma {:induction false} ApplyConcat(st: seq<string>, a: seq<string>, b: seq<string>)
    ensures ApplyAll(st, a + b) == ApplyAll(ApplyAll(st, a), b)
    decreases |a|
  {
    if a == [] {
      assert a + b == b;
    } else {
      assert (a + b)[0] == a[0] && (a + b)[1..] == a[1..] + b;
      ApplyConcat(Apply(st, a[0]), a[1..], b);
    }
  }

  /** The path a stack denotes. */
  function Body(st: seq<string>): string
    decreases |st|
  {
    if st == [] then "" else Body(st[..|st| - 1]) + "/" + st[|st| - 1]
  }

  function Render(st: seq<string>): string { if st == [] then "/" else Body(st) }

  /** A component that stands for itself. */
  predicate IsProper(t: string) { IsName(t) && t != "." && t != ".." && |t| <= NAME_CAP }

  predicate IsStack(st: seq<string>) { |st| <= MAX_DEPTH && forall t <- st :: IsProper(t) }

  lemma {:induction false} PushAllStack(st: seq<string>, ts: seq<string>)
    requires IsStack(st) && forall t <- ts :: IsName(t)
    ensures IsStack(PushAll(st, ts))
    decreases |ts|
  {
    if ts != [] {
      assert IsName(ts[0]);
      PushAllStack(Push(st, ts[0]), ts[1..]);
    }
  }

  /** Reading back what a stack denotes. */
  lemma {:induction false} BodyTokens(st: seq<string>)
    requires forall t <- st :: IsName(t)
    ensures Tokens(Body(st)) == st
    decreases |st|
  {
    if st != [] {
      var init, t := st[..|st| - 1], st[|st| - 1];
      BodyTokens(init);
      assert IsName(t);
      ScanJoin(Body(init), t, "");
      ScanWord(t, "", "");
      assert t + "" == t && "" + t == t;
    }
  }

  lemma RenderTokens(st: seq<string>)
    requires forall t <- st :: IsName(t)
    ensures Tokens(Render(st)) == st
  {
    if st == [] {
      assert "/"[1..] == "";
    } else {
      BodyTokens(st);
    }
  }

  lemma {:induction false} PushProper(st: seq<string>, ts: seq<string>)
    requires IsStack(st + ts)
    ensures PushAll(st, ts) == ApplyAll(st, ts) == st + ts
    decreases |ts|
  {
    if ts == [] {
      assert st + ts == st;
    } else {
      assert IsProper((st + ts)[|st|]);
      assert st + [ts[0]] + ts[1..] == st + ts;
      PushProper(st + [ts[0]], ts[1..]);
    }
  }

  /** The stack never holds more than 32 components. */
  predicate Fits(st: seq<string>, ts: seq<string>)
    decreases |ts|
  {
    |st| <= MAX_DEPTH && (ts == [] || Fits(Apply(st, ts[0]), ts[1..]))
  }

  lemma FitsNow(st: seq<string>, ts: seq<string>)
    requires Fits(st, ts)
    ensures |st| <= MAX_DEPTH
  {
  }

  /** Every component cut to 127 characters. */
  function CutAll(st: seq<string>): (r: seq<string>)
    ensures |r| == |st| && forall i :: 0 <= i < |st| ==> r[i] == Cut(st[i], NAME_CAP)
  {
    seq(|st|, i requires 0 <= i < |st| => Cut(st[i], NAME_CAP))
  }

  /** As long as it fits, the kernel's stack is the canonical one. */
  lemma {:induction false} PushFits(st: seq<string>, ts: seq<string>)
    requires Fits(st, ts)
    ensures PushAll(CutAll(st), ts) == CutAll(ApplyAll(st, ts))
    decreases |ts|
  {
    if ts != [] {
      var next := Apply(st, ts[0]);
      FitsNow(next, ts[1..]);
      assert Push(CutAll(st), ts[0]) == CutAll(next);
      PushFits(next, ts[1..]);
    }
  }

  // ----- length -----

  function Weight(ts: seq<string>): nat
    decreases |ts|
  {
    if ts == [] then 0 else 1 + |ts[0]| + Weight(ts[1..])
  }

  lemma {:induction false} PushWeight(st: seq<string>, ts: seq<string>)
    ensures |Body(PushAll(st, ts))| <= |Body(st)| + Weight(ts)
    decreases |ts|
  {
    if ts != [] {
      var t := ts[0];
      assert |Body(Push(st, t))| <= |Body(st)| + 1 + |t| by {
        assert st + [Cut(t, NAME_CAP)] != [] && (st + [Cut(t, NAME_CAP)])[..|st|] == st;
      }
      PushWeight(Push(st, t), ts[1..]);
    }
  }

  lemma {:induction false} WeightConcat(a: seq<string>, b: seq<string>)
    ensures Weight(a + b) == Weight(a) + Weight(b)
    decreases |a|
  {
    if a == [] {
      assert a + b == b;
    } else {
      assert (a + b)[1..] == a[1..] + b;
      WeightConcat(a[1..], b);
    }
  }

  lemma {:induction false} ScanWeight(s: string, cur: string)
    ensures Weight(Scan(s, cur)) <= |cur| + |s| + 1
    ensures s != "" && s[0] == '/' && cur == "" ==> Weight(Scan(s, cur)) <= |s|
    decreases |s|
  {
    if s != "" {
      if s[0] == '/' {
        ScanWeight(s[1..], "");
        WeightConcat(Flush(cur), Scan(s[1..], ""));
      } else {
        ScanWeight(s[1..], cur + [s[0]]);
      }
    }
  }

  // ----- fs_normalize_path -----

  /** What the join buffer holds. */
  function Joined(base: string, rel: string): (s: string)
    ensures |s| <= BUF_CAP
  {
    if rel != "" && rel[0] == '/' then Cut(rel, BUF_CAP)
    else
      var b := if base != "" && base[|base| - 1] != '/' then base + "/" else base;
      Cut(b + rel, BUF_CAP)
  }

  function Normalized(base: string, rel: string): seq<string> { PushAll([], Tokens(Joined(base, rel))) }

  /** The text that `fs_normalize_path` computes when its result fits. */
  function Normalize(base: string, rel: string): string { Render(Normalized(base, rel)) }

  /**
   The normal form. For a base that starts at the root: the result is a rooted path of at most 32 components,
   none of them empty, "." or "..", of at most 255 characters.
   */
  lemma NormalForm(base: string, rel: string)
    ensures IsStack(Normalized(base, rel)) && Tokens(Normalize(base, rel)) == Normalized(base, rel)
    ensures Normalize(base, rel) != "" && Normalize(base, rel)[0] == '/'
    ensures base != "" && base[0] == '/' ==> |Normalize(base, rel)| <= BUF_CAP
  {
    var s := Joined(base, rel);
    ScanNames(s, "");
    PushAllStack([], Tokens(s));
    RenderTokens(Normalized(base, rel));
    PushWeight([], Tokens(s));
    ScanWeight(s, "");
    RenderRooted(Normalized(base, rel));
  }

  lemma {:induction false} RenderRooted(st: seq<string>)
    ensures Render(st) != "" && Render(st)[0] == '/'
    decreases |st|
  {
    if |st| == 1 {
      assert Body(st[..0]) == "";
    } else if |st| > 1 {
      RenderRooted(st[..|st| - 1]);
    }
  }

  /** Normalising a normal form, as base or as path, changes nothing. */
  lemma Idempotent(base: string, rel: string, other: string)
    requires base != "" && base[0] == '/'
    ensures var n := Normalize(base, rel); Normalize(n, "") == n && Normalize(other, n) == n
  {
    NormalForm(base, rel);
    var n, st := Normalize(base, rel), Normalized(base, rel);
    PushProper([], st);
    assert [] + st == st;
    assert Joined(other, n) == n;
    if n[|n| - 1] != '/' {
      assert n + "/" + "" == n + "/";
      ScanJoin(n, "", "");
      CutSlash(n);
    } else {
      assert n + "" == n;
    }
  }

  /** Cutting off a final slash changes no component. */
  lemma CutSlash(n: string)
    requires |n| <= BUF_CAP
    ensures Tokens(Cut(n + "/", BUF_CAP)) == Tokens(n)
  {
    ScanJoin(n, "", "");
    assert n + "/" + "" == n + "/";
    if |n| == BUF_CAP {
      assert (n + "/")[..BUF_CAP] == n;
    }
  }

  /** The components of an uncut join are those of the base, unless the path is absolute, and those of the path. */
  lemma JoinTokens(base: string, rel: string)
    requires rel != "" && rel[0] == '/' ==> |rel| <= BUF_CAP
    requires !(rel != "" && rel[0] == '/') ==> |base| + 1 + |rel| <= BUF_CAP
    ensures Tokens(Joined(base, rel)) == (if rel != "" && rel[0] == '/' then [] else Tokens(base)) + Tokens(rel)
  {
    if rel != "" && rel[0] == '/' {
      assert [] + Tokens(rel) == Tokens(rel);
    } else if base == "" {
      assert base + rel == rel && Tokens("") + Tokens(rel) == Tokens(rel);
    } else {
      if base[|base| - 1] != '/' {
        ScanJoin(base, rel, "");
      } else {
        var b := base[..|base| - 1];
        assert base == b + "/" && base == b + "/" + "" && base + rel == b + "/" + rel;
        ScanJoin(b, rel, "");
        ScanJoin(b, "", "");
      }
    }
  }

  predicate IsAbsolute(path: string) { path != "" && path[0] == '/' }

  /** The joined text fits the buffer, and no more than 32 components are ever on the stack. */
  predicate WithinCaps(base: string, rel: string) {
    if IsAbsolute(rel) then |rel| <= BUF_CAP && Fits([], Tokens(rel))
    else |base| + 1 + |rel| <= BUF_CAP && Fits([], Tokens(base) + Tokens(rel))
  }

  /** Base and path applied to an empty stack, without any limit. */
  function CanonicalPath(base: string, rel: string): seq<string> {
    ApplyAll(if IsAbsolute(rel) then [] else ApplyAll([], Tokens(base)), Tokens(rel))
  }

  /** Within the limits the result is the canonical path, with every component cut to 127 characters. */
  lemma Canonical(base: string, rel: string)
    requires WithinCaps(base, rel)
    ensures Normalized(base, rel) == CutAll(CanonicalPath(base, rel))
  {
    JoinTokens(base, rel);
    PushFits([], Tokens(Joined(base, rel)));
    assert CutAll([]) == [];
    ApplyConcat([], if IsAbsolute(rel) then [] else Tokens(base), Tokens(rel));
    assert [] + Tokens(rel) == Tokens(rel);
  }

  // ----- the loops -----

  /** `strncat`: appends at most `n` characters. */
  function Strncat(dst: string, src: string, n: nat): string { dst + Cut(src, n) }

  method Join(base: string, rel: string) returns (buf: string)
    requires IsAbsolute(rel) || |base| < BUF_CAP
    ensures buf == Joined(base, rel)
  {
    if rel != "" && rel[0] == '/' {
      buf := Cut(rel, 255);
    } else {
      buf := Cut(base, 255);
      var len := |buf|;
      if len > 0 && buf[len - 1] != '/' {
        buf := Strncat(buf, "/", 256 - len - 1);
      }
      buf := Strncat(buf, rel, 256 - |buf| - 1);
    }
  }

  method NormalizePath(base: string, rel: string, dstLen: nat) returns (dst: string)
    requires (IsAbsolute(rel) || |base| < BUF_CAP) && dstLen >= 2
    ensures dst == Cut(Normalize(base, rel), dstLen - 1)
  {
    var buf := Join(base, rel);
    var tokens := new string[MAX_DEPTH];
    var n := Split(buf, tokens);
    dst := WritePath(tokens[..n], dstLen);
  }

  method WritePath(tokens: seq<string>, dstLen: nat) returns (dst: string)
    requires dstLen >= 2
    ensures dst == Cut(Render(tokens), dstLen - 1)
  {
    hide Render, Cut, Strncat;
    WriteNone(dstLen - 1);
    dst := "/";
    var cap, i := dstLen - 1, 0;
    assert tokens[..0] == [];
    while i < |tokens|
      invariant 0 <= i <= |tokens| && dst == Cut(Render(tokens[..i]), cap)
      invariant i == 0 ==> dst == "/"
    {
      WriteNext(tokens, i, cap);
      if i > 0 || |dst| > 1 {
        dst := Strncat(dst, "/", cap - |dst|);
      }
      dst := Strncat(dst, tokens[i], cap - |dst|);
      i := i + 1;
    }
    assert tokens[..|tokens|] == tokens;
  }

  /** Appending what fits to a cut text cuts the whole text. */
  lemma CutAppend(a: string, b: string, cap: nat)
    ensures Strncat(Cut(a, cap), b, cap - |Cut(a, cap)|) == Cut(a + b, cap)
  {
    if |a| >= cap {
      assert (a + b)[..cap] == a[..cap];
    } else if |a| + |b| > cap {
      assert (a + b)[..cap] == a + b[..cap - |a|];
    }
  }

  lemma RenderSnoc(st: seq<string>, t: string)
    ensures Render(st + [t]) == (if st == [] then "/" + t else Render(st) + "/" + t)
  {
    assert (st + [t])[..|st|] == st;
    if st == [] {
      assert Body(st) + "/" + t == "/" + t;
    }
  }

  lemma WriteNone(cap: nat)
    requires cap >= 1
    ensures Cut(Render([]), cap) == "/"
  {
  }

  lemma WriteNext(tokens: seq<string>, i: nat, cap: nat)
    requires cap >= 1 && i < |tokens|
    ensures var d := Cut(Render(tokens[..i]), cap);
            var e := if i == 0 then d else Strncat(d, "/", cap - |d|);
            |e| <= cap && Strncat(e, tokens[i], cap - |e|) == Cut(Render(tokens[..i + 1]), cap)
  {
    var st, t := tokens[..i], tokens[i];
    assert tokens[..i + 1] == st + [t];
    RenderSnoc(st, t);
    if st == [] {
      CutAppend("/", t, cap);
    } else {
      CutAppend(Render(st), "/", cap);
      CutAppend(Render(st) + "/", t, cap);
    }
  }

  /** The components of `buf` applied one by one to `tokens`, of which the first `n` are in use. */
  method Split(buf: string, tokens: array<string>) returns (n: nat)
    requires tokens.Length == MAX_DEPTH
    modifies tokens
    ensures n <= MAX_DEPTH && tokens[..n] == PushAll([], Tokens(buf))
  {
    n := 0;
    var p := SkipSlashes(buf, 0);
    while p < |buf|
      invariant 0 <= p <= |buf| && (p < |buf| ==> buf[p] != '/') && n <= MAX_DEPTH
      invariant PushAll([], Tokens(buf)) == PushAll(tokens[..n], Tokens(buf[p..]))
    {
      var next := FindSlash(buf, p);
      var t := buf[p..next];
      ghost var st := tokens[..n];
      if t == "." {
      } else if t == ".." {
        if n > 0 {
          n := n - 1;
        }
      } else if |t| > 0 {
        if n < MAX_DEPTH {
          tokens[n] := Cut(t, 127);
          n := n + 1;
        }
      }
      assert tokens[..n] == Push(st, t);
      Component(buf, p, next);
      if next == |buf| {
        return;
      }
      p := SkipSlashes(buf, next + 1);
    }
  }

  method SkipSlashes(s: string, p0: nat) returns (p: nat)
    requires p0 <= |s|
    ensures p0 <= p <= |s| && (p < |s| ==> s[p] != '/')
    ensures Tokens(s[p..]) == Tokens(s[p0..])
  {
    p := p0;
    while p < |s| && s[p] == '/'
      invariant p0 <= p <= |s| && Tokens(s[p..]) == Tokens(s[p0..])
    {
      assert s[p..][1..] == s[p + 1..];
      p := p + 1;
    }
  }

  method FindSlash(s: string, p: nat) returns (next: nat)
    requires p <= |s|
    ensures p <= next <= |s| && '/' !in s[p..next] && (next < |s| ==> s[next] == '/')
    ensures p < |s| && s[p] != '/' ==> next > p
  {
    next := p;
    while next < |s| && s[next] != '/'
      invariant p <= next <= |s| && '/' !in s[p..next]
    {
      next := next + 1;
    }
  }

  lemma Component(s: string, p: nat, next: nat)
    requires p < next <= |s| && '/' !in s[p..next] && (next < |s| ==> s[next] == '/')
    ensures Tokens(s[p..]) == [s[p..next]] + (if next < |s| then Tokens(s[next + 1..]) else [])
  {
    ScanWord(s[p..next], s[next..], "");
    assert s[p..next] + s[next..] == s[p..];
    assert "" + s[p..next] == s[p..next];
    if next < |s| {
      assert s[next..][1..] == s[next + 1..];
    }
  }

  /** `skipto`: the next component from `pos` on, cut to 29 characters, and where the one after it starts. */
  method Skipto(path: string, pos: nat) returns (more: bool, name: string, next: nat, ghost comp: string)
    requires pos <= |path|
    ensures !more ==> Tokens(path[pos..]) == []
    ensures more ==>
              pos < next <= |path| && Tokens(path[pos..]) == [comp] + Tokens(path[next..]) && name == Cut(comp, 29)
    ensures more ==> (next == |path| <==> Tokens(path[next..]) == [])
  {
    var p := SkipSlashes(path, pos);
    if p == |path| {
      assert path[p..] == "";
      return false, "", p, "";
    }
    var end := FindSlash(path, p);
    Component(path, p, end);
    comp := path[p..end];
    name := if end - p >= 30 then path[p..p + 29] else path[p..end];
    next := SkipSlashes(path, end);
    if end < |path| {
      assert path[end..][1..] == path[end + 1..];
    } else {
      assert path[end..] == "";
    }
    if next < |path| {
      var after := FindSlash(path, next);
      Component(path, next, after);
    }
    return true, name, next, comp;
  }
}
