/** What processes can rely on when others start and end, and over any calls: nobody touches what is another's. */
module Lives {
  import opened Basics
  import opened Layout
  import opened Paths
  import opened Items
  import opened World
  import opened Descriptors
  import R = Replay
  import M = Mounts
  import T = Tree

  // ----- the command line -----

  predicate AllSpaces(s: string) { forall c <- s :: c == ' ' }

  /** `t` is the first word of `s`: spaces may come before it, and after it the end or a space. */
  ghost predicate IsFirstWord(s: string, t: string) {
    exists k: nat :: k + |t| <= |s| && AllSpaces(s[..k]) && s[k..k + |t|] == t && ' ' !in t
      && (k + |t| < |s| ==> t != "" && s[k + |t|] == ' ')
  }

  lemma {:induction false} WordIs(s: string)
    ensures var t := Word(s); |t| <= |s| && s[..|t|] == t && ' ' !in t && (|t| < |s| ==> s[|t|] == ' ')
  {
    if s != "" && s[0] != ' ' {
      WordIs(s[1..]);
      var t := Word(s[1..]);
      assert s[..|t| + 1] == [s[0]] + s[1..][..|t|];
    }
  }

  lemma {:induction false} SpacesAre(s: string)
    ensures var t := SkipSpaces(s);
            && |t| <= |s| && s[|s| - |t|..] == t && AllSpaces(s[..|s| - |t|]) && (t != "" ==> t[0] != ' ')
  {
    if s != "" && s[0] == ' ' {
      SpacesAre(s[1..]);
      var t := SkipSpaces(s[1..]);
      var k := |s| - |t|;
      assert s[..k] == [' '] + s[1..][..k - 1];
      assert s[k..] == s[1..][k - 1..];
    }
  }

  /** The program is the first word of the first 127 characters of the command line. */
  lemma ProgramIs(line: string)
    ensures IsFirstWord(if |line| <= 127 then line else line[..127], FirstWord(line))
  {
    var s := if |line| <= 127 then line else line[..127];
    var rest := SkipSpaces(s);
    SpacesAre(s);
    WordIs(rest);
    var t, k := Word(rest), |s| - |rest|;
    assert s[k..k + |t|] == rest[..|t|];
    assert k + |t| < |s| ==> s[k + |t|] == rest[|t|];
  }

  // ----- spawn -----

  /** Three entries of the table of open files are free. */
  ghost predicate ThreeLeft(w: World) {
    exists a, b, c :: 0 <= a < b < c < |w.files| && w.files[a].Free? && w.files[b].Free? && w.files[c].Free?
  }

  lemma ThreeLeftIs(w: World)
    ensures ThreeLeft(w) <==> ThreeFree(w.files) != []
  {
    var files := w.files;
    var a := FirstFree(files, 0);
    if ThreeFree(files) != [] {
      var fs := ThreeFree(files);
      assert files[fs[0]].Free? && files[fs[1]].Free? && files[fs[2]].Free?;
    }
  }

  /** What the descriptors of a new process are: the keyboard, and twice the screen; or nothing. */
  function Standard(g: nat, console: bool): Handle {
    if console && g == 0 then OnConsole(1, true, false)
    else if console && (g == 1 || g == 2) then OnConsole(1, false, true)
    else Free
  }

  /** What `spawn` answers. */
  lemma SpawnAnswers(w: World, p: nat, line: string, memory: bool)
    requires R.Good(w) && p < PROCS_MAX && w.procs[p]
    ensures var r, t := Step(w, p, CSpawn(line, memory)).1, FirstWord(line);
            var full, found := forall q :: 0 <= q < PROCS_MAX ==> w.procs[q], Goal(w, p, t, false).Some?;
            && (r == Halt <==> t != "" && (!memory || full))
            && (r == Fail(NotPermitted) <==> t == "" || (memory && !full && !found))
            && (r.Pid? <==> t != "" && memory && !full && found)
            && (r.Pid? ==>
                  0 < r.pid <= PROCS_MAX && !w.procs[r.pid - 1] && forall q :: 0 <= q < r.pid - 1 ==> w.procs[q])
            && (t == "" || r == Halt ==> Step(w, p, CSpawn(line, memory)).0 == w)
  {
    hide Goal, FirstWord, R.Trees, R.Seated, ThreeFree, ThreeOpened;
    if FirstUnusedProc(w.procs, 0).Some? {
      assert !w.procs[FirstUnusedProc(w.procs, 0).value];
    }
  }

  /**
   A new process is where its parent is: every path leads it where it leads the parent. It has the console, if three
   open files were left, and nothing else; and nothing changes for anybody else.
   */
  lemma SpawnMakes(w: World, p: nat, line: string, memory: bool)
    requires R.Good(w) && Tidy(w) && p < PROCS_MAX && w.procs[p] && Step(w, p, CSpawn(line, memory)).1.Pid?
    ensures var (v, r) := Step(w, p, CSpawn(line, memory));
            && Shape(v) && Tidy(v) && 0 < r.pid <= PROCS_MAX
            && var q := r.pid - 1;
               && v == w.(files := v.files, fds := v.fds, cwds := v.cwds, paths := v.paths, procs := v.procs)
               && v.procs == w.procs[q := true] && v.paths == w.paths[q := w.paths[p]]
               && (forall path, parent :: Goal(v, q, path, parent) == Goal(w, p, path, parent))
               && (forall o :: 0 <= o < PROCS_MAX && o != q ==> v.cwds[o] == w.cwds[o])
               && (forall g :: 0 <= g < NOFILE ==> HandleAt(v, q, g) == Standard(g, ThreeLeft(w)))
               && forall o, g {:trigger HandleAt(v, o, g)} :: 0 <= o < PROCS_MAX && o != q && 0 <= g < NOFILE ==>
                    HandleAt(v, o, g) == HandleAt(w, o, g)
  {
    hide FirstWord, R.Trees, TreeOf, T.Target, ThreeFree, Tokens, Started;
    SpawnAnswers(w, p, line, memory);
    ThreeLeftIs(w);
    assert R.SeatOk(w, p);
    var (v, r) := Step(w, p, CSpawn(line, memory));
    var q, fs := r.pid - 1, ThreeFree(w.files);
    assert R.SeatOk(w, q);
    assert v == Started(w.(files := ThreeOpened(w.files, fs)), q, w.cwds[p].value, w.paths[p], fs);
    StartedIs(w, v, q, w.cwds[p].value, w.paths[p], fs);
    assert TreeOf(v) == TreeOf(w) by { R.SameTree(w, v); }
  }

  lemma StartedIs(w: World, v: World, q: nat, dir: T.Node, path: string, fs: seq<nat>)
    requires Shape(w) && Tidy(w) && q < PROCS_MAX && fs == ThreeFree(w.files)
    requires forall i :: NOFILE * q <= i < NOFILE * q + NOFILE ==> w.fds[i] == None
    requires v == Started(w.(files := ThreeOpened(w.files, fs)), q, dir, path, fs)
    ensures Shape(v) && (dir.dev < 2 ==> Tidy(v))
    ensures v == w.(files := v.files, fds := v.fds, cwds := w.cwds[q := Some(dir)], paths := w.paths[q := path],
                    procs := w.procs[q := true])
    ensures forall g :: 0 <= g < NOFILE ==> HandleAt(v, q, g) == Standard(g, fs != [])
    ensures forall o, g {:trigger HandleAt(v, o, g)} :: 0 <= o < PROCS_MAX && o != q && 0 <= g < NOFILE ==>
              HandleAt(v, o, g) == HandleAt(w, o, g)
  {
    hide ThreeFree, Tidy, Standard, HandleAt;
    var u := w.(files := ThreeOpened(w.files, fs), fds := ThreeGiven(w.fds, q, fs));
    if fs == [] {
      NoneGiven(w, q);
    } else {
      ThreeAreFree(w.files);
      ThreeTidy(w, u, q, fs);
    }
    assert v.files == u.files && v.fds == u.fds;
    SameTables(u, v);
  }

  lemma NoneGiven(w: World, q: nat)
    requires Shape(w) && q < PROCS_MAX && forall i :: NOFILE * q <= i < NOFILE * q + NOFILE ==> w.fds[i] == None
    ensures forall g :: 0 <= g < NOFILE ==> HandleAt(w, q, g) == Standard(g, false)
  {
  }

  lemma SameTables(u: World, v: World)
    requires Shape(u) && Shape(v) && v.files == u.files && v.fds == u.fds && v.s0 == u.s0 && v.s1 == u.s1
    ensures forall o: nat, g {:trigger HandleAt(v, o, g)} :: o < PROCS_MAX ==> HandleAt(v, o, g) == HandleAt(u, o, g)
    ensures Tidy(u) && (forall p :: 0 <= p < |v.cwds| && v.cwds[p].Some? ==> v.cwds[p].value.dev < 2) ==> Tidy(v)
    ensures Tidy(u) ==> forall p :: 0 <= p < |u.cwds| && u.cwds[p].Some? ==> u.cwds[p].value.dev < 2
  {
  }

  lemma ThreeTidy(w: World, u: World, q: nat, fs: seq<nat>)
    requires Shape(w) && Tidy(w) && q < PROCS_MAX && |fs| == 3 && fs[0] < fs[1] < fs[2] < |w.files|
    requires w.files[fs[0]].Free? && w.files[fs[1]].Free? && w.files[fs[2]].Free?
    requires forall i :: NOFILE * q <= i < NOFILE * q + NOFILE ==> w.fds[i] == None
    requires u == w.(files := ThreeOpened(w.files, fs), fds := ThreeGiven(w.fds, q, fs))
    ensures Shape(u) && Tidy(u)
    ensures forall g :: 0 <= g < NOFILE ==> HandleAt(u, q, g) == Standard(g, true)
    ensures forall o, g {:trigger HandleAt(u, o, g)} :: 0 <= o < PROCS_MAX && o != q && 0 <= g < NOFILE ==>
              HandleAt(u, o, g) == HandleAt(w, o, g)
  {
    hide Tidy;
    var w1 := w.(files := w.files[fs[0] := OnConsole(1, true, false)], fds := w.fds[NOFILE * q := Some(fs[0])]);
    PairTidy(w, w1, NOFILE * q, fs[0]);
    PairNew(w, w1, q, 0, fs[0]);
    var w2 := w1.(files := w1.files[fs[1] := OnConsole(1, false, true)], fds := w1.fds[NOFILE * q + 1 := Some(fs[1])]);
    PairTidy(w1, w2, NOFILE * q + 1, fs[1]);
    PairNew(w1, w2, q, 1, fs[1]);
    var w3 := w2.(files := w2.files[fs[2] := OnConsole(1, false, true)], fds := w2.fds[NOFILE * q + 2 := Some(fs[2])]);
    PairTidy(w2, w3, NOFILE * q + 2, fs[2]);
    PairNew(w2, w3, q, 2, fs[2]);
    assert u == w3;
    hide HandleAt;
    forall o, g | 0 <= o < PROCS_MAX && 0 <= g < NOFILE && !(o == q && g < 3)
      ensures HandleAt(u, o, g) == HandleAt(w, o, g)
    {
      assert HandleAt(w3, o, g) == HandleAt(w2, o, g) == HandleAt(w1, o, g) == HandleAt(w, o, g);
    }
    assert HandleAt(w3, q, 1) == HandleAt(w2, q, 1) && HandleAt(w3, q, 0) == HandleAt(w2, q, 0) == HandleAt(w1, q, 0);
    NoneGiven(w, q);
  }

  lemma ThreeAreFree(files: seq<Handle>)
    requires ThreeFree(files) != []
    ensures var fs := ThreeFree(files); files[fs[0]].Free? && files[fs[1]].Free? && files[fs[2]].Free?
  {
  }

  /**
   A spawn that finds no program changes nothing for anybody; three open files are gone, if they were left, and a
   reference to the directory.
   */
  lemma SpawnFails(w: World, p: nat, line: string)
    requires R.Good(w) && Tidy(w) && p < PROCS_MAX && w.procs[p] && FirstWord(line) != ""
    requires Step(w, p, CSpawn(line, true)).1 == Fail(NotPermitted)
    ensures w.cwds[p].Some?
    ensures var v := Step(w, p, CSpawn(line, true)).0;
            && Shape(v) && Tidy(v)
            && v == w.(files := v.files, lostDirs := w.lostDirs + [w.cwds[p].value], lostFiles := v.lostFiles)
            && (forall o: nat, g {:trigger HandleAt(v, o, g)} :: o < PROCS_MAX ==>
                  HandleAt(v, o, g) == HandleAt(w, o, g))
            && (!ThreeLeft(w) ==> v.files == w.files && v.lostFiles == w.lostFiles)
            && (ThreeLeft(w) ==>
                  && v.lostFiles[..|w.lostFiles|] == w.lostFiles && |v.lostFiles| == |w.lostFiles| + 3
                  && forall f :: 0 <= f < NFILE ==>
                       if f in v.lostFiles[|w.lostFiles|..] then w.files[f].Free? && v.files[f].OnConsole?
                       else v.files[f] == w.files[f])
  {
    hide FirstWord, R.Trees, Goal, ThreeFree, ThreeOpened, Tidy, HandleAt;
    assert R.SeatOk(w, p);
    SpawnAnswers(w, p, line, true);
    ThreeLeftIs(w);
    var v, fs := Step(w, p, CSpawn(line, true)).0, ThreeFree(w.files);
    OpenedThree(w, v, fs);
    assert v.lostFiles[|w.lostFiles|..] == fs;
  }

  lemma OpenedThree(w: World, v: World, fs: seq<nat>)
    requires Shape(w) && Tidy(w) && fs == ThreeFree(w.files) && v.files == ThreeOpened(w.files, fs)
    requires v == w.(files := v.files, lostDirs := v.lostDirs, lostFiles := v.lostFiles)
    ensures Shape(v) && Tidy(v)
    ensures forall o: nat, g {:trigger HandleAt(v, o, g)} :: o < PROCS_MAX ==> HandleAt(v, o, g) == HandleAt(w, o, g)
    ensures forall f :: 0 <= f < NFILE ==>
              if f in fs then w.files[f].Free? && v.files[f].OnConsole? else v.files[f] == w.files[f]
  {
    hide ThreeFree;
    if fs != [] {
      ThreeAreFree(w.files);
    }
  }

  // ----- the end of a process -----

  /** Open file `f` belongs to one of the first `n` descriptors of process `q`. */
  ghost predicate IsAmong(w: World, q: nat, n: nat, f: nat)
    requires Shape(w) && q < PROCS_MAX && n <= NOFILE
  {
    exists i :: NOFILE * q <= i < NOFILE * q + n && w.fds[i] == Some(f)
  }

  lemma AmongMore(w: World, q: nat, n: nat, f: nat)
    requires Shape(w) && q < PROCS_MAX && n < NOFILE
    ensures IsAmong(w, q, n + 1, f) <==> IsAmong(w, q, n, f) || w.fds[NOFILE * q + n] == Some(f)
  {
  }

  lemma {:induction false} ClosedAre(w: World, q: nat, n: nat)
    requires Shape(w) && Tidy(w) && q < PROCS_MAX && n <= NOFILE
    ensures var v := ClosedAll(w, q, n);
            && Tidy(v) && v == w.(files := v.files, fds := v.fds)
            && (forall i :: 0 <= i < PROCS_MAX * NOFILE ==>
                  v.fds[i] == if NOFILE * q <= i < NOFILE * q + n then None else w.fds[i])
            && (forall f :: 0 <= f < NFILE ==> v.files[f] == if IsAmong(w, q, n, f) then Free else w.files[f])
  {
    hide Tidy, IsAmong, ClosedAll, CloseAt, Shape;
    ClosedStep(w, q, n);
    if n == 0 {
      NoneAmong(w, q);
    } else {
      ClosedAre(w, q, n - 1);
      var u, j := ClosedAll(w, q, n - 1), NOFILE * q + n - 1;
      CloseOne(u, j);
      assert u.fds[j] == w.fds[j];
      forall f | 0 <= f < NFILE
        ensures ClosedAll(w, q, n).files[f] == if IsAmong(w, q, n, f) then Free else w.files[f]
      {
        AmongMore(w, q, n - 1, f);
      }
    }
  }

  lemma ClosedStep(w: World, q: nat, n: nat)
    requires Shape(w) && q < PROCS_MAX && n <= NOFILE
    ensures ClosedAll(w, q, n) == if n == 0 then w else CloseAt(ClosedAll(w, q, n - 1), NOFILE * q + n - 1)
    ensures var v := ClosedAll(w, q, n);
            |v.fds| == |w.fds| == PROCS_MAX * NOFILE && |v.files| == |w.files| == NFILE
    ensures n > 0 ==> var u := ClosedAll(w, q, n - 1); |u.fds| == PROCS_MAX * NOFILE && |u.files| == NFILE && Shape(u)
  {
  }

  lemma NoneAmong(w: World, q: nat)
    requires Shape(w) && q < PROCS_MAX
    ensures forall f :: !IsAmong(w, q, 0, f)
  {
  }

  lemma CloseOne(w: World, i: nat)
    requires Shape(w) && Tidy(w) && i < PROCS_MAX * NOFILE
    ensures var v := CloseAt(w, i);
            && Tidy(v) && v == w.(files := v.files, fds := w.fds[i := None])
            && (w.fds[i].Some? ==> w.fds[i].value < NFILE)
            && v.files == if w.fds[i].Some? then w.files[w.fds[i].value := Free] else w.files
  {
    if w.fds[i].Some? {
      assert FileOk(w.files[w.fds[i].value]);
    }
  }

  /** Reaping takes all that the process had, and nothing of anybody else. */
  lemma ReapTakes(w: World, p: nat, q: nat)
    requires R.Good(w) && Tidy(w) && p < PROCS_MAX && q < PROCS_MAX && p != q && w.procs[p]
    ensures var (v, r) := Step(w, p, CReap(q));
            && (r == Success <==> w.procs[q]) && (r == Fail(NotPermitted) <==> !w.procs[q]) && (r != Success ==> v == w)
            && Shape(v) && Tidy(v) && v.procs == w.procs[q := false]
            && v == w.(files := v.files, fds := v.fds, cwds := v.cwds, procs := v.procs)
            && (r == Success ==> v.cwds == w.cwds[q := None])
            && (forall g :: !IsOpen(v, q, g))
            && (forall f :: 0 <= f < NFILE ==> v.files[f] == if IsAmong(w, q, NOFILE, f) then Free else w.files[f])
            && forall o, g {:trigger HandleAt(v, o, g)} :: 0 <= o < PROCS_MAX && o != q && 0 <= g < NOFILE ==>
                 HandleAt(v, o, g) == HandleAt(w, o, g)
  {
    hide R.Trees, ClosedAll, Tidy;
    assert R.SeatOk(w, q);
    var u := w.(cwds := w.cwds[q := None]);
    assert Tidy(u) by { SameTables(w, u); }
    ClosedAre(u, q, NOFILE);
    var v := Step(w, p, CReap(q)).0;
    if w.procs[q] {
      assert Tidy(v) by { SameTables(ClosedAll(u, q, NOFILE), v); }
      forall o, g | 0 <= o < PROCS_MAX && o != q && 0 <= g < NOFILE
        ensures HandleAt(v, o, g) == HandleAt(w, o, g)
      {
        NotShared(w, q, o, g);
      }
    } else {
      assert v.procs == w.procs[q := false];
    }
  }

  lemma NotShared(w: World, q: nat, o: nat, g: nat)
    requires Shape(w) && Tidy(w) && q < PROCS_MAX && o < PROCS_MAX && o != q && g < NOFILE
    ensures w.fds[NOFILE * o + g].Some? ==> !IsAmong(w, q, NOFILE, w.fds[NOFILE * o + g].value)
  {
  }

  // ----- nobody touches what is another's -----

  lemma ItemsTidy(w: World, p: nat, c: Call)
    requires R.Good(w) && Tidy(w) && p < PROCS_MAX && w.procs[p] && (c.CMkdir? || c.CRemove?)
    ensures var v := Step(w, p, c).0; Shape(v) && Tidy(v) && v == w.(s1 := v.s1)
  {
    hide Goal, Tokens, BaseName, R.Trees, R.Seated, Tidy;
    GoalIsDir(w, p, c.path);
    SizesOf(w);
    TidyItems(w, Step(w, p, c).0);
  }

  lemma FilesTidy(w: World, p: nat, c: Call)
    requires R.Good(w) && Tidy(w) && p < PROCS_MAX && w.procs[p] && (c.CRead? || c.CWrite? || c.CTruncate?)
    ensures var v := Step(w, p, c).0;
            && Shape(v) && Tidy(v) && v == w.(s1 := v.s1, files := v.files)
            && (forall o, g {:trigger HandleAt(v, o, g)} :: 0 <= o < PROCS_MAX && o != p && 0 <= g < NOFILE ==>
                 HandleAt(v, o, g) == HandleAt(w, o, g))
  {
    hide R.Trees, R.Seated;
    var v, h := Step(w, p, c).0, HandleAt(w, p, c.fd);
    assert !h.Free? ==> FileOk(h);
  }

  /**
   Whatever process `p` calls, nothing changes for another process `q`, unless `q` is reaped: its descriptors are for
   the same files at the same offsets, and it is where it was.
   */
  lemma Private(w: World, p: nat, c: Call, q: nat)
    requires R.Good(w) && Tidy(w) && p < PROCS_MAX && q < PROCS_MAX && q != p && w.procs[q] && c != CReap(q)
    ensures var v := Step(w, p, c).0;
            && Shape(v) && Tidy(v) && v.procs[q] && v.cwds[q] == w.cwds[q] && v.paths[q] == w.paths[q]
            && forall g :: 0 <= g < NOFILE ==> HandleAt(v, q, g) == HandleAt(w, q, g)
  {
    hide R.Trees, Goal, R.Seated, Tidy, Open, Create, Mkdir, Remove, Write, Truncate, Reap, Spawn, Tokens, BaseName;
    StepTidy(w, p, c);
    if w.procs[p] {
      R.StepGood(w, p, c);
      match c
      case COpen(path, flags) =>
        OpenTidy(w, p, path, flags);
        OpenSeats(w, p, path, flags);
      case CClose(fd) => CloseFrees(w, p, fd);
      case CMkdir(_) => ItemsTidy(w, p, c);
      case CRemove(_) => ItemsTidy(w, p, c);
      case CChdir(path) =>
      case CSpawn(line, memory) => SpawnTidy(w, p, line, memory);
      case CReap(o) =>
        if o < PROCS_MAX && o != p {
          ReapTakes(w, p, o);
        }
      case _ => FilesTidy(w, p, c);
    }
  }

  lemma OpenSeats(w: World, p: nat, path: string, flags: Flags)
    requires R.Good(w) && p < PROCS_MAX && w.procs[p]
    ensures R.SameSeats(w, Step(w, p, COpen(path, flags)).0)
  {
    hide IsTree, R.Seated;
    R.OpenNames(w, p, path, flags);
    R.CreateNames(w, p, path, flags);
  }

  lemma SpawnTidy(w: World, p: nat, line: string, memory: bool)
    requires R.Good(w) && Tidy(w) && p < PROCS_MAX && w.procs[p]
    ensures var v := Step(w, p, CSpawn(line, memory)).0;
            && Shape(v) && Tidy(v)
            && (forall o, g {:trigger HandleAt(v, o, g)} :: 0 <= o < PROCS_MAX && w.procs[o] && 0 <= g < NOFILE ==>
                  HandleAt(v, o, g) == HandleAt(w, o, g))
            && (forall o :: 0 <= o < PROCS_MAX && w.procs[o] ==>
                  v.procs[o] && v.cwds[o] == w.cwds[o] && v.paths[o] == w.paths[o])
  {
    hide FirstWord, R.Trees, R.Seated, Goal, Tidy, ThreeFree;
    SpawnAnswers(w, p, line, memory);
    var (v, r) := Step(w, p, CSpawn(line, memory));
    if r.Pid? {
      SpawnMakes(w, p, line, memory);
    } else if r == Fail(NotPermitted) && FirstWord(line) != "" {
      SpawnFails(w, p, line);
    }
  }

  /** Descriptors and open files stay one to one, and device 0 read only, over every call. */
  lemma StepTidy(w: World, p: nat, c: Call)
    requires R.Good(w) && Tidy(w) && p < PROCS_MAX
    ensures Shape(Step(w, p, c).0) && Tidy(Step(w, p, c).0)
  {
    hide R.Trees, Goal, R.Seated, Tidy, Open, Create, Mkdir, Remove, Write, Truncate, Reap, Spawn, Tokens, BaseName;
    if w.procs[p] {
      match c
      case COpen(path, flags) => OpenTidy(w, p, path, flags);
      case CClose(fd) => CloseFrees(w, p, fd);
      case CMkdir(_) => ItemsTidy(w, p, c);
      case CRemove(_) => ItemsTidy(w, p, c);
      case CChdir(path) => ChdirTidy(w, p, path);
      case CSpawn(line, memory) => SpawnTidy(w, p, line, memory);
      case CReap(o) =>
        if o < PROCS_MAX && o != p {
          ReapTakes(w, p, o);
        }
      case _ => FilesTidy(w, p, c);
    }
  }

  lemma ChdirTidy(w: World, p: nat, path: string)
    requires R.Good(w) && Tidy(w) && p < PROCS_MAX && w.procs[p]
    ensures Shape(Step(w, p, CChdir(path)).0) && Tidy(Step(w, p, CChdir(path)).0)
  {
    hide R.Trees, R.Seated, Normalize, T.Target, M.Joined;
    var v, g := Step(w, p, CChdir(path)).0, Goal(w, p, path, false);
    if g.Some? {
      M.JoinedIs(w.s0, w.s1, w.mount, g.value);
    }
    SameTables(w, v);
  }

  /** And so over any run. */
  lemma {:induction false} ReplayTidy(w: World, calls: seq<(nat, Call)>)
    requires R.Good(w) && Tidy(w) && forall c <- calls :: c.0 < PROCS_MAX
    ensures Tidy(R.Replay(w, calls).0)
    decreases |calls|
  {
    hide Tidy, Step, R.Trees, R.Seated;
    if calls != [] {
      ReplayTidy(w, calls[..|calls| - 1]);
      StepTidy(R.Replay(w, calls[..|calls| - 1]).0, calls[|calls| - 1].0, calls[|calls| - 1].1);
    }
  }
}
