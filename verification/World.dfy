/**
 What the system calls do, as programs see it: the items of both devices, the open files with their offsets, the
 descriptors and current directories of the processes. There is no cache here, no reference count of an inode,
 no block and no bit map.
 */
module World {
  import opened Basics
  import opened Codec
  import opened Layout
  import opened Contents
  import opened Paths
  import opened Items
  import M = Mounts
  import T = Tree

  const NFILE: nat := 64     // GLOBAL_OPEN_FILE_LIMIT
  const NINODE: nat := 50    // slots of the inode cache
  const NOFILE: nat := 16    // NUM_FILES_PER_PROCESS

  /** The bits of an open call's flags. */
  datatype Flags = Flags(read: bool, write: bool, create: bool, truncate: bool, append: bool)

  datatype Error =
    NotPermitted | NotFound | Denied | NoSpace | BadFile | Invalid | AlreadyExists | NotADirectory | DirectoryNotEmpty

  /**
   What a call answers; `Entries` is that many bytes of a directory. `Halt` is a panic. `Skipped` is not an answer: no
   such call can be made, or it is outside the model. After `Untold` what programs see is no longer told here, because
   the names may not be a tree any more. `Beyond` is where `ialloc` goes on to scan what is behind the inode records.
   */
  datatype Ret =
    | Fd(fd: nat) | Count(n: nat) | Data(bytes: seq<byte>) | Entries(n: nat) | Pid(pid: nat) | Success | Fail(e: Error)
    | Skipped | Halt | Untold | Beyond

  /** An entry of the table of open files. */
  datatype Handle =
    | Free
    | OnConsole(ref: nat, readable: bool, writable: bool)
    | OnInode(ref: nat, readable: bool, writable: bool, node: T.Node, off: nat)

  /**
   `overruns` says that the superblock of device 1 declares inodes whose records do not lie before the bitmap.
   `lostDirs` and `lostFiles` are the directories and files that a failed `spawn` opened and nobody can close
   any more.
   */
  datatype World = World(
    s0: seq<Item>, s1: seq<Item>, mount: nat, overruns: bool, files: seq<Handle>, fds: seq<Option<nat>>,
    cwds: seq<Option<T.Node>>, paths: seq<string>, procs: seq<bool>, lostDirs: seq<T.Node>, lostFiles: seq<nat>)

  ghost predicate Shape(w: World) {
    && |w.files| == NFILE && |w.fds| == PROCS_MAX * NOFILE && |w.cwds| == |w.paths| == |w.procs| == PROCS_MAX
    && forall i :: 0 <= i < |w.fds| && w.fds[i].Some? ==> w.fds[i].value < NFILE
  }

  /** Nothing is open yet and there is no process. */
  function Booted(s0: seq<Item>, s1: seq<Item>, mount: nat, overruns: bool): World {
    World(s0, s1, mount, overruns, seq(NFILE, i => Free), seq(PROCS_MAX * NOFILE, i => None),
          seq(PROCS_MAX, i => None), seq(PROCS_MAX, i => "/"), seq(PROCS_MAX, i => false), [], [])
  }

  /** The inodes that are open, that are current directories, or that failed spawns lost. */
  ghost function Referenced(files: seq<Handle>, cwds: seq<Option<T.Node>>, lost: seq<T.Node>): set<T.Node> {
    (set f | 0 <= f < |files| && files[f].OnInode? :: files[f].node) +
    (set p | 0 <= p < |cwds| && cwds[p].Some? :: cwds[p].value) +
    (set x | x in lost)
  }

  /** With `n` inodes more, the inode cache may be full. */
  ghost predicate Crowded(w: World, n: int) { NINODE <= |Referenced(w.files, w.cwds, w.lostDirs)| + n }

  // ----- paths -----

  ghost function TreeOf(w: World): T.Dirs { M.Joined(w.s0, w.s1, w.mount) }

  /** Where a walk of process `p` starts. */
  function Start(w: World, p: nat, path: string): T.Node
    requires p < |w.cwds|
  {
    if IsAbsolute(path) || w.cwds[p].None? then T.Root else w.cwds[p].value
  }

  /** The inode that a path leads to, or the directory that its last component is to be looked up in. */
  ghost function Goal(w: World, p: nat, path: string, parent: bool): Option<T.Node>
    requires p < |w.cwds|
  {
    T.Target(TreeOf(w), Start(w, p, path), Tokens(path), parent)
  }

  /** The directory that the last component is to be looked up in is a directory. */
  lemma GoalIsDir(w: World, p: nat, path: string)
    requires p < |w.cwds|
    ensures Goal(w, p, path, true).Some? ==>
              var x := Goal(w, p, path, true).value;
              Tokens(path) != [] && x.dev < 2 && ItemAt(w, x).Dir? && x in TreeOf(w).dirs
  {
    hide M.Joined, Tokens;
    var g := Goal(w, p, path, true);
    if g.Some? {
      M.JoinedIs(w.s0, w.s1, w.mount, g.value);
    }
  }

  /** The last component of a path, as an entry's name. */
  function BaseName(path: string): string
    requires Tokens(path) != []
  {
    Cut(T.Last(Tokens(path)), T.NAME_LEN)
  }

  function ItemAt(w: World, x: T.Node): Item {
    var s := if x.dev == 0 then w.s0 else w.s1;
    if x.inum < |s| then s[x.inum] else Unused
  }

  function SizeOf(i: Item): nat { match i case Unused => 0 case File(b) => |b| case Dir(_, n) => n }

  /** Inode `x` of device 1 changes. */
  function WithItem(w: World, x: T.Node, i: Item): World {
    if x.dev == 1 && x.inum < |w.s1| then w.(s1 := w.s1[x.inum := i]) else w
  }

  // ----- open files -----

  function FirstFree(files: seq<Handle>, i: nat): (f: Option<nat>)
    ensures f.Some? ==>
              i <= f.value < |files| && files[f.value].Free? && forall j :: i <= j < f.value ==> !files[j].Free?
    ensures f.None? ==> forall j :: i <= j < |files| ==> !files[j].Free?
  {
    First(files, (h: Handle) => h.Free?, i)
  }

  /** The first unused descriptor from index `i` on, before `end`. */
  function FirstNone(fds: seq<Option<nat>>, i: nat, end: nat): (r: Option<nat>)
    requires end <= |fds|
    ensures r.Some? ==> i <= r.value < end && fds[r.value].None? && forall j :: i <= j < r.value ==> fds[j].Some?
    ensures r.None? ==> forall j :: i <= j < end ==> fds[j].Some?
  {
    First(fds[..end], (fd: Option<nat>) => fd.None?, i)
  }

  /** A new open file and a descriptor of process `p` for it, the first free of both. */
  function Attach(w: World, p: nat, h: Handle): (r: (World, Ret))
    requires Shape(w) && p < PROCS_MAX
    ensures r.1.Fd? || r == (w, Fail(NoSpace))
  {
    var f := FirstFree(w.files, 0);
    var i := FirstNone(w.fds, NOFILE * p, NOFILE * p + NOFILE);
    if f.None? || i.None? then (w, Fail(NoSpace))
    else (w.(files := w.files[f.value := h], fds := w.fds[i.value := Some(f.value)]), Fd(i.value - NOFILE * p))
  }

  /** Opening inode `x`. */
  function AttachInode(w: World, p: nat, x: T.Node, flags: Flags): (r: (World, Ret))
    requires Shape(w) && p < PROCS_MAX
    ensures r.1.Fd? || r == (w, Fail(NoSpace))
  {
    var off := if flags.append then SizeOf(ItemAt(w, x)) else 0;
    Attach(w, p, OnInode(1, flags.read, flags.write, x, off))
  }

  /** An open file has one reference less; without any it is free. */
  function Dropped(h: Handle): Handle
    requires !h.Free?
  {
    if h.ref > 1 then h.(ref := h.ref - 1) else Free
  }

  /** Descriptor `i` is closed, if it is open. */
  function CloseAt(w: World, i: nat): (v: World)
    requires Shape(w) && i < PROCS_MAX * NOFILE
    ensures Shape(v)
  {
    if w.fds[i].None? then w
    else
      var f := w.fds[i].value;
      w.(fds := w.fds[i := None], files := if w.files[f].Free? then w.files else w.files[f := Dropped(w.files[f])])
  }

  /** The open file of a descriptor. */
  function HandleAt(w: World, p: nat, fd: int): Handle
    requires Shape(w) && p < PROCS_MAX
  {
    if 0 <= fd < NOFILE && w.fds[NOFILE * p + fd].Some? then w.files[w.fds[NOFILE * p + fd].value] else Free
  }

  /** The offset of the file of a descriptor moves. */
  function Seek(w: World, p: nat, fd: int, off: nat): World
    requires Shape(w) && p < PROCS_MAX
  {
    var h := HandleAt(w, p, fd);
    if h.OnInode? then w.(files := w.files[w.fds[NOFILE * p + fd].value := h.(off := off)]) else w
  }

  // ----- the calls -----

  /** A file is emptied on opening if asked to; a directory is not. */
  function Emptied(w: World, x: T.Node, flags: Flags): World {
    if flags.truncate && ItemAt(w, x).File? then WithItem(w, x, File([])) else w
  }

  /** `fs_open` */
  ghost function Open(w: World, p: nat, path: string, flags: Flags): (World, Ret)
    requires Shape(w) && p < PROCS_MAX
  {
    var g := Goal(w, p, path, false);
    if path == "console" then Attach(w, p, OnConsole(1, flags.read, flags.write))
    else if g.None? then (w, Fail(NotFound))
    else if g.value.dev == 0 && (flags.write || flags.truncate) then (w, Fail(Denied))
    else AttachInode(Emptied(w, g.value, flags), p, g.value, flags)
  }

  /** Why a path cannot be changed: it has no parent directory, or that is on device 0. */
  function Refusal(g: Option<T.Node>): (e: Option<Error>) {
    if g.None? then Some(NotFound) else if g.value.dev == 0 then Some(Denied) else None
  }

  /** A new item in directory `x` of device 1, or nothing if all inodes are in use. */
  function MakeIn(w: World, x: nat, name: string, isDir: bool): Option<(World, nat)>
    requires x < |w.s1| && w.s1[x].Dir?
  {
    var c := FirstUnused(w.s1, 1);
    if c.None? then None
    else Some((w.(s1 := Added(w.s1, x, name, c.value, if isDir then Dots(c.value, x) else File([]))), c.value))
  }

  /** The answer when all inodes are in use whose records lie before the bitmap. */
  function NoInode(w: World): Ret { if w.overruns then Beyond else Fail(NoSpace) }

  /** `fs_create`: opens the file of that name, made if need be. */
  ghost function Create(w: World, p: nat, path: string, flags: Flags): (World, Ret)
    requires Shape(w) && p < PROCS_MAX
  {
    var g := Goal(w, p, path, true);
    GoalIsDir(w, p, path);
    if Refusal(g).Some? then (w, Fail(Refusal(g).value))
    else CreateIn(w, p, g.value.inum, BaseName(path), flags)
  }

  /** The same in directory `x` of device 1. */
  function CreateIn(w: World, p: nat, x: nat, name: string, flags: Flags): (World, Ret)
    requires Shape(w) && p < PROCS_MAX && x < |w.s1| && w.s1[x].Dir?
  {
    if name in w.s1[x].names then
      var c := T.Node(1, w.s1[x].names[name]);
      AttachInode(Emptied(w, c, flags), p, c, flags)
    else
      var made := MakeIn(w, x, name, false);
      if made.None? then (w, NoInode(w)) else AttachInode(made.value.0, p, T.Node(1, made.value.1), flags)
  }

  /** `fs_mkdir` */
  ghost function Mkdir(w: World, p: nat, path: string): (World, Ret)
    requires Shape(w) && p < PROCS_MAX
  {
    var g := Goal(w, p, path, true);
    GoalIsDir(w, p, path);
    if Refusal(g).Some? then (w, Fail(Refusal(g).value)) else MkdirIn(w, g.value.inum, BaseName(path))
  }

  function MkdirIn(w: World, x: nat, name: string): (World, Ret)
    requires x < |w.s1| && w.s1[x].Dir?
  {
    if name in w.s1[x].names then (w, Fail(AlreadyExists))
    else
      var made := MakeIn(w, x, name, true);
      if made.None? then (w, NoInode(w)) else (made.value.0, Success)
  }

  /** `fs_rm` */
  ghost function Remove(w: World, p: nat, path: string): (World, Ret)
    requires Shape(w) && p < PROCS_MAX
  {
    var g := Goal(w, p, path, true);
    GoalIsDir(w, p, path);
    if Refusal(g).Some? then (w, Fail(Refusal(g).value)) else RemoveIn(w, g.value.inum, BaseName(path))
  }

  /** A removal that succeeds, of an entry that is one of the dots. */
  ghost predicate RemovesDots(w: World, p: nat, path: string)
    requires Shape(w) && p < PROCS_MAX
  {
    Remove(w, p, path).1 == Success && Tokens(path) != [] && IsDots(BaseName(path))
  }

  function RemoveIn(w: World, x: nat, name: string): (World, Ret)
    requires x < |w.s1| && w.s1[x].Dir?
  {
    if name !in w.s1[x].names then (w, Fail(NotFound))
    else
      var i := ItemAt(w, T.Node(1, w.s1[x].names[name]));
      if i.Dir? && !IsEmptyDir(i) then (w, Fail(DirectoryNotEmpty)) else (w.(s1 := Removed(w.s1, x, name)), Success)
  }

  /** `fs_close` */
  function Close(w: World, p: nat, fd: int): (World, Ret)
    requires Shape(w) && p < PROCS_MAX
  {
    if 0 <= fd < NOFILE && w.fds[NOFILE * p + fd].Some? then (CloseAt(w, NOFILE * p + fd), Success)
    else (w, Fail(BadFile))
  }

  /** `fs_read` of `n` bytes; `typed` is what comes from the keyboard. */
  function Read(w: World, p: nat, fd: int, n: nat, typed: seq<byte>): (World, Ret)
    requires Shape(w) && p < PROCS_MAX
  {
    match HandleAt(w, p, fd)
    case Free => (w, Fail(BadFile))
    case OnConsole(_, readable, _) => (w, if readable then Data(typed) else Fail(Denied))
    case OnInode(_, readable, _, x, off) =>
      var size := SizeOf(ItemAt(w, x));
      if !readable then (w, Fail(Denied))
      else if ItemAt(w, x).Unused? || off > size || off + n >= 0x1_0000_0000 then (w, Fail(NotPermitted))
      else
        var end := if off + n <= size then off + n else size;
        (Seek(w, p, fd, end), if ItemAt(w, x).File? then Data(ItemAt(w, x).bytes[off..end]) else Entries(end - off))
  }

  /**
   `fs_write`. What is written to a directory, or to a file that was removed, goes to its blocks all the same; the
   latter then has blocks but is unused.
   */
  function Write(w: World, p: nat, fd: int, src: seq<byte>): (World, Ret)
    requires Shape(w) && p < PROCS_MAX
  {
    match HandleAt(w, p, fd)
    case Free => (w, Fail(BadFile))
    case OnConsole(_, _, writable) => (w, if writable then Count(|src|) else Fail(Denied))
    case OnInode(_, _, writable, x, off) =>
      if !writable then (w, Fail(Denied))
      else if off > SizeOf(ItemAt(w, x)) || off + |src| > MAXBYTES then (w, Fail(NoSpace))
      else if ItemAt(w, x).File? then
        (Seek(WithItem(w, x, File(Overwrite(ItemAt(w, x).bytes, off, src))), p, fd, off + |src|), Count(|src|))
      else if src == [] then (w, Count(0))
      else (w, Untold)
  }

  /** `fs_ftruncate`. A directory is cut like a file. */
  function Truncate(w: World, p: nat, fd: int, length: int): (World, Ret)
    requires Shape(w) && p < PROCS_MAX
  {
    match HandleAt(w, p, fd)
    case Free => (w, Fail(BadFile))
    case OnConsole(_, _, writable) => (w, Fail(if writable then Invalid else Denied))
    case OnInode(_, _, writable, x, off) =>
      if !writable then (w, Fail(Denied))
      else if length < 0 then (w, Fail(Invalid))
      else match ItemAt(w, x)
        case Unused => (w, Success)
        case Dir(_, size) => (w, if length >= size then Success else Untold)
        case File(b) => (WithItem(w, x, File(CutTo(b, length))), Success)
  }

  /** The `chdir` system call: inode and text change together. */
  ghost function Chdir(w: World, p: nat, path: string): (World, Ret)
    requires Shape(w) && p < PROCS_MAX
  {
    var g := Goal(w, p, path, false);
    if g.None? then (w, Fail(NotFound))
    else if g.value !in TreeOf(w).dirs then (w, Fail(NotADirectory))
    else (w.(cwds := w.cwds[p := g], paths := w.paths[p := Cut(Normalize(w.paths[p], path), BUF_CAP)]), Success)
  }

  function FirstUnusedProc(procs: seq<bool>, i: nat): (q: Option<nat>)
    ensures q.Some? ==> i <= q.value < |procs| && !procs[q.value] && forall j :: i <= j < q.value ==> procs[j]
    ensures q.None? ==> forall j :: i <= j < |procs| ==> procs[j]
  {
    First(procs, (b: bool) => !b, i)
  }

  /** The first three free entries of the table of open files, or none. */
  function ThreeFree(files: seq<Handle>): (fs: seq<nat>)
    ensures fs == [] || (|fs| == 3 && fs[0] < fs[1] < fs[2] < |files|)
  {
    var a := FirstFree(files, 0);
    var b := if a.Some? then FirstFree(files, a.value + 1) else None;
    var c := if b.Some? then FirstFree(files, b.value + 1) else None;
    if c.Some? then [a.value, b.value, c.value] else []
  }

  /** Console files for standard input, output and errors. */
  function ThreeOpened(files: seq<Handle>, fs: seq<nat>): seq<Handle>
    requires fs == [] || (|fs| == 3 && fs[0] < fs[1] < fs[2] < |files|)
  {
    if fs == [] then files
    else files[fs[0] := OnConsole(1, true, false)][fs[1] := OnConsole(1, false, true)]
           [fs[2] := OnConsole(1, false, true)]
  }

  /** The first descriptors of process `q`. */
  function ThreeGiven(fds: seq<Option<nat>>, q: nat, fs: seq<nat>): (r: seq<Option<nat>>)
    requires (fs == [] || |fs| == 3) && NOFILE * q + 3 <= |fds|
    ensures |r| == |fds|
  {
    if fs == [] then fds
    else fds[NOFILE * q := Some(fs[0])][NOFILE * q + 1 := Some(fs[1])][NOFILE * q + 2 := Some(fs[2])]
  }

  function SkipSpaces(s: string): string { if s != "" && s[0] == ' ' then SkipSpaces(s[1..]) else s }

  /** What comes before the first space. */
  function Word(s: string): string { if s == "" || s[0] == ' ' then "" else [s[0]] + Word(s[1..]) }

  /** The program in a command line, of which `spawn_process` copies 127 characters. */
  function FirstWord(line: string): string { Word(SkipSpaces(Cut(line, 127))) }

  /**
   `create_process` for `spawn_process`: the new process inherits the current directory and has the console, if
   the table has room for it. If there is no such program, the directory and the console files stay open but
   belong to nobody.
   */
  ghost function Spawn(w: World, p: nat, program: string): (World, Ret)
    requires Shape(w) && p < PROCS_MAX
  {
    var q := FirstUnusedProc(w.procs, 0);
    var fs, dir := ThreeFree(w.files), Start(w, p, "");
    var w1 := w.(files := ThreeOpened(w.files, fs));
    if q.None? then (w, Halt)
    else if Goal(w, p, program, false).None? then
      (w1.(lostDirs := w.lostDirs + [dir], lostFiles := w.lostFiles + fs), Fail(NotPermitted))
    else (Started(w1, q.value, dir, if w.cwds[p].Some? then w.paths[p] else "/", fs), Pid(q.value + 1))
  }

  function Started(w: World, q: nat, dir: T.Node, path: string, fs: seq<nat>): World
    requires Shape(w) && q < PROCS_MAX && (fs == [] || |fs| == 3)
  {
    w.(procs := w.procs[q := true], cwds := w.cwds[q := Some(dir)], paths := w.paths[q := path],
       fds := ThreeGiven(w.fds, q, fs))
  }

  /**
   `create_process` without a program to look up: for the idle process, which has no parent and no console, and
   for the shell.
   */
  function NewProcess(w: World, p: Option<nat>, console: bool): (World, Ret)
    requires Shape(w) && (p.Some? ==> p.value < PROCS_MAX)
  {
    var q := FirstUnusedProc(w.procs, 0);
    var fs := if console then ThreeFree(w.files) else [];
    var inherits := p.Some? && w.cwds[p.value].Some?;
    if q.None? then (w, Halt)
    else (Started(w.(files := ThreeOpened(w.files, fs)), q.value, if p.Some? then Start(w, p.value, "") else T.Root,
                  if inherits then w.paths[p.value] else "/", fs), Pid(q.value + 1))
  }

  /** The first `n` descriptors of process `q` are closed. */
  function ClosedAll(w: World, q: nat, n: nat): (v: World)
    requires Shape(w) && q < PROCS_MAX && n <= NOFILE
    ensures Shape(v)
  {
    if n == 0 then w else CloseAt(ClosedAll(w, q, n - 1), NOFILE * q + n - 1)
  }

  /** `wait_process` for a process that has exited: it gives up all it has. */
  function Reap(w: World, q: nat): (World, Ret)
    requires Shape(w) && q < PROCS_MAX
  {
    if !w.procs[q] then (w, Fail(NotPermitted))
    else (ClosedAll(w.(cwds := w.cwds[q := None]), q, NOFILE).(procs := w.procs[q := false]), Success)
  }

  // ----- runs -----

  datatype Call =
    | COpen(path: string, flags: Flags)
    | CClose(fd: int)
    | CRead(fd: int, n: int, typed: seq<byte>)
    | CWrite(fd: int, src: seq<byte>)
    | CTruncate(fd: int, length: int)
    | CMkdir(path: string)
    | CRemove(path: string)
    | CChdir(path: string)
    | CSpawn(line: string, memory: bool)    // whether there are the pages that it takes
    | CReap(q: nat)

  /** A call of process `p`; open creates only if asked to. */
  ghost function Step(w: World, p: nat, c: Call): (World, Ret)
    requires Shape(w) && p < PROCS_MAX
  {
    if !w.procs[p] then (w, Skipped)
    else match c
      case COpen(path, flags) => if flags.create then Create(w, p, path, flags) else Open(w, p, path, flags)
      case CClose(fd) => Close(w, p, fd)
      case CRead(fd, n, typed) => if n <= 0 then (w, Fail(Invalid)) else Read(w, p, fd, n, typed)
      case CWrite(fd, src) => Write(w, p, fd, src)
      case CTruncate(fd, length) => Truncate(w, p, fd, length)
      case CMkdir(path) => Mkdir(w, p, path)
      case CRemove(path) => if RemovesDots(w, p, path) then (w, Untold) else Remove(w, p, path)
      case CChdir(path) => if !IsAbsolute(path) && |w.paths[p]| >= BUF_CAP then (w, Skipped) else Chdir(w, p, path)
      case CSpawn(line, memory) =>
        if FirstWord(line) == "" then (w, Fail(NotPermitted))
        else if !memory then (w, Halt)
        else Spawn(w, p, FirstWord(line))
      case CReap(q) => if q < PROCS_MAX && q != p then Reap(w, q) else (w, Skipped)
  }
}
