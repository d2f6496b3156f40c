/**
 The path resolution code: the path is edited in place while an index moves along it, and
 the current filesystem, the offset of the path into it and the depth in it are kept up.
 */
module PathResolution {
  import opened PathSpec

  /** Characters n from offset `at` are erased, as far as there are that many. */
  function Erase(s: string, at: nat, n: nat): string
    requires at <= |s|
  {
    s[..at] + if at + n <= |s| then s[at + n..] else ""
  }

  /** The first slash from an offset on, or the length. */
  method FindFirst(s: string, from: nat) returns (k: nat)
    requires from <= |s|
    ensures from <= k && UpToSlash(s[from..], k - from)
  {
    k := from;
    while k < |s| && s[k] != '/'
      invariant from <= k <= |s| && forall i :: from <= i < k ==> s[i] != '/'
    {
      k := k + 1;
    }
  }

  /** The last slash up to an offset; there is one. */
  method FindLast(s: string, from: nat) returns (k: nat)
    requires s != [] && s[0] == '/'
    ensures LastSlashIs(s, k, from)
  {
    k := if from < |s| then from else |s| - 1;
    while s[k] != '/'
      invariant k <= from && k < |s| && forall i :: k < i <= from && i < |s| ==> s[i] != '/'
      decreases k
    {
      k := k - 1;
    }
  }

  class PathResolution {
    const w: World
    var path: string
    var root: nat
    var fs: nat
    var syms: bool
    var index: nat
    var indexIntoFs: nat
    var depthIntoFs: int
    var linksFollowed: nat
    /** What is behind the index, as a stack, and how much of it is the mount point of the current filesystem. */
    ghost var stack: seq<string>
    ghost var base: nat

    constructor (w: World)
      ensures this.w == w
    {
      this.w := w;
      path, root, fs, syms := "", 0, 0, false;
      index, indexIntoFs, depthIntoFs, linksFollowed, stack, base := 0, 0, 0, 0, [], 0;
    }

    /** The path is the stack's with the components to do, and the index is where these begin. */
    ghost predicate PathShown(todo: seq<string>)
      reads this
    {
      && Names(stack) && AllSlashFree(todo)
      && index == |Path(stack)| + 1
      && path == (if todo == [] then Path(stack) else Path(stack) + "/" + Join(todo))
    }

    /** The filesystem is the one mounted on the first `base` components. */
    ghost predicate FsShown()
      reads this
    {
      && "/" in w.mounts && root == w.mounts["/"]
      && base <= |stack| && Mounted(w, stack[..base]) && fs == FsAt(w, stack[..base]) && syms == w.syms(fs)
      && indexIntoFs == |Path(stack[..base])| + 1 && depthIntoFs == |stack| - base + 1
    }

    ghost predicate Valid(todo: seq<string>)
      reads this
    {
      PathShown(todo) && FsShown() && base == Base(w, stack)
    }

    /** Nothing left to do: only a slash may be left over, and the filesystem is that of the first m components. */
    ghost predicate Ended(m: nat)
      reads this
    {
      && "/" in w.mounts && Names(stack) && (path == Path(stack) || path == Path(stack) + "/") && path != "" && path[0] == '/'
      && |path| <= index && m <= |stack| && Mounted(w, stack[..m]) && fs == FsAt(w, stack[..m])
      && indexIntoFs == if |Path(stack[..m])| + 1 < |path| then |Path(stack[..m])| + 1 else |path|
    }

    /** One component up; only at the root there is none. */
    method UpPathComponent(slash: nat, ghost todo: seq<string>) returns (e: Option<Errno>)
      requires Valid(todo) && todo != [] && todo[0] == ".." && slash == index + 2
      modifies this
      ensures if old(stack) == [] then e == Some(ENOENT)
              else e == None && stack == old(stack)[..|old(stack)| - 1] && linksFollowed == old(linksFollowed)
      ensures e == None && |todo| > 1 ==> Valid(todo[1..])
      ensures e == None && |todo| == 1 ==> Ended(Chosen(w, stack, Some(old(stack))))
    {
      hide Path, Base, Join, Names, FsAt, Ended;
      PathParts(stack);
      if index <= 1 {
        return Some(ENOENT);
      }
      e := None;
      ghost var s := stack;
      BaseUp(w, s);
      CutComponent(slash, todo);
      PathParts(stack);
      if path == "" {
        path := "/";
      }
      FindFsAbove(s, todo[1..]);
      if |todo| > 1 {
        PlacedValid(this, todo[1..]);
      } else {
        PlacedEnded(this);
      }
    }

    /** The rest of going up: the same filesystem if its mount point is still above, else another. */
    method FindFsAbove(ghost s: seq<string>, ghost rest: seq<string>)
      requires Placed(rest) && s != [] && stack == s[..|s| - 1]
      requires "/" in w.mounts && root == w.mounts["/"] && base == Base(w, s) && fs == FsAt(w, s[..base]) && syms == w.syms(fs)
      requires indexIntoFs == |Path(s[..base])| + 1 && depthIntoFs == |s| - base + 1
      modifies `fs, `syms, `indexIntoFs, `depthIntoFs, `base
      ensures Placed(rest) && FsPlaced()
      ensures base == Chosen(w, stack, if rest == [] then Some(s) else None)
      ensures rest != [] ==> depthIntoFs == |stack| - base + 1
    {
      hide Path, Join, Names, FsAt, Base, Chosen, Mounted, Placed, FsPlaced;
      PlacedPath(this, rest);
      ghost var from := indexIntoFs;
      if indexIntoFs > |path| {
        indexIntoFs := |path|;
      }
      depthIntoFs := depthIntoFs - 1;
      if depthIntoFs > 0 {
        Stayed(this, s, rest, from);
        return;
      }
      ghost var top := if rest != [] || stack == [] then |stack| else |stack| - 1;
      SlashBehind(stack, path, rest, index - 1, top);
      RecursiveFindFs(top);
      Escaped(this, s, rest, top);
    }

    /** As PathShown, but that the path of the root is a slash when there is nothing left to do. */
    ghost predicate Placed(rest: seq<string>)
      reads `stack, `index, `path
    {
      && Names(stack) && AllSlashFree(rest) && index == |Path(stack)| + 1
      && path == (if rest != [] then Path(stack) + "/" + Join(rest) else if stack == [] then "/" else Path(stack))
    }

    /** The filesystem is that of the first `base` components, and the offset into it is within the path. */
    ghost predicate FsPlaced()
      reads this
    {
      && "/" in w.mounts && root == w.mounts["/"]
      && base <= |stack| && Mounted(w, stack[..base]) && fs == FsAt(w, stack[..base]) && syms == w.syms(fs)
      && indexIntoFs == if |Path(stack[..base])| + 1 < |path| then |Path(stack[..base])| + 1 else |path|
    }

    /** The string edit: the component before the index goes, with the slash before it, and the "..". */
    method CutComponent(slash: nat, ghost todo: seq<string>)
      requires PathShown(todo) && todo != [] && todo[0] == ".." && slash == index + 2 && stack != []
      modifies `path, `index, `stack
      ensures stack == old(stack)[..|old(stack)| - 1] && PathShown(todo[1..])
    {
      hide Join, Path, Names, AllSlashFree, LastSlashIs, Erase;
      PathParts(stack);
      var removeStart := FindLast(path, index - 2);
      LastSlashOfPath(stack, path, removeStart, index - 2);
      CutShown(stack, path, todo);
      path := Erase(path, removeStart, slash - removeStart);
      index := removeStart + 1;
      stack := stack[..|stack| - 1];
    }

    /** The filesystem mounted on the longest of the first prefixes of the stack, searched slash by slash. */
    method RecursiveFindFs(ghost top: nat)
      requires "/" in w.mounts && root == w.mounts["/"] && Names(stack) && top <= |stack| && index > 0 && path != "" && path[0] == '/'
      requires LastSlashIs(path, |Path(stack[..top])|, index - 1) && Path(stack[..top]) <= path
      modifies `fs, `syms, `indexIntoFs, `depthIntoFs, `base
      ensures base <= |stack| && Mounted(w, stack[..base])
      ensures base == Base(w, stack[..top]) && fs == FsAt(w, stack[..base]) && syms == w.syms(fs)
      ensures indexIntoFs == |Path(stack[..base])| + 1 && depthIntoFs == top - base + 1
    {
      hide Path, Base, Names;
      depthIntoFs := 1;
      var backIndex := index;
      ghost var j := top;
      while true
        invariant 0 <= j <= top && 0 < backIndex && depthIntoFs == top - j + 1
        invariant LastSlashIs(path, |Path(stack[..j])|, backIndex - 1) && Path(stack[..j]) <= path
        invariant Base(w, stack[..top]) == Base(w, stack[..j])
        decreases j
      {
        var k := FindLast(path, backIndex - 1);
        LastSlashUnique(path, k, |Path(stack[..j])|, backIndex - 1);
        backIndex := k;
        assert path[..backIndex] == Path(stack[..j]);
        PrefixNames(stack, j);
        PathParts(stack[..j]);
        BaseStep(w, stack, j);
        if backIndex == 0 {
          fs := root;
          indexIntoFs := 1;
          base := 0;
          break;
        }
        if path[..backIndex] in w.mounts {
          fs := w.mounts[path[..backIndex]];
          indexIntoFs := backIndex + 1;
          base := j;
          break;
        }
        depthIntoFs := depthIntoFs + 1;
        BackOne(stack, path, j);
        j := j - 1;
      }
      syms := w.syms(fs);
    }

    /** A component that is a name, with the index already behind it. */
    method NormalPathComponent(follow: bool, ghost todo: seq<string>, ghost last: bool) returns (e: Option<Errno>)
      requires AtName(todo) && FsShown() && base == Base(w, stack) && linksFollowed < MAX_LINKS
      requires follow == (|todo| > 1 || last)
      modifies this
      ensures MovedTo(Enter(w, old(stack), todo[0], todo[1..], old(linksFollowed), last), e)
    {
      hide Path, Join, Base, Names, Relative, FsAt, Valid, Ended, AllSlashFree, Followed;
      AtNameParts(this, todo);
      if path[..index - 1] in w.mounts {
        EnterMount(todo);
        return None;
      }
      depthIntoFs := depthIntoFs + 1;
      if syms && follow {
        match w.lstat(fs, path[indexIntoFs..index - 1]) {
          case NoStat =>
          case Dir =>
          case Link =>
            e := FollowSymlink(todo);
            return;
          case Other =>
            if index <= |path| {
              return Some(ENOTDIR);
            }
        }
      }
      NoteEntered(todo);
      e := None;
    }

    /** The name is a mount point. */
    method EnterMount(ghost todo: seq<string>)
      requires AtName(todo) && FsShown() && index - 1 <= |path| && path[..index - 1] in w.mounts
      modifies this
      ensures stack == old(stack) + [todo[0]] && linksFollowed == old(linksFollowed)
      ensures if todo[1..] != [] then Valid(todo[1..]) else Ended(Base(w, stack))
    {
      hide Path, Join, Base, Names, Relative, FsAt, Valid, Ended, AllSlashFree;
      AtNameParts(this, todo);
      fs := w.mounts[path[..index - 1]];
      syms := w.syms(fs);
      indexIntoFs := if index > |path| then index - 1 else index;
      depthIntoFs := 1;
      stack, base := stack + [todo[0]], |stack| + 1;
      EnteredMount(this, todo[1..]);
    }

    /** The name is none, and stays in the path: the filesystem does too, one component deeper. */
    ghost method NoteEntered(todo: seq<string>)
      requires AtName(todo) && FsAtLink() && !Mounted(w, stack + [todo[0]])
      modifies `stack
      ensures stack == old(stack) + [todo[0]]
      ensures if todo[1..] != [] then Valid(todo[1..]) else Ended(Base(w, stack))
    {
      hide Path, Join, Base, Names, Relative, FsAt, Valid, Ended, AllSlashFree, Mounted;
      AtLinkParts(this, todo);
      var s := stack;
      stack := s + [todo[0]];
      EnteredPlain(this, s, todo[1..]);
    }

    /** The index is behind the name that is first of the components to do. */
    ghost predicate AtName(todo: seq<string>)
      reads `stack, `path, `index
    {
      && Names(stack) && AllSlashFree(todo) && todo != [] && todo[0] !in ["", ".", ".."]
      && path == Path(stack) + "/" + Join(todo) && index == |Path(stack)| + |todo[0]| + 2
    }

    /** The state is the one that a move leads to, with the filesystem that it chooses, or the error is the one that it ends with. */
    ghost predicate MovedTo(m: Move, e: Option<Errno>)
      reads this
    {
      match m
      case Stop(Fail(error)) => e == Some(error)
      case Stop(Done(s, left)) => e == None && stack == s && Ended(Chosen(w, s, left))
      case Go(s, t, l) => e == None && stack == s && linksFollowed == l && if t != [] then Valid(t) else Ended(Base(w, s))
    }

    /** As FsShown, with the depth already counted for the component that turned out to be a link. */
    ghost predicate FsAtLink()
      reads this
    {
      && "/" in w.mounts && root == w.mounts["/"]
      && base <= |stack| && Mounted(w, stack[..base]) && fs == FsAt(w, stack[..base]) && syms == w.syms(fs)
      && indexIntoFs == |Path(stack[..base])| + 1 && depthIntoFs == |stack| - base + 2 && base == Base(w, stack)
    }

    /** Puts the target of a symbolic link in the path, in place of the link or, if absolute, of all up to it. */
    method FollowSymlink(ghost todo: seq<string>) returns (e: Option<Errno>)
      requires AtName(todo) && FsAtLink() && linksFollowed < MAX_LINKS && !Mounted(w, stack + [todo[0]])
      modifies this
      ensures MovedTo(if old(linksFollowed) + 1 >= MAX_LINKS then Stop(Fail(ELOOP))
                    else Followed(w, old(stack), old(stack) + [todo[0]], old(base), todo[1..], old(linksFollowed) + 1), e)
    {
      hide Path, Join, Base, Names, Relative, FsAt, FirstSlash, Split, Valid, Ended;
      AtLinkParts(this, todo);
      linksFollowed := linksFollowed + 1;
      if linksFollowed >= MAX_LINKS {
        return Some(ELOOP);
      }
      var answer := w.readlink(fs, path[indexIntoFs..index - 1]);
      if answer == None {
        NoteEntered(todo);
        return None;
      }
      var target := answer.value;
      if target == "" {
        return Some(ENOENT);
      }
      if target[0] == '/' {
        e := FollowAbsolute(target, todo);
      } else {
        e := FollowRelative(target, todo);
      }
    }

    /** Back to the root, with another path. */
    method Restart(newPath: string)
      modifies this
      ensures path == newPath && root == old(root) && fs == root && syms == w.syms(fs) && linksFollowed == old(linksFollowed)
      ensures index == indexIntoFs == depthIntoFs == 1 && stack == [] && base == 0
    {
      path := newPath;
      fs := root;
      syms := w.syms(root);
      index, indexIntoFs, depthIntoFs := 1, 1, 1;
      stack, base := [], 0;
    }

    method FollowAbsolute(target: string, ghost todo: seq<string>) returns (e: Option<Errno>)
      requires AtName(todo) && "/" in w.mounts && root == w.mounts["/"] && target != "" && target[0] == '/'
      modifies this
      ensures var t := Split(target[1..]) + todo[1..];
              if Longer([], t) > w.pathMax then e == Some(ENAMETOOLONG)
              else e == None && stack == [] && linksFollowed == old(linksFollowed) && Valid(t)
    {
      ghost var rest := todo[1..];
      hide Path, Join, Names, Split, Base, AllSlashFree, Valid, Longer, AtName;
      ghost var t := Split(target[1..]) + rest;
      TailIs(this, todo);
      var tail := if index <= |path| then path[index - 1..] else "";
      AbsoluteTarget(target, rest, tail);
      var newPathLen := |target| + |path| - index + 1;
      if newPathLen > w.pathMax {
        return Some(ENAMETOOLONG);
      }
      Restart(target + tail);
      RootValid(this, t);
      e := None;
    }

    method FollowRelative(target: string, ghost todo: seq<string>) returns (e: Option<Errno>)
      requires AtName(todo) && FsAtLink() && target != "" && target[0] != '/'
      modifies this
      ensures var t := Split(target) + todo[1..];
              if Longer(old(stack), t) > w.pathMax then e == Some(ENAMETOOLONG)
              else e == None && stack == old(stack) && linksFollowed == old(linksFollowed) && Valid(t)
    {
      hide Path, Join, Names, Split, Base, AllSlashFree, Longer, FsAt, Mounted, AtName, LastSlashIs;
      NameInPath(this, todo);
      var tail := if index <= |path| then path[index - 1..] else "";
      var removeStart := FindLast(path, index - 2);
      RelativeEdit(this, target, todo, tail, removeStart);
      var newPathLen := |path| - (index - removeStart - 2) + |target|;
      if newPathLen > w.pathMax {
        return Some(ENAMETOOLONG);
      }
      path := path[..removeStart + 1] + target + tail;
      index := removeStart + 1;
      depthIntoFs := depthIntoFs - 1;
      e := None;
    }

    /** Deals with the component at the index. */
    method OneComponent(ghost todo: seq<string>, last: bool) returns (e: Option<Errno>)
      requires Valid(todo) && todo != [] && linksFollowed < MAX_LINKS
      modifies this
      ensures MovedTo(Turn(w, old(stack), todo, old(linksFollowed), last), e)
    {
      hide Path, Join, Base, Names, FsAt, Enter, Chosen;
      ghost var c, rest := todo[0], todo[1..];
      var slash := FindFirst(path, index);
      HeadOf(this, todo, slash);
      NameAt(path, index, slash, c);
      e := None;
      if slash == index {
        path := Erase(path, index, 1);
        Dropped(this, todo, 1);
      } else if slash - index == 1 && path[index] == '.' {
        path := Erase(path, index, 2);
        Dropped(this, todo, 2);
      } else if slash - index == 2 && path[index] == '.' && path[index + 1] == '.' {
        e := UpPathComponent(slash, todo);
        ChosenIs(w, stack, stack);
      } else {
        index := slash + 1;
        var follow := if index > |path| then last else true;
        e := NormalPathComponent(follow, todo, last);
      }
    }

    /** Resolves an absolute path, in place. */
    method ResolvePath(path0: string, followLastSymlink: bool) returns (r: Resolved)
      requires path0 != "" && path0[0] == '/'
      modifies this
      ensures if "/" !in w.mounts then r == Failed(ENOENT)
              else match Walk(w, [], Split(path0[1..]), 0, followLastSymlink)
                case Fail(error) => r == Failed(error)
                case Done(s, left) => path == Path(s) && r == FoundAt(w, s, Chosen(w, s, left))
    {
      hide Path, Join, Split, Base, Names, Turn, Chosen, Valid, Ended, PathShown, FsShown;
      path := path0;
      if "/" !in w.mounts {
        return Failed(ENOENT);
      }
      root, fs := w.mounts["/"], w.mounts["/"];
      syms := w.syms(fs);
      index, indexIntoFs, depthIntoFs, linksFollowed, stack, base := 1, 1, 1, 0, [], 0;
      ghost var todo := Split(path0[1..]);
      ghost var goal := Walk(w, [], todo, 0, followLastSymlink);
      Started(this, todo);
      while true
        invariant Valid(todo) && todo != [] && "/" in w.mounts && linksFollowed < MAX_LINKS
        invariant Walk(w, stack, todo, linksFollowed, followLastSymlink) == goal
        decreases MAX_LINKS - linksFollowed, |todo|
      {
        ghost var move := Turn(w, stack, todo, linksFollowed, followLastSymlink);
        var e := OneComponent(todo, followLastSymlink);
        if e != None {
          return Failed(e.value);
        }
        ghost var m := AfterMove(this, move, goal, followLastSymlink);
        if index >= |path| {
          r := Trim(m);
          return;
        }
        todo := move.todo;
      }
    }

    /** Removes a slash that is left at the end. */
    method Trim(ghost m: nat) returns (r: Resolved)
      requires Ended(m)
      modifies this
      ensures stack == old(stack) && path == Path(stack) && r == FoundAt(w, stack, m)
    {
      hide Path, Names;
      PathParts(stack);
      PrefixPath(stack, m);
      EndOfPath(stack);
      var last := |path| - 1;
      if path[last] == '/' {
        path := Erase(path, last, 1);
        if indexIntoFs > |path| {
          indexIntoFs := |path|;
        }
      }
      r := Found(fs, indexIntoFs);
    }
  }

  /** The filesystem manager's entry point. */
  method Resolve(pr: PathResolution, path: string, followLastSymlink: bool) returns (r: Resolved)
    modifies pr
    ensures if |path| > pr.w.pathMax then r == Failed(ENAMETOOLONG)
            else if path == "" || path[0] != '/' || "/" !in pr.w.mounts then r == Failed(ENOENT)
            else match Walk(pr.w, [], Split(path[1..]), 0, followLastSymlink)
              case Fail(error) => r == Failed(error)
              case Done(s, left) => pr.path == Path(s) && r == FoundAt(pr.w, s, Chosen(pr.w, s, left))
  {
    hide Path, Split, Walk, Chosen;
    if |path| > pr.w.pathMax {
      return Failed(ENAMETOOLONG);
    }
    if path == "" || path[0] != '/' {
      return Failed(ENOENT);
    }
    r := pr.ResolvePath(path, followLastSymlink);
  }

  datatype Resolved = Found(fs: nat, off: nat) | Failed(error: Errno)

  /** The filesystem mounted on the first m components of a stack, and where in the path the rest begins. */
  function FoundAt(w: World, stack: seq<string>, m: nat): Resolved
    requires "/" in w.mounts && m <= |stack| && Mounted(w, stack[..m])
  {
    var from := |Path(stack[..m])| + 1;
    Found(FsAt(w, stack[..m]), if from < |Path(stack)| then from else |Path(stack)|)
  }

  /** In terms of components: the offset is where those behind the first m are, and the filesystem the one mounted on these. */
  lemma FoundIsMount(w: World, stack: seq<string>, m: nat)
    requires "/" in w.mounts && m <= |stack| && Mounted(w, stack[..m])
    ensures var r := FoundAt(w, stack, m);
      && r.off <= |Path(stack)| && Path(stack)[r.off..] == Join(stack[m..])
      && (m == 0 ==> r.fs == w.mounts["/"])
      && (0 < m < |stack| ==> r.off > 0 && Path(stack)[..r.off - 1] in w.mounts && r.fs == w.mounts[Path(stack)[..r.off - 1]])
      && (0 < m == |stack| ==> Path(stack) in w.mounts && r.fs == w.mounts[Path(stack)])
  {
    hide Path, Join;
    assert m == 0 ==> stack[..m] == [];
    if m < |stack| {
      PathParted(stack, m);
      var front := Path(stack[..m]);
      assert Path(stack)[..|front|] == front && Path(stack)[|front| + 1..] == Join(stack[m..]);
    } else {
      assert stack[..m] == stack && stack[m..] == [];
      JoinNone();
    }
  }

  lemma JoinNone()
    ensures Join([]) == ""
  {
  }

  /** Components that a path can have: not empty and without slashes. */
  ghost predicate Names(stack: seq<string>) {
    forall c :: c in stack ==> SlashFree(c) && c != ""
  }

  lemma PrefixNames(stack: seq<string>, j: nat)
    requires Names(stack) && j <= |stack|
    ensures Names(stack[..j])
  {
  }

  lemma PathParts(stack: seq<string>)
    requires Names(stack)
    ensures stack == [] <==> Path(stack) == ""
    ensures stack != [] ==> Path(stack)[0] == '/' && |Path(stack)| >= |Path(stack[..|stack| - 1])| + 2
  {
    if stack != [] {
      assert stack[|stack| - 1] in stack;
      PathParts(stack[..|stack| - 1]);
    }
  }

  /** k is where the last slash up to an offset is. */
  ghost predicate LastSlashIs(s: string, k: nat, from: nat) {
    k <= from && k < |s| && s[k] == '/' && forall i :: k < i <= from && i < |s| ==> s[i] != '/'
  }

  lemma LastSlashUnique(s: string, k: nat, j: nat, from: nat)
    requires LastSlashIs(s, k, from) && LastSlashIs(s, j, from)
    ensures k == j
  {
  }

  /** The last slash before the index is where the last component begins. */
  lemma LastSlashOfPath(stack: seq<string>, path: string, k: nat, from: nat)
    requires Names(stack) && stack != [] && Path(stack) <= path && from == |Path(stack)| - 1
    requires LastSlashIs(path, k, from)
    ensures k == |Path(stack[..|stack| - 1])|
  {
    SlashOfPath(stack, path);
    LastSlashUnique(path, k, |Path(stack[..|stack| - 1])|, from);
  }

  lemma SlashOfPath(stack: seq<string>, path: string)
    requires Names(stack) && stack != [] && Path(stack) <= path
    ensures LastSlashIs(path, |Path(stack[..|stack| - 1])|, |Path(stack)| - 1)
  {
    var c, n := stack[|stack| - 1], |Path(stack[..|stack| - 1])|;
    assert c in stack;
    assert path[n] == Path(stack)[n] == '/';
    forall i | n < i < |Path(stack)|
      ensures path[i] != '/'
    {
      assert path[i] == Path(stack)[i] == c[i - n - 1];
    }
  }

  /** One prefix back. */
  lemma BackOne(stack: seq<string>, path: string, j: nat)
    requires Names(stack) && 0 < j <= |stack| && Path(stack[..j]) <= path
    ensures Path(stack[..j - 1]) <= path && |Path(stack[..j])| > 0
    ensures LastSlashIs(path, |Path(stack[..j - 1])|, |Path(stack[..j])| - 1)
  {
    assert stack[..j][..j - 1] == stack[..j - 1];
    PathParts(stack[..j]);
    SlashOfPath(stack[..j], path);
  }

  /** The slash from which the search for the filesystem starts. */
  lemma SlashBehind(stack: seq<string>, path: string, rest: seq<string>, from: nat, top: nat)
    requires Names(stack) && from == |Path(stack)|
    requires path == if rest != [] then Path(stack) + "/" + Join(rest) else if stack == [] then "/" else Path(stack)
    requires top == if rest != [] || stack == [] then |stack| else |stack| - 1
    ensures path != "" && path[0] == '/' && LastSlashIs(path, |Path(stack[..top])|, from) && Path(stack[..top]) <= path
  {
    PathParts(stack);
    if rest != [] || stack == [] {
      assert stack[..top] == stack;
    } else {
      SlashOfPath(stack, path);
      PrefixPath(stack, top);
    }
  }

  /** The offset into the filesystem is within the path, but for a mount point that the path ends with. */
  lemma MountBehind(stack: seq<string>, path: string, b: nat)
    requires b <= |stack| && Path(stack) <= path
    ensures |Path(stack[..b])| <= |Path(stack)| && (b < |stack| ==> |Path(stack[..b])| < |Path(stack)|)
    ensures b == |stack| ==> stack[..b] == stack
  {
    PrefixPath(stack, b);
  }

  lemma ChosenIs(w: World, stack: seq<string>, s: seq<string>)
    ensures Chosen(w, stack, None) == Base(w, stack)
    ensures Chosen(w, stack, Some(s)) == if Mounted(w, s) && stack != [] then Base(w, stack[..|stack| - 1]) else Base(w, stack)
  {
  }

  /** Which component it is, as the code compares characters. */
  lemma NameAt(path: string, index: nat, slash: nat, c: string)
    requires index <= slash <= |path| && path[index..slash] == c
    ensures c == "" <==> slash == index
    ensures c == "." <==> slash - index == 1 && path[index] == '.'
    ensures c == ".." <==> slash - index == 2 && path[index] == '.' && path[index + 1] == '.'
  {
    if slash - index == 1 {
      assert path[index] == path[index..slash][0];
    } else if slash - index == 2 {
      assert path[index] == path[index..slash][0] && path[index + 1] == path[index..slash][1];
    }
  }

  /** The first component to do is what the index points at, up to the next slash. */
  lemma HeadOf(p: PathResolution, todo: seq<string>, slash: nat)
    requires p.PathShown(todo) && todo != [] && p.index <= slash && UpToSlash(p.path[p.index..], slash - p.index)
    ensures slash <= |p.path| && p.path[p.index..slash] == todo[0] && slash == p.index + |todo[0]|
    ensures slash == |p.path| <==> |todo| == 1
    ensures p.path == Path(p.stack) + "/" + Join(todo)
  {
    JoinOf(todo);
    hide Path, Join;
    assert todo[0] in todo;
    var rest := p.path[p.index..];
    assert rest == Join(todo);
    assert rest[..|todo[0]|] == todo[0];
    assert UpToSlash(rest, |todo[0]|);
  }

  /** An empty component or a dot is taken out, with the slash after it. */
  lemma Dropped(p: PathResolution, todo: seq<string>, n: nat)
    requires Names(p.stack) && AllSlashFree(todo) && todo != [] && n == |todo[0]| + 1 && p.index == |Path(p.stack)| + 1
    requires p.path == Erase(Path(p.stack) + "/" + Join(todo), p.index, n)
    requires p.FsShown() && p.base == Base(p.w, p.stack)
    ensures if |todo| > 1 then p.Valid(todo[1..]) else p.Ended(Base(p.w, p.stack))
  {
    hide Base, FsAt, Names;
    JoinOf(todo);
    hide Path, Join;
    var before := Path(p.stack) + "/";
    PathParts(p.stack);
    if |todo| > 1 {
      assert Path(p.stack) + "/" + Join(todo) == before + (todo[0] + "/") + Join(todo[1..]);
      EraseMiddle(before, todo[0] + "/", Join(todo[1..]));
    } else {
      assert Erase(before + todo[0], p.index, n) == before;
      MountBehind(p.stack, p.path, p.base);
    }
  }

  lemma Started(p: PathResolution, todo: seq<string>)
    requires p.path != "" && p.path[0] == '/' && todo == Split(p.path[1..]) && p.stack == [] && p.base == 0
    requires p.index == p.indexIntoFs == p.depthIntoFs == 1
    requires "/" in p.w.mounts && p.root == p.fs == p.w.mounts["/"] && p.syms == p.w.syms(p.fs)
    ensures p.Valid(todo) && todo != []
  {
    hide Join, Split;
    JoinSplit(p.path[1..]);
    assert p.path == "/" + p.path[1..];
    RootValid(p, todo);
  }

  /** How the walk goes on after a move. */
  ghost predicate LeadsTo(w: World, move: Move, last: bool, goal: Outcome)
    requires "/" in w.mounts
  {
    match move
    case Stop(outcome) => goal == outcome
    case Go(s, t, l) => l < MAX_LINKS ==> goal == Walk(w, s, t, l, last)
  }

  /** Whether the end is reached is seen from the index. */
  lemma AfterMove(p: PathResolution, move: Move, goal: Outcome, last: bool) returns (m: nat)
    requires p.MovedTo(move, None) && "/" in p.w.mounts
    requires LeadsTo(p.w, move, last, goal)
    requires move.Go? ==> move.links < MAX_LINKS
    ensures p.index >= |p.path| ==> p.Ended(m) && goal.Done? && goal.stack == p.stack && m == Chosen(p.w, p.stack, goal.left)
    ensures p.index < |p.path| ==> move.Go? && move.todo != [] && p.Valid(move.todo)
  {
    hide Path, Base, Chosen, Join, Names;
    m := 0;
    match move
    case Stop(outcome) =>
      m := Chosen(p.w, outcome.stack, outcome.left);
    case Go(s, t, l) =>
      ChosenIs(p.w, s, s);
      m := Base(p.w, s);
      if t != [] {
        if t == [""] {
          EmptyLast(p);
        } else {
          NotOver(p, t);
        }
      }
  }

  lemma EmptyLast(p: PathResolution)
    requires p.Valid([""])
    ensures p.Ended(Base(p.w, p.stack))
  {
    hide Base, Names;
    PathParts(p.stack);
    MountBehind(p.stack, p.path, p.base);
  }

  lemma NotOver(p: PathResolution, t: seq<string>)
    requires p.Valid(t) && t != [] && t != [""]
    ensures p.index < |p.path|
  {
    JoinOf(t);
  }

  lemma EndOfPath(stack: seq<string>)
    requires Names(stack)
    ensures stack != [] ==> Path(stack) != "" && Path(stack)[|Path(stack)| - 1] != '/'
  {
    if stack != [] {
      assert stack[|stack| - 1] in stack;
    }
  }

  lemma AbsoluteTarget(target: string, rest: seq<string>, tail: string)
    requires target != "" && target[0] == '/' && AllSlashFree(rest) && tail == if rest == [] then "" else "/" + Join(rest)
    ensures var t := Split(target[1..]) + rest;
      t != [] && AllSlashFree(t) && target + tail == "/" + Join(t) && Longer([], t) == |target| + |tail|
  {
    hide Join, Split, AllSlashFree;
    JoinTarget(target[1..], rest);
    RootPath();
    Reassociate(target, tail);
  }

  lemma Reassociate(target: string, tail: string)
    requires target != "" && target[0] == '/'
    ensures target + tail == "/" + (target[1..] + tail) && |target[1..] + tail| == |target| - 1 + |tail|
  {
    assert target == "/" + target[1..];
  }

  lemma RelativeTarget(stack: seq<string>, target: string, rest: seq<string>, tail: string)
    requires AllSlashFree(rest) && tail == if rest == [] then "" else "/" + Join(rest)
    ensures var t := Split(target) + rest;
      && t != [] && AllSlashFree(t) && Longer(stack, t) == |Path(stack)| + 1 + |target| + |tail|
      && Path(stack) + "/" + target + tail == Path(stack) + "/" + Join(t)
  {
    hide Join, Split, AllSlashFree, Path;
    JoinTarget(target, rest);
    assert Path(stack) + "/" + target + tail == Path(stack) + "/" + (target + tail);
  }

  lemma NameInPath(p: PathResolution, todo: seq<string>)
    requires p.AtName(todo)
    ensures todo != [] && p.path != "" && p.path[0] == '/' && 2 <= p.index <= |p.path| + 1
  {
    hide Path, Join, Names, AllSlashFree;
    TailOf(p, todo);
    PathParts(p.stack + [todo[0]]);
  }

  /** The path with the relative target in place of the link. */
  lemma RelativeEdit(p: PathResolution, target: string, todo: seq<string>, tail: string, k: nat)
    requires p.AtName(todo) && target != "" && p.index >= 2 && LastSlashIs(p.path, k, p.index - 2)
    requires tail == if p.index <= |p.path| then p.path[p.index - 1..] else ""
    ensures var t := Split(target) + todo[1..];
      && k == |Path(p.stack)| && k + 1 < p.index <= |p.path| + 1 && t != [] && AllSlashFree(t) && Names(p.stack)
      && p.path[..k + 1] + target + tail == Path(p.stack) + "/" + Join(t)
      && |p.path| - (p.index - k - 2) + |target| == Longer(p.stack, t)
  {
    hide Path, Join, Split, AllSlashFree, Longer, LastSlashIs, Names;
    var next := p.stack + [todo[0]];
    TailOf(p, todo);
    TailIs(p, todo);
    RelativeTarget(p.stack, target, todo[1..], tail);
    LastSlashOfPath(next, p.path, k, p.index - 2);
    assert next[..|next| - 1] == p.stack;
    NamesOf(p, todo);
  }

  lemma NamesOf(p: PathResolution, todo: seq<string>)
    requires p.AtName(todo)
    ensures Names(p.stack) && todo[0] != ""
  {
  }

  lemma RootValid(p: PathResolution, t: seq<string>)
    requires t != [] && AllSlashFree(t) && p.path == "/" + Join(t) && p.stack == [] && p.base == 0
    requires p.index == p.indexIntoFs == p.depthIntoFs == 1
    requires "/" in p.w.mounts && p.root == p.fs == p.w.mounts["/"] && p.syms == p.w.syms(p.fs)
    ensures p.Valid(t)
  {
    hide Join;
    RootPath();
    assert Path([]) + "/" + Join(t) == "/" + Join(t);
    assert p.stack[..0] == [];
  }

  lemma RootPath()
    ensures Path([]) == "" && Names([])
  {
  }

  /** Components of a target put before others. */
  lemma JoinTarget(target: string, rest: seq<string>)
    requires AllSlashFree(rest)
    ensures Join(Split(target) + rest) == target + (if rest == [] then "" else "/" + Join(rest))
    ensures AllSlashFree(Split(target) + rest)
  {
    JoinSplit(target);
    if rest == [] {
      assert Split(target) + rest == Split(target);
    } else {
      JoinConcat(Split(target), rest);
    }
  }

  lemma TailOf(p: PathResolution, todo: seq<string>)
    requires p.AtName(todo)
    ensures var next := p.stack + [todo[0]]; var tail := if |todo| == 1 then "" else "/" + Join(todo[1..]);
      && Names(next) && Path(next) == Path(p.stack) + "/" + todo[0] && p.index == |Path(next)| + 1
      && p.path == Path(next) + tail && (p.index > |p.path| <==> |todo| == 1) && |p.path| == |Path(next)| + |tail|
      && p.path[p.index - 1..] == tail && AllSlashFree(todo[1..]) && p.path != "" && p.path[0] == '/'
      && p.path[..|Path(p.stack)| + 1] == Path(p.stack) + "/"
  {
    hide Path, Join, Names, AllSlashFree;
    var next, c := p.stack + [todo[0]], todo[0];
    assert next[..|next| - 1] == p.stack;
    PathOf(next);
    JoinOf(todo);
    NamesWith(p.stack, todo);
    PathParts(next);
    var tail := if |todo| == 1 then "" else "/" + Join(todo[1..]);
    Reparse(Path(p.stack), c, tail);
  }

  lemma NamesWith(stack: seq<string>, todo: seq<string>)
    requires Names(stack) && AllSlashFree(todo) && todo != [] && todo[0] != ""
    ensures Names(stack + [todo[0]]) && AllSlashFree(todo[1..])
  {
    assert todo[0] in todo;
  }

  /** What is behind a name: nothing, or a slash and the components after it. */
  lemma TailIs(p: PathResolution, todo: seq<string>)
    requires p.AtName(todo)
    ensures todo != [] && 0 < p.index <= |p.path| + 1 && AllSlashFree(todo[1..])
    ensures var tail := if p.index <= |p.path| then p.path[p.index - 1..] else "";
      |tail| == |p.path| - p.index + 1 && tail == if todo[1..] == [] then "" else "/" + Join(todo[1..])
  {
    hide Path, Join, Names, AllSlashFree;
    TailOf(p, todo);
  }

  lemma Reparse(front: string, c: string, tail: string)
    ensures front + "/" + (c + tail) == front + "/" + c + tail
    ensures (front + "/" + c + tail)[|front + "/" + c|..] == tail
    ensures (front + "/" + c + tail)[..|front| + 1] == front + "/"
  {
  }

  lemma AtLinkParts(p: PathResolution, todo: seq<string>)
    requires p.AtName(todo) && p.FsAtLink()
    ensures var next := p.stack + [todo[0]];
      && Names(next) && Path(next) == Path(p.stack) + "/" + todo[0] && p.index == |Path(next)| + 1
      && p.path == Path(next) + (if |todo| == 1 then "" else "/" + Join(todo[1..]))
      && p.indexIntoFs <= p.index - 1 <= |p.path| && Relative(next, p.base) == p.path[p.indexIntoFs..p.index - 1]
      && next[..p.base] == p.stack[..p.base] && next[..|next| - 1] == p.stack && AllSlashFree(todo[1..])
  {
    hide Path, Join, Base;
    TailOf(p, todo);
    RelativeOf(p, todo);
  }

  lemma RelativeOf(p: PathResolution, todo: seq<string>)
    requires p.AtName(todo) && p.base <= |p.stack| && p.indexIntoFs == |Path(p.stack[..p.base])| + 1
    ensures var next := p.stack + [todo[0]];
      && next[..p.base] == p.stack[..p.base] && p.indexIntoFs <= p.index - 1 <= |p.path|
      && Relative(next, p.base) == p.path[p.indexIntoFs..p.index - 1] && p.path[..p.index - 1] == Path(next)
  {
    hide Path, Join, Base;
    TailOf(p, todo);
    var next := p.stack + [todo[0]];
    assert next[..p.base] == p.stack[..p.base];
    MountBehind(p.stack, Path(p.stack), p.base);
    assert p.path[..p.index - 1] == Path(next);
  }

  /** A name that is a mount point: its filesystem is the current one. */
  lemma EnteredMount(p: PathResolution, rest: seq<string>)
    requires Names(p.stack) && p.stack != [] && AllSlashFree(rest) && p.index == |Path(p.stack)| + 1
    requires p.path == Path(p.stack) + if rest == [] then "" else "/" + Join(rest)
    requires Path(p.stack) in p.w.mounts && p.base == |p.stack| && p.fs == p.w.mounts[Path(p.stack)] && p.syms == p.w.syms(p.fs)
    requires "/" in p.w.mounts && p.root == p.w.mounts["/"] && p.depthIntoFs == 1
    requires p.indexIntoFs == if p.index > |p.path| then p.index - 1 else p.index
    ensures p.base == Base(p.w, p.stack) && if rest != [] then p.Valid(rest) else p.Ended(p.base)
  {
    hide Path, Join;
    assert p.stack[..p.base] == p.stack;
    if rest != [] {
      PlacedValid(p, rest);
    } else {
      PlacedEnded(p);
    }
  }

  /** A name that is not: the filesystem stays, one component deeper. */
  lemma EnteredPlain(p: PathResolution, s: seq<string>, rest: seq<string>)
    requires Names(p.stack) && p.stack != [] && s == p.stack[..|p.stack| - 1] && AllSlashFree(rest) && p.index == |Path(p.stack)| + 1
    requires p.path == Path(p.stack) + if rest == [] then "" else "/" + Join(rest)
    requires !Mounted(p.w, p.stack) && "/" in p.w.mounts && p.root == p.w.mounts["/"] && p.depthIntoFs == |p.stack| - p.base + 1
    requires p.base == Base(p.w, s) && p.fs == FsAt(p.w, s[..p.base]) && p.syms == p.w.syms(p.fs)
    requires p.indexIntoFs == |Path(s[..p.base])| + 1
    ensures p.base == Base(p.w, p.stack) && if rest != [] then p.Valid(rest) else p.Ended(p.base)
  {
    hide Path, Join, FsAt;
    assert p.stack[..p.base] == s[..p.base];
    MountBehind(p.stack, p.path, p.base);
    if rest != [] {
      PlacedValid(p, rest);
    } else {
      PlacedEnded(p);
    }
  }

  /** The name and what comes after it, as parts of the path. */
  lemma AtNameParts(p: PathResolution, todo: seq<string>)
    requires p.AtName(todo) && p.FsShown()
    ensures var next := p.stack + [todo[0]];
      && Names(next) && Path(next) == Path(p.stack) + "/" + todo[0] && p.index == |Path(next)| + 1
      && p.path == Path(next) + (if |todo| == 1 then "" else "/" + Join(todo[1..])) && AllSlashFree(todo[1..])
      && (p.index > |p.path| <==> |todo| == 1) && p.path[..p.index - 1] == Path(next)
      && (Path(next) in p.w.mounts <==> Mounted(p.w, next))
      && p.indexIntoFs <= p.index - 1 <= |p.path| && Relative(next, p.base) == p.path[p.indexIntoFs..p.index - 1]
      && next[..p.base] == p.stack[..p.base] && next[..|next| - 1] == p.stack
  {
    hide Path, Join;
    TailOf(p, todo);
    RelativeOf(p, todo);
  }

  lemma PathOf(stack: seq<string>)
    requires stack != []
    ensures Path(stack) == Path(stack[..|stack| - 1]) + "/" + stack[|stack| - 1]
  {
  }

  lemma JoinOf(todo: seq<string>)
    requires todo != []
    ensures Join(todo) == todo[0] + if |todo| == 1 then "" else "/" + Join(todo[1..])
  {
  }

  /** The edit that takes a component and the ".." after it out of a path. */
  lemma CutShown(stack: seq<string>, path: string, todo: seq<string>)
    requires Names(stack) && AllSlashFree(todo) && stack != [] && todo != [] && todo[0] == ".." && path == Path(stack) + "/" + Join(todo)
    ensures var s, rest := stack[..|stack| - 1], todo[1..];
      && Names(s) && AllSlashFree(rest) && |Path(s)| <= |Path(stack)| && |Path(stack)| + 3 <= |path|
      && Erase(path, |Path(s)|, |Path(stack)| + 3 - |Path(s)|) == if rest == [] then Path(s) else Path(s) + "/" + Join(rest)
  {
    hide Join, Path, Erase;
    var s, c := stack[..|stack| - 1], stack[|stack| - 1];
    PathOf(stack);
    JoinOf(todo);
    CutOut(path, Path(s), c, todo, Erase(path, |Path(s)|, |c| + 4));
    EmptyTail(Path(s));
  }

  lemma EmptyTail(a: string)
    ensures a + "" == a && forall b: string :: a + ("/" + b) == a + "/" + b
  {
    forall b: string
      ensures a + ("/" + b) == a + "/" + b
    {
    }
  }

  lemma CutOut(path: string, front: string, c: string, todo: seq<string>, after: string)
    requires todo != [] && todo[0] == ".." && path == front + "/" + c + "/" + Join(todo)
    requires after == Erase(path, |front|, |c| + 4)
    ensures after == front + if |todo| == 1 then "" else "/" + Join(todo[1..])
  {
    JoinOf(todo);
    hide Join;
    var tail := if |todo| == 1 then "" else "/" + Join(todo[1..]);
    var middle := "/" + c + "/" + "..";
    Regroup(front, "/", c, "/", "..", tail);
    EraseMiddle(front, middle, tail);
  }

  lemma Regroup<T>(f: seq<T>, x: seq<T>, c: seq<T>, y: seq<T>, z: seq<T>, t: seq<T>)
    ensures f + x + c + y + (z + t) == f + (x + c + y + z) + t
  {
  }

  lemma EraseMiddle(a: string, b: string, c: string)
    ensures Erase(a + b + c, |a|, |b|) == a + c
  {
    assert (a + b + c)[..|a|] == a;
    assert (a + b + c)[|a| + |b|..] == c;
  }

  lemma PlacedPath(p: PathResolution, rest: seq<string>)
    requires p.Placed(rest)
    ensures Names(p.stack) && p.index == |Path(p.stack)| + 1 && Path(p.stack) <= p.path
    ensures p.path == if rest != [] then Path(p.stack) + "/" + Join(rest) else if p.stack == [] then "/" else Path(p.stack)
  {
    hide Join;
  }

  lemma Stayed(p: PathResolution, s: seq<string>, rest: seq<string>, from: nat)
    requires p.Placed(rest) && s != [] && p.stack == s[..|s| - 1] && p.base == Base(p.w, s) <= |p.stack|
    requires "/" in p.w.mounts && p.root == p.w.mounts["/"] && p.fs == FsAt(p.w, s[..p.base]) && p.syms == p.w.syms(p.fs)
    requires from == |Path(s[..p.base])| + 1 && p.indexIntoFs == if from < |p.path| then from else |p.path|
    ensures p.FsPlaced() && p.base == Chosen(p.w, p.stack, if rest == [] then Some(s) else None)
  {
    hide Path, Join, Names;
    BaseUp(p.w, s);
    assert s[..p.base] == p.stack[..p.base];
  }

  lemma Escaped(p: PathResolution, s: seq<string>, rest: seq<string>, top: nat)
    requires p.Placed(rest) && s != [] && p.stack == s[..|s| - 1] && Base(p.w, s) == |s|
    requires top == if rest != [] || p.stack == [] then |p.stack| else |p.stack| - 1
    requires "/" in p.w.mounts && p.root == p.w.mounts["/"] && p.base == Base(p.w, p.stack[..top]) <= |p.stack|
    requires Mounted(p.w, p.stack[..p.base]) && p.fs == FsAt(p.w, p.stack[..p.base]) && p.syms == p.w.syms(p.fs)
    requires p.indexIntoFs == |Path(p.stack[..p.base])| + 1
    ensures p.FsPlaced() && p.base == Chosen(p.w, p.stack, if rest == [] then Some(s) else None)
  {
    hide Path, Join, Names, FsAt, Base, Chosen, Mounted;
    EscapedChoice(p.w, s, p.stack, rest, top);
    EscapedPlace(p, rest);
  }

  lemma EscapedChoice(w: World, s: seq<string>, stack: seq<string>, rest: seq<string>, top: nat)
    requires s != [] && stack == s[..|s| - 1] && Base(w, s) == |s|
    requires top == if rest != [] || stack == [] then |stack| else |stack| - 1
    ensures Base(w, stack[..top]) == Chosen(w, stack, if rest == [] then Some(s) else None) <= top
  {
    hide Path, Base, Chosen;
    BaseUp(w, s);
    ChosenIs(w, stack, s);
    assert top == |stack| ==> stack[..top] == stack;
    BaseLimits(w, stack[..top]);
  }

  lemma EscapedPlace(p: PathResolution, rest: seq<string>)
    requires p.Placed(rest) && p.base <= |p.stack| && (rest != [] || p.stack == [] || p.base < |p.stack|)
    requires "/" in p.w.mounts && p.root == p.w.mounts["/"]
    requires Mounted(p.w, p.stack[..p.base]) && p.fs == FsAt(p.w, p.stack[..p.base]) && p.syms == p.w.syms(p.fs)
    requires p.indexIntoFs == |Path(p.stack[..p.base])| + 1
    ensures p.FsPlaced()
  {
    hide Path, Join, Names, FsAt, Mounted;
    PlacedPath(p, rest);
    PathParts(p.stack);
    MountBehind(p.stack, p.path, p.base);
  }

  lemma PlacedValid(p: PathResolution, rest: seq<string>)
    requires p.Placed(rest) && p.FsPlaced() && rest != [] && p.base == Base(p.w, p.stack) && p.depthIntoFs == |p.stack| - p.base + 1
    ensures p.Valid(rest)
  {
    hide Path, Join, Base;
    MountBehind(p.stack, p.path, p.base);
  }

  lemma PlacedEnded(p: PathResolution)
    requires p.Placed([]) && p.FsPlaced()
    ensures p.Ended(p.base)
  {
    hide Path, Base, Names;
    PathParts(p.stack);
  }

  lemma BaseLimits(w: World, stack: seq<string>)
    ensures Base(w, stack) <= |stack| && Mounted(w, stack[..Base(w, stack)])
    ensures Mounted(w, stack) ==> Base(w, stack) == |stack|
  {
    assert stack[..|stack|] == stack;
  }

  lemma BaseStep(w: World, stack: seq<string>, j: nat)
    requires j <= |stack|
    ensures if Mounted(w, stack[..j]) then Base(w, stack[..j]) == j
            else j > 0 && Base(w, stack[..j]) == Base(w, stack[..j - 1])
  {
    if j > 0 {
      assert stack[..j][..j - 1] == stack[..j - 1];
    }
  }

  /** Going up keeps the mount point, unless it is the mount point itself that is left. */
  lemma BaseUp(w: World, stack: seq<string>)
    requires stack != []
    ensures Base(w, stack) <= |stack| - 1 ==> Base(w, stack[..|stack| - 1]) == Base(w, stack) && !Mounted(w, stack)
    ensures Base(w, stack) > |stack| - 1 ==> Mounted(w, stack)
  {
  }

  lemma {:induction false} PrefixPath(stack: seq<string>, k: nat)
    requires k <= |stack|
    ensures Path(stack[..k]) <= Path(stack)
    ensures k < |stack| ==> |Path(stack[..k])| < |Path(stack)|
  {
    if k == |stack| {
      assert stack[..k] == stack;
    } else {
      PrefixPath(stack[..|stack| - 1], k);
      assert stack[..|stack| - 1][..k] == stack[..k];
    }
  }
}
