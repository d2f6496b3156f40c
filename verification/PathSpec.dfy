/**
 What it means to resolve a path: its components are folded over a stack, symbolic links put
 more components in front of those still to do, and the filesystem is the one mounted on the
 longest prefix.
 */
module PathSpec {

  datatype Option<X> = None | Some(value: X)

  datatype Stat = NoStat | Link | Dir | Other

  datatype Errno = ENOENT | ENOTDIR | ELOOP | ENAMETOOLONG

  /** The mount table, and what the filesystems answer about paths relative to them. */
  datatype World = World(
    mounts: map<string, nat>,
    syms: nat -> bool,
    lstat: (nat, string) -> Stat,
    readlink: (nat, string) -> Option<string>,
    pathMax: nat)

  // -------------------------------------------------------------- strings and components

  predicate SlashFree(s: string) {
    '/' !in s
  }

  /** The first k characters are not slashes, and the next, if there is one, is. */
  ghost predicate UpToSlash(s: string, k: nat) {
    k <= |s| && (forall i :: 0 <= i < k ==> s[i] != '/') && (k < |s| ==> s[k] == '/')
  }

  function FirstSlash(s: string): (k: nat)
    ensures UpToSlash(s, k)
  {
    if s == [] || s[0] == '/' then 0 else 1 + FirstSlash(s[1..])
  }

  /** The components between the slashes of a string; there is at least one, perhaps empty. */
  function Split(s: string): (c: seq<string>)
    ensures |c| > 0
    decreases |s|
  {
    var k := FirstSlash(s);
    if k == |s| then [s] else [s[..k]] + Split(s[k + 1..])
  }

  function Join(c: seq<string>): string {
    if c == [] then "" else if |c| == 1 then c[0] else c[0] + "/" + Join(c[1..])
  }

  ghost predicate AllSlashFree(c: seq<string>) {
    forall x :: x in c ==> SlashFree(x)
  }

  lemma JoinCons(c: string, l: seq<string>)
    requires l != []
    ensures Join([c] + l) == c + "/" + Join(l)
  {
    assert ([c] + l)[1..] == l;
  }

  lemma {:induction false} JoinSplit(s: string)
    ensures Join(Split(s)) == s && AllSlashFree(Split(s))
    decreases |s|
  {
    hide Join;
    var k := FirstSlash(s);
    if k < |s| {
      var rest := s[k + 1..];
      JoinSplit(rest);
      JoinCons(s[..k], Split(rest));
      Pieces(s, k);
    } else {
      JoinOne(s);
      assert s[..k] == s;
    }
  }

  lemma JoinOne(s: string)
    ensures Join([s]) == s
  {
  }

  lemma Pieces(s: string, k: nat)
    requires k < |s| && s[k] == '/'
    ensures s[..k] + "/" + s[k + 1..] == s
  {
  }

  lemma UpToSlashUnique(s: string, j: nat, k: nat)
    requires UpToSlash(s, j) && UpToSlash(s, k)
    ensures j == k
  {
  }

  lemma {:induction false} SplitJoin(c: seq<string>)
    requires c != [] && AllSlashFree(c)
    ensures Split(Join(c)) == c
  {
    var s := Join(c);
    assert c[0] in c;
    if |c| == 1 {
      UpToSlashUnique(s, |s|, FirstSlash(s));
    } else {
      assert s[..|c[0]|] == c[0];
      UpToSlashUnique(s, |c[0]|, FirstSlash(s));
      assert s[|c[0]| + 1..] == Join(c[1..]);
      SplitJoin(c[1..]);
    }
  }

  lemma {:induction false} JoinConcat(a: seq<string>, b: seq<string>)
    requires a != [] && b != []
    ensures Join(a + b) == Join(a) + "/" + Join(b)
  {
    if |a| == 1 {
      assert (a + b)[1..] == b;
    } else {
      JoinConcat(a[1..], b);
      assert (a + b)[1..] == a[1..] + b;
    }
  }

  // -------------------------------------------------------------- stacks and mounts

  /** The canonical path of a stack; the empty string for the root. */
  function Path(stack: seq<string>): string {
    if stack == [] then "" else Path(stack[..|stack| - 1]) + "/" + stack[|stack| - 1]
  }

  predicate Mounted(w: World, stack: seq<string>) {
    stack == [] || Path(stack) in w.mounts
  }

  function FsAt(w: World, stack: seq<string>): nat
    requires "/" in w.mounts && Mounted(w, stack)
  {
    if stack == [] then w.mounts["/"] else w.mounts[Path(stack)]
  }

  /** How many components the longest mounted prefix has. */
  function Base(w: World, stack: seq<string>): (b: nat)
    ensures b <= |stack| && Mounted(w, stack[..b])
  {
    if Mounted(w, stack) then
      assert stack[..|stack|] == stack;
      |stack|
    else
      var b := Base(w, stack[..|stack| - 1]);
      assert stack[..|stack| - 1][..b] == stack[..b];
      b
  }

  /** No longer prefix is mounted. */
  lemma {:induction false} BaseLongest(w: World, stack: seq<string>, k: nat)
    requires k <= |stack| && Mounted(w, stack[..k])
    ensures k <= Base(w, stack)
  {
    if k == |stack| {
      assert stack[..k] == stack;
    } else {
      assert stack[..|stack| - 1][..k] == stack[..k];
      BaseLongest(w, stack[..|stack| - 1], k);
    }
  }

  /** The path of a stack relative to the filesystem mounted on its first b components. */
  function Relative(stack: seq<string>, b: nat): string
    requires b <= |stack|
  {
    var from := |Path(stack[..b])| + 1;
    if from <= |Path(stack)| then Path(stack)[from..] else ""
  }

  // -------------------------------------------------------------- resolution

  const MAX_LINKS := 2

  /** Done with a stack, after a last component ".." that left the given stack, or in another way. */
  datatype Outcome = Done(stack: seq<string>, left: Option<seq<string>>) | Fail(error: Errno)

  /** What a symbolic link makes of the stack and the components to do. */
  function Follow(w: World, stack: seq<string>, target: string, rest: seq<string>): (seq<string>, seq<string>)
    requires target != ""
  {
    if target[0] == '/' then ([], Split(target[1..]) + rest) else (stack, Split(target) + rest)
  }

  /** The length that the path would have. */
  function Longer(stack: seq<string>, todo: seq<string>): nat {
    |Path(stack)| + 1 + |Join(todo)|
  }

  /**
   As a path: an absolute target takes the place of all up to the link, a relative one that of the link, and the components
   behind it stay.
   */
  lemma FollowedPath(w: World, stack: seq<string>, target: string, rest: seq<string>)
    requires target != "" && AllSlashFree(rest)
    ensures var (s, t) := Follow(w, stack, target, rest); var tail := if rest == [] then "" else "/" + Join(rest);
      && s == (if target[0] == '/' then [] else stack) && AllSlashFree(t)
      && Path(s) + "/" + Join(t) == (if target[0] == '/' then target + tail else Path(stack) + "/" + (target + tail))
      && Longer(s, t) == |Path(s) + "/" + Join(t)|
  {
    hide Join, Split;
    var c := if target[0] == '/' then target[1..] else target;
    JoinSplit(c);
    assert forall x :: x in Split(c) + rest ==> x in Split(c) || x in rest;
    if rest == [] {
      assert Split(c) + rest == Split(c) && target + "" == target;
    } else {
      JoinConcat(Split(c), rest);
      assert "/" + (c + "/" + Join(rest)) == "/" + c + ("/" + Join(rest));
      assert c + "/" + Join(rest) == c + ("/" + Join(rest));
    }
    assert target[0] == '/' ==> target == "/" + c;
    assert Path([]) == "";
  }

  /** One component dealt with: more to do, or the end. */
  datatype Move = Go(stack: seq<string>, todo: seq<string>, links: nat) | Stop(outcome: Outcome)

  /** A component that is a name: a mount point, a symbolic link to follow, or just one more component. */
  function Enter(w: World, stack: seq<string>, c: string, rest: seq<string>, links: nat, last: bool): (m: Move)
    requires "/" in w.mounts && links < MAX_LINKS
    ensures m.Go? ==> links <= m.links < MAX_LINKS && (links == m.links ==> m.todo == rest)
  {
    var next := stack + [c];
    var b := Base(w, stack);
    var fs := FsAt(w, stack[..b]);
    if Mounted(w, next) || !w.syms(fs) || !(rest != [] || last) then Go(next, rest, links)
    else match w.lstat(fs, Relative(next, b))
      case NoStat => Go(next, rest, links)
      case Dir => Go(next, rest, links)
      case Other => if rest != [] then Stop(Fail(ENOTDIR)) else Go(next, rest, links)
      case Link => if links + 1 >= MAX_LINKS then Stop(Fail(ELOOP)) else Followed(w, stack, next, b, rest, links + 1)
  }

  function Followed(w: World, stack: seq<string>, next: seq<string>, b: nat, rest: seq<string>, links: nat): (m: Move)
    requires "/" in w.mounts && b <= |stack| && Mounted(w, stack[..b]) && b <= |next|
    ensures m.Go? ==> m.links == links
  {
    match w.readlink(FsAt(w, stack[..b]), Relative(next, b))
    case None => Go(next, rest, links)
    case Some(target) =>
      if target == "" then Stop(Fail(ENOENT))
      else
        var (s, t) := Follow(w, stack, target, rest);
        if Longer(s, t) > w.pathMax then Stop(Fail(ENAMETOOLONG)) else Go(s, t, links)
  }

  function Turn(w: World, stack: seq<string>, todo: seq<string>, links: nat, last: bool): (m: Move)
    requires "/" in w.mounts && links < MAX_LINKS && todo != []
    ensures m.Go? ==> links <= m.links < MAX_LINKS && (links == m.links ==> |m.todo| < |todo|)
  {
    var c, rest := todo[0], todo[1..];
    if c == "" || c == "." then Go(stack, rest, links)
    else if c == ".." then
      if stack == [] then Stop(Fail(ENOENT))
      else if rest == [] then Stop(Done(stack[..|stack| - 1], Some(stack)))
      else Go(stack[..|stack| - 1], rest, links)
    else Enter(w, stack, c, rest, links, last)
  }

  function Walk(w: World, stack: seq<string>, todo: seq<string>, links: nat, last: bool): Outcome
    requires "/" in w.mounts && links < MAX_LINKS
    decreases MAX_LINKS - links, |todo|
  {
    if todo == [] then Done(stack, None) else
      match Turn(w, stack, todo, links, last)
      case Go(s, t, l) => Walk(w, s, t, l, last)
      case Stop(outcome) => outcome
  }

  /** The mounted prefix that the code picks: after a last ".." out of a mount it does not look at the stack itself. */
  function Chosen(w: World, stack: seq<string>, left: Option<seq<string>>): (m: nat)
    ensures m <= |stack| && Mounted(w, stack[..m])
  {
    if left.Some? && Mounted(w, left.value) && stack != [] then
      var m := Base(w, stack[..|stack| - 1]);
      assert stack[..|stack| - 1][..m] == stack[..m];
      m
    else Base(w, stack)
  }

  /** With filesystems on /a and on /a/b, the path /a/b/.. ends in the root filesystem. */
  lemma UpFromMountToMount(w: World)
    requires "/" in w.mounts && "/a" in w.mounts && "/a/b" in w.mounts
    ensures Walk(w, [], ["a", "b", ".."], 0, true) == Done(["a"], Some(["a", "b"]))
    ensures Base(w, ["a"]) == 1 && Chosen(w, ["a"], Some(["a", "b"])) == 0
  {
    assert Path(["a"]) == "/a" && Path(["a", "b"]) == "/a/b";
    assert [] + ["a"] == ["a"] && ["a"] + ["b"] == ["a", "b"] && ["a", "b"][..1] == ["a"];
    assert ["a", "b", ".."][1..] == ["b", ".."] && ["b", ".."][1..] == [".."];
    assert Turn(w, [], ["a", "b", ".."], 0, true) == Go(["a"], ["b", ".."], 0);
    assert Turn(w, ["a"], ["b", ".."], 0, true) == Go(["a", "b"], [".."], 0);
    assert Turn(w, ["a", "b"], [".."], 0, true) == Stop(Done(["a"], Some(["a", "b"])));
  }

  // -------------------------------------------------------------- without symbolic links

  /** The left fold of the components over a stack; there is no parent of the root. */
  function Fold(stack: seq<string>, todo: seq<string>): Option<seq<string>>
    decreases |todo|
  {
    if todo == [] then Some(stack)
    else if todo[0] == "" || todo[0] == "." then Fold(stack, todo[1..])
    else if todo[0] == ".." then (if stack == [] then None else Fold(stack[..|stack| - 1], todo[1..]))
    else Fold(stack + [todo[0]], todo[1..])
  }

  /** A stack that a fold can leave: no empty component, no "." and no "..". */
  ghost predicate Canonical(stack: seq<string>) {
    forall c :: c in stack ==> SlashFree(c) && c != "" && c != "." && c != ".."
  }

  lemma CanonicalParent(stack: seq<string>)
    requires Canonical(stack) && stack != []
    ensures Canonical(stack[..|stack| - 1])
  {
    var parent := stack[..|stack| - 1];
    forall c | c in parent
      ensures SlashFree(c) && c != "" && c != "." && c != ".."
    {
      assert c in stack;
    }
    assert Canonical(parent);
  }

  lemma {:induction false} FoldCanonical(stack: seq<string>, todo: seq<string>)
    requires Canonical(stack) && AllSlashFree(todo) && Fold(stack, todo).Some?
    ensures Canonical(Fold(stack, todo).value)
    decreases |todo|
  {
    if todo != [] {
      assert todo[0] in todo && forall c :: c in todo[1..] ==> c in todo;
      if todo[0] == "" || todo[0] == "." {
        FoldCanonical(stack, todo[1..]);
      } else if todo[0] == ".." {
        CanonicalParent(stack);
        FoldCanonical(stack[..|stack| - 1], todo[1..]);
      } else {
        assert forall c :: c in stack + [todo[0]] ==> c in stack || c == todo[0];
        FoldCanonical(stack + [todo[0]], todo[1..]);
      }
    }
  }

  /** The stack that a last component ".." leaves, if the components end so. */
  function LastUp(stack: seq<string>, todo: seq<string>): Option<seq<string>> {
    if todo != [] && todo[|todo| - 1] == ".." then Fold(stack, todo[..|todo| - 1]) else None
  }

  /** Without symbolic links, resolution is the fold, and fails exactly when the fold leaves the root. */
  lemma {:induction false} WalkIsFold(w: World, stack: seq<string>, todo: seq<string>, last: bool)
    requires "/" in w.mounts && forall f: nat :: !w.syms(f)
    ensures Walk(w, stack, todo, 0, last) ==
            if Fold(stack, todo).Some? then Done(Fold(stack, todo).value, LastUp(stack, todo)) else Fail(ENOENT)
    decreases |todo|
  {
    if todo != [] {
      var c, rest := todo[0], todo[1..];
      LastUpRest(stack, todo);
      if c == "" || c == "." {
        WalkIsFold(w, stack, rest, last);
      } else if c == ".." {
        if stack != [] {
          WalkIsFold(w, stack[..|stack| - 1], rest, last);
        }
      } else {
        WalkIsFold(w, stack + [c], rest, last);
      }
    }
  }

  /** The stack after one component that the fold accepts. */
  function Moved(stack: seq<string>, c: string): seq<string>
    requires c == ".." ==> stack != []
  {
    if c == "" || c == "." then stack else if c == ".." then stack[..|stack| - 1] else stack + [c]
  }

  lemma FoldStep(stack: seq<string>, todo: seq<string>)
    requires todo != []
    ensures todo[0] == ".." && stack == [] ==> Fold(stack, todo) == None
    ensures todo[0] != ".." || stack != [] ==> Fold(stack, todo) == Fold(Moved(stack, todo[0]), todo[1..])
  {
  }

  /** A name and ".." undo each other, and empty components and "." do nothing. */
  lemma NameAndBack(stack: seq<string>, c: string, rest: seq<string>)
    requires c != "" && c != "." && c != ".."
    ensures Fold(stack, [c, ".."] + rest) == Fold(stack, rest)
    ensures Fold(stack, ["."] + rest) == Fold(stack, rest) && Fold(stack, [""] + rest) == Fold(stack, rest)
    ensures Fold(stack, [c]) == Some(stack + [c]) && Fold([], [".."] + rest) == None
  {
    hide Fold, Moved;
    assert ([c, ".."] + rest)[1..] == [".."] + rest && ([".."] + rest)[1..] == rest;
    assert (["."] + rest)[1..] == rest && ([""] + rest)[1..] == rest && [c][1..] == [];
    FoldStep(stack, [c, ".."] + rest);
    FoldStep(stack + [c], [".."] + rest);
    FoldStep(stack, ["."] + rest);
    FoldStep(stack, [""] + rest);
    FoldStep(stack, [c]);
    FoldStep([], [".."] + rest);
    FoldNone(stack + [c]);
    MovedIs(stack, c);
  }

  lemma MovedIs(stack: seq<string>, c: string)
    requires c != "" && c != "." && c != ".."
    ensures Moved(stack, c) == stack + [c] && Moved(stack + [c], "..") == stack && Moved(stack, ".") == Moved(stack, "") == stack
  {
  }

  lemma FoldNone(stack: seq<string>)
    ensures Fold(stack, []) == Some(stack)
  {
  }

  lemma LastUpRest(stack: seq<string>, todo: seq<string>)
    requires todo != []
    ensures todo[0] == ".." && stack == [] ==> Fold(stack, todo) == None
    ensures todo[0] != ".." || stack != [] ==> Fold(stack, todo) == Fold(Moved(stack, todo[0]), todo[1..])
    ensures |todo| > 1 && (todo[0] != ".." || stack != []) ==> LastUp(stack, todo) == LastUp(Moved(stack, todo[0]), todo[1..])
    ensures |todo| == 1 ==> LastUp(stack, todo) == if todo[0] == ".." then Some(stack) else None
  {
    hide Fold, Moved;
    var n := |todo| - 1;
    FoldStep(stack, todo);
    if n == 0 {
      FoldNone(stack);
      assert todo[..0] == [];
    } else {
      FoldStep(stack, todo[..n]);
      RestOfFront(todo, n);
    }
  }

  lemma RestOfFront<T>(l: seq<T>, n: nat)
    requires 0 < n <= |l|
    ensures l[..n][0] == l[0] && l[..n][1..] == l[1..][..n - 1]
  {
  }

  lemma {:induction false} PathIsJoin(stack: seq<string>)
    requires stack != []
    ensures Path(stack) == "/" + Join(stack)
  {
    var n := |stack| - 1;
    if n > 0 {
      PathIsJoin(stack[..n]);
      JoinConcat(stack[..n], [stack[n]]);
      assert stack == stack[..n] + [stack[n]];
    }
  }

  /** A path is that of its first components, a slash, and the others. */
  lemma {:induction false} PathParted(stack: seq<string>, b: nat)
    requires b < |stack|
    ensures Path(stack) == Path(stack[..b]) + "/" + Join(stack[b..])
  {
    var n := |stack| - 1;
    if b == n {
      assert stack[n..] == [stack[n]];
    } else {
      PathParted(stack[..n], b);
      assert stack[..n][..b] == stack[..b];
      JoinConcat(stack[..n][b..], [stack[n]]);
      assert stack[..n][b..] + [stack[n]] == stack[b..];
      hide Join;
      assert Path(stack) == Path(stack[..n]) + "/" + stack[n];
      JoinOne(stack[n]);
      assert Path(stack) == Path(stack[..b]) + "/" + (Join(stack[..n][b..]) + "/" + stack[n]);
    }
  }

  /** What a filesystem mounted on the first b components is asked for is the other components. */
  lemma RelativeIsJoin(stack: seq<string>, b: nat)
    requires b <= |stack|
    ensures Relative(stack, b) == Join(stack[b..])
  {
    if b < |stack| {
      PathParted(stack, b);
    } else {
      assert stack[..b] == stack;
    }
  }

  lemma {:induction false} FoldPushes(stack: seq<string>, more: seq<string>)
    requires Canonical(more)
    ensures Fold(stack, more) == Some(stack + more)
    decreases |more|
  {
    if more == [] {
      assert stack + more == stack;
    } else {
      assert more[0] in more;
      FoldPushes(stack + [more[0]], more[1..]);
      assert stack + [more[0]] + more[1..] == stack + more;
    }
  }

  /** A canonical path resolves to itself. */
  lemma CanonicalResolvesToItself(stack: seq<string>)
    requires Canonical(stack) && stack != []
    ensures Fold([], Split(Path(stack)[1..])) == Some(stack)
  {
    PathIsJoin(stack);
    assert Path(stack)[1..] == Join(stack);
    assert AllSlashFree(stack);
    SplitJoin(stack);
    FoldPushes([], stack);
    assert [] + stack == stack;
  }

  lemma {:induction false} FoldLast(stack: seq<string>, todo: seq<string>)
    requires todo != [] && todo[|todo| - 1] == ".." && Fold(stack, todo).Some?
    ensures LastUp(stack, todo).Some?
    decreases |todo|
  {
    LastUpRest(stack, todo);
    if |todo| > 1 {
      FoldLast(Moved(stack, todo[0]), todo[1..]);
    }
  }

  /** The components end by going up, out of a mount point right to another that is not the root. */
  predicate UpBetweenMounts(w: World, stack: seq<string>, todo: seq<string>) {
    && todo != [] && todo[|todo| - 1] == ".."
    && Fold(stack, todo[..|todo| - 1]).Some? && Mounted(w, Fold(stack, todo[..|todo| - 1]).value)
    && Fold(stack, todo).Some? && Fold(stack, todo).value != [] && Mounted(w, Fold(stack, todo).value)
  }

  /** The code picks the longest mounted prefix unless the components end so. */
  lemma ChosenIsLongestIff(w: World, stack: seq<string>, todo: seq<string>)
    requires "/" in w.mounts && Fold(stack, todo).Some?
    ensures var s := Fold(stack, todo).value;
            Chosen(w, s, LastUp(stack, todo)) == Base(w, s) <==> !UpBetweenMounts(w, stack, todo)
  {
    if todo != [] && todo[|todo| - 1] == ".." {
      FoldLast(stack, todo);
    }
  }

  /**
   Without symbolic links a path resolves exactly when its fold never leaves the root, to the fold's
   canonical stack, and to the longest mounted prefix of that unless it ends by going up between mount points.
   */
  lemma ResolvesWithoutLinks(w: World, path: string, last: bool)
    requires "/" in w.mounts && (forall f: nat :: !w.syms(f)) && path != "" && path[0] == '/'
    ensures var todo := Split(path[1..]);
      match Walk(w, [], todo, 0, last)
      case Fail(error) => error == ENOENT && Fold([], todo) == None
      case Done(s, left) => Fold([], todo) == Some(s) && Canonical(s) && (Chosen(w, s, left) == Base(w, s) <==> !UpBetweenMounts(w, [], todo))
  {
    var todo := Split(path[1..]);
    JoinSplit(path[1..]);
    WalkIsFold(w, [], todo, last);
    if Fold([], todo).Some? {
      FoldCanonical([], todo);
      ChosenIsLongestIff(w, [], todo);
    }
  }

  // -------------------------------------------------------------- with symbolic links

  ghost predicate Folded(stack: seq<string>, todo: seq<string>, r: Outcome) {
    r.Done? && Fold(stack, todo) == Some(r.stack) && r.left == LastUp(stack, todo)
  }

  /** A link is followed at the k-th component; what is then to do is folded to the outcome. */
  ghost predicate FollowedAt(w: World, stack: seq<string>, todo: seq<string>, k: nat, target: string, r: Outcome)
    requires "/" in w.mounts
  {
    && k < |todo| && target != "" && r.Done? && Fold(stack, todo[..k]).Some?
    && LinkTo(w, Fold(stack, todo[..k]).value, todo[k], target)
    && var (s, t) := Follow(w, Fold(stack, todo[..k]).value, target, todo[k + 1..]);
       Folded(s, t, r) && Longer(s, t) <= w.pathMax
  }

  ghost predicate LinkTo(w: World, stack: seq<string>, c: string, target: string)
    requires "/" in w.mounts
  {
    var b := Base(w, stack);
    && c != "" && c != "." && c != ".." && !Mounted(w, stack + [c])
    && w.syms(FsAt(w, stack[..b])) && w.lstat(FsAt(w, stack[..b]), Relative(stack + [c], b)) == Link
    && w.readlink(FsAt(w, stack[..b]), Relative(stack + [c], b)) == Some(target)
  }

  /** What the walk learns of a component that is a name: nothing of a mount point, or where there are no links, or of a last one not to be followed. */
  ghost function Met(w: World, s: seq<string>, c: string, asked: bool): Stat
    requires "/" in w.mounts
  {
    var b := Base(w, s);
    if c == "" || c == "." || c == ".." || Mounted(w, s + [c]) || !w.syms(FsAt(w, s[..b])) || !asked then Dir
    else w.lstat(FsAt(w, s[..b]), Relative(s + [c], b))
  }

  ghost function TargetOf(w: World, s: seq<string>, c: string): Option<string>
    requires "/" in w.mounts
  {
    var b := Base(w, s);
    w.readlink(FsAt(w, s[..b]), Relative(s + [c], b))
  }

  /** The same for the k-th component; all but the last are asked for, and the last if it is to be followed. */
  ghost function MetAt(w: World, stack: seq<string>, todo: seq<string>, k: nat, last: bool): Stat
    requires "/" in w.mounts && k < |todo|
  {
    match Fold(stack, todo[..k])
    case None => Dir
    case Some(s) => Met(w, s, todo[k], k + 1 < |todo| || last)
  }

  /** How many of the first k components are links. */
  ghost function Seen(w: World, stack: seq<string>, todo: seq<string>, k: nat, last: bool): nat
    requires "/" in w.mounts && k <= |todo|
  {
    if k == 0 then 0 else Seen(w, stack, todo, k - 1, last) + if MetAt(w, stack, todo, k - 1, last) == Link then 1 else 0
  }

  /** The walk goes on past the k-th component; past a link only if it cannot be read. */
  ghost predicate Passes(w: World, stack: seq<string>, todo: seq<string>, k: nat, links: nat, last: bool)
    requires "/" in w.mounts && k < |todo|
  {
    match Fold(stack, todo[..k])
    case None => false
    case Some(s) =>
      && (todo[k] == ".." ==> s != [])
      && match MetAt(w, stack, todo, k, last)
         case Link => links + Seen(w, stack, todo, k, last) + 1 < MAX_LINKS && TargetOf(w, s, todo[k]) == None
         case Other => k + 1 == |todo|
         case _ => true
  }

  /** What the walk comes to at the first component that it does not pass, where s is the stack before it. */
  ghost function StopsWith(w: World, s: seq<string>, c: string, rest: seq<string>, met: Stat, links: nat, last: bool): Outcome
    requires "/" in w.mounts
  {
    if c == ".." then Fail(ENOENT)
    else if met != Link then Fail(ENOTDIR)
    else if links + 1 >= MAX_LINKS then Fail(ELOOP)
    else match TargetOf(w, s, c)
      case None => Fail(ENOENT)
      case Some(target) =>
        if target == "" then Fail(ENOENT)
        else if Longer(Follow(w, s, target, rest).0, Follow(w, s, target, rest).1) > w.pathMax then Fail(ENAMETOOLONG)
        else Walk(w, Follow(w, s, target, rest).0, Follow(w, s, target, rest).1, links + 1, last)
  }

  lemma FoldedNone(stack: seq<string>, r: Outcome)
    requires r == Done(stack, None)
    ensures Folded(stack, [], r)
  {
  }

  lemma FoldedLater(stack: seq<string>, todo: seq<string>, r: Outcome)
    requires todo != [] && (todo[0] == ".." ==> stack != [] && |todo| > 1) && Folded(Moved(stack, todo[0]), todo[1..], r)
    ensures Folded(stack, todo, r)
  {
    LastUpRest(stack, todo);
  }

  lemma FoldShift(stack: seq<string>, todo: seq<string>, k: nat)
    requires k < |todo| && (todo[0] == ".." ==> stack != [])
    ensures Fold(stack, todo[..k + 1]) == Fold(Moved(stack, todo[0]), todo[1..][..k])
  {
    hide Fold, Moved;
    FoldStep(stack, todo[..k + 1]);
    RestOfFront(todo, k + 1);
  }

  lemma MetShift(w: World, stack: seq<string>, todo: seq<string>, k: nat, last: bool)
    requires "/" in w.mounts && k + 1 < |todo| && (todo[0] == ".." ==> stack != [])
    ensures MetAt(w, stack, todo, k + 1, last) == MetAt(w, Moved(stack, todo[0]), todo[1..], k, last)
  {
    hide Fold, Moved, Met;
    FoldShift(stack, todo, k);
  }

  lemma {:induction false} SeenShift(w: World, stack: seq<string>, todo: seq<string>, k: nat, last: bool)
    requires "/" in w.mounts && k < |todo| && (todo[0] == ".." ==> stack != [])
    ensures Seen(w, stack, todo, k + 1, last) == Seen(w, stack, todo, 1, last) + Seen(w, Moved(stack, todo[0]), todo[1..], k, last)
  {
    hide MetAt, Moved;
    if k > 0 {
      SeenShift(w, stack, todo, k - 1, last);
      MetShift(w, stack, todo, k - 1, last);
    }
  }

  lemma PassShift(w: World, stack: seq<string>, todo: seq<string>, k: nat, links: nat, last: bool)
    requires "/" in w.mounts && k + 1 < |todo| && (todo[0] == ".." ==> stack != [])
    ensures Passes(w, stack, todo, k + 1, links, last)
       <==> Passes(w, Moved(stack, todo[0]), todo[1..], k, links + Seen(w, stack, todo, 1, last), last)
  {
    hide Fold, Moved, MetAt, Seen, TargetOf;
    FoldShift(stack, todo, k);
    MetShift(w, stack, todo, k, last);
    SeenShift(w, stack, todo, k, last);
  }

  /** One turn over a component that the walk passes. */
  lemma TurnPasses(w: World, stack: seq<string>, todo: seq<string>, links: nat, last: bool)
    requires "/" in w.mounts && links < MAX_LINKS && todo != [] && Passes(w, stack, todo, 0, links, last)
    ensures todo[0] == ".." ==> stack != []
    ensures links + Seen(w, stack, todo, 1, last) < MAX_LINKS
    ensures Turn(w, stack, todo, links, last) == if todo[0] == ".." && |todo| == 1 then Stop(Done(Moved(stack, ".."), Some(stack)))
                                                 else Go(Moved(stack, todo[0]), todo[1..], links + Seen(w, stack, todo, 1, last))
  {
    hide Follow, Longer, Mounted, FsAt, Relative, Base;
    SeenOne(w, stack, todo, last);
    assert todo[..0] == [];
  }

  lemma SeenOne(w: World, stack: seq<string>, todo: seq<string>, last: bool)
    requires "/" in w.mounts && todo != []
    ensures Seen(w, stack, todo, 1, last) == if MetAt(w, stack, todo, 0, last) == Link then 1 else 0
  {
    hide MetAt;
    assert Seen(w, stack, todo, 0, last) == 0;
  }

  /** One turn at a component that it does not. */
  lemma TurnStops(w: World, stack: seq<string>, todo: seq<string>, links: nat, last: bool)
    requires "/" in w.mounts && links < MAX_LINKS && todo != [] && !Passes(w, stack, todo, 0, links, last)
    ensures Walk(w, stack, todo, links, last) == StopsWith(w, stack, todo[0], todo[1..], MetAt(w, stack, todo, 0, last), links, last)
  {
    hide Follow, Longer, Mounted, FsAt, Relative, Base;
    assert todo[..0] == [];
    assert Seen(w, stack, todo, 0, last) == 0;
  }

  /**
   Resolution in general, for every path, mount table and link: if the walk passes all components, the outcome is their fold;
   else the first that it does not pass decides. It is ".." at the root, something followed by more that is neither directory
   nor link, or a link: one too many, an empty or too long one, or one that is followed.
   */
  lemma {:induction false} WalkIsExact(w: World, stack: seq<string>, todo: seq<string>, links: nat, last: bool, k: nat)
    requires "/" in w.mounts && links < MAX_LINKS && k <= |todo| && forall j :: 0 <= j < k ==> Passes(w, stack, todo, j, links, last)
    ensures k == |todo| ==> Folded(stack, todo, Walk(w, stack, todo, links, last))
    ensures k < |todo| ==> Fold(stack, todo[..k]).Some?
    ensures k < |todo| && !Passes(w, stack, todo, k, links, last) ==>
      Walk(w, stack, todo, links, last) == StopsWith(w, Fold(stack, todo[..k]).value, todo[k], todo[k + 1..],
        MetAt(w, stack, todo, k, last), links + Seen(w, stack, todo, k, last), last)
    decreases k
  {
    hide Turn, Follow, Longer, Moved, Folded, Fold, MetAt, Seen, Passes, StopsWith;
    if k == 0 {
      assert todo[..0] == [];
      FoldNone(stack);
      SeenNone(w, stack, todo, last);
      if todo == [] {
        FoldedNone(stack, Walk(w, stack, todo, links, last));
      } else if !Passes(w, stack, todo, 0, links, last) {
        TurnStops(w, stack, todo, links, last);
      }
    } else {
      assert Passes(w, stack, todo, 0, links, last);
      TurnPasses(w, stack, todo, links, last);
      if todo[0] == ".." && |todo| == 1 {
        UpOnly(stack, todo);
      } else {
        var s, rest, now := Moved(stack, todo[0]), todo[1..], links + Seen(w, stack, todo, 1, last);
        forall j | 0 <= j < k - 1
          ensures Passes(w, s, rest, j, now, last)
        {
          PassShift(w, stack, todo, j, links, last);
          assert Passes(w, stack, todo, j + 1, links, last);
        }
        WalkIsExact(w, s, rest, now, last, k - 1);
        if k == |todo| {
          FoldedLater(stack, todo, Walk(w, stack, todo, links, last));
        } else {
          FoldShift(stack, todo, k - 1);
          MetShift(w, stack, todo, k - 1, last);
          SeenShift(w, stack, todo, k - 1, last);
          PassShift(w, stack, todo, k - 1, links, last);
          assert rest[k..] == todo[k + 1..];
        }
      }
    }
  }

  lemma SeenNone(w: World, stack: seq<string>, todo: seq<string>, last: bool)
    requires "/" in w.mounts
    ensures Seen(w, stack, todo, 0, last) == 0
  {
  }

  lemma UpOnly(stack: seq<string>, todo: seq<string>)
    requires |todo| == 1 && todo[0] == ".." && stack != []
    ensures Folded(stack, todo, Done(Moved(stack, ".."), Some(stack)))
  {
    LastUpRest(stack, todo);
    FoldNone(Moved(stack, ".."));
  }

  // -------------------------------------------------------------- paths that are resolved

  /** A link that is to be followed, unless one before it is. */
  ghost predicate Followable(w: World, stack: seq<string>, todo: seq<string>, k: nat, target: string, last: bool)
    requires "/" in w.mounts
  {
    && k < |todo| && (k + 1 < |todo| || last) && Fold(stack, todo[..k]).Some?
    && LinkTo(w, Fold(stack, todo[..k]).value, todo[k], target)
  }

  ghost predicate FirstLink(w: World, stack: seq<string>, todo: seq<string>, k: nat, target: string, last: bool)
    requires "/" in w.mounts
  {
    && Followable(w, stack, todo, k, target, last)
    && forall j: nat, t :: j < k ==> !Followable(w, stack, todo, j, t, last)
  }

  lemma FollowableIs(w: World, stack: seq<string>, todo: seq<string>, k: nat, target: string, last: bool)
    requires "/" in w.mounts && k < |todo| && Fold(stack, todo[..k]).Some?
    ensures Followable(w, stack, todo, k, target, last)
       <==> MetAt(w, stack, todo, k, last) == Link && TargetOf(w, Fold(stack, todo[..k]).value, todo[k]) == Some(target)
  {
    hide Fold, Base, Mounted, FsAt, Relative;
  }

  lemma PassedIsNoLink(w: World, stack: seq<string>, todo: seq<string>, k: nat, links: nat, target: string, last: bool)
    requires "/" in w.mounts && k < |todo| && Passes(w, stack, todo, k, links, last)
    ensures !Followable(w, stack, todo, k, target, last)
  {
    hide Fold, MetAt, Seen, TargetOf, Followable;
    FollowableIs(w, stack, todo, k, target, last);
  }

  /** The first component that the walk does not pass, or how many there are if it passes all. */
  lemma FirstStop(w: World, stack: seq<string>, todo: seq<string>, links: nat, last: bool) returns (k: nat)
    requires "/" in w.mounts
    ensures k <= |todo| && forall j :: 0 <= j < k ==> Passes(w, stack, todo, j, links, last)
    ensures k < |todo| ==> !Passes(w, stack, todo, k, links, last)
  {
    hide Passes;
    k := 0;
    while k < |todo| && Passes(w, stack, todo, k, links, last)
      invariant k <= |todo| && forall j :: 0 <= j < k ==> Passes(w, stack, todo, j, links, last)
    {
      k := k + 1;
    }
  }

  /** With one link followed already, only paths without a further one are resolved. */
  lemma SecondPart(w: World, stack: seq<string>, todo: seq<string>, links: nat, last: bool)
    requires "/" in w.mounts && 0 < links < MAX_LINKS && Walk(w, stack, todo, links, last).Done?
    ensures Folded(stack, todo, Walk(w, stack, todo, links, last))
  {
    hide Folded, Fold, MetAt, Seen, Passes, Walk;
    var k := FirstStop(w, stack, todo, links, last);
    WalkIsExact(w, stack, todo, links, last, k);
  }

  /**
   What is resolved is the fold of the components, with the target of the first link that is to be followed in its place; the
   last component counts as one only if it is to be followed.
   */
  lemma ResolvedIsFolded(w: World, stack: seq<string>, todo: seq<string>, last: bool)
    requires "/" in w.mounts && Walk(w, stack, todo, 0, last).Done?
    ensures var r := Walk(w, stack, todo, 0, last);
      && ((forall k: nat, target :: !Followable(w, stack, todo, k, target, last)) ==> Folded(stack, todo, r))
      && (forall k: nat, target :: FirstLink(w, stack, todo, k, target, last) ==> FollowedAt(w, stack, todo, k, target, r))
  {
    hide Folded, Fold, MetAt, Seen, Passes, Walk, Followable, StopsWith;
    var r := Walk(w, stack, todo, 0, last);
    var k := FirstStop(w, stack, todo, 0, last);
    WalkIsExact(w, stack, todo, 0, last, k);
    forall j: nat, target | j < k
      ensures !Followable(w, stack, todo, j, target, last)
    {
      PassedIsNoLink(w, stack, todo, j, 0, target, last);
    }
    if k < |todo| {
      var target := StoppedAtLink(w, stack, todo, k, last);
      forall k': nat, t | FirstLink(w, stack, todo, k', t, last)
        ensures k' == k && t == target
      {
        OnlyFirst(w, stack, todo, k, target, k', t, last);
      }
    } else {
      NoneBehind(w, stack, todo, last);
    }
  }

  lemma NoneBehind(w: World, stack: seq<string>, todo: seq<string>, last: bool)
    requires "/" in w.mounts
    ensures forall k: nat, target :: Followable(w, stack, todo, k, target, last) ==> k < |todo|
  {
  }

  lemma OnlyFirst(w: World, stack: seq<string>, todo: seq<string>, k: nat, target: string, k': nat, t: string, last: bool)
    requires "/" in w.mounts && FirstLink(w, stack, todo, k', t, last) && Followable(w, stack, todo, k, target, last)
    requires forall j: nat, t :: j < k ==> !Followable(w, stack, todo, j, t, last)
    ensures k' == k && t == target
  {
    hide Fold, Base, Mounted, FsAt, Relative;
  }

  lemma StoppedAtLink(w: World, stack: seq<string>, todo: seq<string>, k: nat, last: bool) returns (target: string)
    requires "/" in w.mounts && k < |todo| && Walk(w, stack, todo, 0, last).Done? && Fold(stack, todo[..k]).Some?
    requires forall j :: 0 <= j < k ==> Passes(w, stack, todo, j, 0, last)
    requires Walk(w, stack, todo, 0, last) == StopsWith(w, Fold(stack, todo[..k]).value, todo[k], todo[k + 1..],
               MetAt(w, stack, todo, k, last), Seen(w, stack, todo, k, last), last)
    ensures Followable(w, stack, todo, k, target, last) && FollowedAt(w, stack, todo, k, target, Walk(w, stack, todo, 0, last))
  {
    hide Folded, Fold, MetAt, Seen, Passes, Walk, Followable, Longer, Follow, TargetOf;
    var s, rest := Fold(stack, todo[..k]).value, todo[k + 1..];
    target := TargetOf(w, s, todo[k]).value;
    FollowableIs(w, stack, todo, k, target, last);
    var (s', t') := Follow(w, s, target, rest);
    SecondPart(w, s', t', Seen(w, stack, todo, k, last) + 1, last);
    LinkOf(w, stack, todo, k, target, last);
  }

  lemma LinkOf(w: World, stack: seq<string>, todo: seq<string>, k: nat, target: string, last: bool)
    requires "/" in w.mounts && Followable(w, stack, todo, k, target, last)
    ensures LinkTo(w, Fold(stack, todo[..k]).value, todo[k], target)
  {
  }

  /** The first link that is to be followed, or the number of components if there is none. */
  lemma SomeFirst(w: World, stack: seq<string>, todo: seq<string>, last: bool) returns (k: nat, target: string)
    requires "/" in w.mounts
    ensures k <= |todo| && (k < |todo| ==> FirstLink(w, stack, todo, k, target, last))
    ensures k == |todo| ==> forall j: nat, t :: !Followable(w, stack, todo, j, t, last)
  {
    hide Followable;
    k, target := 0, "";
    NoneBehind(w, stack, todo, last);
    while k < |todo|
      invariant k <= |todo| && forall j: nat, t :: j < k ==> !Followable(w, stack, todo, j, t, last)
    {
      if t :| Followable(w, stack, todo, k, t, last) {
        target := t;
        return;
      }
      k := k + 1;
    }
  }

  /** The names a, b and f in the root filesystem: /a is a link to b, /b one to f, and /f is a plain file. */
  ghost predicate TwoLinks(w: World) {
    && w.mounts == map["/" := 0] && w.syms(0) && w.pathMax >= 100
    && w.lstat(0, "a") == w.lstat(0, "b") == Link && w.lstat(0, "f") == Other
    && w.readlink(0, "a") == Some("b") && w.readlink(0, "b") == Some("f")
  }

  /**
   A last link is followed only where that is asked for, one before a slash always; a second link is one too many, and nothing
   is behind a file.
   */
  lemma LastLinks(w: World)
    requires TwoLinks(w)
    ensures Walk(w, [], ["b"], 0, false) == Done(["b"], None) && Walk(w, [], ["b"], 0, true) == Done(["f"], None)
    ensures Walk(w, [], ["a"], 0, false) == Done(["a"], None) && Walk(w, [], ["a"], 0, true) == Fail(ELOOP)
    ensures Walk(w, [], ["b", ""], 0, false) == Fail(ENOTDIR) && Walk(w, [], ["f", ".."], 0, true) == Fail(ENOTDIR)
  {
    hide Enter, Walk;
    assert ["b"] + [""] == ["b", ""] && ["f"] + [""] == ["f", ""] && ["f"] + [".."] == ["f", ".."];
    assert ["b"] + [] == ["b"] && ["f"] + [] == ["f"];
    LastLink(w, "b", "f", false);
    LastLink(w, "b", "f", true);
    LastLink(w, "a", "b", false);
    LastLink(w, "a", "b", true);
    EnterLink(w, "b", "f", [], 1, true);
    EnterLink(w, "b", "f", [""], 0, false);
    EnterFile(w, [], 1, true);
    EnterFile(w, [""], 1, false);
    EnterFile(w, [".."], 0, true);
    WalkEnters(w, "f", [], 1, true);
    WalkEnters(w, "b", [], 1, true);
    WalkEnters(w, "b", [""], 0, false);
    WalkEnters(w, "f", [""], 1, false);
    WalkEnters(w, "f", [".."], 0, true);
    WalkNone(w, ["f"], 1, true);
  }

  lemma LastLink(w: World, c: string, target: string, last: bool)
    requires TwoLinks(w) && c in ["a", "b"] && w.readlink(0, c) == Some(target) && target in ["b", "f"]
    ensures Walk(w, [], [c], 0, last) == if last then Walk(w, [], [target], 1, true) else Done([c], None)
  {
    hide Enter, Walk;
    EnterLink(w, c, target, [], 0, last);
    WalkEnters(w, c, [], 0, last);
    WalkNone(w, [c], 0, last);
    assert [target] + [] == [target] && [c] + [] == [c] && [] + [c] == [c];
  }

  lemma WalkEnters(w: World, c: string, rest: seq<string>, links: nat, last: bool)
    requires "/" in w.mounts && links < MAX_LINKS && c != "" && c != "." && c != ".."
    ensures Walk(w, [], [c] + rest, links, last) ==
      match Enter(w, [], c, rest, links, last) case Go(s, t, l) => Walk(w, s, t, l, last) case Stop(outcome) => outcome
  {
    hide Enter;
    assert ([c] + rest)[1..] == rest;
  }

  lemma WalkNone(w: World, s: seq<string>, links: nat, last: bool)
    requires "/" in w.mounts && links < MAX_LINKS
    ensures Walk(w, s, [], links, last) == Done(s, None)
  {
  }

  lemma InRoot(w: World, c: string)
    requires TwoLinks(w) && |c| == 1
    ensures !Mounted(w, [c]) && Relative([c], 0) == c && Base(w, []) == 0
  {
    assert [c][..0] == [] && Path([]) == "" && Path([c]) == "" + "/" + c;
  }

  lemma EnterFile(w: World, rest: seq<string>, links: nat, last: bool)
    requires TwoLinks(w) && links < MAX_LINKS && (rest != [] || last)
    ensures Enter(w, [], "f", rest, links, last) == if rest != [] then Stop(Fail(ENOTDIR)) else Go(["f"], [], links)
  {
    InRoot(w, "f");
    assert [] + ["f"] == ["f"];
    hide Path, Relative, Base, Mounted;
  }

  lemma EnterLink(w: World, c: string, target: string, rest: seq<string>, links: nat, last: bool)
    requires TwoLinks(w) && links < MAX_LINKS && c in ["a", "b"] && w.readlink(0, c) == Some(target) && target in ["b", "f"] && rest in [[], [""]]
    ensures Enter(w, [], c, rest, links, last) ==
      if rest == [] && !last then Go([c], rest, links) else if links + 1 >= MAX_LINKS then Stop(Fail(ELOOP)) else Go([], [target] + rest, links + 1)
  {
    InRoot(w, c);
    assert [] + [c] == [c];
    JoinOne(target);
    assert Split(target) == [target];
    assert [target, ""][1..] == [""] && Join([target, ""]) == target + "/" + "";
    hide Relative, Base, Mounted;
  }

  /** With or without links, every path that is resolved is resolved to a canonical stack. */
  lemma ResolvedCanonical(w: World, path: string, last: bool)
    requires "/" in w.mounts && path != "" && path[0] == '/' && Walk(w, [], Split(path[1..]), 0, last).Done?
    ensures Canonical(Walk(w, [], Split(path[1..]), 0, last).stack)
  {
    hide Fold, Walk, Split, LinkTo, Longer, LastUp;
    var todo := Split(path[1..]);
    JoinSplit(path[1..]);
    var r := Walk(w, [], todo, 0, last);
    ResolvedIsFolded(w, [], todo, last);
    var k, target := SomeFirst(w, [], todo, last);
    if k == |todo| {
      FoldCanonical([], todo);
    } else {
      assert forall c :: c in todo[..k] ==> c in todo;
      FoldCanonical([], todo[..k]);
      FollowSlashFree(w, Fold([], todo[..k]).value, target, todo, k);
      var (s, t) := Follow(w, Fold([], todo[..k]).value, target, todo[k + 1..]);
      FoldCanonical(s, t);
    }
  }

  lemma FollowSlashFree(w: World, stack: seq<string>, target: string, todo: seq<string>, k: nat)
    requires target != "" && Canonical(stack) && AllSlashFree(todo) && k < |todo|
    ensures var (s, t) := Follow(w, stack, target, todo[k + 1..]); Canonical(s) && AllSlashFree(t)
  {
    var c := Split(if target[0] == '/' then target[1..] else target);
    JoinSplit(if target[0] == '/' then target[1..] else target);
    assert forall x :: x in c + todo[k + 1..] ==> x in c || x in todo;
  }
}
