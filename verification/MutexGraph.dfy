/**
 Mutexes with priority inheritance, on values: who owns what, who waits for what, and the
 steps that the locking code takes. Threads and mutexes are known by their numbers.
 */
module MutexGraph {

  type Tid = nat
  type Mid = nat

  datatype Option<X> = None | Some(value: X)

  function Or<X>(m: map<nat, X>, k: nat, otherwise: X): X {
    if k in m then m[k] else otherwise
  }

  function Maybe<X>(m: map<nat, X>, k: nat): Option<X> {
    if k in m then Some(m[k]) else None
  }

  datatype State = State(
    prio: map<Tid, int>,
    saved: map<Tid, int>,
    /** The mutexes a thread holds, the last one taken first. */
    locked: map<Tid, seq<Mid>>,
    /** The mutex a thread waits for. */
    waitsOn: map<Tid, Mid>,
    owner: map<Mid, Tid>,
    /** The waiting threads, in the order of the heap vector. */
    queue: map<Mid, seq<Tid>>,
    /** The recursive depth, -1 for a mutex that is not recursive. */
    depth: map<Mid, int>)
  {
    function Prio(t: Tid): int {
      Or(prio, t, 0)
    }

    function Saved(t: Tid): int {
      Or(saved, t, 0)
    }

    function Held(t: Tid): seq<Mid> {
      Or(locked, t, [])
    }

    function Wait(t: Tid): Option<Mid> {
      Maybe(waitsOn, t)
    }

    function Owner(m: Mid): Option<Tid> {
      Maybe(owner, m)
    }

    function Queue(m: Mid): seq<Tid> {
      Or(queue, m, [])
    }

    function Depth(m: Mid): int {
      Or(depth, m, -1)
    }
  }

  // -------------------------------------------------------------- heaps

  /** A vector is a max-heap by priority. */
  ghost predicate IsHeap(v: seq<Tid>, s: State) {
    forall i, j :: 0 < i < |v| && j == (i - 1) / 2 ==> s.Prio(v[i]) <= s.Prio(v[j])
  }

  /** The front of a heap is greatest. */
  lemma {:induction false} FrontIsGreatest(v: seq<Tid>, s: State, i: nat)
    requires IsHeap(v, s) && i < |v|
    ensures s.Prio(v[i]) <= s.Prio(v[0])
    decreases i
  {
    if i > 0 {
      FrontIsGreatest(v, s, (i - 1) / 2);
    }
  }

  lemma FrontAbove(v: seq<Tid>, s: State)
    requires IsHeap(v, s) && v != []
    ensures forall t :: t in v ==> s.Prio(t) <= s.Prio(v[0])
  {
    forall t | t in v
      ensures s.Prio(t) <= s.Prio(v[0])
    {
      var i :| 0 <= i < |v| && v[i] == t;
      FrontIsGreatest(v, s, i);
    }
  }

  // -------------------------------------------------------------- the wait graph

  /** A mutex is owned by a thread exactly when it is once in the thread's list. */
  ghost predicate Owned(s: State) {
    forall t: Tid, m: Mid :: OwnedOnce(s, t, m)
  }

  ghost predicate OwnedOnce(s: State, t: Tid, m: Mid) {
    multiset(s.Held(t))[m] == if s.Owner(m) == Some(t) then 1 else 0
  }

  /** A thread waits for a mutex exactly when it is once in the mutex' vector. */
  ghost predicate Queued(s: State) {
    forall t: Tid, m: Mid :: QueuedOnce(s, t, m)
  }

  ghost predicate QueuedOnce(s: State, t: Tid, m: Mid) {
    multiset(s.Queue(m))[t] == if s.Wait(t) == Some(m) then 1 else 0
  }

  ghost predicate Heaps(s: State) {
    forall m: Mid :: IsHeap(s.Queue(m), s)
  }

  /** A mutex with waiters has an owner. */
  ghost predicate Busy(s: State) {
    forall m: Mid :: BusyAt(s, m)
  }

  ghost predicate BusyAt(s: State, m: Mid) {
    s.Queue(m) != [] ==> s.Owner(m).Some?
  }

  /** A free mutex is not held at any depth. */
  ghost predicate Shallow(s: State) {
    forall m: Mid :: ShallowAt(s, m)
  }

  ghost predicate ShallowAt(s: State, m: Mid) {
    -1 <= s.Depth(m) && (s.Owner(m).None? ==> s.Depth(m) <= 0)
  }

  /** What every step keeps. */
  ghost predicate Graph(s: State) {
    Owned(s) && Queued(s) && Heaps(s) && Busy(s)
  }

  /** The thread that a thread waits for. */
  function Next(s: State, t: Tid): Option<Tid> {
    match s.Wait(t)
    case None => None
    case Some(m) => s.Owner(m)
  }

  /** The n-th thread on the chain of waiting that starts at t. */
  function After(s: State, t: Tid, n: nat): Option<Tid>
    decreases n
  {
    if n == 0 then Some(t) else
      match Next(s, t)
      case None => None
      case Some(u) => After(s, u, n - 1)
  }

  ghost predicate OnChain(s: State, t: Tid, u: Tid) {
    exists n: nat :: After(s, t, n) == Some(u)
  }

  ghost predicate Ends(s: State, t: Tid) {
    exists n: nat :: After(s, t, n) == None
  }

  ghost predicate Acyclic(s: State) {
    forall t: Tid :: Ends(s, t)
  }

  lemma {:induction false} AfterSum(s: State, t: Tid, a: nat, b: nat)
    ensures After(s, t, a + b) == match After(s, t, a) case None => None case Some(u) => After(s, u, b)
    decreases a
  {
    hide Next;
    if a > 0 && Next(s, t).Some? {
      AfterSum(s, Next(s, t).value, a - 1, b);
    }
  }

  /** Two graphs that agree on where the threads of a chain point have the same chain. */
  lemma {:induction false} SameChain(s: State, s': State, t: Tid, n: nat)
    requires forall k: nat :: k < n && After(s, t, k).Some? ==> Next(s', After(s, t, k).value) == Next(s, After(s, t, k).value)
    ensures After(s', t, n) == After(s, t, n)
    decreases n
  {
    hide Next;
    if n > 0 {
      assert After(s, t, 0) == Some(t);
      if Next(s, t).Some? {
        var u := Next(s, t).value;
        forall k: nat | k < n - 1 && After(s, u, k).Some?
          ensures Next(s', After(s, u, k).value) == Next(s, After(s, u, k).value)
        {
          assert After(s, t, k + 1) == After(s, u, k);
        }
        SameChain(s, s', u, n - 1);
      }
    }
  }

  /** A chain that comes back to where it was never ends. */
  lemma {:induction false} CycleForever(s: State, t: Tid, d: nat, n: nat)
    requires d > 0 && After(s, t, d) == Some(t)
    ensures After(s, t, n).Some?
    decreases n
  {
    if n <= d {
      AfterSum(s, t, n, d - n);
    } else {
      AfterSum(s, t, d, n - d);
      CycleForever(s, t, d, n - d);
    }
  }

  // -------------------------------------------------------------- inherited priority

  /** x is the greatest of the saved priority and the priorities of all threads waiting for the given mutexes. */
  ghost predicate Greatest(s: State, saved: int, held: seq<Mid>, x: int) {
    && x >= saved && (forall m, w :: m in held && w in s.Queue(m) ==> s.Prio(w) <= x)
    && (x == saved || exists m, w :: m in held && w in s.Queue(m) && s.Prio(w) == x)
  }

  /** A thread that holds a mutex has exactly the priority it inherits. */
  ghost predicate ExactAt(s: State, t: Tid) {
    s.Held(t) != [] ==> Greatest(s, s.Saved(t), s.Held(t), s.Prio(t))
  }

  ghost predicate Exact(s: State) {
    forall t: Tid :: ExactAt(s, t)
  }

  // -------------------------------------------------------------- the steps

  /** The thread p takes a free mutex; d is the depth from then on. */
  function Acquired(s: State, p: Tid, m: Mid, d: int): State {
    s.(owner := s.owner[m := p],
       saved := if s.Held(p) == [] then s.saved[p := s.Prio(p)] else s.saved,
       locked := s.locked[p := [m] + s.Held(p)],
       depth := s.depth[m := d])
  }

  function Deepened(s: State, m: Mid, d: int): State {
    s.(depth := s.depth[m := d])
  }

  /** The thread p joins the heap of a mutex, which becomes v. */
  function Joined(s: State, p: Tid, m: Mid, v: seq<Tid>): State {
    s.(queue := s.queue[m := v], waitsOn := s.waitsOn[p := m])
  }

  /** One round of the walk: the priority of t is set and the heap that t is in is made again. */
  function Reprioritized(s: State, t: Tid, x: int, v: seq<Tid>): State {
    s.(prio := s.prio[t := x], queue := if t in s.waitsOn then s.queue[s.waitsOn[t] := v] else s.queue)
  }

  /** The thread p starts to wait for a mutex that o owns, and lifts the chain from o if it is more urgent than o. */
  ghost predicate Blocked(s: State, s': State, p: Tid, m: Mid, o: Tid) {
    && s'.saved == s.saved && s'.locked == s.locked && s'.owner == s.owner && s'.depth == s.depth
    && s'.waitsOn == s.waitsOn[p := m]
    && (forall t: Tid :: s'.Prio(t) == if s.Prio(p) > s.Prio(o) && OnChain(s, o, t) then s.Prio(p) else s.Prio(t))
    && (forall k: Mid :: multiset(s'.Queue(k)) == multiset(s.Queue(k)) + if k == m then multiset{p} else multiset{})
  }

  function Without(l: seq<Mid>, m: Mid): seq<Mid> {
    if l == [] then [] else if l[0] == m then l[1..] else [l[0]] + Without(l[1..], m)
  }

  /** The thread p has dropped a mutex and has the priority x. */
  function Freed(s: State, p: Tid, m: Mid, x: int): State {
    s.(locked := s.locked[p := Without(s.Held(p), m)], prio := s.prio[p := x], owner := s.owner - {m})
  }

  /** A free mutex goes to the front of its heap, which becomes v. */
  function Granted(s: State, m: Mid, v: seq<Tid>): State
    requires s.Queue(m) != []
  {
    var w := s.Queue(m)[0];
    s.(owner := s.owner[m := w],
       waitsOn := s.waitsOn - {w},
       saved := if s.Held(w) == [] then s.saved[w := s.Prio(w)] else s.saved,
       locked := s.locked[w := [m] + s.Held(w)],
       queue := s.queue[m := v])
  }

  /** The thread p gives a mutex back; the front of the heap, if any, owns it next. */
  function Unlocked(s: State, p: Tid, m: Mid, x: int, v: seq<Tid>): State {
    var f := Freed(s, p, m, x);
    if s.Queue(m) == [] then f else Granted(f, m, v)
  }

  ghost predicate MayBlock(s: State, p: Tid, m: Mid, o: Tid) {
    Graph(s) && s.Owner(m) == Some(o) && o != p && s.Wait(p) == None
  }

  ghost predicate MayUnlock(s: State, p: Tid, m: Mid, x: int, v: seq<Tid>) {
    && Graph(s) && s.Owner(m) == Some(p) && s.Wait(p) == None
    && Greatest(s, s.Saved(p), Without(s.Held(p), m), x)
    && (s.Queue(m) != [] ==> multiset(v) == multiset(s.Queue(m)[1..]) && IsHeap(v, s))
  }

  // -------------------------------------------------------------- every step keeps the graph

  lemma SameOwners(s: State, s': State)
    requires Owned(s) && s'.locked == s.locked && s'.owner == s.owner
    ensures Owned(s')
  {
    forall t: Tid, m: Mid
      ensures OwnedOnce(s', t, m)
    {
      assert OwnedOnce(s, t, m);
    }
  }

  lemma SameQueues(s: State, s': State)
    requires Queued(s) && s'.queue == s.queue && s'.waitsOn == s.waitsOn
    ensures Queued(s')
  {
    forall t: Tid, m: Mid
      ensures QueuedOnce(s', t, m)
    {
      assert QueuedOnce(s, t, m);
    }
  }

  /** Heaps stay heaps while no priority changes. */
  lemma SameHeaps(s: State, s': State)
    requires Heaps(s) && s'.prio == s.prio && s'.queue == s.queue
    ensures Heaps(s')
  {
    forall m: Mid
      ensures IsHeap(s'.Queue(m), s')
    {
      assert IsHeap(s.Queue(m), s);
    }
  }

  lemma AcquiredGraph(s: State, p: Tid, m: Mid, d: int)
    requires Graph(s) && s.Owner(m) == None
    ensures Graph(Acquired(s, p, m, d))
  {
    var s' := Acquired(s, p, m, d);
    assert Owned(s') by {
      assert multiset(s'.Held(p)) == multiset{m} + multiset(s.Held(p));
      forall t: Tid, k: Mid
        ensures OwnedOnce(s', t, k)
      {
        assert OwnedOnce(s, t, k);
      }
    }
    forall k: Mid
      ensures BusyAt(s', k)
    {
      assert BusyAt(s, k);
    }
    SameQueues(s, s');
    SameHeaps(s, s');
  }

  lemma DeepenedGraph(s: State, m: Mid, d: int)
    requires Graph(s)
    ensures Graph(Deepened(s, m, d))
  {
    var s' := Deepened(s, m, d);
    forall k: Mid
      ensures BusyAt(s', k)
    {
      assert BusyAt(s, k);
    }
    SameOwners(s, s');
    SameQueues(s, s');
    SameHeaps(s, s');
  }

  lemma JoinedGraph(s: State, p: Tid, m: Mid, o: Tid, v: seq<Tid>)
    requires MayBlock(s, p, m, o)
    requires multiset(v) == multiset(s.Queue(m)) + multiset{p} && IsHeap(v, s)
    ensures Graph(Joined(s, p, m, v))
  {
    var s' := Joined(s, p, m, v);
    assert Queued(s') by {
      forall t: Tid, k: Mid
        ensures QueuedOnce(s', t, k)
      {
        assert QueuedOnce(s, t, k);
      }
    }
    forall k: Mid
      ensures IsHeap(s'.Queue(k), s') && BusyAt(s', k)
    {
      assert IsHeap(s.Queue(k), s) && BusyAt(s, k);
    }
    SameOwners(s, s');
  }

  lemma ReprioritizedQueued(s: State, t: Tid, x: int, v: seq<Tid>)
    requires Queued(s) && (t in s.waitsOn ==> multiset(v) == multiset(s.Queue(s.waitsOn[t])))
    ensures Queued(Reprioritized(s, t, x, v))
  {
    forall u: Tid, k: Mid
      ensures QueuedOnce(Reprioritized(s, t, x, v), u, k)
    {
      assert QueuedOnce(s, u, k);
    }
  }

  lemma ReprioritizedGraph(s: State, t: Tid, x: int, v: seq<Tid>)
    requires Graph(s)
    requires t in s.waitsOn ==> multiset(v) == multiset(s.Queue(s.waitsOn[t])) && IsHeap(v, s.(prio := s.prio[t := x]))
    ensures Graph(Reprioritized(s, t, x, v))
  {
    hide OwnedOnce, QueuedOnce;
    var s' := Reprioritized(s, t, x, v);
    ReprioritizedQueued(s, t, x, v);
    forall k: Mid
      ensures IsHeap(s'.Queue(k), s') && BusyAt(s', k)
    {
      assert IsHeap(s.Queue(k), s) && BusyAt(s, k);
      if s.Wait(t) != Some(k) {
        NotQueued(s, t, k);
        HeapElsewhere(s.Queue(k), s, s', t);
      } else if v != [] {
        assert v[0] in multiset(v);
      }
    }
    SameOwners(s, s');
  }

  lemma NotQueued(s: State, t: Tid, k: Mid)
    requires Queued(s) && s.Wait(t) != Some(k)
    ensures t !in s.Queue(k)
  {
    assert QueuedOnce(s, t, k);
    assert t in s.Queue(k) ==> t in multiset(s.Queue(k));
  }

  lemma InQueue(s: State, t: Tid, k: Mid)
    requires Queued(s)
    ensures t in s.Queue(k) <==> s.Wait(t) == Some(k)
  {
    assert QueuedOnce(s, t, k);
    assert t in s.Queue(k) <==> t in multiset(s.Queue(k));
  }

  lemma InHeld(s: State, t: Tid, k: Mid)
    requires Owned(s)
    ensures k in s.Held(t) <==> s.Owner(k) == Some(t)
  {
    assert OwnedOnce(s, t, k);
    assert k in s.Held(t) <==> k in multiset(s.Held(t));
  }

  // -------------------------------------------------------------- unlocking

  lemma {:induction false} WithoutOne(l: seq<Mid>, m: Mid)
    ensures multiset(Without(l, m)) == multiset(l) - multiset{m}
  {
    if l != [] {
      assert l == [l[0]] + l[1..];
      if l[0] != m {
        WithoutOne(l[1..], m);
        assert multiset(Without(l, m)) == multiset{l[0]} + multiset(Without(l[1..], m));
      }
    }
  }

  /** All of the graph invariant but that the free mutex m may have waiters. */
  ghost predicate GraphBut(s: State, m: Mid) {
    && Owned(s) && Queued(s) && Heaps(s) && s.Owner(m) == None
    && forall k: Mid :: k != m ==> BusyAt(s, k)
  }

  /** A heap stays one when the priority of a thread outside it changes. */
  lemma HeapElsewhere(v: seq<Tid>, s: State, s': State, p: Tid)
    requires IsHeap(v, s) && p !in v && forall t: Tid :: t != p ==> s'.Prio(t) == s.Prio(t)
    ensures IsHeap(v, s')
  {
  }

  lemma FreedOwned(s: State, p: Tid, m: Mid, x: int)
    requires Owned(s) && s.Owner(m) == Some(p)
    ensures Owned(Freed(s, p, m, x))
  {
    var s' := Freed(s, p, m, x);
    WithoutOne(s.Held(p), m);
    forall t: Tid, k: Mid
      ensures OwnedOnce(s', t, k)
    {
      assert OwnedOnce(s, t, k);
    }
  }

  lemma FreedGraph(s: State, p: Tid, m: Mid, x: int)
    requires Graph(s) && s.Owner(m) == Some(p) && s.Wait(p) == None
    ensures GraphBut(Freed(s, p, m, x), m)
  {
    hide OwnedOnce, QueuedOnce, Without;
    var s' := Freed(s, p, m, x);
    FreedOwned(s, p, m, x);
    SameQueues(s, s');
    assert BusyAt(s, m);
    forall k: Mid
      ensures IsHeap(s'.Queue(k), s') && (k != m ==> BusyAt(s', k))
    {
      assert IsHeap(s.Queue(k), s) && BusyAt(s, k);
      NotQueued(s, p, k);
      HeapElsewhere(s.Queue(k), s, s', p);
    }
  }

  /** What is known of the heap that the front has left. */
  ghost predicate MayGrant(s: State, m: Mid, v: seq<Tid>) {
    GraphBut(s, m) && s.Queue(m) != [] && multiset(v) == multiset(s.Queue(m)[1..]) && IsHeap(v, s)
  }

  /** The front of the heap is a greatest waiter; the others stay. */
  lemma FrontOfQueue(s: State, m: Mid, v: seq<Tid>)
    requires MayGrant(s, m, v)
    ensures var w := s.Queue(m)[0];
            && multiset(s.Queue(m)) == multiset{w} + multiset(v) && s.Wait(w) == Some(m)
            && (forall t: Tid :: s.Wait(t) == Some(m) ==> s.Prio(t) <= s.Prio(w))
            && (forall t: Tid :: t in v <==> s.Wait(t) == Some(m) && t != w)
            && (v != [] ==> s.Prio(v[0]) <= s.Prio(w))
  {
    var q := s.Queue(m);
    assert IsHeap(q, s);
    FrontAbove(q, s);
    assert q == [q[0]] + q[1..];
    forall t: Tid
      ensures t in q <==> s.Wait(t) == Some(m)
      ensures t in v <==> s.Wait(t) == Some(m) && t != q[0]
    {
      assert QueuedOnce(s, t, m);
      assert t in v <==> multiset(v)[t] > 0;
      assert t in q <==> multiset(q)[t] > 0;
    }
    if v != [] {
      assert v[0] in v;
    }
  }

  lemma GrantedOwned(s: State, m: Mid, v: seq<Tid>)
    requires MayGrant(s, m, v)
    ensures Owned(Granted(s, m, v))
  {
    hide QueuedOnce, BusyAt, IsHeap;
    var s' := Granted(s, m, v);
    var w := s.Queue(m)[0];
    assert multiset(s'.Held(w)) == multiset{m} + multiset(s.Held(w));
    forall t: Tid, k: Mid
      ensures OwnedOnce(s', t, k)
    {
      assert OwnedOnce(s, t, k);
    }
  }

  lemma GrantedQueued(s: State, m: Mid, v: seq<Tid>)
    requires MayGrant(s, m, v)
    ensures Queued(Granted(s, m, v))
  {
    hide OwnedOnce, BusyAt, IsHeap;
    var s' := Granted(s, m, v);
    FrontOfQueue(s, m, v);
    forall t: Tid, k: Mid
      ensures QueuedOnce(s', t, k)
    {
      assert QueuedOnce(s, t, k);
    }
  }

  lemma GrantedGraph(s: State, m: Mid, v: seq<Tid>)
    requires MayGrant(s, m, v)
    ensures Graph(Granted(s, m, v))
  {
    hide OwnedOnce, QueuedOnce;
    var s' := Granted(s, m, v);
    GrantedOwned(s, m, v);
    GrantedQueued(s, m, v);
    forall k: Mid
      ensures IsHeap(s'.Queue(k), s') && BusyAt(s', k)
    {
      assert IsHeap(s.Queue(k), s) && (k != m ==> BusyAt(s, k));
    }
  }

  lemma UnlockedGraph(s: State, p: Tid, m: Mid, x: int, v: seq<Tid>)
    requires MayUnlock(s, p, m, x, v)
    ensures Graph(Unlocked(s, p, m, x, v))
    ensures s.Queue(m) != [] ==> MayGrant(Freed(s, p, m, x), m, v)
  {
    hide OwnedOnce, QueuedOnce, IsHeap, Without, Granted;
    var f := Freed(s, p, m, x);
    FreedGraph(s, p, m, x);
    if s.Queue(m) == [] {
      assert BusyAt(f, m);
    } else {
      NotQueued(s, p, m);
      assert p !in multiset(s.Queue(m)[1..]);
      HeapElsewhere(v, s, f, p);
      GrantedGraph(f, m, v);
    }
  }

  /** The next owner is a greatest waiter, and the raise of it that the code provides for is never due. */
  lemma HighestPriorityHandoff(s: State, p: Tid, m: Mid, x: int, v: seq<Tid>)
    requires MayUnlock(s, p, m, x, v) && s.Queue(m) != []
    ensures var w, s' := s.Queue(m)[0], Unlocked(s, p, m, x, v);
            && s.Wait(w) == Some(m) && w != p && s'.Owner(m) == Some(w) && s'.Wait(w) == None
            && (forall t: Tid :: s.Wait(t) == Some(m) ==> s.Prio(t) <= s.Prio(w))
            && (forall t: Tid :: s'.Wait(t) == Some(m) <==> s.Wait(t) == Some(m) && t != w)
            && (v != [] ==> s'.Prio(v[0]) <= s'.Prio(w))
  {
    UnlockedGraph(s, p, m, x, v);
    var f := Freed(s, p, m, x);
    FrontOfQueue(f, m, v);
    forall t: Tid | s.Wait(t) == Some(m)
      ensures s.Prio(t) <= s.Prio(s.Queue(m)[0])
    {
      assert f.Wait(t) == Some(m);
    }
  }
}
