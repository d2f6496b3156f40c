/**
 What holds over whole runs of the locking code: the wait graph stays sound and without
 cycles, the walk ends, and priorities are inherited exactly.
 */
module MutexRuns {
  import opened MutexGraph

  // -------------------------------------------------------------- chains and cycles

  /** The chain from o, which p is not on, is the same after p has joined a queue. */
  lemma ChainKept(s: State, s': State, p: Tid, m: Mid, o: Tid, n: nat)
    requires s'.owner == s.owner && s'.waitsOn == s.waitsOn[p := m] && !OnChain(s, o, p)
    ensures After(s', o, n) == After(s, o, n)
  {
    forall k: nat | k < n && After(s, o, k).Some?
      ensures Next(s', After(s, o, k).value) == Next(s, After(s, o, k).value)
    {
      assert After(s, o, k).value != p;
    }
    SameChain(s, s', o, n);
  }

  /** Where an edge is new, the chain goes on along the old chain of the owner. */
  lemma {:induction false} BlockedEnds(s: State, s': State, p: Tid, m: Mid, o: Tid, t: Tid, n: nat)
    requires s'.owner == s.owner && s'.waitsOn == s.waitsOn[p := m] && s.Owner(m) == Some(o) && s.Wait(p) == None
    requires !OnChain(s, o, p) && Ends(s, o) && After(s, t, n) == None
    ensures Ends(s', t)
    decreases n
  {
    if t == p {
      var k: nat :| After(s, o, k) == None;
      ChainKept(s, s', p, m, o, k);
      assert After(s', p, k + 1) == None;
    } else if Next(s, t) == None {
      assert After(s', t, 1) == None;
    } else {
      var u := Next(s, t).value;
      BlockedEnds(s, s', p, m, o, u, n - 1);
      var k: nat :| After(s', u, k) == None;
      assert After(s', t, k + 1) == None;
    }
  }

  /** A thread that waits for a thread that waits, in the end, for it: the walk comes round for ever. */
  lemma WalkForever(s: State, s': State, p: Tid, m: Mid, o: Tid, n: nat)
    requires s'.owner == s.owner && s'.waitsOn == s.waitsOn[p := m] && s.Owner(m) == Some(o) && s.Wait(p) == None
    requires OnChain(s, o, p)
    ensures After(s', o, n).Some?
  {
    var k: nat :| After(s, o, k) == Some(p);
    forall j: nat | j < k && After(s, o, j).Some?
      ensures Next(s', After(s, o, j).value) == Next(s, After(s, o, j).value)
    {
      AfterSum(s, o, j, k - j);
      assert After(s, o, j).value != p;
    }
    SameChain(s, s', o, k);
    AfterSum(s', o, k, 1);
    assert After(s', p, 1) == Some(o);
    CycleForever(s', o, k + 1, n);
  }

  /** The inheritance walk after p has joined the queue ends exactly when p was not on the owner's chain. */
  lemma WalkTerminatesIff(s: State, p: Tid, m: Mid, o: Tid, v: seq<Tid>)
    requires MayBlock(s, p, m, o) && Ends(s, o)
    ensures Ends(Joined(s, p, m, v), o) <==> !OnChain(s, o, p)
  {
    var s' := Joined(s, p, m, v);
    if OnChain(s, o, p) {
      forall n: nat
        ensures After(s', o, n) != None
      {
        WalkForever(s, s', p, m, o, n);
      }
    } else {
      var n: nat :| After(s, o, n) == None;
      ChainKept(s, s', p, m, o, n);
    }
  }

  /** Waiting edges may go, or come to point to a thread that does not wait. */
  lemma {:induction false} ShorterEnds(s: State, s': State, t: Tid, n: nat)
    requires forall u: Tid :: Next(s', u) == Next(s, u) || Next(s', u) == None || Next(s', Next(s', u).value) == None
    requires After(s, t, n) == None
    ensures Ends(s', t)
    decreases n
  {
    if Next(s', t) == None {
      assert After(s', t, 1) == None;
    } else if Next(s', Next(s', t).value) == None {
      assert After(s', Next(s', t).value, 1) == None;
      assert After(s', t, 2) == None;
    } else {
      var u := Next(s, t).value;
      ShorterEnds(s, s', u, n - 1);
      var k: nat :| After(s', u, k) == None;
      assert After(s', t, k + 1) == None;
    }
  }

  lemma ShorterAcyclic(s: State, s': State)
    requires forall u: Tid :: Next(s', u) == Next(s, u) || Next(s', u) == None || Next(s', Next(s', u).value) == None
    requires Acyclic(s)
    ensures Acyclic(s')
  {
    hide Next, After;
    forall t: Tid
      ensures Ends(s', t)
    {
      assert Ends(s, t);
      var n: nat :| After(s, t, n) == None;
      ShorterEnds(s, s', t, n);
    }
  }

  lemma AcquiredAcyclic(s: State, p: Tid, m: Mid, d: int)
    requires Graph(s) && Acyclic(s) && s.Owner(m) == None
    ensures Acyclic(Acquired(s, p, m, d))
  {
    var s' := Acquired(s, p, m, d);
    forall u: Tid
      ensures Next(s', u) == Next(s, u)
    {
      InQueue(s, u, m);
      assert BusyAt(s, m);
    }
    ShorterAcyclic(s, s');
  }

  lemma UnlockedAcyclic(s: State, p: Tid, m: Mid, x: int, v: seq<Tid>)
    requires MayUnlock(s, p, m, x, v) && Acyclic(s)
    ensures Acyclic(Unlocked(s, p, m, x, v))
  {
    var s' := Unlocked(s, p, m, x, v);
    forall u: Tid
      ensures Next(s', u) == Next(s, u) || Next(s', u) == None || Next(s', Next(s', u).value) == None
    {
      InQueue(s, u, m);
      assert s'.Wait(u) == s.Wait(u) || s'.Wait(u) == None;
    }
    ShorterAcyclic(s, s');
  }

  lemma BlockedAcyclic(s: State, s': State, p: Tid, m: Mid, o: Tid)
    requires MayBlock(s, p, m, o) && Blocked(s, s', p, m, o) && !OnChain(s, o, p) && Acyclic(s)
    ensures Acyclic(s')
  {
    assert Ends(s, o);
    forall t: Tid
      ensures Ends(s', t)
    {
      assert Ends(s, t);
      var n: nat :| After(s, t, n) == None;
      BlockedEnds(s, s', p, m, o, t, n);
    }
  }

  lemma BlockedGraph(s: State, s': State, p: Tid, m: Mid, o: Tid)
    requires MayBlock(s, p, m, o) && Blocked(s, s', p, m, o) && Heaps(s')
    ensures Graph(s')
  {
    hide OwnedOnce, Heaps;
    assert Queued(s') by {
      forall t: Tid, k: Mid
        ensures QueuedOnce(s', t, k)
      {
        assert QueuedOnce(s, t, k);
        assert multiset(s'.Queue(k)) == multiset(s.Queue(k)) + if k == m then multiset{p} else multiset{};
      }
    }
    forall k: Mid
      ensures BusyAt(s', k)
    {
      assert BusyAt(s, k);
      assert multiset(s'.Queue(k)) == multiset(s.Queue(k)) + if k == m then multiset{p} else multiset{};
      if s'.Queue(k) != [] {
        assert s'.Queue(k)[0] in multiset(s'.Queue(k));
      }
    }
    SameOwners(s, s');
  }

  // -------------------------------------------------------------- exact inheritance

  /** No thread on the chain that the walk goes along is already more urgent than the new waiter. */
  ghost predicate NoneExceeds(s: State, p: Tid, o: Tid) {
    s.Prio(p) <= s.Prio(o) || forall t: Tid :: OnChain(s, o, t) ==> s.Prio(t) <= s.Prio(p)
  }

  /** The waiters of a mutex after p has joined one. */
  lemma BlockedWaiters(s: State, s': State, p: Tid, m: Mid, o: Tid, k: Mid, w: Tid)
    requires Blocked(s, s', p, m, o)
    ensures w in s'.Queue(k) <==> w in s.Queue(k) || (k == m && w == p)
  {
    assert multiset(s'.Queue(k)) == multiset(s.Queue(k)) + if k == m then multiset{p} else multiset{};
    assert w in s'.Queue(k) <==> w in multiset(s'.Queue(k));
    assert w in s.Queue(k) <==> w in multiset(s.Queue(k));
  }

  /** A waiter is on a chain only if the owner it waits for is. */
  lemma OwnerOnChain(s: State, o: Tid, w: Tid, k: Mid, t: Tid)
    requires OnChain(s, o, w) && s.Wait(w) == Some(k) && s.Owner(k) == Some(t)
    ensures OnChain(s, o, t)
  {
    var n: nat :| After(s, o, n) == Some(w);
    AfterSum(s, o, n, 1);
    assert After(s, w, 1) == Some(t);
    assert After(s, o, n + 1) == Some(t);
  }

  /** Every thread on a chain but the first is waited for by one that is on the chain just before it. */
  lemma Predecessor(s: State, o: Tid, n: nat, t: Tid) returns (u: Tid, k: Mid)
    requires Graph(s) && n > 0 && After(s, o, n) == Some(t)
    ensures After(s, o, n - 1) == Some(u) && s.Wait(u) == Some(k) && s.Owner(k) == Some(t)
    ensures u in s.Queue(k) && k in s.Held(t)
  {
    AfterSum(s, o, n - 1, 1);
    u := After(s, o, n - 1).value;
    k := s.Wait(u).value;
    assert After(s, u, 1) == Next(s, u);
    InQueue(s, u, k);
    InHeld(s, t, k);
  }

  /** A thread that is not lifted keeps exactly what it inherits. */
  lemma UnliftedExact(s: State, s': State, p: Tid, m: Mid, o: Tid, t: Tid)
    requires MayBlock(s, p, m, o) && Blocked(s, s', p, m, o) && !OnChain(s, o, p) && ExactAt(s, t)
    requires s.Prio(p) <= s.Prio(o) || !OnChain(s, o, t)
    ensures ExactAt(s', t)
  {
    hide MayBlock, OnChain;
    if s.Held(t) != [] {
      forall k: Mid, w: Tid | k in s.Held(t) && w in s'.Queue(k)
        ensures s'.Prio(w) <= s'.Prio(t)
      {
        UnliftedBound(s, s', p, m, o, t, k, w);
      }
      if s.Prio(t) != s.Saved(t) {
        var k: Mid, w: Tid :| k in s.Held(t) && w in s.Queue(k) && s.Prio(w) == s.Prio(t);
        UnliftedSource(s, s', p, m, o, t, k, w);
        assert k in s'.Held(t) && w in s'.Queue(k) && s'.Prio(w) == s'.Prio(t);
      }
    }
  }

  lemma UnliftedBound(s: State, s': State, p: Tid, m: Mid, o: Tid, t: Tid, k: Mid, w: Tid)
    requires MayBlock(s, p, m, o) && Blocked(s, s', p, m, o) && !OnChain(s, o, p) && ExactAt(s, t)
    requires s.Prio(p) <= s.Prio(o) || !OnChain(s, o, t)
    requires k in s.Held(t) && w in s'.Queue(k)
    ensures s'.Prio(w) <= s'.Prio(t)
  {
    hide QueuedOnce, OwnedOnce, BusyAt, Heaps, OnChain;
    BlockedWaiters(s, s', p, m, o, k, w);
    InHeld(s, t, k);
    InQueue(s, w, k);
    if k == m {
      StartOnChain(s, o);
    }
    if w in s.Queue(k) && OnChain(s, o, w) {
      OwnerOnChain(s, o, w, k, t);
    }
  }

  lemma UnliftedSource(s: State, s': State, p: Tid, m: Mid, o: Tid, t: Tid, k: Mid, w: Tid)
    requires MayBlock(s, p, m, o) && Blocked(s, s', p, m, o)
    requires s.Prio(p) <= s.Prio(o) || !OnChain(s, o, t)
    requires k in s.Held(t) && w in s.Queue(k)
    ensures w in s'.Queue(k) && s'.Prio(w) == s.Prio(w) && s'.Prio(t) == s.Prio(t)
  {
    hide QueuedOnce, OwnedOnce, BusyAt, Heaps, OnChain;
    BlockedWaiters(s, s', p, m, o, k, w);
    InHeld(s, t, k);
    InQueue(s, w, k);
    if OnChain(s, o, w) {
      OwnerOnChain(s, o, w, k, t);
    }
  }

  lemma StartOnChain(s: State, o: Tid)
    ensures OnChain(s, o, o)
  {
    assert After(s, o, 0) == Some(o);
  }

  /** A lifted thread inherits exactly the new waiter's priority, if none on the chain exceeded it. */
  lemma LiftedExact(s: State, s': State, p: Tid, m: Mid, o: Tid, t: Tid)
    requires MayBlock(s, p, m, o) && Blocked(s, s', p, m, o) && !OnChain(s, o, p) && ExactAt(s, t)
    requires s.Prio(p) > s.Prio(o) && OnChain(s, o, t) && s.Prio(t) <= s.Prio(p)
    ensures ExactAt(s', t)
  {
    hide QueuedOnce, OwnedOnce, BusyAt, Heaps, OnChain;
    if s.Held(t) != [] {
      forall k: Mid, w: Tid | k in s.Held(t) && w in s'.Queue(k)
        ensures s'.Prio(w) <= s'.Prio(t)
      {
        BlockedWaiters(s, s', p, m, o, k, w);
      }
      LiftedAttained(s, s', p, m, o, t);
    }
  }

  lemma LiftedAttained(s: State, s': State, p: Tid, m: Mid, o: Tid, t: Tid)
    requires MayBlock(s, p, m, o) && Blocked(s, s', p, m, o) && !OnChain(s, o, p)
    requires s.Prio(p) > s.Prio(o) && OnChain(s, o, t)
    ensures exists k, w :: k in s'.Held(t) && w in s'.Queue(k) && s'.Prio(w) == s.Prio(p)
  {
    var n: nat :| After(s, o, n) == Some(t);
    if n == 0 {
      InHeld(s, o, m);
      BlockedWaiters(s, s', p, m, o, m, p);
      assert m in s'.Held(t) && p in s'.Queue(m) && s'.Prio(p) == s.Prio(p);
    } else {
      var u, k := Predecessor(s, o, n, t);
      BlockedWaiters(s, s', p, m, o, k, u);
      assert OnChain(s, o, u);
      assert k in s'.Held(t) && u in s'.Queue(k) && s'.Prio(u) == s.Prio(p);
    }
  }

  /** The first thread on the chain that exceeds the new waiter. */
  lemma {:induction false} FirstExceeding(s: State, o: Tid, x: int, n: nat) returns (k: nat)
    requires After(s, o, n).Some? && s.Prio(After(s, o, n).value) > x
    ensures After(s, o, k).Some? && s.Prio(After(s, o, k).value) > x
    ensures forall j: nat :: j < k && After(s, o, j).Some? ==> s.Prio(After(s, o, j).value) <= x
    decreases n
  {
    if j: nat :| j < n && After(s, o, j).Some? && s.Prio(After(s, o, j).value) > x {
      k := FirstExceeding(s, o, x, j);
    } else {
      k := n;
    }
  }

  /** A chain that ends comes to each of its threads once. */
  lemma NoReturn(s: State, o: Tid, i: nat, j: nat)
    requires Ends(s, o) && After(s, o, i).Some? && After(s, o, j) == After(s, o, i)
    ensures i == j
  {
    if i < j {
      Returns(s, o, i, j);
    } else if j < i {
      Returns(s, o, j, i);
    }
  }

  lemma Returns(s: State, o: Tid, i: nat, j: nat)
    requires i < j && After(s, o, i).Some? && After(s, o, j) == After(s, o, i)
    ensures !Ends(s, o)
  {
    var t := After(s, o, i).value;
    AfterSum(s, o, i, j - i);
    forall n: nat
      ensures After(s, o, n) != None
    {
      CycleForever(s, t, j - i, n);
      AfterSum(s, o, i, n);
      AfterSum(s, o, n, i);
    }
  }

  /** The first exceeding thread is lowered below something it still inherits. */
  lemma LoweredNotExact(s: State, s': State, p: Tid, m: Mid, o: Tid, n: nat)
    requires MayBlock(s, p, m, o) && Blocked(s, s', p, m, o) && !OnChain(s, o, p) && Ends(s, o) && Exact(s)
    requires s.Prio(p) > s.Prio(o)
    requires After(s, o, n).Some? && s.Prio(After(s, o, n).value) > s.Prio(p)
    requires forall j: nat :: j < n && After(s, o, j).Some? ==> s.Prio(After(s, o, j).value) <= s.Prio(p)
    ensures !ExactAt(s', After(s, o, n).value)
  {
    hide QueuedOnce, OwnedOnce, BusyAt, Heaps, OnChain, Ends, After;
    var t := After(s, o, n).value;
    NotTheFirst(s, o, n, t, s.Prio(p));
    var u, k := Predecessor(s, o, n, t);
    assert ExactAt(s, t);
    AtOnChain(s, o, n, t);
    if s.Saved(t) != s.Prio(t) {
      var l: Mid, w: Tid :| l in s.Held(t) && w in s.Queue(l) && s.Prio(w) == s.Prio(t);
      InHeld(s, t, l);
      InQueue(s, w, l);
      BlockedWaiters(s, s', p, m, o, l, w);
      OnlyPredecessor(s, o, n, t, w);
    }
  }

  lemma AtOnChain(s: State, o: Tid, n: nat, t: Tid)
    requires After(s, o, n) == Some(t)
    ensures OnChain(s, o, t)
  {
  }

  lemma NotTheFirst(s: State, o: Tid, n: nat, t: Tid, x: int)
    requires After(s, o, n) == Some(t) && s.Prio(t) > x > s.Prio(o)
    ensures n > 0
  {
  }

  /** Who waits for a thread on a chain that ends, and is on the chain, is just before it. */
  lemma OnlyPredecessor(s: State, o: Tid, n: nat, t: Tid, w: Tid)
    requires Ends(s, o) && n > 0 && After(s, o, n) == Some(t) && Next(s, w) == Some(t)
    ensures OnChain(s, o, w) ==> After(s, o, n - 1) == Some(w)
  {
    hide Ends, Next;
    if j: nat :| After(s, o, j) == Some(w) {
      AfterSum(s, o, j, 1);
      assert After(s, w, 1) == Some(t);
      NoReturn(s, o, j + 1, n);
    }
  }

  /**
   Exact inheritance survives a thread's blocking exactly when the walk lowers nobody: either
   the new waiter lifts no one, or no thread on the chain exceeds it.
   */
  lemma BlockedExactIff(s: State, s': State, p: Tid, m: Mid, o: Tid)
    requires MayBlock(s, p, m, o) && Blocked(s, s', p, m, o) && !OnChain(s, o, p) && Ends(s, o) && Exact(s)
    ensures Exact(s') <==> NoneExceeds(s, p, o)
  {
    if NoneExceeds(s, p, o) {
      forall t: Tid
        ensures ExactAt(s', t)
      {
        assert ExactAt(s, t);
        if s.Prio(p) > s.Prio(o) && OnChain(s, o, t) {
          LiftedExact(s, s', p, m, o, t);
        } else {
          UnliftedExact(s, s', p, m, o, t);
        }
      }
    } else {
      var t: Tid :| OnChain(s, o, t) && s.Prio(t) > s.Prio(p);
      var n: nat :| After(s, o, n) == Some(t);
      var k := FirstExceeding(s, o, s.Prio(p), n);
      LoweredNotExact(s, s', p, m, o, k);
    }
  }

  /**
   A state that the walk spoils: thread 2 has priority 10 of its own, holds mutex 1 and has thread 1
   waiting for it, which holds mutex 0; thread 0, of priority 5, will wait for mutex 0.
   */
  const SOUND := State(map[0 := 5, 1 := 1, 2 := 10], map[1 := 1, 2 := 10], map[1 := [0], 2 := [1]],
                       map[1 := 1], map[0 := 1, 1 := 2], map[1 := [1]], map[0 := -1, 1 := -1])

  const SPOILED := SOUND.(prio := map[0 := 5, 1 := 5, 2 := 5], waitsOn := map[1 := 1, 0 := 0], queue := map[1 := [1], 0 := [0]])

  lemma SoundChains()
    ensures Acyclic(SOUND)
    ensures forall t: Tid :: OnChain(SOUND, 1, t) <==> t == 1 || t == 2
  {
    var s := SOUND;
    assert After(s, 1, 1) == Some(2) && After(s, 2, 1) == None && After(s, 1, 2) == None;
    forall t: Tid
      ensures Ends(s, t)
      ensures OnChain(s, 1, t) <==> t == 1 || t == 2
    {
      assert t != 1 ==> After(s, t, 1) == None;
      if n: nat :| After(s, 1, n) == Some(t) {
        if n > 1 {
          AfterSum(s, 1, 2, n - 2);
        }
      }
      StartOnChain(s, 1);
    }
  }

  lemma SoundGraph()
    ensures Graph(SOUND) && Exact(SOUND)
  {
    var s := SOUND;
    forall t: Tid, m: Mid
      ensures OwnedOnce(s, t, m) && QueuedOnce(s, t, m)
    {
      assert s.Held(t) == if t == 1 then [0] else if t == 2 then [1] else [];
      assert s.Queue(m) == if m == 1 then [1] else [];
    }
    forall t: Tid
      ensures ExactAt(s, t)
    {
      assert s.Held(t) == if t == 1 then [0] else if t == 2 then [1] else [];
    }
  }

  /** The walk lowers thread 2 below its own priority. */
  lemma WalkCanLower()
    ensures Graph(SOUND) && Acyclic(SOUND) && Exact(SOUND) && MayBlock(SOUND, 0, 0, 1) && !OnChain(SOUND, 1, 0)
    ensures Blocked(SOUND, SPOILED, 0, 0, 1)
    ensures SPOILED.Held(2) == [1] && SPOILED.Saved(2) == 10 && SPOILED.Prio(2) == 5
  {
    hide OnChain, Graph, Acyclic, Exact;
    SoundChains();
    SoundGraph();
    SpoiledQueues();
    SpoiledPriorities();
  }

  lemma SpoiledQueues()
    ensures forall k: Mid :: multiset(SPOILED.Queue(k)) == multiset(SOUND.Queue(k)) + if k == 0 then multiset{0} else multiset{}
  {
    forall k: Mid
      ensures multiset(SPOILED.Queue(k)) == multiset(SOUND.Queue(k)) + if k == 0 then multiset{0} else multiset{}
    {
      assert SPOILED.Queue(k) == if k == 0 then [0] else SOUND.Queue(k);
    }
  }

  lemma SpoiledPriorities()
    ensures SOUND.Prio(0) == 5 && SOUND.Prio(1) == 1 && forall t: Tid :: SPOILED.Prio(t) == if t == 1 || t == 2 then 5 else SOUND.Prio(t)
  {
  }

  /** Giving a mutex back, a thread has what it still inherits; with no mutex left, its own priority. */
  lemma UnlockedExact(s: State, p: Tid, m: Mid, x: int, v: seq<Tid>)
    requires MayUnlock(s, p, m, x, v)
    ensures var s' := Unlocked(s, p, m, x, v);
            && ExactAt(s', p) && (s'.Held(p) == [] ==> s'.Prio(p) == s.Saved(p))
            && (Exact(s) ==> Exact(s'))
  {
    var f, s' := Freed(s, p, m, x), Unlocked(s, p, m, x, v);
    UnlockedGraph(s, p, m, x, v);
    FreedExact(s, p, m, x);
    if s.Queue(m) != [] {
      forall t: Tid | ExactAt(f, t)
        ensures ExactAt(s', t)
      {
        GrantedExactAt(f, m, v, t);
      }
      assert s'.Held(p) == f.Held(p) by {
        NotQueued(s, p, m);
      }
    }
  }

  lemma FreedExact(s: State, p: Tid, m: Mid, x: int)
    requires Graph(s) && s.Owner(m) == Some(p) && s.Wait(p) == None
    requires Greatest(s, s.Saved(p), Without(s.Held(p), m), x)
    ensures var f := Freed(s, p, m, x); ExactAt(f, p) && (Exact(s) ==> Exact(f))
  {
    hide OwnedOnce, QueuedOnce, BusyAt, IsHeap, Without, Greatest;
    var f := Freed(s, p, m, x);
    forall k: Mid
      ensures p !in s.Queue(k)
    {
      NotQueued(s, p, k);
    }
    SameInherited(s, f, Without(s.Held(p), m), s.Saved(p), x);
    if Exact(s) {
      forall t: Tid
        ensures ExactAt(f, t)
      {
        assert ExactAt(s, t);
        if t != p && s.Held(t) != [] {
          SameInherited(s, f, s.Held(t), s.Saved(t), s.Prio(t));
        }
      }
    }
  }

  /** What a list of mutexes passes on depends only on their waiters. */
  lemma SameInherited(s: State, f: State, held: seq<Mid>, saved: int, x: int)
    requires forall k: Mid :: k in held ==> f.Queue(k) == s.Queue(k)
    requires forall k: Mid, t: Tid :: k in held && t in s.Queue(k) ==> f.Prio(t) == s.Prio(t)
    requires Greatest(s, saved, held, x)
    ensures Greatest(f, saved, held, x)
  {
    if x != saved {
      var k: Mid, w: Tid :| k in held && w in s.Queue(k) && s.Prio(w) == x;
      assert w in f.Queue(k) && f.Prio(w) == x;
    }
  }

  /** A mutex whose waiters are no more urgent passes nothing on. */
  lemma InheritedWith(s: State, held: seq<Mid>, m: Mid, saved: int, x: int)
    requires Greatest(s, saved, held, x)
    requires forall t: Tid :: t in s.Queue(m) ==> s.Prio(t) <= x
    ensures Greatest(s, saved, [m] + held, x)
  {
    assert forall k: Mid :: k in [m] + held <==> k == m || k in held;
  }

  lemma GrantedExactAt(s: State, m: Mid, v: seq<Tid>, t: Tid)
    requires MayGrant(s, m, v) && ExactAt(s, t)
    ensures ExactAt(Granted(s, m, v), t)
  {
    hide OwnedOnce, QueuedOnce, BusyAt, IsHeap, Greatest;
    var s' := Granted(s, m, v);
    var w := s.Queue(m)[0];
    FrontOfQueue(s, m, v);
    InHeld(s, t, m);
    if s.Held(t) != [] {
      SameInherited(s, s', s.Held(t), s.Saved(t), s.Prio(t));
    } else {
      assert Greatest(s', s.Prio(t), [], s.Prio(t)) by { NothingInherited(s', s.Prio(t)); }
    }
    if t == w {
      InheritedWith(s', s.Held(t), m, s'.Saved(t), s.Prio(t));
    }
  }

  lemma NothingInherited(s: State, x: int)
    ensures Greatest(s, x, [], x)
  {
  }

  lemma AcquiredExact(s: State, p: Tid, m: Mid, d: int)
    requires Graph(s) && s.Owner(m) == None && Exact(s)
    ensures Exact(Acquired(s, p, m, d))
  {
    hide OwnedOnce, QueuedOnce, IsHeap, Greatest;
    var s' := Acquired(s, p, m, d);
    assert BusyAt(s, m);
    forall t: Tid
      ensures ExactAt(s', t)
    {
      assert ExactAt(s, t);
      if s.Held(t) != [] {
        SameInherited(s, s', s.Held(t), s.Saved(t), s.Prio(t));
      } else {
        NothingInherited(s', s.Prio(t));
      }
      if t == p {
        InheritedWith(s', s.Held(t), m, s'.Saved(t), s.Prio(t));
      }
    }
  }

  /** The walk over a thread's mutexes, one mutex on. */
  function Higher(s: State, m: Mid, x: int): int {
    var q := s.Queue(m);
    if q == [] || s.Prio(q[0]) <= x then x else s.Prio(q[0])
  }

  /** One more mutex, whose most urgent waiter is the front of its heap. */
  lemma InheritedFromHeap(s: State, held: seq<Mid>, m: Mid, saved: int, x: int)
    requires Greatest(s, saved, held, x) && IsHeap(s.Queue(m), s)
    ensures Greatest(s, saved, held + [m], Higher(s, m, x))
  {
    var q := s.Queue(m);
    if q != [] {
      FrontAbove(q, s);
      assert q[0] in q;
    }
    assert forall k: Mid :: k in held + [m] <==> k in held || k == m;
  }

  // -------------------------------------------------------------- setting the priority

  /** A running thread gets the priority pr; x is the greatest of that and what it inherits. */
  function PrioritySet(s: State, p: Tid, pr: int, x: int): State {
    s.(saved := if s.Held(p) == [] then s.saved else s.saved[p := pr],
       prio := s.prio[p := if s.Held(p) == [] then pr else x])
  }

  lemma PrioritySetKeeps(s: State, p: Tid, pr: int, x: int)
    requires Graph(s) && s.Wait(p) == None && Greatest(s, pr, s.Held(p), x)
    ensures var s' := PrioritySet(s, p, pr, x);
            && Graph(s') && (Acyclic(s) ==> Acyclic(s')) && (Exact(s) ==> Exact(s'))
            && (s.Held(p) == [] ==> s'.Prio(p) == pr)
            && (s.Held(p) != [] ==> s'.Saved(p) == pr && s'.Prio(p) == x)
  {
    var s' := PrioritySet(s, p, pr, x);
    forall k: Mid
      ensures p !in s.Queue(k) && IsHeap(s'.Queue(k), s') && BusyAt(s', k)
    {
      NotQueued(s, p, k);
      assert IsHeap(s.Queue(k), s) && BusyAt(s, k);
      HeapElsewhere(s.Queue(k), s, s', p);
    }
    SameOwners(s, s');
    SameQueues(s, s');
    if Acyclic(s) {
      ShorterAcyclic(s, s');
    }
    if Exact(s) {
      PrioritySetExact(s, p, pr, x);
    }
  }

  lemma PrioritySetExact(s: State, p: Tid, pr: int, x: int)
    requires Exact(s) && Greatest(s, pr, s.Held(p), x) && forall k: Mid :: p !in s.Queue(k)
    ensures var s' := PrioritySet(s, p, pr, x); Exact(s') && (s.Held(p) != [] ==> s'.Prio(p) == x)
  {
    hide Greatest;
    forall t: Tid
      ensures ExactAt(PrioritySet(s, p, pr, x), t)
    {
      assert ExactAt(s, t);
      PrioritySetExactAt(s, p, pr, x, t);
    }
  }

  lemma PrioritySetExactAt(s: State, p: Tid, pr: int, x: int, t: Tid)
    requires ExactAt(s, t) && Greatest(s, pr, s.Held(p), x) && forall k: Mid :: p !in s.Queue(k)
    ensures ExactAt(PrioritySet(s, p, pr, x), t)
  {
    hide Greatest;
    var s' := PrioritySet(s, p, pr, x);
    if s.Held(t) != [] {
      if t == p {
        SameInherited(s, s', s.Held(p), pr, x);
      } else {
        SameInherited(s, s', s.Held(t), s.Saved(t), s.Prio(t));
      }
    }
  }

  // -------------------------------------------------------------- runs

  datatype Event =
    | Acquire(p: Tid, m: Mid, d: int)
    | Deepen(p: Tid, m: Mid, d: int)
    | Block(p: Tid, m: Mid)
    | Unlock(p: Tid, m: Mid)
    | UnlockAll(p: Tid, m: Mid)
    | SetPriority(p: Tid, pr: int)

  /** The thread p gives back all levels of a mutex. */
  function UnlockedAll(s: State, p: Tid, m: Mid, x: int, v: seq<Tid>): State {
    var u := Unlocked(s, p, m, x, v);
    if s.Depth(m) < 0 then u else Deepened(u, m, 0)
  }

  /** A mutex is recursive or not from the start: the depth never passes from one kind to the other. */
  predicate SameKind(s: State, m: Mid, d: int) {
    -1 <= d && (d >= 0 <==> s.Depth(m) >= 0)
  }

  /** What the running thread e.p does; it waits for nothing, and it does not close a cycle. */
  ghost predicate Step(s: State, e: Event, s': State) {
    && s.Wait(e.p) == None
    && match e
       case Acquire(p, m, d) => s.Owner(m) == None && SameKind(s, m, d) && s' == Acquired(s, p, m, d)
       case Deepen(p, m, d) => s.Owner(m) == Some(p) && SameKind(s, m, d) && s' == Deepened(s, m, d)
       case Block(p, m) =>
         s.Owner(m).Some? && var o := s.Owner(m).value; o != p && !OnChain(s, o, p) && Blocked(s, s', p, m, o) && Heaps(s')
       case Unlock(p, m) => s.Depth(m) <= 0 && exists x, v :: MayUnlock(s, p, m, x, v) && s' == Unlocked(s, p, m, x, v)
       case UnlockAll(p, m) =>
         exists x, v :: MayUnlock(s, p, m, x, v) && s' == UnlockedAll(s, p, m, x, v)
       case SetPriority(p, pr) =>
         if s.Held(p) != [] && s.Saved(p) == pr then s' == s
         else exists x :: Greatest(s, pr, s.Held(p), x) && s' == PrioritySet(s, p, pr, x)
  }

  ghost predicate Gentle(s: State, e: Event) {
    e.Block? && s.Owner(e.m).Some? ==> NoneExceeds(s, e.p, s.Owner(e.m).value)
  }

  lemma StepKeeps(s: State, e: Event, s': State)
    requires Graph(s) && Acyclic(s) && Step(s, e, s')
    ensures Graph(s') && Acyclic(s')
    ensures Exact(s) && Gentle(s, e) ==> Exact(s')
  {
    hide Graph, Acyclic, Exact, Acquired, Deepened, Blocked, Unlocked, PrioritySet, MayUnlock, NoneExceeds, Greatest;
    match e
    case Acquire(p, m, d) => AcquireKeeps(s, p, m, d);
    case Deepen(p, m, d) => DeepenKeeps(s, m, d);
    case Block(p, m) => BlockKeeps(s, s', p, m, s.Owner(m).value);
    case Unlock(p, m) =>
      var x: int, v: seq<Tid> :| MayUnlock(s, p, m, x, v) && s' == Unlocked(s, p, m, x, v);
      UnlockKeeps(s, p, m, x, v);
    case UnlockAll(p, m) =>
      var x: int, v: seq<Tid> :| MayUnlock(s, p, m, x, v) && s' == UnlockedAll(s, p, m, x, v);
      UnlockKeeps(s, p, m, x, v);
      DeepenKeeps(Unlocked(s, p, m, x, v), m, 0);
    case SetPriority(p, pr) =>
      if x: int :| Greatest(s, pr, s.Held(p), x) && s' == PrioritySet(s, p, pr, x) {
        PrioritySetKeeps(s, p, pr, x);
      }
  }

  lemma AcquireKeeps(s: State, p: Tid, m: Mid, d: int)
    requires Graph(s) && Acyclic(s) && s.Owner(m) == None
    ensures var s' := Acquired(s, p, m, d); Graph(s') && Acyclic(s') && (Exact(s) ==> Exact(s'))
  {
    hide Graph, Acyclic, Exact, Acquired;
    AcquiredGraph(s, p, m, d);
    AcquiredAcyclic(s, p, m, d);
    if Exact(s) {
      AcquiredExact(s, p, m, d);
    }
  }

  lemma UnlockKeeps(s: State, p: Tid, m: Mid, x: int, v: seq<Tid>)
    requires Acyclic(s) && MayUnlock(s, p, m, x, v)
    ensures var s' := Unlocked(s, p, m, x, v); Graph(s') && Acyclic(s') && (Exact(s) ==> Exact(s'))
  {
    hide Graph, Acyclic, Exact, Unlocked, MayUnlock;
    UnlockedGraph(s, p, m, x, v);
    UnlockedAcyclic(s, p, m, x, v);
    UnlockedExact(s, p, m, x, v);
  }

  lemma DeepenKeeps(s: State, m: Mid, d: int)
    requires Graph(s) && Acyclic(s)
    ensures var s' := Deepened(s, m, d); Graph(s') && Acyclic(s') && (Exact(s) ==> Exact(s'))
  {
    hide OwnedOnce, QueuedOnce, BusyAt, IsHeap, Greatest;
    var s' := Deepened(s, m, d);
    DeepenedGraph(s, m, d);
    ShorterAcyclic(s, s');
    if Exact(s) {
      forall t: Tid
        ensures ExactAt(s', t)
      {
        assert ExactAt(s, t);
        if s.Held(t) != [] {
          SameInherited(s, s', s.Held(t), s.Saved(t), s.Prio(t));
        }
      }
    }
  }

  lemma BlockKeeps(s: State, s': State, p: Tid, m: Mid, o: Tid)
    requires Graph(s) && Acyclic(s) && s.Owner(m) == Some(o) && o != p && s.Wait(p) == None
    requires !OnChain(s, o, p) && Blocked(s, s', p, m, o) && Heaps(s')
    ensures Graph(s') && Acyclic(s') && (Exact(s) && NoneExceeds(s, p, o) ==> Exact(s'))
  {
    BlockedGraph(s, s', p, m, o);
    BlockedAcyclic(s, s', p, m, o);
    assert Ends(s, o);
    if Exact(s) {
      BlockedExactIff(s, s', p, m, o);
    }
  }

  lemma UnlockedDepths(s: State, p: Tid, m: Mid, x: int, v: seq<Tid>, k: Mid)
    requires MayUnlock(s, p, m, x, v)
    ensures var s' := Unlocked(s, p, m, x, v);
      && s'.Depth(k) == s.Depth(k) && (k != m ==> s'.Owner(k) == s.Owner(k)) && s'.Owner(m) != Some(p)
  {
    hide OwnedOnce, QueuedOnce, IsHeap, Greatest, Without;
    NotQueued(s, p, m);
  }

  lemma BlockedFields(s: State, s': State, p: Tid, m: Mid, o: Tid)
    requires Blocked(s, s', p, m, o)
    ensures s'.owner == s.owner && s'.depth == s.depth && s'.waitsOn == s.waitsOn[p := m]
  {
  }

  lemma PrioritySetFields(s: State, p: Tid, pr: int)
    ensures forall x :: PrioritySet(s, p, pr, x).owner == s.owner && PrioritySet(s, p, pr, x).depth == s.depth
    ensures forall x :: PrioritySet(s, p, pr, x).waitsOn == s.waitsOn
  {
    hide PrioritySet;
    forall x
      ensures PrioritySet(s, p, pr, x).owner == s.owner && PrioritySet(s, p, pr, x).depth == s.depth
      ensures PrioritySet(s, p, pr, x).waitsOn == s.waitsOn
    {
      SamePlaces(s, p, pr, x);
    }
  }

  lemma SamePlaces(s: State, p: Tid, pr: int, x: int)
    ensures var s' := PrioritySet(s, p, pr, x); s'.owner == s.owner && s'.depth == s.depth && s'.waitsOn == s.waitsOn
  {
    hide State.Held, State.Saved, State.Prio;
  }

  lemma AcquiredFields(s: State, p: Tid, m: Mid, d: int)
    ensures Acquired(s, p, m, d).owner == s.owner[m := p] && Acquired(s, p, m, d).depth == s.depth[m := d]
    ensures Acquired(s, p, m, d).waitsOn == s.waitsOn
  {
  }

  /** What becomes of the owner and the depth of every mutex in one step. */
  lemma StepDepths(s: State, e: Event, s': State, m: Mid)
    requires Graph(s) && Step(s, e, s') && ShallowAt(s, m)
    ensures ShallowAt(s', m)
    ensures s.Owner(m).Some? && s.Owner(m) != Some(e.p) ==> s'.Owner(m) == s.Owner(m) && s'.Depth(m) == s.Depth(m)
    ensures e.Unlock? || e.UnlockAll? ==> s.Owner(e.m) == Some(e.p) && s'.Owner(e.m) != Some(e.p) && s'.Depth(e.m) <= 0
  {
    hide Graph, Greatest, Unlocked, OnChain, Heaps, Blocked, Acquired, PrioritySet;
    match e
    case Unlock(p, n) =>
      var x: int, v: seq<Tid> :| MayUnlock(s, p, n, x, v) && s' == Unlocked(s, p, n, x, v);
      UnlockedDepths(s, p, n, x, v, m);
      UnlockedDepths(s, p, n, x, v, n);
    case UnlockAll(p, n) =>
      var x: int, v: seq<Tid> :| MayUnlock(s, p, n, x, v) && s' == UnlockedAll(s, p, n, x, v);
      UnlockedDepths(s, p, n, x, v, m);
      UnlockedDepths(s, p, n, x, v, n);
    case Block(p, n) => BlockedFields(s, s', p, n, s.Owner(n).value);
    case SetPriority(p, pr) => PrioritySetFields(s, p, pr);
    case Acquire(p, n, d) => AcquiredFields(s, p, n, d);
    case _ =>
  }

  ghost predicate Run(states: seq<State>, events: seq<Event>) {
    |states| == |events| + 1 && forall i :: 0 <= i < |events| ==> Step(states[i], events[i], states[i + 1])
  }

  /** Any number of threads may have any priorities before the first mutex is taken. */
  ghost predicate Fresh(s: State) {
    s.locked == map[] && s.waitsOn == map[] && s.owner == map[] && s.queue == map[] && forall m: Mid :: -1 <= s.Depth(m) <= 0
  }

  /** Over every run the graph is sound and without cycles, and in a run of gentle waits every priority is exact. */
  lemma {:induction false} RunKeeps(states: seq<State>, events: seq<Event>, i: nat)
    requires Run(states, events) && Fresh(states[0]) && i <= |events|
    ensures Graph(states[i]) && Acyclic(states[i]) && Shallow(states[i])
    ensures (forall j :: 0 <= j < i ==> Gentle(states[j], events[j])) ==> Exact(states[i])
  {
    hide Graph, Acyclic, Exact, Gentle, Step;
    if i == 0 {
      FreshKeeps(states[0]);
    } else {
      RunKeeps(states, events, i - 1);
      assert Step(states[i - 1], events[i - 1], states[i - 1 + 1]);
      StepKeeps(states[i - 1], events[i - 1], states[i]);
      forall m: Mid
        ensures ShallowAt(states[i], m)
      {
        assert ShallowAt(states[i - 1], m);
        StepDepths(states[i - 1], events[i - 1], states[i], m);
      }
    }
  }

  lemma FreshKeeps(s: State)
    requires Fresh(s)
    ensures Graph(s) && Acyclic(s) && Exact(s) && Shallow(s)
  {
    forall t: Tid
      ensures Ends(s, t)
    {
      assert After(s, t, 1) == None;
    }
  }

  // -------------------------------------------------------------- own priorities

  /** The priority that a thread has, or will have again when it holds nothing. */
  function OwnPriority(s: State, t: Tid): int {
    if s.Held(t) == [] then s.Prio(t) else s.Saved(t)
  }

  /** The priority that a thread last set itself, or had at the start. */
  function LastSet(s: State, events: seq<Event>, t: Tid): int {
    if events == [] then s.Prio(t)
    else
      var e := events[|events| - 1];
      if e.SetPriority? && e.p == t then e.pr else LastSet(s, events[..|events| - 1], t)
  }

  lemma {:induction false} OnChainHolds(s: State, o: Tid, t: Tid, n: nat)
    requires Owned(s) && s.Held(o) != [] && After(s, o, n) == Some(t)
    ensures s.Held(t) != []
    decreases n
  {
    if n > 0 {
      var u := Next(s, o).value;
      InHeld(s, u, s.Wait(o).value);
      OnChainHolds(s, u, t, n - 1);
    }
  }

  lemma BlockedOwn(s: State, s': State, p: Tid, m: Mid, o: Tid, t: Tid)
    requires Graph(s) && s.Owner(m) == Some(o) && Blocked(s, s', p, m, o)
    ensures OwnPriority(s', t) == OwnPriority(s, t)
  {
    hide OwnedOnce, QueuedOnce, Heaps, BusyAt, After;
    InHeld(s, o, m);
    if OnChain(s, o, t) {
      var n: nat :| After(s, o, n) == Some(t);
      OnChainHolds(s, o, t, n);
    }
  }

  lemma UnlockedOwn(s: State, p: Tid, m: Mid, x: int, v: seq<Tid>, t: Tid)
    requires MayUnlock(s, p, m, x, v)
    ensures OwnPriority(Unlocked(s, p, m, x, v), t) == OwnPriority(s, t)
  {
    hide Owned, Queued, Heaps, BusyAt, Without, Greatest, Granted, Freed, OwnPriority;
    InHeld(s, p, m);
    FreedOwn(s, p, m, x, t);
    if s.Queue(m) != [] {
      FreedQueue(s, p, m, x);
      GrantedOwn(Freed(s, p, m, x), m, v, t);
    }
  }

  lemma FreedOwn(s: State, p: Tid, m: Mid, x: int, t: Tid)
    requires Greatest(s, s.Saved(p), Without(s.Held(p), m), x) && s.Held(p) != []
    ensures OwnPriority(Freed(s, p, m, x), t) == OwnPriority(s, t)
  {
    hide Without;
  }

  lemma FreedQueue(s: State, p: Tid, m: Mid, x: int)
    ensures Freed(s, p, m, x).Queue(m) == s.Queue(m)
  {
  }

  lemma GrantedOwn(f: State, m: Mid, v: seq<Tid>, t: Tid)
    requires f.Queue(m) != []
    ensures OwnPriority(Granted(f, m, v), t) == OwnPriority(f, t)
  {
  }

  lemma PrioritySetOwn(s: State, p: Tid, pr: int, x: int, t: Tid)
    ensures OwnPriority(PrioritySet(s, p, pr, x), t) == if t == p then pr else OwnPriority(s, t)
  {
    hide OwnPriority;
    if s.Held(p) == [] {
      NewPriorityOwn(s, p, pr, t);
    } else {
      NewSavedOwn(s, p, pr, x, t);
    }
  }

  lemma NewPriorityOwn(s: State, p: Tid, pr: int, t: Tid)
    requires s.Held(p) == []
    ensures OwnPriority(s.(prio := s.prio[p := pr]), t) == if t == p then pr else OwnPriority(s, t)
  {
  }

  lemma NewSavedOwn(s: State, p: Tid, pr: int, x: int, t: Tid)
    requires s.Held(p) != []
    ensures OwnPriority(s.(saved := s.saved[p := pr], prio := s.prio[p := x]), t) == if t == p then pr else OwnPriority(s, t)
  {
  }

  lemma AcquiredOwn(s: State, p: Tid, m: Mid, d: int, t: Tid)
    ensures OwnPriority(Acquired(s, p, m, d), t) == OwnPriority(s, t)
  {
  }

  /** Only the thread itself changes its own priority, whatever it inherits. */
  lemma StepOwn(s: State, e: Event, s': State, t: Tid)
    requires Graph(s) && Step(s, e, s')
    ensures OwnPriority(s', t) == if e.SetPriority? && e.p == t then e.pr else OwnPriority(s, t)
  {
    hide Graph, Greatest, Unlocked, OnChain, Heaps, Blocked, Acquired, PrioritySet, OwnPriority;
    match e
    case Acquire(p, m, d) => AcquiredOwn(s, p, m, d, t);
    case Deepen(p, m, d) => DeepenedOwn(s, m, d, t);
    case Block(p, m) => BlockedOwn(s, s', p, m, s.Owner(m).value, t);
    case Unlock(p, m) =>
      var x: int, v: seq<Tid> :| MayUnlock(s, p, m, x, v) && s' == Unlocked(s, p, m, x, v);
      UnlockedOwn(s, p, m, x, v, t);
    case UnlockAll(p, m) =>
      var x: int, v: seq<Tid> :| MayUnlock(s, p, m, x, v) && s' == UnlockedAll(s, p, m, x, v);
      UnlockedOwn(s, p, m, x, v, t);
      DeepenedOwn(Unlocked(s, p, m, x, v), m, 0, t);
    case SetPriority(p, pr) =>
      if s.Held(p) != [] && s.Saved(p) == pr {
        OwnSaved(s, p);
      } else {
        var x: int :| Greatest(s, pr, s.Held(p), x) && s' == PrioritySet(s, p, pr, x);
        PrioritySetOwn(s, p, pr, x, t);
      }
  }

  lemma DeepenedOwn(s: State, m: Mid, d: int, t: Tid)
    ensures OwnPriority(Deepened(s, m, d), t) == OwnPriority(s, t)
  {
  }

  lemma OwnSaved(s: State, t: Tid)
    requires s.Held(t) != []
    ensures OwnPriority(s, t) == s.Saved(t)
  {
  }

  /**
   Over every run, gentle or not, a thread that holds nothing has the priority that it last set, and one that
   holds something has it saved.
   */
  lemma {:induction false} OwnPriorityKept(states: seq<State>, events: seq<Event>, i: nat, t: Tid)
    requires Run(states, events) && Fresh(states[0]) && i <= |events|
    ensures var own := LastSet(states[0], events[..i], t);
      if states[i].Held(t) == [] then states[i].Prio(t) == own else states[i].Saved(t) == own
  {
    hide Graph, Acyclic, Exact, Gentle, Step;
    if i > 0 {
      OwnPriorityKept(states, events, i - 1, t);
      RunKeeps(states, events, i - 1);
      assert Step(states[i - 1], events[i - 1], states[i - 1 + 1]);
      StepOwn(states[i - 1], events[i - 1], states[i], t);
      assert events[..i][..i - 1] == events[..i - 1];
    }
  }

  /**
   While its owner does not run, a mutex keeps its owner and its depth: what a thread finds
   when it comes back is what it was granted.
   */
  lemma {:induction false} GrantKept(states: seq<State>, events: seq<Event>, i: nat, j: nat, p: Tid, m: Mid)
    requires Run(states, events) && Fresh(states[0]) && i <= j <= |events|
    requires states[i].Owner(m) == Some(p) && forall k :: i <= k < j ==> events[k].p != p
    ensures states[j].Owner(m) == Some(p) && states[j].Depth(m) == states[i].Depth(m)
  {
    hide Graph, Acyclic, Exact, Gentle, Step;
    if i < j {
      GrantKept(states, events, i, j - 1, p, m);
      RunKeeps(states, events, j - 1);
      assert Step(states[j - 1], events[j - 1], states[j - 1 + 1]);
      assert ShallowAt(states[j - 1], m);
      StepDepths(states[j - 1], events[j - 1], states[j], m);
    }
  }

  // -------------------------------------------------------------- the spoiled state is reached

  const START := State(SOUND.prio, map[], map[], map[], map[], map[], map[])
  const FIRST := Acquired(START, 2, 1, -1)
  const SECOND := Acquired(FIRST, 1, 0, -1)

  lemma FirstSteps()
    ensures Fresh(START) && Step(START, Acquire(2, 1, -1), FIRST) && Step(FIRST, Acquire(1, 0, -1), SECOND)
  {
    hide After;
  }

  lemma SecondIs()
    ensures SECOND.(waitsOn := SOUND.waitsOn, queue := SOUND.queue) == SOUND && SECOND.waitsOn == map[] && SECOND.queue == map[]
  {
    var none: seq<Mid> := [];
    assert [1] + none == [1] && [0] + none == [0];
    assert FIRST.saved == map[2 := 10] && FIRST.locked == map[2 := [1]] && FIRST.owner == map[1 := 2] && FIRST.depth == map[1 := -1];
    assert SECOND.saved == SOUND.saved && SECOND.locked == SOUND.locked && SECOND.owner == SOUND.owner && SECOND.depth == SOUND.depth;
  }

  lemma ThirdStep()
    ensures Step(SECOND, Block(1, 1), SOUND)
  {
    SecondIs();
    var s := SECOND;
    assert s.Owner(1) == Some(2) && Next(s, 2) == None;
    forall n: nat
      ensures After(s, 2, n) != Some(1)
    {
    }
    forall k: Mid
      ensures multiset(SOUND.Queue(k)) == multiset(s.Queue(k)) + if k == 1 then multiset{1} else multiset{}
    {
      assert SOUND.Queue(k) == if k == 1 then [1] else [];
    }
    SoundGraph();
    hide After;
  }

  lemma FourthStep()
    ensures Step(SOUND, Block(0, 0), SPOILED)
  {
    WalkCanLower();
    forall m: Mid
      ensures IsHeap(SPOILED.Queue(m), SPOILED)
    {
      assert SPOILED.Queue(m) == if m == 0 then [0] else if m == 1 then [1] else [];
    }
    hide Graph, After, Acyclic, Blocked, OnChain;
  }

  lemma RunOfFour(s: State, t: State, u: State, v: State, w: State, d: Event, e: Event, f: Event, g: Event)
    requires Step(s, d, t) && Step(t, e, u) && Step(u, f, v) && Step(v, g, w)
    ensures Run([s, t, u, v, w], [d, e, f, g])
  {
    hide Step;
  }

  /** The four steps of three threads, from a state in which no mutex was ever taken, that end below an own priority. */
  lemma WalkLowersInRun()
    ensures Run([START, FIRST, SECOND, SOUND, SPOILED], [Acquire(2, 1, -1), Acquire(1, 0, -1), Block(1, 1), Block(0, 0)])
    ensures Fresh(START) && !ExactAt(SPOILED, 2)
  {
    FirstSteps();
    ThirdStep();
    FourthStep();
    hide Step;
    RunOfFour(START, FIRST, SECOND, SOUND, SPOILED, Acquire(2, 1, -1), Acquire(1, 0, -1), Block(1, 1), Block(0, 0));
  }

  // -------------------------------------------------------------- waiting

  lemma UnlockedWaits(s: State, p: Tid, m: Mid, x: int, v: seq<Tid>, q: Tid)
    requires MayUnlock(s, p, m, x, v) && q != p
    ensures var s' := Unlocked(s, p, m, x, v);
      s'.Wait(q) == s.Wait(q) || (s.Wait(q) == Some(m) && s'.Wait(q) == None && s'.Owner(m) == Some(q))
  {
    if s.Queue(m) != [] {
      HighestPriorityHandoff(s, p, m, x, v);
    }
    hide OwnedOnce, QueuedOnce, IsHeap, Greatest, Without;
  }

  /** A step of another thread leaves a waiting thread where it is, or makes it the owner of what it waits for. */
  lemma StepWaits(s: State, e: Event, s': State, q: Tid)
    requires Step(s, e, s') && q != e.p
    ensures s'.Wait(q) == s.Wait(q) || (s.Wait(q).Some? && s'.Wait(q) == None && s'.Owner(s.Wait(q).value) == Some(q))
  {
    hide Graph, Greatest, Unlocked, OnChain, Heaps, Blocked, Acquired, PrioritySet;
    match e
    case Unlock(p, m) =>
      var x: int, v: seq<Tid> :| MayUnlock(s, p, m, x, v) && s' == Unlocked(s, p, m, x, v);
      UnlockedWaits(s, p, m, x, v, q);
    case UnlockAll(p, m) =>
      var x: int, v: seq<Tid> :| MayUnlock(s, p, m, x, v) && s' == UnlockedAll(s, p, m, x, v);
      UnlockedWaits(s, p, m, x, v, q);
    case Block(p, m) => BlockedFields(s, s', p, m, s.Owner(m).value);
    case SetPriority(p, pr) => PrioritySetFields(s, p, pr);
    case Acquire(p, m, d) => AcquiredFields(s, p, m, d);
    case _ =>
  }

  lemma StepKind(s: State, e: Event, s': State, m: Mid)
    requires Step(s, e, s')
    ensures s'.Depth(m) >= 0 <==> s.Depth(m) >= 0
  {
    hide Graph, Greatest, Unlocked, OnChain, Heaps, Blocked, Acquired, PrioritySet;
    match e
    case Unlock(p, n) =>
      var x: int, v: seq<Tid> :| MayUnlock(s, p, n, x, v) && s' == Unlocked(s, p, n, x, v);
      UnlockedDepths(s, p, n, x, v, m);
    case UnlockAll(p, n) =>
      var x: int, v: seq<Tid> :| MayUnlock(s, p, n, x, v) && s' == UnlockedAll(s, p, n, x, v);
      UnlockedDepths(s, p, n, x, v, m);
    case Block(p, n) => BlockedFields(s, s', p, n, s.Owner(n).value);
    case SetPriority(p, pr) => PrioritySetFields(s, p, pr);
    case Acquire(p, n, d) => AcquiredFields(s, p, n, d);
    case _ =>
  }

  /** A mutex stays recursive, or not, over every run. */
  lemma {:induction false} KindKept(states: seq<State>, events: seq<Event>, i: nat, j: nat, m: Mid)
    requires Run(states, events) && Fresh(states[0]) && i <= j <= |events|
    ensures states[j].Depth(m) >= -1 && (states[j].Depth(m) >= 0 <==> states[i].Depth(m) >= 0)
  {
    hide Graph, Acyclic, Exact, Gentle, Step;
    RunKeeps(states, events, j);
    assert ShallowAt(states[j], m);
    if i < j {
      KindKept(states, events, i, j - 1, m);
      assert Step(states[j - 1], events[j - 1], states[j - 1 + 1]);
      StepKind(states[j - 1], events[j - 1], states[j], m);
    }
  }

  lemma BlockWaits(s: State, s': State, p: Tid, m: Mid)
    requires Step(s, Block(p, m), s')
    ensures s'.Wait(p) == Some(m)
  {
    hide Heaps, OnChain;
  }

  /** A thread that blocked on a mutex waits for it until it owns it; there is no other way to run on. */
  lemma {:induction false} BlockedUntilGranted(states: seq<State>, events: seq<Event>, i: nat, j: nat, p: Tid, m: Mid)
    requires Run(states, events) && Fresh(states[0]) && i < j <= |events|
    requires events[i] == Block(p, m) && forall k :: i < k < j ==> events[k].p != p
    ensures states[j].Wait(p) == Some(m) || (states[j].Wait(p) == None && states[j].Owner(m) == Some(p))
  {
    hide Step;
    assert Step(states[j - 1], events[j - 1], states[j - 1 + 1]);
    if i == j - 1 {
      BlockWaits(states[i], states[j], p, m);
    } else {
      BlockedUntilGranted(states, events, i, j - 1, p, m);
      StepWaits(states[j - 1], events[j - 1], states[j], p);
      if states[j - 1].Owner(m) == Some(p) {
        GrantKept(states, events, j - 1, j, p, m);
      }
    }
  }

  /** No one waits for a mutex of its own: that would be a cycle. */
  lemma WaiterNotOwner(states: seq<State>, events: seq<Event>, i: nat, p: Tid, m: Mid)
    requires Run(states, events) && Fresh(states[0]) && i <= |events| && states[i].Wait(p) == Some(m)
    ensures states[i].Owner(m) != Some(p)
  {
    hide Step, Graph;
    RunKeeps(states, events, i);
    var s := states[i];
    assert Ends(s, p);
    var n: nat :| After(s, p, n) == None;
    if s.Owner(m) == Some(p) {
      assert After(s, p, 1) == Some(p);
      CycleForever(s, p, 1, n);
      assert false;
    }
  }

  /** The depth that unlocking at all levels answers, and the one that locking to a depth leads to. */
  function Levels(depth: int): nat {
    if depth < 0 then 0 else depth
  }

  function ToDepth(s: State, m: Mid, depth: nat): int {
    if s.Depth(m) >= 0 then depth else -1
  }

  /** The thread takes the mutex at once, or blocks, is granted it, and then sets the depth of a recursive one. */
  ghost predicate Relocks(states: seq<State>, events: seq<Event>, b: nat, c: nat, p: Tid, m: Mid, depth: nat)
    requires |states| == |events| + 1 && b <= c < |events|
  {
    || (c == b && events[b] == Acquire(p, m, ToDepth(states[b], m, depth)))
    || (b < c && events[b] == Block(p, m) && (forall k :: b < k < c ==> events[k].p != p) && events[c].p == p
        && (states[c].Depth(m) >= 0 ==> events[c] == Deepen(p, m, depth)))
  }

  /** The state in which the wait returns: after the depth has been set, if there is one to set. */
  function Back(states: seq<State>, b: nat, c: nat, m: Mid): State
    requires b <= c && c + 1 < |states|
  {
    if c == b || states[c].Depth(m) >= 0 then states[c + 1] else states[c]
  }

  /**
   Whatever the other threads do meanwhile, waiting on a condition returns with the mutex at
   the depth that it had before.
   */
  lemma WaitReturns(states: seq<State>, events: seq<Event>, a: nat, b: nat, c: nat, p: Tid, m: Mid)
    requires Run(states, events) && Fresh(states[0]) && a < b <= c < |events|
    requires events[a] == UnlockAll(p, m) && forall k :: a < k < b ==> events[k].p != p
    requires Relocks(states, events, b, c, p, m, Levels(states[a].Depth(m)))
    ensures var s := Back(states, b, c, m);
      states[a].Owner(m) == Some(p) && s.Owner(m) == Some(p) && s.Wait(p) == None && s.Depth(m) == states[a].Depth(m)
  {
    hide Graph, Acyclic, Exact, Gentle, Greatest, Unlocked, Blocked;
    assert Step(states[a], events[a], states[a + 1]) && Step(states[c], events[c], states[c + 1]);
    RunKeeps(states, events, a);
    assert ShallowAt(states[a], m);
    StepDepths(states[a], events[a], states[a + 1], m);
    KindKept(states, events, a, c, m);
    if b < c {
      BlockedUntilGranted(states, events, b, c, p, m);
    }
  }

  // -------------------------------------------------------------- the walk

  /** The first i threads of the chain from o have the priority x. */
  ghost predicate LiftedTo(s: State, s': State, o: Tid, x: int, i: nat) {
    && s'.saved == s.saved && s'.locked == s.locked && s'.owner == s.owner && s'.depth == s.depth && s'.waitsOn == s.waitsOn
    && (forall t: Tid :: s'.Prio(t) == if Within(s, o, t, i) then x else s.Prio(t))
    && (forall k: Mid :: multiset(s'.Queue(k)) == multiset(s.Queue(k)))
  }

  ghost predicate Within(s: State, o: Tid, t: Tid, i: nat) {
    exists j: nat :: j < i && After(s, o, j) == Some(t)
  }

  lemma WithinNext(s: State, o: Tid, i: nat, t: Tid, u: Tid)
    requires After(s, o, i) == Some(t)
    ensures Within(s, o, u, i + 1) <==> Within(s, o, u, i) || u == t
  {
    if Within(s, o, u, i + 1) && !Within(s, o, u, i) {
      var j: nat :| j < i + 1 && After(s, o, j) == Some(u);
    }
  }

  lemma LiftedNext(s: State, s': State, o: Tid, x: int, i: nat, t: Tid, v: seq<Tid>)
    requires LiftedTo(s, s', o, x, i) && After(s, o, i) == Some(t)
    requires t in s'.waitsOn ==> multiset(v) == multiset(s'.Queue(s'.waitsOn[t]))
    ensures LiftedTo(s, Reprioritized(s', t, x, v), o, x, i + 1)
  {
    hide Within, After;
    var r := Reprioritized(s', t, x, v);
    forall u: Tid
      ensures r.Prio(u) == if Within(s, o, u, i + 1) then x else s.Prio(u)
    {
      WithinNext(s, o, i, t, u);
    }
    forall k: Mid
      ensures multiset(r.Queue(k)) == multiset(s.Queue(k))
    {
      assert multiset(s'.Queue(k)) == multiset(s.Queue(k));
    }
  }

  /** The whole walk: what joining the queue and lifting the chain come to. */
  lemma LiftedIsBlocked(s: State, p: Tid, m: Mid, o: Tid, v: seq<Tid>, s': State, i: nat)
    requires MayBlock(s, p, m, o) && (s.Prio(p) > s.Prio(o) ==> !OnChain(s, o, p)) && multiset(v) == multiset(s.Queue(m)) + multiset{p}
    requires var j := Joined(s, p, m, v);
             if s.Prio(p) > s.Prio(o) then LiftedTo(j, s', o, s.Prio(p), i) && After(j, o, i) == None else s' == j
    ensures Blocked(s, s', p, m, o)
  {
    hide MayBlock, OnChain, Within, After;
    var j := Joined(s, p, m, v);
    JoinedQueues(s, p, m, v);
    if s.Prio(p) > s.Prio(o) {
      forall t: Tid
        ensures Within(j, o, t, i) <==> OnChain(s, o, t)
      {
        WalkedIsChain(s, j, p, m, o, i, t);
      }
    }
  }

  lemma JoinedQueues(s: State, p: Tid, m: Mid, v: seq<Tid>)
    requires multiset(v) == multiset(s.Queue(m)) + multiset{p}
    ensures forall k: Mid :: multiset(Joined(s, p, m, v).Queue(k)) == multiset(s.Queue(k)) + if k == m then multiset{p} else multiset{}
    ensures forall t: Tid :: Joined(s, p, m, v).Prio(t) == s.Prio(t)
  {
  }

  /** Those whom the walk has passed when it ends are those on the chain. */
  lemma WalkedIsChain(s: State, j: State, p: Tid, m: Mid, o: Tid, i: nat, t: Tid)
    requires j.owner == s.owner && j.waitsOn == s.waitsOn[p := m] && !OnChain(s, o, p) && After(j, o, i) == None
    ensures Within(j, o, t, i) <==> OnChain(s, o, t)
  {
    hide After;
    if n: nat :| After(s, o, n) == Some(t) {
      ChainKept(s, j, p, m, o, n);
      if n >= i {
        AfterSum(j, o, i, n - i);
      }
    }
    if n: nat :| n < i && After(j, o, n) == Some(t) {
      ChainKept(s, j, p, m, o, n);
    }
  }
}
