/**
 The mutex code itself: threads and mutexes with their pointers, updated in place. A ghost
 state on the side says what the pointers stand for, and every operation is one step of it.
 */
module Sync {
  import opened MutexGraph
  import opened MutexRuns

  class Thread {
    const id: nat
    var priority: int
    var savedPriority: int
    /** The first of the mutexes held; the others follow along `next`. */
    var mutexLocked: Mutex?
    var mutexWaiting: Mutex?
    /** The flag of a thread that waits on a condition variable, which the scheduler does not run. */
    var condWait: bool
    ghost var locks: seq<Mutex>

    constructor (id: nat, priority: int)
      ensures this.id == id && this.priority == priority && !condWait && Idle(this)
    {
      this.id, this.priority, savedPriority, condWait := id, priority, 0, false;
      mutexLocked, mutexWaiting, locks := null, null, [];
    }

    /** The greatest of a priority and those of all threads waiting for a mutex that this thread holds. */
    method Inherited(pr: int, ghost k: Kernel) returns (x: int)
      requires k.Shown() && k.Lists() && Heaps(k.state) && k.Has(this)
      ensures Greatest(k.state, pr, k.state.Held(id), x)
    {
      hide Greatest, Heaps, Mids, Tids, Kernel.Shown, Kernel.Lists;
      HeldIs(k, this);
      x := pr;
      var walk := mutexLocked;
      ghost var i := 0;
      NothingInherited(k.state, pr);
      while walk != null
        invariant 0 <= i <= |locks| && walk == At(locks, i)
        invariant Greatest(k.state, pr, Mids(locks)[..i], x)
        decreases |locks| - i
      {
        FrontShown(k, walk);
        InheritedNext(k.state, Mids(locks), i, pr, x);
        if walk.waiting != [] {
          x := if walk.waiting[0].priority > x then walk.waiting[0].priority else x;
        }
        walk := walk.next;
        i := i + 1;
      }
      assert Mids(locks)[..i] == Mids(locks);
    }

    /** The running thread changes its priority. */
    method SetPriority(pr: int, ghost k: Kernel)
      requires k.Valid() && k.Has(this) && mutexWaiting == null
      modifies k`state, this`priority, this`savedPriority
      ensures k.Valid() && Step(old(k.state), Event.SetPriority(id, pr), k.state)
    {
      hide Graph, Greatest, IsHeap, Mids, Tids, Linked, Kernel.Shown, Kernel.Lists;
      ghost var s := k.state;
      HeadShown(k, this);
      if mutexLocked != null && savedPriority == pr {
        return;
      }
      var x := pr;
      if mutexLocked != null {
        x := SaveAndInherit(pr, k);
      } else {
        NothingInherited(s, pr);
      }
      ChangePriority(x, k);
      PrioritySetKeeps(s, id, pr, x);
    }

    method SaveAndInherit(pr: int, ghost k: Kernel) returns (x: int)
      requires k.Valid() && k.Has(this)
      modifies k`state, this`savedPriority
      ensures k.Shown() && k.Lists() && k.state == old(k.state).(saved := old(k.state).saved[id := pr])
      ensures Greatest(old(k.state), pr, old(k.state).Held(id), x)
    {
      hide Graph, Greatest, Heaps, IsHeap, Mids, Tids, Linked, Kernel.Shown, Kernel.Lists;
      ghost var s := k.state;
      HeapsOf(s);
      SetSaved(pr, k);
      SameHeaps(s, k.state);
      x := Inherited(pr, k);
      SameInherited(k.state, s, s.Held(id), pr, x);
    }

    /** Moves the thread to another priority, unless it has that one already. */
    method ChangePriority(x: int, ghost k: Kernel)
      requires k.Shown() && k.Has(this)
      modifies this`priority, k`state
      ensures k.Shown() && priority == x && k.state == old(k.state).(prio := old(k.state).prio[id := x])
    {
      hide Kernel.SavedShown, Kernel.HeldShown, Kernel.WaitShown, Kernel.OwnerShown, Kernel.QueueShown, Kernel.DepthShown, Mids, Tids;
      if x != priority {
        SetPriorityTo(x, k);
      } else {
        k.state := k.state.(prio := k.state.prio[id := x]);
      }
    }

    method SetPriorityTo(x: int, ghost k: Kernel)
      requires k.Shown() && k.Has(this)
      modifies this`priority, k`state
      ensures k.Shown() && priority == x && k.state == old(k.state).(prio := old(k.state).prio[id := x])
    {
      hide Kernel.SavedShown, Kernel.HeldShown, Kernel.WaitShown, Kernel.OwnerShown, Kernel.QueueShown, Kernel.DepthShown, Mids, Tids;
      priority := x;
      k.state := k.state.(prio := k.state.prio[id := x]);
    }

    method SetSaved(x: int, ghost k: Kernel)
      requires k.Shown() && k.Has(this)
      modifies this`savedPriority, k`state
      ensures k.Shown() && savedPriority == x && k.state == old(k.state).(saved := old(k.state).saved[id := x])
    {
      hide Kernel.PrioShown, Kernel.HeldShown, Kernel.WaitShown, Kernel.OwnerShown, Kernel.QueueShown, Kernel.DepthShown, Mids, Tids;
      savedPriority := x;
      k.state := k.state.(saved := k.state.saved[id := x]);
    }

    method WaitFor(m: Mutex, ghost k: Kernel)
      requires k.Shown() && k.Has(this) && k.HasMutex(m)
      modifies this`mutexWaiting, k`state
      ensures k.Shown() && mutexWaiting == m && k.state == old(k.state).(waitsOn := old(k.state).waitsOn[id := m.id])
    {
      hide Kernel.PrioShown, Kernel.SavedShown, Kernel.HeldShown, Kernel.OwnerShown, Kernel.QueueShown, Kernel.DepthShown, Mids, Tids;
      mutexWaiting := m;
      k.state := k.state.(waitsOn := k.state.waitsOn[id := m.id]);
    }

    method WaitNoMore(ghost k: Kernel)
      requires k.Shown() && k.Has(this)
      modifies this`mutexWaiting, k`state
      ensures k.Shown() && mutexWaiting == null && k.state == old(k.state).(waitsOn := old(k.state).waitsOn - {id})
    {
      hide Kernel.PrioShown, Kernel.SavedShown, Kernel.HeldShown, Kernel.OwnerShown, Kernel.QueueShown, Kernel.DepthShown, Mids, Tids;
      mutexWaiting := null;
      k.state := k.state.(waitsOn := k.state.waitsOn - {id});
    }
  }

  /** A thread that holds nothing and waits for nothing. */
  ghost predicate Idle(t: Thread)
    reads t
  {
    t.mutexLocked == null && t.mutexWaiting == null && t.locks == []
  }

  /** A mutex that nobody has taken. */
  ghost predicate Unused(m: Mutex)
    reads m
  {
    m.owner == null && m.waiting == [] && -1 <= m.recursiveDepth <= 0
  }

  ghost predicate AllIdle(threads: seq<Thread>)
    reads threads
  {
    forall i :: 0 <= i < |threads| ==> threads[i].id == i && Idle(threads[i])
  }

  ghost predicate AllUnused(mutexes: seq<Mutex>)
    reads mutexes
  {
    forall j :: 0 <= j < |mutexes| ==> mutexes[j].id == j && Unused(mutexes[j])
  }

  /** The state of threads and mutexes as they are constructed. */
  ghost function Started(threads: seq<Thread>, mutexes: seq<Mutex>): State
    reads threads, mutexes
  {
    State(map i: Tid | i < |threads| :: threads[i].priority, map i: Tid | i < |threads| :: threads[i].savedPriority,
          map[], map[], map[], map[], map j: Mid | j < |mutexes| :: mutexes[j].recursiveDepth)
  }

  /** The i-th element of a list, or null at its end. */
  function At(l: seq<Mutex>, i: nat): Mutex? {
    if i < |l| then l[i] else null
  }

  /** The list that starts at `head`, made of some of the mutexes there are. */
  ghost predicate Linked(l: seq<Mutex>, head: Mutex?, mutexes: seq<Mutex>)
    reads mutexes`next
  {
    && head == At(l, 0)
    && (forall i :: 0 <= i < |l| ==> l[i] in mutexes && l[i].next == At(l, i + 1))
    && (forall i, j :: 0 <= i < j < |l| ==> l[i] != l[j])
  }

  ghost predicate Disjoint(l: seq<Mutex>, l': seq<Mutex>) {
    forall m :: m in l ==> m !in l'
  }

  function Mids(l: seq<Mutex>): seq<Mid> {
    seq(|l|, i requires 0 <= i < |l| => l[i].id)
  }

  function Tids(v: seq<Thread>): seq<Tid> {
    seq(|v|, i requires 0 <= i < |v| => v[i].id)
  }

  /** The part of Acquired and Granted that is about the list of the new owner. */
  function TakenUp(s: State, p: Tid, m: Mid): State {
    s.(saved := if s.Held(p) == [] then s.saved[p := s.Prio(p)] else s.saved, locked := s.locked[p := [m] + s.Held(p)])
  }

  /** The part that is not. */
  function Replaced(s: State, w: Tid, m: Mid, v: seq<Tid>): State {
    s.(owner := s.owner[m := w], queue := s.queue[m := v], waitsOn := s.waitsOn - {w})
  }

  lemma GrantedParts(s: State, f: State, w: Tid, m: Mid, v: seq<Tid>)
    requires s.Queue(m) != [] && s.Queue(m)[0] == w && f == s.(owner := s.owner - {m})
    ensures f.Queue(m) == s.Queue(m) && Granted(f, m, v) == TakenUp(Replaced(s, w, m, v), w, m)
    ensures Replaced(s, w, m, v).Held(w) == s.Held(w) && Replaced(s, w, m, v).Prio(w) == s.Prio(w)
    ensures Granted(f, m, v).Prio(w) == s.Prio(w)
  {
  }

  /** All threads and mutexes, and what their fields stand for. */
  class Kernel {
    ghost const threads: seq<Thread>
    ghost const mutexes: seq<Mutex>
    ghost var state: State

    /** Threads and mutexes as they are constructed: the state in which every run begins. */
    ghost constructor (threads: seq<Thread>, mutexes: seq<Mutex>)
      requires AllIdle(threads) && AllUnused(mutexes)
      ensures this.threads == threads && this.mutexes == mutexes
      ensures Valid() && Fresh(state) && Acyclic(state) && Exact(state) && Shallow(state)
    {
      this.threads, this.mutexes := threads, mutexes;
      state := Started(threads, mutexes);
      new;
      hide Graph, Acyclic, Exact, Shallow, Shown, Lists, AllIdle, AllUnused;
      StartIsShown(this);
      FreshKeeps(state);
    }

    ghost predicate Has(t: Thread) {
      t.id < |threads| && threads[t.id] == t
    }

    ghost predicate HasMutex(m: Mutex) {
      m.id < |mutexes| && mutexes[m.id] == m
    }

    ghost predicate Numbered() {
      && (forall i :: 0 <= i < |threads| ==> threads[i].id == i)
      && (forall j :: 0 <= j < |mutexes| ==> mutexes[j].id == j)
    }

    ghost predicate PrioShown(prio: map<Tid, int>)
      reads threads`priority
    {
      forall i: Tid :: i < |threads| ==> Or(prio, i, 0) == threads[i].priority
    }

    ghost predicate SavedShown(saved: map<Tid, int>)
      reads threads`savedPriority
    {
      forall i: Tid :: i < |threads| ==> Or(saved, i, 0) == threads[i].savedPriority
    }

    ghost predicate HeldShown(locked: map<Tid, seq<Mid>>)
      reads threads`locks
    {
      forall i: Tid :: i < |threads| ==> HeldAs(threads[i], Or(locked, i, []))
    }

    ghost predicate HeldAs(t: Thread, l: seq<Mid>)
      reads t`locks
    {
      l == Mids(t.locks) && forall m :: m in t.locks ==> HasMutex(m)
    }

    /** As Shown, but for the list of one thread. */
    ghost predicate ShownBut(p: Thread)
      reads `state, threads`priority, threads`savedPriority, threads`locks, threads`mutexWaiting
      reads mutexes`owner, mutexes`waiting, mutexes`recursiveDepth
    {
      && Numbered()
      && PrioShown(state.prio) && SavedShown(state.saved) && WaitShown(state.waitsOn)
      && OwnerShown(state.owner) && QueueShown(state.queue) && DepthShown(state.depth)
      && forall i: Tid :: i < |threads| && i != p.id ==> HeldAs(threads[i], state.Held(i))
    }

    /** The list of one thread has become l. */
    ghost method NoteHeld(p: Thread, l: seq<Mid>)
      requires Has(p) && ShownBut(p)
      requires HeldAs(p, l)
      modifies `state
      ensures Shown() && state == old(state).(locked := old(state).locked[p.id := l])
    {
      hide PrioShown, SavedShown, WaitShown, OwnerShown, QueueShown, DepthShown, HeldAs;
      state := state.(locked := state.locked[p.id := l]);
    }

    ghost predicate WaitShown(waitsOn: map<Tid, Mid>)
      reads threads`mutexWaiting
    {
      forall i: Tid :: i < |threads| ==>
        if threads[i].mutexWaiting == null then i !in waitsOn
        else i in waitsOn && waitsOn[i] == threads[i].mutexWaiting.id && HasMutex(threads[i].mutexWaiting)
    }

    ghost predicate OwnerShown(owner: map<Mid, Tid>)
      reads mutexes`owner
    {
      forall j: Mid :: j < |mutexes| ==>
        if mutexes[j].owner == null then j !in owner
        else j in owner && owner[j] == mutexes[j].owner.id && Has(mutexes[j].owner)
    }

    ghost predicate QueueShown(queue: map<Mid, seq<Tid>>)
      reads mutexes`waiting
    {
      forall j: Mid :: j < |mutexes| ==> Or(queue, j, []) == Tids(mutexes[j].waiting) && forall t :: t in mutexes[j].waiting ==> Has(t)
    }

    ghost predicate DepthShown(depth: map<Mid, int>)
      reads mutexes`recursiveDepth
    {
      forall j: Mid :: j < |mutexes| ==> Or(depth, j, -1) == mutexes[j].recursiveDepth
    }

    /** The fields are as the ghost state says. */
    ghost predicate Shown()
      reads `state, threads`priority, threads`savedPriority, threads`locks, threads`mutexWaiting
      reads mutexes`owner, mutexes`waiting, mutexes`recursiveDepth
    {
      && Numbered()
      && PrioShown(state.prio) && SavedShown(state.saved) && HeldShown(state.locked) && WaitShown(state.waitsOn)
      && OwnerShown(state.owner) && QueueShown(state.queue) && DepthShown(state.depth)
    }

    ghost predicate Lists()
      reads threads`locks, threads`mutexLocked, mutexes`next
    {
      forall i :: 0 <= i < |threads| ==> Linked(threads[i].locks, threads[i].mutexLocked, mutexes)
    }

    ghost predicate NotHeld(m: Mutex)
      reads threads`locks
    {
      forall i :: 0 <= i < |threads| ==> m !in threads[i].locks
    }

    ghost predicate Valid()
      reads `state, threads`priority, threads`savedPriority, threads`locks, threads`mutexLocked, threads`mutexWaiting
      reads mutexes`next, mutexes`owner, mutexes`waiting, mutexes`recursiveDepth
    {
      Shown() && Lists() && Graph(state)
    }
  }

  /** The walk is made only for a waiter that is more urgent than the owner, and then ends exactly in these states. */
  ghost predicate WalkEnds(p: Thread, owner: Thread, s: State)
    reads p`priority, owner`priority
  {
    p.priority > owner.priority ==> Ends(s, owner.id) && !OnChain(s, owner.id, p.id)
  }

  // -------------------------------------------------------------- the library's heap functions

  ghost predicate Heap(v: seq<Thread>)
    reads v
  {
    forall i, j :: 0 < i < |v| && j == (i - 1) / 2 ==> v[i].priority <= v[j].priority
  }

  ghost predicate Descending(v: seq<Thread>)
    reads v
  {
    forall i, j :: 0 <= i < j < |v| ==> v[i].priority >= v[j].priority
  }

  lemma InsertedDescending(v: seq<Thread>, t: Thread, i: nat)
    requires Descending(v) && i <= |v| && (i > 0 ==> v[i - 1].priority >= t.priority) && (i < |v| ==> v[i].priority <= t.priority)
    ensures Descending(v[..i] + [t] + v[i..])
  {
    var r := v[..i] + [t] + v[i..];
    forall a, b | 0 <= a < b < |r|
      ensures r[a].priority >= r[b].priority
    {
      assert r[a] == (if a < i then v[a] else if a == i then t else v[a - 1]);
      assert r[b] == (if b < i then v[b] else if b == i then t else v[b - 1]);
    }
  }

  method Insert(v: seq<Thread>, t: Thread) returns (r: seq<Thread>)
    requires Descending(v)
    ensures Descending(r) && multiset(r) == multiset(v) + multiset{t}
  {
    var i := 0;
    while i < |v| && v[i].priority >= t.priority
      invariant i <= |v| && (i > 0 ==> v[i - 1].priority >= t.priority)
    {
      i := i + 1;
    }
    assert i < |v| ==> v[i].priority < t.priority;
    InsertedDescending(v, t, i);
    r := v[..i] + [t] + v[i..];
    assert v == v[..i] + v[i..];
  }

  /** Any arrangement that is a heap will do: callers know nothing else of the order. */
  method MakeHeap(v: seq<Thread>) returns (r: seq<Thread>)
    ensures Heap(r) && multiset(r) == multiset(v)
  {
    r := [];
    for i := 0 to |v|
      invariant Descending(r) && multiset(r) == multiset(v[..i])
    {
      assert v[..i + 1] == v[..i] + [v[i]];
      r := Insert(r, v[i]);
    }
    assert v[..|v|] == v;
  }

  method PushHeap(v: seq<Thread>, t: Thread) returns (r: seq<Thread>)
    requires Heap(v)
    ensures Heap(r) && multiset(r) == multiset(v + [t])
  {
    r := MakeHeap(v + [t]);
  }

  /** The heap without its front. */
  method PopHeap(v: seq<Thread>) returns (r: seq<Thread>)
    requires Heap(v) && v != []
    ensures Heap(r) && multiset(r) == multiset(v[1..])
  {
    r := MakeHeap(v[1..]);
  }

  // -------------------------------------------------------------- the mutex

  datatype Outcome = Locked | Waiting | Reboot

  class Mutex {
    const id: nat
    var owner: Thread?
    var next: Mutex?
    var waiting: seq<Thread>
    var recursiveDepth: int

    constructor (id: nat, recursive: bool)
      ensures this.id == id && owner == null && waiting == [] && recursiveDepth == if recursive then 0 else -1
    {
      this.id, owner, next, waiting := id, null, null, [];
      recursiveDepth := if recursive then 0 else -1;
    }

    method SetOwner(t: Thread, ghost k: Kernel)
      requires k.Shown() && k.Has(t) && k.HasMutex(this)
      modifies this`owner, k`state
      ensures k.Shown() && owner == t && k.state == old(k.state).(owner := old(k.state).owner[id := t.id])
    {
      hide Kernel.PrioShown, Kernel.SavedShown, Kernel.HeldShown, Kernel.WaitShown, Kernel.QueueShown, Kernel.DepthShown, Mids, Tids;
      owner := t;
      k.state := k.state.(owner := k.state.owner[id := t.id]);
    }

    method SetFree(ghost k: Kernel)
      requires k.Shown() && k.HasMutex(this)
      modifies this`owner, k`state
      ensures k.Shown() && owner == null && k.state == old(k.state).(owner := old(k.state).owner - {id})
    {
      hide Kernel.PrioShown, Kernel.SavedShown, Kernel.HeldShown, Kernel.WaitShown, Kernel.QueueShown, Kernel.DepthShown, Mids, Tids;
      owner := null;
      k.state := k.state.(owner := k.state.owner - {id});
    }

    method SetWaiting(v: seq<Thread>, ghost k: Kernel)
      requires k.Shown() && k.HasMutex(this) && forall t :: t in v ==> k.Has(t)
      modifies this`waiting, k`state
      ensures k.Shown() && waiting == v && k.state == old(k.state).(queue := old(k.state).queue[id := Tids(v)])
    {
      hide Kernel.PrioShown, Kernel.SavedShown, Kernel.HeldShown, Kernel.WaitShown, Kernel.OwnerShown, Kernel.DepthShown;
      hide Tids, Mids;
      waiting := v;
      k.state := k.state.(queue := k.state.queue[id := Tids(v)]);
    }

    method SetDepth(d: int, ghost k: Kernel)
      requires k.Shown() && k.HasMutex(this)
      modifies this`recursiveDepth, k`state
      ensures k.Shown() && recursiveDepth == d && k.state == old(k.state).(depth := old(k.state).depth[id := d])
    {
      hide Kernel.PrioShown, Kernel.SavedShown, Kernel.HeldShown, Kernel.WaitShown, Kernel.OwnerShown, Kernel.QueueShown, Mids, Tids;
      recursiveDepth := d;
      k.state := k.state.(depth := k.state.depth[id := d]);
    }

    /** Puts this mutex in front of a thread's list. */
    method Prepend(p: Thread, ghost k: Kernel)
      requires k.Lists() && k.Has(p) && k.HasMutex(this)
      requires k.NotHeld(this)
      modifies this`next, p`mutexLocked, p`locks
      ensures k.Lists() && p.locks == [this] + old(p.locks)
    {
      next := p.mutexLocked;
      p.mutexLocked := this;
      p.locks := [this] + p.locks;
      forall i | 0 <= i < |k.threads|
        ensures Linked(k.threads[i].locks, k.threads[i].mutexLocked, k.mutexes)
      {
        assert old(Linked(k.threads[i].locks, k.threads[i].mutexLocked, k.mutexes));
      }
    }

    method AddTo(p: Thread, ghost k: Kernel)
      requires k.Shown() && k.Lists() && k.Has(p) && k.HasMutex(this)
      requires k.NotHeld(this)
      modifies this`next, p`mutexLocked, p`locks, k`state
      ensures k.Shown() && k.Lists()
      ensures k.state == old(k.state).(locked := old(k.state).locked[p.id := [id] + old(k.state).Held(p.id)])
    {
      hide Mids, Linked, Kernel.PrioShown, Kernel.SavedShown, Kernel.WaitShown, Kernel.OwnerShown, Kernel.QueueShown, Kernel.DepthShown;
      HeldIs(k, p);
      MidsCons(this, p.locks);
      Prepend(p, k);
      forall i: Tid | i < |k.threads| && i != p.id
        ensures k.HeldAs(k.threads[i], k.state.Held(i))
      {
        assert old(k.HeldAs(k.threads[i], k.state.Held(i)));
      }
      k.NoteHeld(p, [id] + k.state.Held(p.id));
    }

    /** The thread adds the mutex to its list; if that is its first, its priority is kept for later. */
    method TakeUp(w: Thread, ghost k: Kernel)
      requires k.Shown() && k.Lists() && k.Has(w) && k.HasMutex(this) && k.NotHeld(this)
      requires w.mutexLocked == null <==> k.state.Held(w.id) == []
      requires w.priority == k.state.Prio(w.id)
      modifies k`state, w`savedPriority, w`mutexLocked, w`locks, this`next
      ensures k.Shown() && k.Lists() && k.state == TakenUp(old(k.state), w.id, id)
    {
      hide Mids, Tids, Linked, Kernel.Shown, Kernel.Lists, Kernel.NotHeld, State.Saved, State.Wait, State.Owner, State.Depth;
      if w.mutexLocked == null {
        w.SetSaved(w.priority, k);
      }
      AddTo(w, k);
    }

    /** The branch that all forms of locking begin with. */
    method TakeFree(p: Thread, d: int, ghost k: Kernel)
      requires k.Valid() && k.Has(p) && k.HasMutex(this) && owner == null && -1 <= d
      modifies k`state, this, p`savedPriority, p`mutexLocked, p`locks
      ensures k.Valid() && owner == p && recursiveDepth == d && k.state == Acquired(old(k.state), p.id, id, d)
    {
      hide Graph, Linked, Mids, Tids, Kernel.Shown, Kernel.Lists;
      NotHeldYet(k, this, p);
      AcquiredGraph(k.state, p.id, id, d);
      SetOwner(p, k);
      SetDepth(d, k);
      TakeUp(p, k);
    }

    // ------------------------------------------------------------ locking

    /** Locks the mutex for the running thread p, or queues it; two errors end in a reboot. */
    method PKlock(p: Thread, ghost k: Kernel) returns (r: Outcome)
      requires k.Valid() && k.Has(p) && k.HasMutex(this) && p.mutexWaiting == null
      requires owner != null && owner != p ==> WalkEnds(p, owner, k.state)
      requires -1 <= recursiveDepth
      modifies k`state, k.mutexes, k.threads`priority, k.threads`savedPriority
      modifies k.threads`mutexLocked, k.threads`mutexWaiting, k.threads`locks
      ensures k.Valid()
      ensures r == if old(owner) == null || (old(owner) == p && old(recursiveDepth) >= 0) then Locked
                   else if old(owner) == p then Reboot else Waiting
      ensures r == Locked && old(owner) == null ==> Step(old(k.state), Acquire(p.id, id, old(recursiveDepth)), k.state)
      ensures r == Locked && old(owner) == p ==> Step(old(k.state), Deepen(p.id, id, old(recursiveDepth) + 1), k.state)
      ensures r == Waiting ==> Blocked(old(k.state), k.state, p.id, id, old(owner).id)
      ensures r == Waiting && !OnChain(old(k.state), old(owner).id, p.id) ==> Step(old(k.state), Block(p.id, id), k.state)
      ensures r == Reboot ==> k.state == old(k.state)
    {
      hide Graph, Blocked, Acquired, Deepened, Linked, Mids, Tids, Kernel.HeldShown, Kernel.QueueShown;
      if owner == null {
        TakeFree(p, recursiveDepth, k);
        return Locked;
      }
      if owner == p {
        if recursiveDepth >= 0 {
          DeepenTo(recursiveDepth + 1, k);
          return Locked;
        }
        return Reboot;
      }
      WaitInQueue(p, k);
      r := Waiting;
    }

    /** As PKlock, but to a given depth, which matters only if the mutex is recursive. */
    method PKlockToDepth(p: Thread, depth: nat, ghost k: Kernel) returns (r: Outcome)
      requires k.Valid() && k.Has(p) && k.HasMutex(this) && p.mutexWaiting == null
      requires owner != null && owner != p ==> WalkEnds(p, owner, k.state)
      requires -1 <= recursiveDepth
      modifies k`state, k.mutexes, k.threads`priority, k.threads`savedPriority
      modifies k.threads`mutexLocked, k.threads`mutexWaiting, k.threads`locks
      ensures k.Valid()
      ensures r == if old(owner) == null || (old(owner) == p && old(recursiveDepth) >= 0) then Locked
                   else if old(owner) == p then Reboot else Waiting
      ensures r == Locked ==> owner == p && recursiveDepth == if old(recursiveDepth) >= 0 then depth else -1
      ensures r == Locked && old(owner) == null ==> Step(old(k.state), Acquire(p.id, id, recursiveDepth), k.state)
      ensures r == Locked && old(owner) == p ==> Step(old(k.state), Deepen(p.id, id, depth), k.state)
      ensures r == Waiting ==> Blocked(old(k.state), k.state, p.id, id, old(owner).id)
      ensures r == Waiting && !OnChain(old(k.state), old(owner).id, p.id) ==> Step(old(k.state), Block(p.id, id), k.state)
      ensures r == Reboot ==> k.state == old(k.state)
    {
      hide Graph, Blocked, Acquired, Deepened, Linked, Mids, Tids, Kernel.HeldShown, Kernel.QueueShown;
      if owner == null {
        TakeFree(p, if recursiveDepth >= 0 then depth else recursiveDepth, k);
        return Locked;
      }
      if owner == p {
        if recursiveDepth >= 0 {
          DeepenTo(depth, k);
          return Locked;
        }
        return Reboot;
      }
      WaitInQueue(p, k);
      r := Waiting;
    }

    /** The end of PKlockToDepth for a thread that had to wait and has been granted the mutex. */
    method ResumeToDepth(p: Thread, depth: nat, ghost k: Kernel)
      requires k.Valid() && k.Has(p) && k.HasMutex(this) && owner == p && p.mutexWaiting == null
      modifies k`state, this`recursiveDepth
      ensures k.Valid() && owner == p && recursiveDepth == if old(recursiveDepth) >= 0 then depth else old(recursiveDepth)
      ensures old(recursiveDepth) >= 0 ==> Step(old(k.state), Deepen(p.id, id, depth), k.state)
      ensures old(recursiveDepth) < 0 ==> k.state == old(k.state)
    {
      hide Graph, Linked, Mids, Tids, Kernel.HeldShown, Kernel.QueueShown;
      if recursiveDepth >= 0 {
        DeepenTo(depth, k);
      }
    }

    /** Locks only if that needs no waiting. */
    method PKtryLock(p: Thread, ghost k: Kernel) returns (ok: bool)
      requires k.Valid() && k.Has(p) && k.HasMutex(this) && p.mutexWaiting == null && -1 <= recursiveDepth
      modifies k`state, this, p`savedPriority, p`mutexLocked, p`locks
      ensures k.Valid() && ok == (old(owner) == null || (old(owner) == p && old(recursiveDepth) >= 0))
      ensures ok && old(owner) == null ==> Step(old(k.state), Acquire(p.id, id, old(recursiveDepth)), k.state)
      ensures ok && old(owner) == p ==> Step(old(k.state), Deepen(p.id, id, old(recursiveDepth) + 1), k.state)
      ensures !ok ==> k.state == old(k.state)
    {
      hide Graph, Acquired, Deepened, Linked, Mids, Tids, Kernel.HeldShown, Kernel.QueueShown;
      if owner == null {
        TakeFree(p, recursiveDepth, k);
        return true;
      }
      if owner == p && recursiveDepth >= 0 {
        DeepenTo(recursiveDepth + 1, k);
        return true;
      }
      ok := false;
    }

    method DeepenTo(d: int, ghost k: Kernel)
      requires k.Valid() && k.HasMutex(this)
      modifies k`state, this`recursiveDepth
      ensures k.Valid() && recursiveDepth == d && k.state == Deepened(old(k.state), id, d)
    {
      DeepenedGraph(k.state, id, d);
      hide Graph, Linked, Mids, Tids;
      SetDepth(d, k);
    }

    /** Adds p to the heap, and lifts the owner and whom it waits for if p is more urgent. */
    method WaitInQueue(p: Thread, ghost k: Kernel)
      requires k.Valid() && k.Has(p) && k.HasMutex(this) && p.mutexWaiting == null
      requires owner != null && owner != p && WalkEnds(p, owner, k.state)
      modifies k`state, k.mutexes, k.threads`priority, k.threads`savedPriority
      modifies k.threads`mutexLocked, k.threads`mutexWaiting, k.threads`locks
      ensures k.Valid() && Blocked(old(k.state), k.state, p.id, id, old(owner).id)
      ensures !OnChain(old(k.state), old(owner).id, p.id) ==> Step(old(k.state), Block(p.id, id), k.state)
    {
      ghost var s, o := k.state, owner.id;
      assert MayBlock(s, p.id, id, o);
      JoinQueue(p, k);
      ghost var v := k.state.Queue(id);
      ghost var i := 0;
      if p.priority > owner.priority {
        WalkTerminatesIff(s, p.id, id, o, v);
        i := Lift(owner, p.priority, k);
      }
      LiftedIsBlocked(s, p.id, id, o, v, k.state, i);
    }

    method JoinQueue(p: Thread, ghost k: Kernel)
      requires k.Valid() && k.Has(p) && k.HasMutex(this) && p.mutexWaiting == null
      requires owner != null && owner != p
      modifies k`state, this`waiting, p`mutexWaiting
      ensures k.Valid() && k.state == Joined(old(k.state), p.id, id, k.state.Queue(id))
      ensures multiset(k.state.Queue(id)) == multiset(old(k.state).Queue(id)) + multiset{p.id}
    {
      hide Graph, MayBlock, Heap, IsHeap, Tids, Mids, Linked, Kernel.Shown, Kernel.Lists;
      ghost var s := k.state;
      JoinReady(k, this, p);
      var v := PushHeap(waiting, p);
      Pushed(k, this, p, v);
      JoinedGraph(s, p.id, id, owner.id, Tids(v));
      SetWaiting(v, k);
      p.WaitFor(this, k);
    }

    /** The inheritance walk: every thread on the chain from o gets the priority x. */
    method Lift(o: Thread, x: int, ghost k: Kernel) returns (ghost i: nat)
      requires k.Valid() && k.Has(o) && Ends(k.state, o.id)
      modifies k`state, k.threads`priority, k.mutexes`waiting
      ensures k.Valid() && LiftedTo(old(k.state), k.state, o.id, x, i) && After(old(k.state), o.id, i) == None
    {
      hide Graph, Kernel.Valid;
      ghost var s := k.state;
      ghost var n: nat :| After(s, o.id, n) == None;
      var walk: Thread := o;
      i := 0;
      while true
        invariant k.Valid() && k.Has(walk) && After(s, o.id, i) == Some(walk.id)
        invariant LiftedTo(s, k.state, o.id, x, i)
        decreases n - i
      {
        ghost var now := k.state;
        if i >= n {
          AfterSum(s, o.id, n, i - n);
          assert false;
        }
        Raise(walk, x, k);
        LiftedNext(s, now, o.id, x, i, walk.id, if walk.id in now.waitsOn then k.state.Queue(now.waitsOn[walk.id]) else []);
        i := i + 1;
        AfterSum(s, o.id, i - 1, 1);
        assert After(s, walk.id, 1) == Next(s, walk.id);
        if walk.mutexWaiting == null {
          WaitsFor(k, walk);
          return;
        }
        WaitsFor(k, walk);
        walk := walk.mutexWaiting.owner;
      }
    }

    /** One round of the walk. */
    method Raise(walk: Thread, x: int, ghost k: Kernel)
      requires k.Valid() && k.Has(walk)
      modifies k`state, walk`priority, k.mutexes`waiting
      ensures k.Valid()
      ensures var s := old(k.state);
              var v := if walk.id in s.waitsOn then k.state.Queue(s.waitsOn[walk.id]) else [];
              && k.state == Reprioritized(s, walk.id, x, v)
              && (walk.id in s.waitsOn ==> multiset(v) == multiset(s.Queue(s.waitsOn[walk.id])))
    {
      hide Graph, IsHeap, Heap, Tids, Mids, Linked, Kernel.Shown, Kernel.Lists;
      ghost var s := k.state;
      WaitedFor(k, walk);
      walk.SetPriorityTo(x, k);
      if walk.mutexWaiting != null {
        var m := walk.mutexWaiting;
        var v := MakeHeap(m.waiting);
        Remade(k, m, v);
        ReprioritizedGraph(s, walk.id, x, Tids(v));
        m.SetWaiting(v, k);
      } else {
        ReprioritizedGraph(s, walk.id, x, []);
      }
    }

    // ------------------------------------------------------------ unlocking

    /** Unlocks one level; the flag says whether a more urgent thread was woken. */
    method PKunlock(p: Thread, ghost k: Kernel) returns (r: Outcome, hppw: bool)
      requires k.Valid() && k.Has(p) && k.HasMutex(this) && p.mutexWaiting == null && -1 <= recursiveDepth
      modifies k`state, k.mutexes, k.threads`priority, k.threads`savedPriority
      modifies k.threads`mutexLocked, k.threads`mutexWaiting, k.threads`locks
      ensures k.Valid() && (r == Reboot <==> old(owner) != p)
      ensures r == Reboot ==> k.state == old(k.state)
      ensures r != Reboot && old(recursiveDepth) > 0 ==> !hppw && Step(old(k.state), Deepen(p.id, id, old(recursiveDepth) - 1), k.state)
      ensures r != Reboot && old(recursiveDepth) <= 0 ==> Step(old(k.state), Unlock(p.id, id), k.state)
      ensures r != Reboot && old(recursiveDepth) <= 0 ==> hppw == (owner != null && owner.priority > p.priority)
    {
      hide Step, Deepened, Unlocked, MayUnlock, Kernel.Valid;
      hppw := false;
      if owner != p {
        return Reboot, false;
      }
      OwnedShown(k, this, p);
      if recursiveDepth > 0 {
        DeepenedIs(k.state, p.id, id, recursiveDepth - 1);
        DeepenTo(recursiveDepth - 1, k);
        return Locked, false;
      }
      ghost var x, v := Release(p, k);
      UnlockedIs(old(k.state), p.id, id, x, v);
      hppw := owner != null && owner.priority > p.priority;
      r := Locked;
    }

    /** Unlocks all levels and returns how deep the mutex was locked. */
    method PKunlockAllDepthLevels(p: Thread, ghost k: Kernel) returns (r: Outcome, depth: nat)
      requires k.Valid() && k.Has(p) && k.HasMutex(this) && p.mutexWaiting == null && -1 <= recursiveDepth
      modifies k`state, k.mutexes, k.threads`priority, k.threads`savedPriority
      modifies k.threads`mutexLocked, k.threads`mutexWaiting, k.threads`locks
      ensures k.Valid() && (r == Reboot <==> old(owner) != p)
      ensures r == Reboot ==> depth == 0 && k.state == old(k.state)
      ensures r != Reboot ==> depth == (if old(recursiveDepth) < 0 then 0 else old(recursiveDepth)) && recursiveDepth == if old(recursiveDepth) < 0 then -1 else 0
      ensures r != Reboot ==> Step(old(k.state), UnlockAll(p.id, id), k.state)
    {
      hide Step, Deepened, Unlocked, UnlockedAll, MayUnlock, Kernel.Valid;
      depth := 0;
      if owner != p {
        return Reboot, 0;
      }
      ghost var s := k.state;
      OwnedShown(k, this, p);
      ghost var x, v := Release(p, k);
      UnlockedAllIs(s, p.id, id, x, v);
      r := Locked;
      if recursiveDepth >= 0 {
        depth := recursiveDepth;
        DeepenTo(0, k);
      }
    }

    /** Takes the mutex from its owner and gives it to the next. */
    method Release(p: Thread, ghost k: Kernel) returns (ghost x: int, ghost v: seq<Tid>)
      requires k.Valid() && k.Has(p) && k.HasMutex(this) && p.mutexWaiting == null && owner == p
      modifies k`state, k.mutexes, k.threads`priority, k.threads`savedPriority
      modifies k.threads`mutexLocked, k.threads`mutexWaiting, k.threads`locks
      ensures k.Valid() && recursiveDepth == old(recursiveDepth)
      ensures MayUnlock(old(k.state), p.id, id, x, v) && k.state == Unlocked(old(k.state), p.id, id, x, v)
    {
      ghost var s := k.state;
      assert Heaps(s);
      hide Graph, Heaps, Unlocked, Without, Greatest, Linked, Mids, Tids;
      RemoveFrom(p, k);
      x := Recompute(p, s, k);
      v := HandOver(s, p, x, k);
    }

    /** Takes this mutex out of its owner's list. */
    method RemoveFrom(p: Thread, ghost k: Kernel)
      requires k.Valid() && k.Has(p) && k.HasMutex(this) && owner == p
      modifies k`state, p`mutexLocked, p`locks, k.mutexes`next
      ensures k.Shown() && k.Lists()
      ensures k.state == old(k.state).(locked := old(k.state).locked[p.id := Without(old(k.state).Held(p.id), id)])
    {
      hide Graph, Without, Mids, Tids, Linked, Disjoint, Kernel.HeldAs, Kernel.PrioShown, Kernel.SavedShown, Kernel.HeldShown, Kernel.WaitShown,
        Kernel.OwnerShown, Kernel.QueueShown, Kernel.DepthShown;
      HeldByOwner(k, this, p);
      HeldIs(k, p);
      OthersHeld(k, p);
      ghost var l := p.locks;
      ghost var n := Unlink(p, k);
      HeldAfterCut(k, p, l, n, this);
      forall i: Tid | i < |k.threads| && i != p.id
        ensures k.HeldAs(k.threads[i], k.state.Held(i))
      {
        assert old(k.HeldAs(k.threads[i], k.state.Held(i)));
      }
      k.NoteHeld(p, Without(k.state.Held(p.id), id));
    }

    /** The pointer part, which leaves the other threads' lists alone. */
    method Unlink(p: Thread, ghost k: Kernel) returns (ghost n: nat)
      requires k.Lists() && k.Has(p) && this in p.locks
      requires forall i :: 0 <= i < |k.threads| && i != p.id ==> Disjoint(k.threads[i].locks, p.locks)
      modifies p`mutexLocked, p`locks, k.mutexes`next
      ensures k.Lists() && n < |old(p.locks)| && old(p.locks)[n] == this
      ensures p.locks == old(p.locks)[..n] + old(p.locks)[n + 1..]
    {
      assert Linked(p.locks, p.mutexLocked, k.mutexes) by { assert k.threads[p.id] == p; }
      n := Cut(p, k);
      forall i | 0 <= i < |k.threads|
        ensures Linked(k.threads[i].locks, k.threads[i].mutexLocked, k.mutexes)
      {
        if i != p.id {
          assert k.threads[i] != p;
          assert old(Linked(k.threads[i].locks, k.threads[i].mutexLocked, k.mutexes));
        }
      }
    }

    /** The head moves on, or the predecessor found by the walk points past this mutex. */
    method Cut(p: Thread, ghost k: Kernel) returns (ghost n: nat)
      requires Linked(p.locks, p.mutexLocked, k.mutexes) && this in p.locks
      modifies p`mutexLocked, p`locks, k.mutexes`next
      ensures n < |old(p.locks)| && old(p.locks)[n] == this
      ensures p.locks == old(p.locks)[..n] + old(p.locks)[n + 1..] && Linked(p.locks, p.mutexLocked, k.mutexes)
      ensures forall m :: m in k.mutexes && m !in old(p.locks) ==> m.next == old(m.next)
    {
      hide Linked;
      if p.mutexLocked == this {
        n := 0;
        TailLinked(p.locks, p.mutexLocked, k.mutexes);
        p.mutexLocked := next;
        p.locks := p.locks[1..];
        assert p.locks == old(p.locks)[..0] + old(p.locks)[1..];
      } else {
        n := CutNext(p, k);
      }
    }

    method CutNext(p: Thread, ghost k: Kernel) returns (ghost n: nat)
      requires Linked(p.locks, p.mutexLocked, k.mutexes) && this in p.locks && p.mutexLocked != this
      modifies p`locks, k.mutexes`next
      ensures n < |old(p.locks)| && old(p.locks)[n] == this
      ensures p.locks == old(p.locks)[..n] + old(p.locks)[n + 1..] && Linked(p.locks, p.mutexLocked, k.mutexes)
      ensures forall m :: m in k.mutexes && m !in old(p.locks) ==> m.next == old(m.next)
    {
      ghost var l := p.locks;
      var walk;
      walk, n := FindBefore(p, l, k);
      assert walk.next.next == At(l, n + 1);
      walk.next := walk.next.next;
      p.locks := l[..n] + l[n + 1..];
      hide At;
      forall i | 0 <= i < |p.locks|
        ensures p.locks[i] in k.mutexes && p.locks[i].next == At(p.locks, i + 1)
      {
        AtCut(l, n, i);
      }
      AtCut(l, n, -1);
    }

    /** The walk along a list to the mutex before this one. */
    method FindBefore(p: Thread, ghost l: seq<Mutex>, ghost k: Kernel) returns (walk: Mutex, ghost n: nat)
      requires Linked(l, p.mutexLocked, k.mutexes) && this in l && p.mutexLocked != this
      ensures 0 < n < |l| && l[n] == this && walk == l[n - 1]
    {
      ghost var at :| 0 <= at < |l| && l[at] == this;
      walk := p.mutexLocked;
      n := 1;
      while walk.next != this
        invariant 0 < n <= at && walk == l[n - 1]
        decreases at - n
      {
        walk := walk.next;
        n := n + 1;
      }
      assert l[n] == this;
    }

    /** The owner gets back the priority it still inherits, or its own. */
    method Recompute(p: Thread, ghost s: State, ghost k: Kernel) returns (ghost x: int)
      requires k.Shown() && k.Lists() && k.Has(p) && Heaps(s)
      requires k.state == s.(locked := s.locked[p.id := Without(s.Held(p.id), id)])
      modifies k`state, p`priority
      ensures k.Shown() && k.Lists()
      ensures Greatest(s, s.Saved(p.id), Without(s.Held(p.id), id), x)
      ensures k.state == s.(locked := s.locked[p.id := Without(s.Held(p.id), id)], prio := s.prio[p.id := x])
    {
      hide Greatest, Heaps, Mids, Tids, Linked, Without, Kernel.Shown, Kernel.Lists, State.Held, State.Saved, State.Prio, State.Queue, State.Wait;
      ghost var t, held := k.state, Without(s.Held(p.id), id);
      OtherList(s, t, p.id, held);
      HeadShown(k, p);
      var pr := p.savedPriority;
      NothingInherited(t, pr);
      if p.mutexLocked != null {
        pr := p.Inherited(p.savedPriority, k);
      }
      InheritedAsBefore(s, t, p.id, held, s.Saved(p.id), pr);
      p.ChangePriority(pr, k);
      x := pr;
    }

    /** The front of the heap becomes the owner; with no one waiting the mutex is free. */
    method HandOver(ghost s: State, p: Thread, ghost x: int, ghost k: Kernel) returns (ghost v: seq<Tid>)
      requires k.Shown() && k.Lists() && k.Has(p) && k.HasMutex(this) && owner == p
      requires Graph(s) && s.Owner(id) == Some(p.id) && s.Wait(p.id) == None
      requires Greatest(s, s.Saved(p.id), Without(s.Held(p.id), id), x)
      requires k.state == s.(locked := s.locked[p.id := Without(s.Held(p.id), id)], prio := s.prio[p.id := x])
      modifies k`state, this, k.threads`priority, k.threads`savedPriority
      modifies k.threads`mutexLocked, k.threads`mutexWaiting, k.threads`locks
      ensures k.Valid() && recursiveDepth == old(recursiveDepth)
      ensures MayUnlock(s, p.id, id, x, v) && k.state == Unlocked(s, p.id, id, x, v)
    {
      hide Graph, GraphBut, MayUnlock, MayGrant, Greatest, Granted, Mids, Tids, Linked, Without, Kernel.Shown, Kernel.Lists;
      ghost var f := Freed(s, p.id, id, x);
      FreedGraph(s, p.id, id, x);
      FrontShown(k, this);
      if waiting != [] {
        v := Grant(f, k);
      } else {
        v := [];
        SetFree(k);
      }
      HandedOver(s, p.id, id, x, v);
    }

    /** The next owner takes over; the code raises it if someone more urgent is left waiting, which never happens. */
    method Grant(ghost f: State, ghost k: Kernel) returns (ghost v: seq<Tid>)
      requires k.Shown() && k.Lists() && k.HasMutex(this) && waiting != []
      requires GraphBut(f, id) && f == k.state.(owner := k.state.owner - {id})
      modifies k`state, this, k.threads`priority, k.threads`savedPriority
      modifies k.threads`mutexLocked, k.threads`mutexWaiting, k.threads`locks
      ensures k.Shown() && k.Lists() && recursiveDepth == old(recursiveDepth)
      ensures MayGrant(f, id, v) && k.state == Granted(f, id, v)
    {
      assert Heaps(f) && Owned(f);
      hide GraphBut, IsHeap, Owned, Heaps, Mids, Linked, Kernel.Shown, Kernel.Lists;
      HeapShown(k, this, f);
      var rest := PopHeap(waiting);
      v := Tids(rest);
      RestIsHeap(k, this, f, rest);
      FrontOfQueue(f, id, v);
      NobodyHolds(k, this, f);
      Install(waiting[0], rest, f, k);
      FrontShown(k, this);
      if waiting != [] && waiting[0].priority > owner.priority {
        assert false;
      }
    }

    /** The new owner is taken out of the queue and put in possession. */
    method Install(w: Thread, rest: seq<Thread>, ghost f: State, ghost k: Kernel)
      requires k.Shown() && k.Lists() && k.HasMutex(this) && k.Has(w) && waiting != [] && w == waiting[0]
      requires f == k.state.(owner := k.state.owner - {id})
      requires k.NotHeld(this)
      requires forall t :: t in rest ==> k.Has(t)
      modifies k`state, w`savedPriority, w`mutexLocked, w`mutexWaiting, w`locks, this
      ensures k.Shown() && k.Lists() && recursiveDepth == old(recursiveDepth)
      ensures f.Queue(id) != [] && f.Queue(id)[0] == w.id && k.state == Granted(f, id, Tids(rest))
      ensures owner == w && waiting == rest && w.priority == k.state.Prio(w.id)
    {
      hide Mids, Tids, Linked, Granted, TakenUp, Kernel.Shown, Kernel.Lists, Kernel.NotHeld, State.Held, State.Prio, State.Saved, State.Wait;
      FrontShown(k, this);
      HeadShown(k, w);
      GrantedParts(k.state, f, w.id, id, Tids(rest));
      SetOwner(w, k);
      SetWaiting(rest, k);
      w.WaitNoMore(k);
      assert k.state == Replaced(old(k.state), w.id, id, Tids(rest));
      TakeUp(w, k);
    }
  }

  // -------------------------------------------------------------- condition variables

  class ConditionVariable {
    /** The list of waiting threads, first come first. */
    var waiters: seq<Thread>

    constructor ()
      ensures waiters == [] && Valid()
    {
      waiters := [];
    }

    /** Who is in the list is there once, and has the flag that keeps it from running. */
    ghost predicate Valid()
      reads this, waiters
    {
      && (forall i, j :: 0 <= i < j < |waiters| ==> waiters[i] != waiters[j])
      && (forall t :: t in waiters ==> t.condWait)
    }

    /** The first half of waiting, up to where the thread yields: the mutex is given back at all levels. */
    method WaitBegin(m: Mutex, p: Thread, ghost k: Kernel) returns (r: Outcome, depth: nat)
      requires k.Valid() && k.Has(p) && k.HasMutex(m) && p.mutexWaiting == null && -1 <= m.recursiveDepth
      requires Valid() && !p.condWait
      modifies this, k`state, k.mutexes, k.threads`priority, k.threads`savedPriority, p`condWait
      modifies k.threads`mutexLocked, k.threads`mutexWaiting, k.threads`locks
      ensures k.Valid() && waiters == old(waiters) + [p] && (r == Reboot <==> old(m.owner) != p)
      ensures Valid() && p.condWait
      ensures r != Reboot ==> Step(old(k.state), UnlockAll(p.id, m.id), k.state) && depth == Levels(old(m.recursiveDepth))
    {
      hide Graph, Mids, Tids, Linked, Kernel.Valid, Step;
      waiters := waiters + [p];
      p.condWait := true;
      r, depth := m.PKunlockAllDepthLevels(p, k);
    }

    /** The second half, when the thread runs again: it has the mutex at the old depth, or queues for it. */
    method WaitEnd(m: Mutex, p: Thread, depth: nat, ghost k: Kernel) returns (r: Outcome)
      requires k.Valid() && k.Has(p) && k.HasMutex(m) && p.mutexWaiting == null && -1 <= m.recursiveDepth
      requires m.owner != p && (m.owner != null ==> WalkEnds(p, m.owner, k.state))
      modifies k`state, k.mutexes, k.threads`priority, k.threads`savedPriority
      modifies k.threads`mutexLocked, k.threads`mutexWaiting, k.threads`locks
      ensures k.Valid() && r == if old(m.owner) == null then Locked else Waiting
      ensures r == Locked ==> m.owner == p && m.recursiveDepth == if old(m.recursiveDepth) >= 0 then depth else -1
      ensures r == Locked ==> Step(old(k.state), Acquire(p.id, m.id, ToDepth(old(k.state), m.id, depth)), k.state)
      ensures r == Waiting ==> Blocked(old(k.state), k.state, p.id, m.id, old(m.owner).id)
      ensures r == Waiting && !OnChain(old(k.state), old(m.owner).id, p.id) ==> Step(old(k.state), Block(p.id, m.id), k.state)
    {
      hide Graph, Linked, Mids, Tids;
      r := m.PKlockToDepth(p, depth, k);
    }

    /** Wakes the thread that has waited longest; the flag says whether it is more urgent than the running one. */
    method Signal(current: Thread) returns (woken: Thread?, hppw: bool)
      requires Valid()
      modifies this, waiters`condWait
      ensures Valid() && forall t :: t in waiters ==> t.condWait
      ensures old(waiters) == [] ==> woken == null && !hppw && waiters == []
      ensures old(waiters) != [] ==> woken != null && old(waiters) == [woken] + waiters && hppw == (woken.priority > current.priority)
      ensures old(waiters) != [] ==> !woken.condWait
    {
      if waiters == [] {
        return null, false;
      }
      woken := waiters[0];
      woken.condWait := false;
      hppw := woken.priority > current.priority;
      waiters := waiters[1..];
    }

    /** Wakes all, in the order in which they came. */
    method Broadcast(current: Thread) returns (woken: seq<Thread>, hppw: bool)
      requires Valid()
      modifies this, waiters`condWait
      ensures Valid() && woken == old(waiters) && waiters == [] && forall t :: t in woken ==> !t.condWait
      ensures hppw == exists t :: t in woken && t.priority > current.priority
    {
      hide Valid, SomeAbove;
      woken, hppw := [], false;
      NoneAbove(current.priority);
      while waiters != []
        invariant Valid() && woken + waiters == old(waiters) && NoneWaits(woken)
        invariant hppw == SomeAbove(woken, current.priority)
        decreases |waiters|
      {
        AwakeApart(woken);
        var t := waiters[0];
        assert t == old(waiters)[|woken|];
        WakeFirst(t);
        if t.priority > current.priority {
          hppw := true;
        }
        OneMoreAbove(woken, t, current.priority);
        woken := woken + [t];
      }
      AboveIs(woken, current.priority);
    }

    lemma AwakeApart(woken: seq<Thread>)
      requires Valid() && NoneWaits(woken)
      ensures waiters != [] ==> waiters[0] !in woken
    {
    }

    /** One round of the loop: the first in the list may run again. */
    method WakeFirst(t: Thread)
      requires Valid() && waiters != [] && t == waiters[0]
      modifies this, t`condWait
      ensures Valid() && [t] + waiters == old(waiters) && !t.condWait
    {
      t.condWait := false;
      waiters := waiters[1..];
    }
  }

  ghost predicate NoneWaits(threads: seq<Thread>)
    reads threads`condWait
  {
    forall t :: t in threads ==> !t.condWait
  }

  ghost predicate SomeAbove(threads: seq<Thread>, priority: int)
    reads threads`priority
  {
    exists t :: t in threads && t.priority > priority
  }

  lemma NoneAbove(priority: int)
    ensures !SomeAbove([], priority)
  {
  }

  lemma OneMoreAbove(threads: seq<Thread>, t: Thread, priority: int)
    ensures SomeAbove(threads + [t], priority) == (SomeAbove(threads, priority) || t.priority > priority)
  {
    assert t in threads + [t];
    assert forall u :: u in threads + [t] <==> u in threads || u == t;
  }

  lemma AboveIs(threads: seq<Thread>, priority: int)
    ensures SomeAbove(threads, priority) == exists t :: t in threads && t.priority > priority
  {
  }

  /**
   The test in the loops of PKlock and PKlockToDepth: a thread that blocked on a mutex owns it as soon as it is let out of
   the queue, and not before.
   */
  lemma OwnerWhenAwake(k: Kernel, p: Thread, m: Mutex, states: seq<State>, events: seq<Event>, b: nat, c: nat)
    requires k.Valid() && k.Has(p) && k.HasMutex(m) && Run(states, events) && Fresh(states[0]) && b < c <= |events| && states[c] == k.state
    requires events[b] == Block(p.id, m.id) && forall i :: b < i < c ==> events[i].p != p.id
    ensures m.owner == p <==> p.mutexWaiting == null
    ensures p.mutexWaiting == null || p.mutexWaiting == m
  {
    hide Graph, Linked, Mids, Tids, Step, Kernel.PrioShown, Kernel.SavedShown, Kernel.HeldShown, Kernel.QueueShown, Kernel.DepthShown;
    BlockedUntilGranted(states, events, b, c, p.id, m.id);
    if p.mutexWaiting != null {
      WaiterNotOwner(states, events, c, p.id, m.id);
    }
  }

  lemma HandedOver(s: State, p: Tid, m: Mid, x: int, v: seq<Tid>)
    requires Graph(s) && s.Owner(m) == Some(p) && s.Wait(p) == None && Greatest(s, s.Saved(p), Without(s.Held(p), m), x)
    requires s.Queue(m) != [] ==> MayGrant(Freed(s, p, m, x), m, v)
    ensures MayUnlock(s, p, m, x, v) && Graph(Unlocked(s, p, m, x, v))
  {
    hide Greatest, Without, IsHeap, OwnedOnce, QueuedOnce, BusyAt;
    if s.Queue(m) != [] {
      NotQueued(s, p, m);
      assert p !in multiset(s.Queue(m)[1..]);
      HeapElsewhere(v, Freed(s, p, m, x), s, p);
    }
    UnlockedGraph(s, p, m, x, v);
  }

  lemma StartIsShown(k: Kernel)
    requires AllIdle(k.threads) && AllUnused(k.mutexes) && k.state == Started(k.threads, k.mutexes)
    ensures k.Shown() && k.Lists() && Fresh(k.state)
  {
  }

  // -------------------------------------------------------------- vectors of threads and of their numbers

  lemma TidsAppend(v: seq<Thread>, t: Thread)
    ensures multiset(Tids(v + [t])) == multiset(Tids(v)) + multiset{t.id}
  {
    assert Tids(v + [t]) == Tids(v) + [t.id];
  }

  lemma SameThreads(v: seq<Thread>, w: seq<Thread>)
    requires multiset(v) == multiset(w)
    ensures forall t :: t in v <==> t in w
  {
    forall t: Thread
      ensures t in v <==> t in w
    {
      assert t in v <==> t in multiset(v);
      assert t in w <==> t in multiset(w);
    }
  }

  lemma {:induction false} SameTids(v: seq<Thread>, w: seq<Thread>)
    requires multiset(v) == multiset(w)
    ensures multiset(Tids(v)) == multiset(Tids(w))
    decreases |v|
  {
    hide Tids;
    if v == [] {
      assert |multiset(w)| == 0;
      assert w == [];
    } else {
      var i := Place(w, v[0], v);
      var v', w' := v[..0] + v[1..], w[..i] + w[i + 1..];
      TakenOut(v, 0);
      TakenOut(w, i);
      SameTids(v', w');
    }
  }

  lemma Place(w: seq<Thread>, t: Thread, v: seq<Thread>) returns (i: nat)
    requires multiset(v) == multiset(w) && t in v
    ensures i < |w| && w[i] == t
  {
    assert t in multiset(w);
    i :| 0 <= i < |w| && w[i] == t;
  }

  lemma TakenOut(v: seq<Thread>, i: nat)
    requires i < |v|
    ensures multiset(v[..i] + v[i + 1..]) == multiset(v) - multiset{v[i]}
    ensures multiset(Tids(v)) == multiset(Tids(v[..i] + v[i + 1..])) + multiset{v[i].id}
  {
    assert v == v[..i] + [v[i]] + v[i + 1..];
    assert Tids(v) == Tids(v[..i]) + [v[i].id] + Tids(v[i + 1..]);
    assert Tids(v[..i] + v[i + 1..]) == Tids(v[..i]) + Tids(v[i + 1..]);
  }

  /** The list of a thread begins where its head points. */
  lemma HeadShown(k: Kernel, t: Thread)
    requires k.Shown() && k.Lists() && k.Has(t)
    ensures t.mutexLocked == null <==> k.state.Held(t.id) == []
    ensures t.priority == k.state.Prio(t.id) && t.savedPriority == k.state.Saved(t.id)
    ensures t.mutexWaiting == null <==> k.state.Wait(t.id) == None
  {
    assert Linked(t.locks, t.mutexLocked, k.mutexes);
  }

  lemma HeldIs(k: Kernel, t: Thread)
    requires k.Shown() && k.Lists() && k.Has(t)
    ensures k.state.Held(t.id) == Mids(t.locks) && |Mids(t.locks)| == |t.locks|
    ensures Linked(t.locks, t.mutexLocked, k.mutexes)
    ensures forall i :: 0 <= i < |t.locks| ==> Mids(t.locks)[i] == t.locks[i].id
    ensures forall m :: m in t.locks ==> k.HasMutex(m)
  {
  }

  /** The list of one thread has no part in the heaps, and in what a list of mutexes passes on. */
  lemma OtherList(s: State, t: State, p: Tid, held: seq<Mid>)
    requires Heaps(s) && t == s.(locked := s.locked[p := held])
    ensures Heaps(t) && t.Held(p) == held && t.Saved(p) == s.Saved(p)
  {
    SameHeaps(s, t);
  }

  lemma InheritedAsBefore(s: State, t: State, p: Tid, held: seq<Mid>, saved: int, x: int)
    requires t == s.(locked := s.locked[p := held]) && Greatest(t, saved, held, x)
    ensures Greatest(s, saved, held, x)
  {
    hide Greatest;
    SameInherited(t, s, held, saved, x);
  }

  lemma InheritedNext(s: State, held: seq<Mid>, i: nat, pr: int, x: int)
    requires i < |held| && Heaps(s) && Greatest(s, pr, held[..i], x)
    ensures Greatest(s, pr, held[..i + 1], Higher(s, held[i], x))
  {
    hide Greatest, IsHeap;
    InheritedFromHeap(s, held[..i], held[i], pr, x);
    assert held[..i + 1] == held[..i] + [held[i]];
  }

  /** What the fields of a mutex say that is owned by a running thread. */
  lemma OwnedShown(k: Kernel, m: Mutex, p: Thread)
    requires k.Valid() && k.HasMutex(m) && k.Has(p) && m.owner == p && p.mutexWaiting == null
    ensures k.state.Owner(m.id) == Some(p.id) && k.state.Depth(m.id) == m.recursiveDepth && k.state.Wait(p.id) == None
  {
    hide Graph, Linked, Mids, Tids, Kernel.HeldShown, Kernel.QueueShown, Kernel.PrioShown, Kernel.SavedShown;
  }

  lemma DeepenedIs(s: State, p: Tid, m: Mid, d: int)
    requires s.Owner(m) == Some(p) && s.Wait(p) == None && SameKind(s, m, d)
    ensures Step(s, Deepen(p, m, d), Deepened(s, m, d))
  {
  }

  lemma UnlockedIs(s: State, p: Tid, m: Mid, x: int, v: seq<Tid>)
    requires MayUnlock(s, p, m, x, v) && s.Depth(m) <= 0
    ensures Step(s, Unlock(p, m), Unlocked(s, p, m, x, v))
  {
    hide Graph, Greatest, IsHeap, Without, Unlocked;
  }

  lemma UnlockedAllIs(s: State, p: Tid, m: Mid, x: int, v: seq<Tid>)
    requires MayUnlock(s, p, m, x, v)
    ensures var u := Unlocked(s, p, m, x, v); Step(s, UnlockAll(p, m), if s.Depth(m) < 0 then u else Deepened(u, m, 0))
  {
    hide Graph, Greatest, IsHeap, Without, Unlocked;
    assert UnlockedAll(s, p, m, x, v) == var u := Unlocked(s, p, m, x, v); if s.Depth(m) < 0 then u else Deepened(u, m, 0);
  }

  lemma HeapsOf(s: State)
    requires Graph(s)
    ensures Heaps(s)
  {
  }

  lemma JoinReady(k: Kernel, m: Mutex, p: Thread)
    requires k.Valid() && k.HasMutex(m) && k.Has(p) && p.mutexWaiting == null && m.owner != null && m.owner != p
    ensures MayBlock(k.state, p.id, m.id, m.owner.id) && Heap(m.waiting)
  {
    QueueIsHeap(k, m);
  }

  lemma Pushed(k: Kernel, m: Mutex, p: Thread, v: seq<Thread>)
    requires k.Shown() && k.HasMutex(m) && k.Has(p) && Heap(v) && multiset(v) == multiset(m.waiting + [p])
    ensures multiset(Tids(v)) == multiset(k.state.Queue(m.id)) + multiset{p.id} && IsHeap(Tids(v), k.state)
    ensures forall t :: t in v ==> k.Has(t)
  {
    SameTids(v, m.waiting + [p]);
    TidsAppend(m.waiting, p);
    SameThreads(v, m.waiting + [p]);
    HeapIsHeap(k, v);
  }

  lemma WaitedFor(k: Kernel, t: Thread)
    requires k.Shown() && k.Has(t)
    ensures t.mutexWaiting == null <==> t.id !in k.state.waitsOn
    ensures t.mutexWaiting != null ==> k.HasMutex(t.mutexWaiting) && k.state.waitsOn[t.id] == t.mutexWaiting.id
  {
  }

  lemma Remade(k: Kernel, m: Mutex, v: seq<Thread>)
    requires k.Shown() && k.HasMutex(m) && Heap(v) && multiset(v) == multiset(m.waiting)
    ensures multiset(Tids(v)) == multiset(k.state.Queue(m.id)) && IsHeap(Tids(v), k.state)
    ensures forall t :: t in v ==> k.Has(t)
  {
    SameTids(v, m.waiting);
    SameThreads(v, m.waiting);
    HeapIsHeap(k, v);
  }

  lemma RestIsHeap(k: Kernel, m: Mutex, f: State, rest: seq<Thread>)
    requires k.Shown() && k.HasMutex(m) && m.waiting != [] && f.prio == k.state.prio && f.queue == k.state.queue
    requires Heap(rest) && multiset(rest) == multiset(m.waiting[1..])
    ensures multiset(Tids(rest)) == multiset(f.Queue(m.id)[1..]) && IsHeap(Tids(rest), f)
    ensures f.Queue(m.id)[0] == m.waiting[0].id && k.Has(m.waiting[0]) && forall t :: t in rest ==> k.Has(t)
  {
    SameTids(rest, m.waiting[1..]);
    SameThreads(rest, m.waiting[1..]);
    assert m.waiting[0] in m.waiting;
    assert Tids(m.waiting[1..]) == Tids(m.waiting)[1..];
    assert forall t :: t in m.waiting[1..] ==> t in m.waiting;
    HeapIsHeap(k, rest);
  }

  lemma FrontShown(k: Kernel, m: Mutex)
    requires k.Shown() && m in k.mutexes
    ensures k.HasMutex(m) && (m.waiting == [] <==> k.state.Queue(m.id) == [])
    ensures m.waiting != [] ==> k.state.Queue(m.id)[0] == m.waiting[0].id && m.waiting[0].priority == k.state.Prio(m.waiting[0].id)
  {
    assert m.waiting != [] ==> m.waiting[0] in m.waiting;
  }

  lemma HeapShown(k: Kernel, m: Mutex, f: State)
    requires k.Shown() && k.HasMutex(m) && f.prio == k.state.prio && f.queue == k.state.queue && Heaps(f)
    ensures Heap(m.waiting) && Tids(m.waiting) == f.Queue(m.id) && forall t :: t in m.waiting ==> k.Has(t)
  {
    var v := m.waiting;
    assert IsHeap(f.Queue(m.id), f);
    forall i, j | 0 < i < |v| && j == (i - 1) / 2
      ensures v[i].priority <= v[j].priority
    {
      assert v[i] in v && v[j] in v;
      assert f.Queue(m.id)[i] == v[i].id && f.Queue(m.id)[j] == v[j].id;
    }
  }

  lemma NobodyHolds(k: Kernel, m: Mutex, f: State)
    requires k.Shown() && k.HasMutex(m) && f.locked == k.state.locked && Owned(f) && f.Owner(m.id) == None
    ensures k.NotHeld(m)
  {
    forall n | 0 <= n < |k.threads| && m in k.threads[n].locks
      ensures false
    {
      var t := k.threads[n];
      var i :| 0 <= i < |t.locks| && t.locks[i] == m;
      assert Mids(t.locks)[i] == m.id;
      InHeld(f, t.id, m.id);
    }
  }

  /** A mutex is in its owner's list and in no other. */
  lemma HeldByOwner(k: Kernel, m: Mutex, p: Thread)
    requires k.Valid() && k.HasMutex(m) && k.Has(p) && m.owner == p
    ensures m in p.locks
    ensures forall i :: 0 <= i < |k.threads| && i != p.id ==> Disjoint(k.threads[i].locks, p.locks)
    ensures forall i, j :: 0 <= i < j < |p.locks| ==> p.locks[i].id != p.locks[j].id
  {
    InHeld(k.state, p.id, m.id);
    var i :| 0 <= i < |p.locks| && Mids(p.locks)[i] == m.id;
    assert p.locks[i] in p.locks;
    forall i, n | 0 <= i < |k.threads| && i != p.id && n in k.threads[i].locks
      ensures n !in p.locks
    {
      HeldOnce(k, k.threads[i], n);
      if n in p.locks {
        HeldOnce(k, p, n);
      }
    }
    assert Linked(p.locks, p.mutexLocked, k.mutexes);
    forall i, j | 0 <= i < j < |p.locks|
      ensures p.locks[i].id != p.locks[j].id
    {
      assert p.locks[i] in p.locks && p.locks[j] in p.locks;
    }
  }

  lemma HeldOnce(k: Kernel, t: Thread, m: Mutex)
    requires k.Valid() && k.Has(t) && m in t.locks
    ensures k.state.Owner(m.id) == Some(t.id)
  {
    var i :| 0 <= i < |t.locks| && t.locks[i] == m;
    assert Mids(t.locks)[i] == m.id;
    InHeld(k.state, t.id, m.id);
  }

  lemma TailLinked(l: seq<Mutex>, head: Mutex?, mutexes: seq<Mutex>)
    requires Linked(l, head, mutexes) && head != null
    ensures l != [] && l[0] == head && Linked(l[1..], head.next, mutexes)
  {
  }

  /** What follows an element of a list from which the n-th is cut. */
  lemma AtCut(l: seq<Mutex>, n: nat, i: int)
    requires 0 < n < |l| && -1 <= i < |l| - 1
    ensures At(l[..n] + l[n + 1..], i + 1) == if i < n - 1 then At(l, i + 1) else At(l, i + 2)
    ensures i >= 0 ==> (l[..n] + l[n + 1..])[i] == if i < n then l[i] else l[i + 1]
  {
  }

  lemma OthersHeld(k: Kernel, p: Thread)
    requires k.Shown()
    ensures forall i: Tid :: i < |k.threads| && i != p.id ==> k.HeldAs(k.threads[i], k.state.Held(i))
  {
  }

  lemma HeldAfterCut(k: Kernel, p: Thread, l: seq<Mutex>, n: nat, m: Mutex)
    requires n < |l| && l[n] == m && p.locks == l[..n] + l[n + 1..]
    requires forall i, j :: 0 <= i < j < |l| ==> l[i].id != l[j].id
    requires forall x :: x in l ==> k.HasMutex(x)
    ensures k.HeldAs(p, Without(Mids(l), m.id))
  {
    WithoutMids(l, n, m);
  }

  lemma CutConsed<T>(l: seq<T>, n: nat)
    requires n < |l|
    ensures l == [l[0]] + l[1..]
    ensures l[..n] + l[n + 1..] == if n == 0 then l[1..] else [l[0]] + (l[1..][..n - 1] + l[1..][n..])
  {
  }

  lemma WithoutFirst(x: Mid, l: seq<Mid>, m: Mid)
    ensures Without([x] + l, m) == if x == m then l else [x] + Without(l, m)
  {
  }

  lemma {:induction false} WithoutMids(l: seq<Mutex>, n: nat, m: Mutex)
    requires n < |l| && l[n] == m && forall i, j :: 0 <= i < j < |l| ==> l[i].id != l[j].id
    ensures Without(Mids(l), m.id) == Mids(l[..n] + l[n + 1..])
    decreases n
  {
    hide Mids, Without;
    var rest := l[1..];
    CutConsed(l, n);
    MidsCons(l[0], rest);
    WithoutFirst(l[0].id, Mids(rest), m.id);
    if n > 0 {
      assert l[0].id != l[n].id;
      WithoutMids(rest, n - 1, m);
      MidsCons(l[0], rest[..n - 1] + rest[n..]);
    }
  }

  lemma QueueIsHeap(k: Kernel, m: Mutex)
    requires k.Valid() && k.HasMutex(m)
    ensures Heap(m.waiting)
  {
    var v, s := m.waiting, k.state;
    assert IsHeap(s.Queue(m.id), s);
    forall i, j | 0 < i < |v| && j == (i - 1) / 2
      ensures v[i].priority <= v[j].priority
    {
      assert v[i] in v && v[j] in v;
      assert s.Queue(m.id)[i] == v[i].id && s.Queue(m.id)[j] == v[j].id;
    }
  }

  lemma HeapIsHeap(k: Kernel, v: seq<Thread>)
    requires k.Shown() && Heap(v) && forall t :: t in v ==> k.Has(t)
    ensures IsHeap(Tids(v), k.state)
  {
    forall i, j | 0 < i < |v| && j == (i - 1) / 2
      ensures k.state.Prio(Tids(v)[i]) <= k.state.Prio(Tids(v)[j])
    {
      assert v[i] in v && v[j] in v;
    }
  }

  /** A thread that waits, waits for a mutex that has an owner. */
  lemma WaitsFor(k: Kernel, t: Thread)
    requires k.Valid() && k.Has(t)
    ensures t.mutexWaiting == null <==> Next(k.state, t.id) == None
    ensures t.mutexWaiting != null ==>
      t.mutexWaiting.owner != null && k.Has(t.mutexWaiting.owner) && Next(k.state, t.id) == Some(t.mutexWaiting.owner.id)
  {
    if t.mutexWaiting != null {
      InQueue(k.state, t.id, t.mutexWaiting.id);
      assert BusyAt(k.state, t.mutexWaiting.id);
    }
  }

  lemma MidsCons(m: Mutex, l: seq<Mutex>)
    ensures Mids([m] + l) == [m.id] + Mids(l)
  {
  }

  lemma NotHeldYet(k: Kernel, m: Mutex, p: Thread)
    requires k.Valid() && k.HasMutex(m) && m.owner == null && k.Has(p)
    ensures k.state.Owner(m.id) == None && k.NotHeld(m)
    ensures p.mutexLocked == null <==> k.state.Held(p.id) == []
    ensures p.priority == k.state.Prio(p.id)
  {
    forall n | 0 <= n < |k.threads| && m in k.threads[n].locks
      ensures false
    {
      var t := k.threads[n];
      var i :| 0 <= i < |t.locks| && t.locks[i] == m;
      assert Mids(t.locks)[i] == m.id;
      InHeld(k.state, t.id, m.id);
    }
  }
}
