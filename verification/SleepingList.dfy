/** Threads that sleep until a tick: the sorted list, what holds over whole runs, and the code that links it. */
module Sleepers {

  datatype Sleeper<T> = Sleeper(thread: T, wake: int)

  datatype State<T> = State(tick: int, list: seq<Sleeper<T>>)

  /** In order of waking; of those that wake together, the last to fall asleep is the first. */
  function Inserted<T>(list: seq<Sleeper<T>>, x: Sleeper<T>): seq<Sleeper<T>> {
    if list == [] || x.wake <= list[0].wake then [x] + list else [list[0]] + Inserted(list[1..], x)
  }

  /** Without those at the front that wake at a tick. */
  function Woken<T>(list: seq<Sleeper<T>>, tick: int): seq<Sleeper<T>> {
    if list != [] && tick == list[0].wake then Woken(list[1..], tick) else list
  }

  ghost predicate Sorted<T>(list: seq<Sleeper<T>>) {
    forall i, j :: 0 <= i < j < |list| ==> list[i].wake <= list[j].wake
  }

  /** Sorted, no one twice, and everyone still to be woken: what the code relies on when it looks at the front only. */
  ghost predicate Sound<T>(s: State<T>) {
    && Sorted(s.list)
    && (forall x :: x in s.list ==> x.wake > s.tick)
    && Distinct(s.list)
  }

  ghost predicate Distinct<T>(list: seq<Sleeper<T>>) {
    forall i, j :: 0 <= i < j < |list| ==> list[i].thread != list[j].thread
  }

  predicate Asleep<T(==)>(s: State<T>, t: T) {
    exists i :: 0 <= i < |s.list| && s.list[i].thread == t
  }

  lemma {:induction false} InsertedMembers<T>(list: seq<Sleeper<T>>, x: Sleeper<T>)
    ensures |Inserted(list, x)| == |list| + 1
    ensures forall y :: y in Inserted(list, x) <==> y == x || y in list
  {
    if list != [] && x.wake > list[0].wake {
      InsertedMembers(list[1..], x);
      assert list == [list[0]] + list[1..];
    }
  }

  /** Where a sleeper goes. */
  lemma {:induction false} InsertedAt<T>(list: seq<Sleeper<T>>, x: Sleeper<T>, k: nat)
    requires k <= |list| && (forall i :: 0 <= i < k ==> list[i].wake < x.wake) && (k < |list| ==> x.wake <= list[k].wake)
    ensures Inserted(list, x) == list[..k] + [x] + list[k..]
    decreases |list|
  {
    if k > 0 {
      InsertedAt(list[1..], x, k - 1);
      assert list[1..][..k - 1] == list[1..k] && list[1..][k - 1..] == list[k..];
      assert [list[0]] + list[1..k] == list[..k];
    }
  }

  function Place<T>(list: seq<Sleeper<T>>, x: Sleeper<T>): (k: nat)
    ensures k <= |list| && (forall i :: 0 <= i < k ==> list[i].wake < x.wake) && (k < |list| ==> x.wake <= list[k].wake)
  {
    if list == [] || x.wake <= list[0].wake then 0 else 1 + Place(list[1..], x)
  }

  lemma SortedWith<T>(list: seq<Sleeper<T>>, x: Sleeper<T>, k: nat)
    requires Sorted(list) && k <= |list|
    requires (forall i :: 0 <= i < k ==> list[i].wake < x.wake) && (k < |list| ==> x.wake <= list[k].wake)
    ensures Sorted(list[..k] + [x] + list[k..])
  {
  }

  lemma DistinctWith<T>(list: seq<Sleeper<T>>, x: Sleeper<T>, k: nat)
    requires Distinct(list) && k <= |list| && forall i :: 0 <= i < |list| ==> list[i].thread != x.thread
    ensures Distinct(list[..k] + [x] + list[k..])
  {
  }

  lemma InsertedSound<T>(s: State<T>, x: Sleeper<T>)
    requires Sound(s) && x.wake > s.tick && !Asleep(s, x.thread)
    ensures Sound(s.(list := Inserted(s.list, x)))
  {
    hide Inserted, Sorted, Distinct;
    var k := Place(s.list, x);
    InsertedAt(s.list, x, k);
    InsertedMembers(s.list, x);
    SortedWith(s.list, x, k);
    DistinctWith(s.list, x, k);
  }

  lemma FirstOrLater<T>(list: seq<Sleeper<T>>)
    requires list != []
    ensures forall x :: x in list <==> x == list[0] || x in list[1..]
  {
    assert list == [list[0]] + list[1..];
  }

  lemma RestSorted<T>(list: seq<Sleeper<T>>)
    requires Sorted(list) && list != []
    ensures Sorted(list[1..])
  {
  }

  lemma NoneEarlier<T>(list: seq<Sleeper<T>>)
    requires Sorted(list) && list != []
    ensures forall x :: x in list ==> list[0].wake <= x.wake
  {
    forall x | x in list
      ensures list[0].wake <= x.wake
    {
      var i :| 0 <= i < |list| && list[i] == x;
    }
  }

  /** Only at the front there are some to wake, and all of them are. */
  lemma {:induction false} WokenExactly<T>(list: seq<Sleeper<T>>, tick: int)
    requires Sorted(list) && forall x :: x in list ==> x.wake >= tick
    ensures forall x :: x in Woken(list, tick) <==> x in list && x.wake != tick
    ensures |Woken(list, tick)| <= |list| && Woken(list, tick) == list[|list| - |Woken(list, tick)|..]
  {
    hide Sorted;
    if list != [] {
      if tick == list[0].wake {
        FirstOrLater(list);
        RestSorted(list);
        WokenExactly(list[1..], tick);
        assert list[1..][|list| - 1 - |Woken(list[1..], tick)|..] == list[|list| - |Woken(list[1..], tick)|..];
      } else {
        NoneEarlier(list);
      }
    }
  }

  // -------------------------------------------------------------- runs

  datatype Step<T> = FallsAsleep(x: Sleeper<T>) | Tick

  ghost predicate Allowed<T>(s: State<T>, step: Step<T>) {
    step.FallsAsleep? ==> step.x.wake > s.tick && !Asleep(s, step.x.thread)
  }

  function After<T>(s: State<T>, step: Step<T>): State<T> {
    match step
    case FallsAsleep(x) => s.(list := Inserted(s.list, x))
    case Tick => State(s.tick + 1, Woken(s.list, s.tick + 1))
  }

  lemma SoundIsLater<T>(s: State<T>)
    requires Sound(s)
    ensures forall x :: x in s.list ==> x.wake > s.tick
  {
  }

  lemma StepSound<T>(s: State<T>, step: Step<T>)
    requires Sound(s) && Allowed(s, step)
    ensures Sound(After(s, step))
    ensures forall x :: x in s.list ==> (x in After(s, step).list <==> After(s, step).tick < x.wake)
  {
    hide Sound, Inserted, Woken, Asleep;
    match step
    case FallsAsleep(x) =>
      SoundIsLater(s);
      InsertedSound(s, x);
      InsertedMembers(s.list, x);
    case Tick =>
      WokenSound(s);
  }

  lemma WokenSound<T>(s: State<T>)
    requires Sound(s)
    ensures Sound(After(s, Tick))
    ensures forall x :: x in s.list ==> (x in After(s, Tick).list <==> s.tick + 1 < x.wake)
  {
    hide Woken;
    WokenExactly(s.list, s.tick + 1);
  }

  ghost predicate Run<T>(s: State<T>, steps: seq<Step<T>>)
    decreases |steps|
  {
    steps == [] || (Allowed(s, steps[0]) && Run(After(s, steps[0]), steps[1..]))
  }

  function End<T>(s: State<T>, steps: seq<Step<T>>): State<T>
    decreases |steps|
  {
    if steps == [] then s else End(After(s, steps[0]), steps[1..])
  }

  lemma {:induction false} RunSound<T>(s: State<T>, steps: seq<Step<T>>)
    requires Sound(s) && Run(s, steps)
    ensures Sound(End(s, steps)) && s.tick <= End(s, steps).tick
    decreases |steps|
  {
    if steps != [] {
      StepSound(s, steps[0]);
      RunSound(After(s, steps[0]), steps[1..]);
    }
  }

  /** Over any run a sleeper is in the list exactly until the tick that it waits for: it is neither woken early nor stranded. */
  lemma {:induction false} ExactWakeup<T>(s: State<T>, steps: seq<Step<T>>, x: Sleeper<T>)
    requires Sound(s) && Run(s, steps) && (x in s.list || x.wake <= s.tick)
    ensures x in End(s, steps).list <==> End(s, steps).tick < x.wake
    decreases |steps|
  {
    if steps != [] {
      StepSound(s, steps[0]);
      ExactWakeup(After(s, steps[0]), steps[1..], x);
    }
  }

  /** The test is for equality: had a sleeper got into the list too late, no tick would wake it, nor anyone behind it. */
  lemma {:induction false} TooLateIsStranded<T>(s: State<T>, n: nat)
    requires s.list != [] && s.list[0].wake <= s.tick
    ensures End(s, seq(n, i => Tick)) == State(s.tick + n, s.list)
    decreases n
  {
    var ticks := seq(n, i => Step<T>.Tick);
    if n > 0 {
      assert ticks[1..] == seq(n - 1, i => Step<T>.Tick);
      TooLateIsStranded(State(s.tick + 1, s.list), n - 1);
    }
  }

  // -------------------------------------------------------------- from milliseconds to ticks

  const WORD: nat := 0x1_0000_0000

  /** The product is computed in 32 bits. */
  function Ticks(ms: nat, frequency: nat): nat {
    ((ms * frequency) % WORD) / 1000
  }

  function Delay(ms: nat, frequency: nat): nat {
    if Ticks(ms, frequency) > 0 then Ticks(ms, frequency) else 1
  }

  lemma DelayIs(ms: nat, frequency: nat)
    ensures Delay(ms, frequency) == (if Ticks(ms, frequency) > 0 then Ticks(ms, frequency) else 1) > 0
  {
    hide Ticks;
  }

  /** The delay is the one asked for, and one tick at least, exactly up to the maximum that is documented. */
  lemma DelayIsExact(ms: nat, frequency: nat)
    requires frequency > 0
    ensures var ticks := ms * frequency / 1000;
      (Delay(ms, frequency) == if ticks > 0 then ticks else 1) <==> ms <= 0xFFFF_FFFF / frequency
  {
    LessThanWord(ms, frequency);
    var product := ms * frequency;
    if product >= WORD {
      assert product % WORD <= product - WORD;
    }
  }

  lemma LessThanWord(ms: nat, frequency: nat)
    requires frequency > 0
    ensures ms <= (WORD - 1) / frequency <==> ms * frequency < WORD
  {
    var most := (WORD - 1) / frequency;
    assert most * frequency <= WORD - 1 < (most + 1) * frequency;
    if ms <= most {
      assert ms * frequency <= most * frequency;
    } else {
      assert ms * frequency >= (most + 1) * frequency;
    }
  }
}

module SleepingList {
  import opened Sleepers

  class Thread {
    var sleepFlag: bool

    constructor ()
      ensures !sleepFlag
    {
      sleepFlag := false;
    }
  }

  class SleepData {
    const p: Thread
    const wakeupTime: int
    var next: SleepData?

    constructor (p: Thread, wakeupTime: int)
      ensures this.p == p && this.wakeupTime == wakeupTime
    {
      this.p, this.wakeupTime, next := p, wakeupTime, null;
    }
  }

  ghost function Abstract(nodes: seq<SleepData>): (list: seq<Sleeper<Thread>>)
    ensures |list| == |nodes|
  {
    seq(|nodes|, i requires 0 <= i < |nodes| => Sleeper(nodes[i].p, nodes[i].wakeupTime))
  }

  function Behind(nodes: seq<SleepData>, i: nat): SleepData? {
    if i + 1 < |nodes| then nodes[i + 1] else null
  }

  /** The nodes hang together, each linked to the one behind it. */
  ghost predicate Linked(nodes: seq<SleepData>)
    reads nodes
  {
    && (forall i, j :: 0 <= i < j < |nodes| ==> nodes[i] != nodes[j])
    && (forall i :: 0 <= i < |nodes| ==> nodes[i].next == Behind(nodes, i))
  }

  lemma OneByOne(nodes: seq<SleepData>)
    requires Linked(nodes)
    ensures forall i, j :: 0 <= i < j < |nodes| ==> nodes[i] != nodes[j]
    ensures forall i :: 0 <= i < |nodes| ==> nodes[i].next == Behind(nodes, i)
  {
  }

  lemma LinkedWith(was: seq<SleepData>, x: SleepData, k: nat)
    requires k <= |was| && x !in was && forall i, j :: 0 <= i < j < |was| ==> was[i] != was[j]
    requires forall i :: 0 <= i < |was| && i != k - 1 ==> was[i].next == Behind(was, i)
    requires k > 0 ==> was[k - 1].next == x
    requires x.next == if k < |was| then was[k] else null
    ensures Linked(was[..k] + [x] + was[k..])
  {
    var later := was[..k] + [x] + was[k..];
    forall i | 0 <= i < |later|
      ensures later[i].next == Behind(later, i)
    {
      if i < k {
        assert later[i] == was[i];
      } else if i > k {
        assert later[i] == was[i - 1];
      }
    }
  }

  lemma AbstractWith(nodes: seq<SleepData>, x: SleepData, k: nat)
    requires k <= |nodes|
    ensures Abstract(nodes[..k] + [x] + nodes[k..]) == Abstract(nodes)[..k] + [Sleeper(x.p, x.wakeupTime)] + Abstract(nodes)[k..]
  {
  }

  ghost predicate InNode(nodes: seq<SleepData>, t: Thread) {
    exists i :: 0 <= i < |nodes| && nodes[i].p == t
  }

  /** In the list is who is in a node. */
  lemma AsleepInNode(nodes: seq<SleepData>, tick: int, t: Thread)
    ensures Asleep(State(tick, Abstract(nodes)), t) <==> InNode(nodes, t)
  {
    var list := Abstract(nodes);
    forall i | 0 <= i < |nodes|
      ensures list[i].thread == nodes[i].p
    {
    }
  }

  /** The thread in the first node is in no other. */
  lemma FirstNode(nodes: seq<SleepData>, t: Thread)
    requires nodes != [] && Distinct(Abstract(nodes))
    ensures Abstract(nodes[1..]) == Abstract(nodes)[1..] && Distinct(Abstract(nodes[1..]))
    ensures InNode(nodes[1..], t) <==> t != nodes[0].p && InNode(nodes, t)
  {
    var list, rest := Abstract(nodes), nodes[1..];
    assert Abstract(rest) == list[1..];
    if t == nodes[0].p {
      forall i | 0 <= i < |rest|
        ensures rest[i].p != t
      {
        assert list[0].thread != list[i + 1].thread;
      }
    } else if InNode(nodes, t) {
      var i :| 0 <= i < |nodes| && nodes[i].p == t;
      assert rest[i - 1].p == t;
    }
  }

  lemma NodeWith(nodes: seq<SleepData>, x: SleepData, k: nat, t: Thread)
    requires k <= |nodes|
    ensures InNode(nodes[..k] + [x] + nodes[k..], t) <==> t == x.p || InNode(nodes, t)
  {
    var later := nodes[..k] + [x] + nodes[k..];
    assert later[k] == x;
    if InNode(nodes, t) {
      var i :| 0 <= i < |nodes| && nodes[i].p == t;
      assert later[if i < k then i else i + 1].p == t;
    }
  }

  /** Those threads are flagged as sleeping that are in a node. */
  ghost predicate Flagged(threads: set<Thread>, nodes: seq<SleepData>)
    reads threads
  {
    && (forall t :: t in threads ==> (t.sleepFlag <==> InNode(nodes, t)))
    && (forall n :: n in nodes ==> n.p in threads)
  }

  class Kernel {
    var sleepingList: SleepData?
    var tick: int
    ghost var nodes: seq<SleepData>
    ghost const threads: set<Thread>

    constructor (threads: set<Thread>)
      requires forall t :: t in threads ==> !t.sleepFlag
      ensures Valid() && this.threads == threads && tick == 0 && nodes == []
    {
      sleepingList, tick, nodes, this.threads := null, 0, [], threads;
    }

    ghost function S(): State<Thread>
      reads this
    {
      State(tick, Abstract(nodes))
    }

    /** The nodes are the list that the code walks. */
    ghost predicate Chained()
      reads this, nodes
    {
      Linked(nodes) && sleepingList == (if nodes == [] then null else nodes[0])
    }

    ghost predicate Valid()
      reads this, nodes, threads
    {
      Chained() && Sound(S()) && Flagged(threads, nodes)
    }

    method IRQaddToSleepingList(x: SleepData)
      requires Valid() && x !in nodes && x.p in threads && !x.p.sleepFlag && x.wakeupTime > tick
      modifies `sleepingList, `nodes, nodes, x`next, x.p
      ensures Valid() && S() == After(old(S()), FallsAsleep(Sleeper(x.p, x.wakeupTime)))
      ensures forall n :: n in nodes <==> n == x || n in old(nodes)
    {
      hide Sound, Asleep, InNode, Chained, Abstract, Inserted;
      ghost var s, sleeper, was := S(), Sleeper(x.p, x.wakeupTime), nodes;
      AsleepInNode(nodes, tick, x.p);
      StepSound(s, FallsAsleep(sleeper));
      x.p.sleepFlag := true;
      ghost var k := LinkIn(x);
      forall t
        ensures InNode(nodes, t) <==> t == x.p || InNode(was, t)
      {
        NodeWith(was, x, k, t);
      }
    }

    /** The walk to the place of a node, and the change of links there. */
    method LinkIn(x: SleepData) returns (ghost k: nat)
      requires Chained() && x !in nodes
      modifies `sleepingList, `nodes, nodes, x`next
      ensures Chained() && k <= |old(nodes)| && nodes == old(nodes)[..k] + [x] + old(nodes)[k..]
      ensures Abstract(nodes) == Inserted(old(Abstract(nodes)), Sleeper(x.p, x.wakeupTime))
    {
      hide Linked, Inserted;
      ghost var was := nodes;
      OneByOne(was);
      k := 0;
      if sleepingList == null || x.wakeupTime <= sleepingList.wakeupTime {
        x.next := sleepingList;
        sleepingList := x;
      } else {
        var cur;
        cur, k := FindPlace(x);
        x.next := cur.next;
        cur.next := x;
      }
      nodes := was[..k] + [x] + was[k..];
      AbstractWith(was, x, k);
      InsertedAt(Abstract(was), Sleeper(x.p, x.wakeupTime), k);
      LinkedWith(was, x, k);
    }

    /** The walk to the last node before the place. */
    method FindPlace(x: SleepData) returns (cur: SleepData, ghost k: nat)
      requires Chained() && sleepingList != null && x.wakeupTime > sleepingList.wakeupTime
      ensures 0 < k <= |nodes| && cur == nodes[k - 1]
      ensures (forall i :: 0 <= i < k ==> nodes[i].wakeupTime < x.wakeupTime) && (k < |nodes| ==> x.wakeupTime <= nodes[k].wakeupTime)
    {
      hide Linked;
      OneByOne(nodes);
      cur := sleepingList;
      k := 1;
      while cur.next != null && x.wakeupTime > cur.next.wakeupTime
        invariant 0 < k <= |nodes| && cur == nodes[k - 1] && cur.next == Behind(nodes, k - 1)
        invariant forall i :: 0 <= i < k ==> nodes[i].wakeupTime < x.wakeupTime
        decreases |nodes| - k
      {
        cur := cur.next;
        k := k + 1;
      }
    }

    /** The current thread gets a node of its own. */
    method FallAsleep(current: Thread, wakeupTime: int)
      requires Valid() && current in threads && !current.sleepFlag && wakeupTime > tick
      modifies `sleepingList, `nodes, nodes, current
      ensures Valid() && S() == After(old(S()), FallsAsleep(Sleeper(current, wakeupTime)))
    {
      hide Sound, Asleep, Linked, InNode, After;
      var d := new SleepData(current, wakeupTime);
      IRQaddToSleepingList(d);
    }

    /** Of the current thread; how long is computed from milliseconds in a word. */
    method Sleep(current: Thread, ms: nat, tickFrequency: nat)
      requires Valid() && current in threads && !current.sleepFlag && ms < WORD
      modifies `sleepingList, `nodes, nodes, current
      ensures Valid()
      ensures S() == if ms == 0 then old(S()) else After(old(S()), FallsAsleep(Sleeper(current, old(tick) + Delay(ms, tickFrequency))))
    {
      hide Ticks, Delay, After, Valid, S;
      if ms == 0 {
        return;
      }
      DelayIs(ms, tickFrequency);
      var ticks := Ticks(ms, tickFrequency);
      var wakeupTime := tick + if ticks > 0 then ticks else 1;
      FallAsleep(current, wakeupTime);
    }

    method SleepUntil(current: Thread, absoluteTime: int)
      requires Valid() && current in threads && !current.sleepFlag
      modifies `sleepingList, `nodes, nodes, current
      ensures Valid()
      ensures S() == if absoluteTime <= old(tick) then old(S()) else After(old(S()), FallsAsleep(Sleeper(current, absoluteTime)))
    {
      hide After, Valid, S;
      if absoluteTime <= tick {
        return;
      }
      FallAsleep(current, absoluteTime);
    }

    method IRQwakeThreads() returns (result: bool)
      requires Valid()
      modifies `sleepingList, `nodes, `tick, threads
      ensures Valid() && S() == After(old(S()), Tick)
      ensures result == (S().list != old(S()).list)
    {
      hide Sound, Asleep, InNode, Linked, Distinct;
      ghost var s, count := S(), |nodes|;
      StepSound(s, Tick);
      SoundIsDistinct(s);
      tick := tick + 1;
      result := false;
      while true
        invariant Chained() && Flagged(threads, nodes) && Distinct(Abstract(nodes)) && tick == s.tick + 1
        invariant Woken(s.list, tick) == Woken(Abstract(nodes), tick)
        invariant if result then |nodes| < |s.list| else Abstract(nodes) == s.list
        decreases |nodes|
      {
        if sleepingList == null {
          break;
        }
        if tick != sleepingList.wakeupTime {
          break;
        }
        WakeFirst();
        result := true;
      }
    }

    /** The thread in the first node is told to run, and the node leaves the list. */
    method WakeFirst()
      requires Chained() && Flagged(threads, nodes) && nodes != [] && Distinct(Abstract(nodes))
      modifies `sleepingList, `nodes, threads
      ensures Chained() && Flagged(threads, nodes) && nodes == old(nodes)[1..]
      ensures Abstract(nodes) == old(Abstract(nodes))[1..] && Distinct(Abstract(nodes))
    {
      hide InNode, Linked, Distinct, Abstract;
      forall t
        ensures InNode(nodes[1..], t) <==> t != nodes[0].p && InNode(nodes, t)
      {
        FirstNode(nodes, t);
      }
      FirstNode(nodes, nodes[0].p);
      RestLinked(nodes);
      sleepingList.p.sleepFlag := false;
      sleepingList := sleepingList.next;
      nodes := nodes[1..];
    }
  }

  lemma SoundIsDistinct(s: State<Thread>)
    requires Sound(s)
    ensures Distinct(s.list)
  {
  }

  lemma RestLinked(nodes: seq<SleepData>)
    requires Linked(nodes) && nodes != []
    ensures Linked(nodes[1..]) && nodes[0].next == if |nodes| > 1 then nodes[1] else null
  {
  }
}
