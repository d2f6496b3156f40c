/**
 The fixed-size event queue: a ring of events, and two lists of waiting threads, each with a
 token that says whether it has been woken on purpose. E stands for events and W for the
 list nodes that stand for waiting threads.
 */
module EventQueue {

  // -------------------------------------------------------------- the queue on values

  datatype State<E, W(==)> = State(
    size: nat,
    /** The events in the ring, oldest first, and all events ever posted and taken. */
    items: seq<E>,
    posted: seq<E>,
    taken: seq<E>,
    /** Waiting without a token, the last to come first; and woken but not yet running. */
    getters: seq<W>,
    awakeGet: set<W>,
    putters: seq<W>,
    awakePut: set<W>)

  function Rest<W>(l: seq<W>): seq<W> {
    if l == [] then [] else l[1..]
  }

  function First<W>(l: seq<W>): set<W> {
    if l == [] then {} else {l[0]}
  }

  /** An event goes into the ring and the first waiting getter gets a token. */
  function Posted<E, W>(s: State<E, W>, e: E): State<E, W> {
    s.(items := s.items + [e], posted := s.posted + [e],
       getters := Rest(s.getters), awakeGet := s.awakeGet + First(s.getters))
  }

  /** The oldest event leaves the ring and the first waiting putter gets a token. */
  function Taken<E, W>(s: State<E, W>): State<E, W>
    requires s.items != []
  {
    s.(items := s.items[1..], taken := s.taken + [s.items[0]],
       putters := Rest(s.putters), awakePut := s.awakePut + First(s.putters))
  }

  ghost predicate Distinct<W>(l: seq<W>) {
    forall i, j :: 0 <= i < j < |l| ==> l[i] != l[j]
  }

  ghost predicate Apart<W>(l: seq<W>, s: set<W>) {
    forall w :: w in l ==> w !in s
  }

  /** No wakeup is lost: while someone waits without a token, every event is promised to someone woken. */
  ghost predicate NoLostWakeup<E, W>(s: State<E, W>) {
    && (s.getters != [] ==> |s.items| <= |s.awakeGet|)
    && (s.putters != [] ==> s.size - |s.items| <= |s.awakePut|)
  }

  /** Nobody is twice in the lists, or both in a list and awake. */
  ghost predicate Orderly<E, W>(s: State<E, W>) {
    && Distinct(s.getters) && Distinct(s.putters)
    && Apart(s.getters, s.awakeGet) && Apart(s.getters, s.awakePut) && Apart(s.putters, s.awakeGet) && Apart(s.putters, s.awakePut)
    && (forall w :: w in s.getters ==> w !in s.putters)
  }

  ghost predicate Sound<E, W>(s: State<E, W>) {
    |s.items| <= s.size && s.taken + s.items == s.posted && Orderly(s) && NoLostWakeup(s)
  }

  datatype Event<E, W> =
    | Post(w: W, e: E)
    | PostAgain(w: W, again: W, e: E)
    | TryPost(e: E)
    | Run(w: W)
    | RunAgain(w: W, again: W)
    | RunOne

  ghost predicate Unused<E, W>(s: State<E, W>, w: W) {
    w !in s.getters && w !in s.awakeGet && w !in s.putters && w !in s.awakePut
  }

  function PostOrWait<E, W>(s: State<E, W>, w: W, e: E): State<E, W> {
    if |s.items| >= s.size then s.(putters := [w] + s.putters) else Posted(s, e)
  }

  function TakeOrWait<E, W>(s: State<E, W>, w: W): State<E, W> {
    if s.items == [] then s.(getters := [w] + s.getters) else Taken(s)
  }

  /** One stretch of code with interrupts disabled. The node w is used if the thread has to wait. */
  ghost predicate Step<E, W>(s: State<E, W>, a: Event<E, W>, s': State<E, W>) {
    match a
    case Post(w, e) => Unused(s, w) && s' == PostOrWait(s, w, e)
    case PostAgain(w, again, e) =>
      again in s.awakePut && Unused(s, w) && s' == PostOrWait(s.(awakePut := s.awakePut - {again}), w, e)
    case TryPost(e) => s' == if |s.items| >= s.size then s else Posted(s, e)
    case Run(w) => Unused(s, w) && s' == TakeOrWait(s, w)
    case RunAgain(w, again) =>
      again in s.awakeGet && Unused(s, w) && s' == TakeOrWait(s.(awakeGet := s.awakeGet - {again}), w)
    case RunOne => s' == if s.items == [] then s else Taken(s)
  }

  lemma PostedSound<E, W>(s: State<E, W>, e: E)
    requires Sound(s) && |s.items| < s.size
    ensures Sound(Posted(s, e))
  {
    var s' := Posted(s, e);
    assert s'.taken + s'.items == s.posted + [e];
    if s.getters != [] {
      assert s.getters[0] !in s.awakeGet;
      assert |s'.awakeGet| == |s.awakeGet| + 1;
    }
  }

  lemma TakenSound<E, W>(s: State<E, W>)
    requires Sound(s) && s.items != []
    ensures Sound(Taken(s))
  {
    var s' := Taken(s);
    assert s'.taken + s'.items == s.taken + s.items;
    if s.putters != [] {
      assert s.putters[0] !in s.awakePut;
      assert |s'.awakePut| == |s.awakePut| + 1;
    }
  }

  lemma PostedAgainSound<E, W>(s: State<E, W>, again: set<W>, e: E)
    requires Sound(s) && again <= s.awakePut && |again| <= 1 && |s.items| < s.size
    ensures Sound(Posted(s.(awakePut := s.awakePut - again), e))
  {
    assert |s.awakePut - again| == |s.awakePut| - |again|;
    PostedSound(s, e);
    assert Posted(s.(awakePut := s.awakePut - again), e) == Posted(s, e).(awakePut := s.awakePut - again);
  }

  lemma TakenAgainSound<E, W>(s: State<E, W>, again: set<W>)
    requires Sound(s) && again <= s.awakeGet && |again| <= 1 && s.items != []
    ensures Sound(Taken(s.(awakeGet := s.awakeGet - again)))
  {
    assert |s.awakeGet - again| == |s.awakeGet| - |again|;
    TakenSound(s);
    assert Taken(s.(awakeGet := s.awakeGet - again)) == Taken(s).(awakeGet := s.awakeGet - again);
  }

  /** A woken putter takes its turn: it posts, or waits again because another was faster. */
  lemma PostOrWaitSound<E, W>(s: State<E, W>, again: set<W>, w: W, e: E)
    requires Sound(s) && Unused(s, w) && again <= s.awakePut && |again| <= 1
    ensures Sound(PostOrWait(s.(awakePut := s.awakePut - again), w, e))
  {
    if |s.items| < s.size {
      PostedAgainSound(s, again, e);
    } else {
      assert |s.awakePut - again| == |s.awakePut| - |again|;
    }
  }

  lemma TakeOrWaitSound<E, W>(s: State<E, W>, again: set<W>, w: W)
    requires Sound(s) && Unused(s, w) && again <= s.awakeGet && |again| <= 1
    ensures Sound(TakeOrWait(s.(awakeGet := s.awakeGet - again), w))
  {
    if s.items != [] {
      TakenAgainSound(s, again);
    } else {
      assert |s.awakeGet - again| == |s.awakeGet| - |again|;
    }
  }

  lemma StepSound<E, W>(s: State<E, W>, a: Event<E, W>, s': State<E, W>)
    requires Sound(s) && Step(s, a, s')
    ensures Sound(s') && s'.size == s.size && s.posted <= s'.posted && s.taken <= s'.taken
  {
    hide Sound;
    match a
    case Post(w, e) =>
      assert s == s.(awakePut := s.awakePut - {});
      PostOrWaitSound(s, {}, w, e);
    case PostAgain(w, again, e) => PostOrWaitSound(s, {again}, w, e);
    case TryPost(e) => if |s.items| < s.size { PostedSound(s, e); }
    case Run(w) =>
      assert s == s.(awakeGet := s.awakeGet - {});
      TakeOrWaitSound(s, {}, w);
    case RunAgain(w, again) => TakeOrWaitSound(s, {again}, w);
    case RunOne => if s.items != [] { TakenSound(s); }
  }

  function Empty<E, W>(size: nat): State<E, W> {
    State(size, [], [], [], [], {}, [], {})
  }

  ghost predicate IsRun<E, W>(states: seq<State<E, W>>, steps: seq<Event<E, W>>, size: nat) {
    && |states| == |steps| + 1 && states[0] == Empty(size)
    && forall i :: 0 <= i < |steps| ==> Step(states[i], steps[i], states[i + 1])
  }

  /** Over every interleaving no wakeup is lost and the events taken are the first ones posted, in order. */
  lemma {:induction false} RunSound<E, W>(states: seq<State<E, W>>, steps: seq<Event<E, W>>, size: nat, i: nat)
    requires IsRun(states, steps, size) && i <= |steps|
    ensures Sound(states[i]) && states[i].size == size && states[i].taken <= states[i].posted
  {
    if i > 0 {
      RunSound(states, steps, size, i - 1);
      assert Step(states[i - 1], steps[i - 1], states[i - 1 + 1]);
      StepSound(states[i - 1], steps[i - 1], states[i]);
    }
  }

  /** The event that a step posts, if there is room; and the one that it hands out, if there is one. */
  function Accepted<E, W>(s: State<E, W>, a: Event<E, W>): seq<E> {
    if (a.Post? || a.PostAgain? || a.TryPost?) && |s.items| < s.size then [a.e] else []
  }

  function Answered<E, W>(s: State<E, W>, a: Event<E, W>): seq<E> {
    if (a.Run? || a.RunAgain? || a.RunOne?) && s.items != [] then [s.items[0]] else []
  }

  function AllAccepted<E, W>(states: seq<State<E, W>>, steps: seq<Event<E, W>>, i: nat): seq<E>
    requires i <= |steps| < |states|
  {
    if i == 0 then [] else AllAccepted(states, steps, i - 1) + Accepted(states[i - 1], steps[i - 1])
  }

  function AllAnswered<E, W>(states: seq<State<E, W>>, steps: seq<Event<E, W>>, i: nat): seq<E>
    requires i <= |steps| < |states|
  {
    if i == 0 then [] else AllAnswered(states, steps, i - 1) + Answered(states[i - 1], steps[i - 1])
  }

  lemma StepLogs<E, W>(s: State<E, W>, a: Event<E, W>, s': State<E, W>)
    requires Step(s, a, s') && |s.items| <= s.size
    ensures s'.posted == s.posted + Accepted(s, a) && s'.taken == s.taken + Answered(s, a)
  {
    assert s.posted + [] == s.posted && s.taken + [] == s.taken;
  }

  /** Over every interleaving the queue holds what has been posted and not handed out, and hands it out in that order. */
  lemma {:induction false} RunIsFifo<E, W>(states: seq<State<E, W>>, steps: seq<Event<E, W>>, size: nat, i: nat)
    requires IsRun(states, steps, size) && i <= |steps|
    ensures AllAnswered(states, steps, i) + states[i].items == AllAccepted(states, steps, i)
  {
    hide Step, Accepted, Answered;
    LogsKept(states, steps, size, i);
    RunSound(states, steps, size, i);
  }

  lemma {:induction false} LogsKept<E, W>(states: seq<State<E, W>>, steps: seq<Event<E, W>>, size: nat, i: nat)
    requires IsRun(states, steps, size) && i <= |steps|
    ensures states[i].posted == AllAccepted(states, steps, i) && states[i].taken == AllAnswered(states, steps, i)
  {
    hide Step, Accepted, Answered, Orderly, NoLostWakeup;
    if i > 0 {
      LogsKept(states, steps, size, i - 1);
      RunSound(states, steps, size, i - 1);
      assert Step(states[i - 1], steps[i - 1], states[i - 1 + 1]);
      StepLogs(states[i - 1], steps[i - 1], states[i]);
    }
  }

  /** When all the woken have run, nobody waits in vain, and nobody waits on both sides. */
  lemma QuiescentWaiting<E, W>(s: State<E, W>)
    requires Sound(s)
    ensures s.awakeGet == {} && s.getters != [] ==> s.items == []
    ensures s.awakePut == {} && s.putters != [] ==> |s.items| == s.size
    ensures s.awakeGet == s.awakePut == {} && s.getters != [] && s.putters != [] ==> s.size == 0
  {
  }

  // -------------------------------------------------------------- the code

  class WaitingList {
    var next: WaitingList?
    /** The waiting thread. */
    const t: nat
    var token: bool

    constructor (t: nat, next: WaitingList?)
      ensures this.t == t && this.next == next && !token
    {
      this.t, this.next, token := t, next, false;
    }
  }

  function At(l: seq<WaitingList>, i: nat): WaitingList? {
    if i < |l| then l[i] else null
  }

  /** A list of threads waiting without a token. */
  ghost predicate Linked(l: seq<WaitingList>, head: WaitingList?)
    reads l
  {
    head == At(l, 0) && forall i :: 0 <= i < |l| ==> !l[i].token && l[i].next == At(l, i + 1)
  }

  ghost predicate Tokened(s: set<WaitingList>)
    reads s
  {
    forall w :: w in s ==> w.token
  }

  class FixedEventQueue<E> {
    var put: nat
    var get: nat
    var n: nat
    const events: array<E>
    var waitingGet: WaitingList?
    var waitingPut: WaitingList?
    ghost var state: State<E, WaitingList>

    function Slot(i: nat): nat {
      if i < events.Length then i else i - events.Length
    }

    /** The ring holds these events, the oldest at `get`. */
    ghost predicate Ring(items: seq<E>)
      reads `put, `get, `n, events
    {
      && n == |items| <= events.Length
      && (events.Length == 0 ==> get == put == 0) && (events.Length > 0 ==> get < events.Length && put == Slot(get + n))
      && (forall i :: 0 <= i < n ==> events[Slot(get + i)] == items[i])
    }

    ghost predicate Lists()
      reads `state, `waitingGet, `waitingPut, state.getters, state.putters, state.awakeGet, state.awakePut
    {
      && Linked(state.getters, waitingGet) && Linked(state.putters, waitingPut)
      && Tokened(state.awakeGet) && Tokened(state.awakePut)
    }

    ghost predicate Valid()
      reads this, events, state.getters, state.putters, state.awakeGet, state.awakePut
    {
      events.Length == state.size && Ring(state.items) && Lists() && Sound(state)
    }

    constructor (size: nat, e: E)
      ensures Valid() && fresh(events) && state == Empty(size)
    {
      put, get, n, waitingGet, waitingPut := 0, 0, 0, null, null;
      events := new E[size](_ => e);
      state := Empty(size);
    }

    method PutInRing(event: E, ghost items: seq<E>)
      requires Ring(items) && n < events.Length
      modifies `put, `n, events
      ensures Ring(items + [event])
    {
      events[put] := event;
      put := put + 1;
      if put >= events.Length {
        put := 0;
      }
      n := n + 1;
    }

    method TakeFromRing(ghost items: seq<E>) returns (f: E)
      requires Ring(items) && n > 0
      modifies `get, `n
      ensures f == items[0] && Ring(items[1..])
    {
      f := events[get];
      get := get + 1;
      if get >= events.Length {
        get := 0;
      }
      n := n - 1;
    }

    method PopGetter(ghost l: seq<WaitingList>)
      requires Linked(l, waitingGet) && Distinct(l)
      modifies `waitingGet, First(l)`token
      ensures Linked(Rest(l), waitingGet) && Tokened(First(l))
    {
      if waitingGet != null {
        waitingGet.token := true;
        waitingGet := waitingGet.next;
        assert forall i :: 0 <= i < |Rest(l)| ==> Rest(l)[i] == l[i + 1];
      }
    }

    method PopPutter(ghost l: seq<WaitingList>)
      requires Linked(l, waitingPut) && Distinct(l)
      modifies `waitingPut, First(l)`token
      ensures Linked(Rest(l), waitingPut) && Tokened(First(l))
    {
      if waitingPut != null {
        waitingPut.token := true;
        waitingPut := waitingPut.next;
        assert forall i :: 0 <= i < |Rest(l)| ==> Rest(l)[i] == l[i + 1];
      }
    }

    /** The first getter gets a token and is woken; the queue is in the given state afterwards. */
    method WakeGetter(ghost after: State<E, WaitingList>)
      requires Lists() && Orderly(state)
      requires after.getters == Rest(state.getters) && after.awakeGet == state.awakeGet + First(state.getters)
      requires after.putters == state.putters && after.awakePut == state.awakePut
      modifies `waitingGet, `state, First(state.getters)`token
      ensures Lists() && state == after
    {
      hide Linked, Tokened, Distinct;
      ghost var s := state;
      assert forall w :: w in First(s.getters) ==> w !in s.putters && w !in s.awakeGet && w !in s.awakePut;
      PopGetter(s.getters);
      TokenedUnion(s.awakeGet, First(s.getters));
      state := after;
    }

    method WakePutter(ghost after: State<E, WaitingList>)
      requires Lists() && Orderly(state)
      requires after.putters == Rest(state.putters) && after.awakePut == state.awakePut + First(state.putters)
      requires after.getters == state.getters && after.awakeGet == state.awakeGet
      modifies `waitingPut, `state, First(state.putters)`token
      ensures Lists() && state == after
    {
      hide Linked, Tokened, Distinct;
      ghost var s := state;
      assert forall w :: w in First(s.putters) ==> w !in s.getters && w !in s.awakeGet && w !in s.awakePut;
      PopPutter(s.putters);
      TokenedUnion(s.awakePut, First(s.putters));
      state := after;
    }

    /** Posts if there is room; whoever heads the list of getters gets a token and is woken. */
    method IRQpostImpl(event: E) returns (ok: bool)
      requires Valid()
      modifies this, events, First(state.getters)
      ensures Valid() && ok == (|old(state).items| < old(state).size)
      ensures state == if ok then Posted(old(state), event) else old(state)
    {
      if n >= events.Length {
        return false;
      }
      hide Ring, Lists, Orderly, NoLostWakeup;
      PostedSound(state, event);
      PutInRing(event, state.items);
      WakeGetter(Posted(state, event));
      ok := true;
    }

    /** The code of run and runOne for a queue that is not empty: the oldest event, and a wakeup of a putter. */
    method Take() returns (f: E)
      requires Valid() && n > 0
      modifies this, First(state.putters)
      ensures Valid() && old(state).items != [] && f == old(state).items[0] && state == Taken(old(state))
    {
      NotEmpty(this);
      hide Ring, Lists, Orderly, NoLostWakeup;
      TakenSound(state);
      f := TakeFromRing(state.items);
      WakePutter(Taken(state));
    }

    method WaitToPut(t: nat, ghost again: set<WaitingList>) returns (w: WaitingList)
      requires Lists() && again <= state.awakePut
      modifies `waitingPut, `state
      ensures Lists() && fresh(w) && w.t == t && Unused(old(state), w)
      ensures state == old(state).(putters := [w] + old(state).putters, awakePut := old(state).awakePut - again)
    {
      hide Linked, Tokened;
      ghost var s := state;
      w := new WaitingList(t, waitingPut);
      waitingPut := w;
      LinkedFront(s.putters, w);
      TokenedLess(s.awakePut, again);
      state := s.(putters := [w] + s.putters, awakePut := s.awakePut - again);
    }

    method WaitToGet(t: nat, ghost again: set<WaitingList>) returns (w: WaitingList)
      requires Lists() && again <= state.awakeGet
      modifies `waitingGet, `state
      ensures Lists() && fresh(w) && w.t == t && Unused(old(state), w)
      ensures state == old(state).(getters := [w] + old(state).getters, awakeGet := old(state).awakeGet - again)
    {
      hide Linked, Tokened;
      ghost var s := state;
      w := new WaitingList(t, waitingGet);
      waitingGet := w;
      LinkedFront(s.getters, w);
      TokenedLess(s.awakeGet, again);
      state := s.(getters := [w] + s.getters, awakeGet := s.awakeGet - again);
    }

    /**
     One turn of the thread t in post: it posts, or waits in a node at the head of the list. In
     its first turn `again` is empty, in a later one it holds the node whose token woke the thread.
     */
    method TryToPost(event: E, t: nat, ghost again: set<WaitingList>) returns (w: WaitingList?)
      requires Valid() && again <= state.awakePut && |again| <= 1
      modifies this, events, First(state.getters)
      ensures Valid() && (w == null <==> |old(state).items| < old(state).size)
      ensures var s := old(state).(awakePut := old(state).awakePut - again);
              if w == null then state == Posted(s, event)
              else fresh(w) && w.t == t && Unused(old(state), w) && state == PostOrWait(s, w, event)
    {
      hide Sound, Ring, Linked, Tokened;
      ghost var s := state;
      RingSize(this);
      if n >= events.Length {
        w := WaitToPut(t, again);
        PostOrWaitSound(s, again, w, event);
        return;
      }
      w := null;
      PostedAgainSound(s, again, event);
      var _ := IRQpostImpl(event);
      TokenedLess(s.awakePut, again);
      state := state.(awakePut := s.awakePut - again);
    }

    /** A thread woken by its token goes on posting. */
    method PostAgain(event: E, node: WaitingList) returns (w: WaitingList?)
      requires Valid() && node.token && (node in state.putters || node in state.awakePut)
      modifies this, events, First(state.getters)
      ensures Valid() && (w == null <==> |old(state).items| < old(state).size)
      ensures w != null ==> fresh(w) && w.t == node.t && Step(old(state), Event.PostAgain(w, node, event), state)
      ensures w == null ==> state == Posted(old(state).(awakePut := old(state).awakePut - {node}), event)
    {
      assert node in state.awakePut;
      w := TryToPost(event, node.t, {node});
    }

    /** One turn of the thread t in run: it takes the oldest event, or waits. */
    method TryToTake(t: nat, ghost again: set<WaitingList>) returns (w: WaitingList?, f: seq<E>)
      requires Valid() && again <= state.awakeGet && |again| <= 1
      modifies this, First(state.putters)
      ensures Valid() && (w == null <==> old(state).items != [])
      ensures var s := old(state).(awakeGet := old(state).awakeGet - again);
              if w == null then f == [s.items[0]] && state == Taken(s)
              else f == [] && fresh(w) && w.t == t && Unused(old(state), w) && state == TakeOrWait(s, w)
    {
      hide Sound, Ring, Linked, Tokened;
      ghost var s := state;
      RingSize(this);
      if n <= 0 {
        f := [];
        w := WaitToGet(t, again);
        TakeOrWaitSound(s, again, w);
        return;
      }
      w := null;
      TakenAgainSound(s, again);
      var e := Take();
      f := [e];
      TokenedLess(s.awakeGet, again);
      state := state.(awakeGet := s.awakeGet - again);
    }

    /** A thread woken by its token goes on running. */
    method RunAgain(node: WaitingList) returns (w: WaitingList?, f: seq<E>)
      requires Valid() && node.token && (node in state.getters || node in state.awakeGet)
      modifies this, First(state.putters)
      ensures Valid() && (w == null <==> old(state).items != [])
      ensures w != null ==> f == [] && fresh(w) && w.t == node.t && Step(old(state), Event.RunAgain(w, node), state)
      ensures w == null ==> f == [old(state).items[0]] && state == Taken(old(state).(awakeGet := old(state).awakeGet - {node}))
    {
      assert node in state.awakeGet;
      w, f := TryToTake(node.t, {node});
    }

    /** At most one event, without waiting. */
    method RunOneImpl() returns (f: seq<E>)
      requires Valid()
      modifies this, First(state.putters)
      ensures Valid() && Step(old(state), RunOne, state)
      ensures f == if old(state).items == [] then [] else [old(state).items[0]]
    {
      f := [];
      if n <= 0 {
        return;
      }
      var e := Take();
      f := [e];
    }
  }

  lemma TokenedUnion(s: set<WaitingList>, t: set<WaitingList>)
    requires Tokened(s) && Tokened(t)
    ensures Tokened(s + t)
  {
  }

  lemma TokenedLess(s: set<WaitingList>, t: set<WaitingList>)
    requires Tokened(s)
    ensures Tokened(s - t)
  {
  }

  lemma LinkedFront(l: seq<WaitingList>, w: WaitingList)
    requires Linked(l, w.next) && !w.token
    ensures Linked([w] + l, w)
  {
    assert forall i :: 0 < i < |[w] + l| ==> ([w] + l)[i] == l[i - 1];
  }

  lemma RingSize<E>(q: FixedEventQueue<E>)
    requires q.Valid()
    ensures q.n == |q.state.items| <= q.events.Length == q.state.size
  {
  }

  lemma NotEmpty<E>(q: FixedEventQueue<E>)
    requires q.Valid() && q.n > 0
    ensures q.state.items != []
  {
  }
}
