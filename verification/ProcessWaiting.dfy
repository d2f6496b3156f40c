/**
 Waiting for any child: the threads asleep on the condition variable that all processes share, which is notified when a
 process ends that nobody waits for in particular.
 */
module ProcessWaiting {
  import opened ProcessTable

  /** The table, and for each process how many of its threads are asleep until any child ends. */
  datatype Waiting = Waiting(s: State, asleep: multiset<int>)

  /** Whoever waits for any child of q need not: there is a zombie to report, or no child at all. */
  predicate Done(s: State, q: int) {
    s.Zombies(q) != [] || s.Childs(q) == []
  }

  /** The process whose thread makes the step. */
  function Actor(s: State, e: Event): int {
    match e
    case Create(parent, _) => parent
    case Started(pid) => if pid in s.procs then s.procs[pid].ppid else 0
    case CreateFails(pid) => if pid in s.procs then s.procs[pid].ppid else 0
    case WaitForAny(self, _) => self
    case WaitFor(self, _, _) => self
    case WaitEnds(self, _) => self
    case Exit(p, _) => p
  }

  /** Who is asleep after a step: one more, or nobody after a notification. */
  function Asleep(w: Waiting, e: Event): multiset<int> {
    match e
    case WaitForAny(self, nohang) =>
      if self in w.s.procs && WaitAny(w.s, self, nohang).1 == Waits then w.asleep + multiset{self} else w.asleep
    case Exit(p, _) => if p in w.s.procs && w.s.procs[p].waitCount == 0 then multiset{} else w.asleep
    case _ => w.asleep
  }

  /** A step of a thread that is awake; only the kernel has others than the one that may be asleep. */
  ghost predicate Turn(w: Waiting, e: Event, w': Waiting) {
    && Step(w.s, e, w'.s) && w'.asleep == Asleep(w, e)
    && (Actor(w.s, e) != 0 ==> w.asleep[Actor(w.s, e)] == 0)
  }

  // -------------------------------------------------------------- processes other than the kernel

  /** A process that is asleep has nothing to collect, and is not about to get anything without being woken. */
  ghost predicate SleeperAt(w: Waiting, q: int) {
    q != 0 && w.asleep[q] > 0 ==> Idle(w.s, q) && !Done(w.s, q)
  }

  ghost predicate Idle(s: State, q: int) {
    q in s.procs && !s.procs[q].zombie && q !in s.waitingFor && q !in s.starting
  }

  /** The lists of an idle process are the same, and it is still idle. */
  ghost predicate SameLists(s: State, s': State, q: int) {
    Idle(s', q) && s'.Childs(q) == s.Childs(q) && s'.Zombies(q) == s.Zombies(q)
  }

  lemma WaitAnyLists(s: State, self: int, nohang: bool, q: int)
    requires Table(s) && Running(s, self) && Idle(s, q) && q != self
    ensures SameLists(s, WaitAny(s, self, nohang).0, q)
  {
    hide Table, Reaped;
    if s.procs[self].zombies != [] {
      FrontZombie(s, self);
      TableAt(s, s.procs[self].zombies[0]);
      ReapedAt(s, self, s.procs[self].zombies[0], q);
    }
  }

  lemma WaitOneLists(s: State, self: int, pid: int, nohang: bool, q: int)
    requires Table(s) && Running(s, self) && Idle(s, q) && q != self
    ensures SameLists(s, WaitOne(s, self, pid, nohang).0, q)
  {
    hide Table, Reaped;
    if pid != self && pid in s.procs {
      ReapedAt(s, self, pid, q);
    }
  }

  lemma ResumedLists(s: State, self: int, pid: int, q: int)
    requires Table(s) && MayResume(s, self, pid) && Idle(s, q) && q != self
    ensures SameLists(s, Resumed(s, self, pid), q)
  {
    hide Table, Reaped;
    TableAt(s, pid);
    if s.procs[pid].waitCount == 1 {
      ReapedAt(CountedDown(s, self, pid), self, pid, q);
    }
  }

  lemma EndedLists(s: State, p: int, code: int, q: int)
    requires Table(s) && 0 in s.procs && Running(s, p) && p != 0 && Idle(s, q) && q != p && q != 0 && s.procs[p].ppid != q
    ensures SameLists(s, Ended(s, p, code), q)
  {
    hide Table, Ended;
    EndedAt(s, p, code, q);
    EndedElse(s, p, code);
  }

  /** A process that does nothing sees its lists change only when a child of its own ends. */
  lemma OthersLists(s: State, e: Event, s': State, q: int)
    requires Table(s) && Step(s, e, s') && Idle(s, q) && q != 0 && Actor(s, e) != q
    requires e.Exit? && e.p in s.procs ==> s.procs[e.p].ppid != q
    ensures SameLists(s, s', q)
  {
    hide Table, Created, Ended, Reaped, Abandoned, WaitAny, WaitOne, Resumed;
    match e
    case Create(parent, pid) => CreatedAt(s, parent, pid, q);
    case Started(pid) =>
    case CreateFails(pid) =>
      TableAt(s, pid);
      AbandonedAt(s, pid, q);
    case WaitForAny(self, nohang) => WaitAnyLists(s, self, nohang, q);
    case WaitFor(self, pid, nohang) => WaitOneLists(s, self, pid, nohang, q);
    case WaitEnds(self, pid) => ResumedLists(s, self, pid, q);
    case Exit(p, code) => EndedLists(s, p, code, q);
  }

  lemma TurnKeeps(w: Waiting, e: Event, w': Waiting, q: int)
    requires Table(w.s) && Turn(w, e, w') && SleeperAt(w, q)
    ensures SleeperAt(w', q)
  {
    hide Table, Done, Created, Ended, Reaped, Abandoned, Resumed;
    if q != 0 && w.asleep[q] > 0 {
      if e.Exit? && w.s.procs[e.p].ppid == q {
        TableAt(w.s, e.p);
      } else {
        OthersLists(w.s, e, w'.s, q);
        SameDone(w.s, w'.s, q);
      }
    } else if e.WaitForAny? && e.self == q && WaitAny(w.s, q, e.nohang).1 == Waits {
      WaitsUndone(w.s, q, e.nohang);
    }
  }

  lemma SameDone(s: State, s': State, q: int)
    requires SameLists(s, s', q)
    ensures Done(s', q) == Done(s, q)
  {
  }

  /** Whoever goes to sleep has children and no zombie. */
  lemma WaitsUndone(s: State, q: int, nohang: bool)
    requires q in s.procs && WaitAny(s, q, nohang).1 == Waits
    ensures WaitAny(s, q, nohang).0 == s && !Done(s, q)
  {
  }

  ghost predicate WaitingRun(ws: seq<Waiting>, events: seq<Event>) {
    && |ws| == |events| + 1 && ws[0] == Waiting(BOOTED, multiset{})
    && forall i :: 0 <= i < |events| ==> Turn(ws[i], events[i], ws[i + 1])
  }

  /** Over every run, a process that sleeps until any child ends sleeps while it has children and none has ended. */
  lemma {:induction false} NeverMissed(ws: seq<Waiting>, events: seq<Event>, i: nat, q: int)
    requires WaitingRun(ws, events) && i <= |events|
    ensures Table(ws[i].s) && (q != 0 && ws[i].asleep[q] > 0 ==> !Done(ws[i].s, q))
    ensures SleeperAt(ws[i], q)
  {
    hide Table, Step, Done, Idle, Asleep;
    if i == 0 {
      BootedTable();
    } else {
      NeverMissed(ws, events, i - 1, q);
      assert Turn(ws[i - 1], events[i - 1], ws[i - 1 + 1]);
      StepKeepsTable(ws[i - 1].s, events[i - 1], ws[i].s);
      TurnKeeps(ws[i - 1], events[i - 1], ws[i], q);
    }
  }

  // -------------------------------------------------------------- the kernel

  /** The steps that bring an end to what the kernel's threads wait for, and notify nobody. */
  predicate Silent(s: State, e: Event) {
    match e
    case Exit(p, _) =>
      && p in s.procs && s.procs[p].waitCount > 0
      && (s.procs[p].zombies != [] || (s.procs[p].ppid == 0 && s.procs[p].childs == [] && Removed(s.Childs(0), p) == []))
    case CreateFails(pid) => pid in s.procs && s.procs[pid].ppid == 0 && Removed(s.Childs(0), pid) == []
    case _ => false
  }

  lemma {:induction false} RemovedJoin(a: seq<int>, b: seq<int>, p: int)
    ensures Removed(a + b, p) == Removed(a, p) + Removed(b, p)
  {
    if a == [] {
      assert a + b == b;
    } else {
      hide Removed;
      var x, rest := a[0], a[1..];
      RemovedJoin(rest, b, p);
      assert a == [x] + rest;
      Associative([x], rest, b);
      Associative([x], Removed(rest, p), Removed(b, p));
      RemovedCons(x, rest, p);
      RemovedCons(x, rest + b, p);
    }
  }

  lemma Associative<T>(a: seq<T>, b: seq<T>, c: seq<T>)
    ensures (a + b) + c == a + (b + c)
  {
  }

  lemma RemovedCons(x: int, l: seq<int>, p: int)
    ensures Removed([x] + l, p) == if x == p then Removed(l, p) else [x] + Removed(l, p)
  {
    assert ([x] + l)[1..] == l;
  }

  lemma {:induction false} RemovedAbsent(l: seq<int>, p: int)
    requires p !in l
    ensures Removed(l, p) == l
  {
    if l != [] {
      RemovedAbsent(l[1..], p);
    }
  }

  lemma Counted(l: seq<int>, p: int)
    ensures p in l <==> multiset(l)[p] > 0
  {
    assert p in l <==> p in multiset(l);
  }

  lemma NotOwnChild(s: State, p: int)
    requires Table(s) && p in s.procs && p != 0
    ensures p !in s.procs[p].childs
  {
    TableAt(s, p);
    assert ChildsAt(s, p, p);
    Counted(s.procs[p].childs, p);
  }

  lemma ExitSilent(s: State, p: int, code: int)
    requires Table(s) && Running(s, p) && p != 0 && s.procs[p].waitCount > 0 && !Done(s, 0)
    ensures Done(Ended(s, p, code), 0) <==> Silent(s, Exit(p, code))
  {
    hide Table, Ended, Removed;
    EndedAt(s, p, code, 0);
    NotOwnChild(s, p);
    RemovedAbsent(s.procs[p].childs, p);
    RemovedJoin(s.procs[p].childs, s.Childs(0), p);
  }

  lemma KernelIdle(s: State)
    requires Table(s)
    ensures Idle(s, 0)
  {
    TableAt(s, 0);
  }

  /** Without a zombie of the kernel's, its threads take none. */
  lemma KernelTakesNone(s: State, e: Event, s': State)
    requires Table(s) && Step(s, e, s') && !Done(s, 0) && !e.Exit? && !e.CreateFails?
    ensures !Done(s', 0)
  {
    hide Table, Created, Ended, Reaped, Abandoned;
    KernelIdle(s);
    match e
    case Create(parent, pid) => CreatedAt(s, parent, pid, 0);
    case Started(pid) =>
    case WaitForAny(self, nohang) =>
      if self != 0 {
        WaitAnyLists(s, self, nohang, 0);
      }
    case WaitFor(self, pid, nohang) =>
      if self != 0 {
        WaitOneLists(s, self, pid, nohang, 0);
      } else {
        NoneToTake(s, pid, nohang);
      }
    case WaitEnds(self, pid) =>
      if self != 0 {
        ResumedLists(s, self, pid, 0);
      } else {
        LastTaken(s, pid);
      }
  }

  lemma NoneToTake(s: State, pid: int, nohang: bool)
    requires Table(s) && !Done(s, 0) && Running(s, 0) && pid > 0
    ensures !Done(WaitOne(s, 0, pid, nohang).0, 0)
  {
    hide Table;
    TableAt(s, pid);
    assert pid in s.procs ==> ZombiesAt(s, 0, pid) by { TableLists(s, 0, pid); }
  }

  lemma TableLists(s: State, q: int, p: int)
    requires Table(s)
    ensures ChildsAt(s, q, p) && ZombiesAt(s, q, p)
  {
  }

  lemma LastTaken(s: State, pid: int)
    requires Table(s) && !Done(s, 0) && MayResume(s, 0, pid)
    ensures !Done(Resumed(s, 0, pid), 0)
  {
    hide Table, Reaped;
    TableAt(s, pid);
    if s.procs[pid].waitCount == 1 {
      ReapedAt(CountedDown(s, 0, pid), 0, pid, 0);
    }
  }

  /** A thread of the kernel sleeps on although it need not, from exactly these steps on. */
  lemma MissedIff(w: Waiting, e: Event, w': Waiting)
    requires Table(w.s) && Turn(w, e, w') && w.asleep[0] > 0 && !Done(w.s, 0)
    ensures w'.asleep[0] > 0 && Done(w'.s, 0) <==> Silent(w.s, e)
  {
    hide Table, Ended, Abandoned, Done, WaitAny, Removed;
    match e
    case Exit(p, code) =>
      if w.s.procs[p].waitCount > 0 {
        ExitSilent(w.s, p, code);
      }
    case CreateFails(pid) => FailSilent(w.s, pid);
    case _ => KernelTakesNone(w.s, e, w'.s);
  }

  lemma FailSilent(s: State, pid: int)
    requires Table(s) && pid in s.starting && pid in s.procs && s.procs[pid].ppid in s.procs && !Done(s, 0)
    ensures Done(Abandoned(s, pid), 0) <==> Silent(s, CreateFails(pid))
  {
    hide Table, Abandoned, Removed;
    TableAt(s, pid);
    AbandonedAt(s, pid, 0);
  }

  /** One thread of the kernel waits for any child and another for its only child, which then ends. */
  lemma KernelMisses() returns (ws: seq<Waiting>, events: seq<Event>)
    ensures WaitingRun(ws, events)
    ensures events == [Create(0, 1), Started(1), WaitForAny(0, false), WaitFor(0, 1, false), Exit(1, 0)]
    ensures ws[5].asleep[0] == 1 && Done(ws[5].s, 0)
  {
    var one := multiset{0};
    events := [Create(0, 1), Started(1), WaitForAny(0, false), WaitFor(0, 1, false), Exit(1, 0)];
    ws := [Waiting(BOOTED, multiset{}), Waiting(CREATED, multiset{}), Waiting(STARTED, multiset{}),
           Waiting(STARTED, one), Waiting(AWAITED, one), Waiting(ENDED, one)];
    FirstTurns();
    SecondTurns();
    LastTurn();
    hide Turn, Done;
  }

  const CREATED := Created(BOOTED, 0, 1)
  const STARTED := CREATED.(starting := {})
  const AWAITED := Awaited(STARTED, 0, 1)
  const ENDED := Ended(AWAITED, 1, 0)

  lemma FirstTurns()
    ensures Turn(Waiting(BOOTED, multiset{}), Create(0, 1), Waiting(CREATED, multiset{}))
    ensures Turn(Waiting(CREATED, multiset{}), Started(1), Waiting(STARTED, multiset{}))
  {
    assert CREATED.starting - {1} == {};
  }

  lemma SecondTurns()
    ensures Turn(Waiting(STARTED, multiset{}), WaitForAny(0, false), Waiting(STARTED, multiset{0}))
    ensures Turn(Waiting(STARTED, multiset{0}), WaitFor(0, 1, false), Waiting(AWAITED, multiset{0}))
  {
    assert WaitAny(STARTED, 0, false) == (STARTED, Waits);
    assert WaitOne(STARTED, 0, 1, false).0 == AWAITED;
  }

  lemma LastTurn()
    ensures Turn(Waiting(AWAITED, multiset{0}), Exit(1, 0), Waiting(ENDED, multiset{0})) && Done(ENDED, 0)
  {
    hide Ended;
    var empty: seq<int> := [];
    assert AWAITED.procs[1] == Proc(0, [], [], 1, false, 0) && AWAITED.Childs(0) == [1] && AWAITED.Zombies(0) == [];
    EndedProcAt(AWAITED, 1, 0, 0);
    EndedChildsAt(AWAITED, 1, 0, 0);
    assert Removed(empty + [1], 1) == [];
  }
}
