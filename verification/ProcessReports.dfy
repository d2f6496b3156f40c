/** What the waits answer: over every run, who is reported and with which exit code, and when there is nobody to report. */
module ProcessReports {
  import opened ProcessTable

  /** A dead child that no thread waits for, and a living one. */
  ghost predicate DeadChild(s: State, self: int, p: int) {
    s.IsChild(p, self) && s.procs[p].zombie && s.procs[p].waitCount == 0
  }

  ghost predicate LivingChild(s: State, self: int, p: int) {
    s.IsChild(p, self) && !s.procs[p].zombie
  }

  // -------------------------------------------------------------- the events behind a zombie

  /** Where among the first i events the last end of p is, or -1. */
  function LastExit(events: seq<Event>, i: nat, p: int): (j: int)
    requires i <= |events|
    ensures -1 <= j < i && (j >= 0 ==> events[j].Exit? && events[j].p == p)
    ensures forall k :: j < k < i ==> !(events[k].Exit? && events[k].p == p)
  {
    if i == 0 then -1 else if events[i - 1].Exit? && events[i - 1].p == p then i - 1 else LastExit(events, i - 1, p)
  }

  /** The last end of p was with this code, and p has not been created again since. */
  ghost predicate EndedBy(events: seq<Event>, i: nat, p: int, code: int)
    requires i <= |events|
  {
    var j := LastExit(events, i, p);
    j >= 0 && events[j] == Exit(p, code) && forall k :: j < k < i ==> !(events[k].Create? && events[k].pid == p)
  }

  ghost predicate CodeAt(s: State, events: seq<Event>, i: nat, p: int)
    requires i <= |events|
  {
    p in s.procs && s.procs[p].zombie ==> EndedBy(events, i, p, s.procs[p].exitCode)
  }

  /** Who is dead after a step was dead before, with the same code, or has just ended with it. */
  ghost predicate DeadBefore(s: State, e: Event, s': State, p: int) {
    p in s'.procs && s'.procs[p].zombie ==>
      if e.Exit? && e.p == p then s'.procs[p].exitCode == e.code
      else p in s.procs && s.procs[p].zombie && s'.procs[p].exitCode == s.procs[p].exitCode && !(e.Create? && e.pid == p)
  }

  lemma CreatedDead(s: State, parent: int, pid: int, p: int)
    requires parent in s.procs && pid !in s.procs
    ensures DeadBefore(s, Create(parent, pid), Created(s, parent, pid), p)
  {
  }

  lemma AbandonedDead(s: State, pid: int, p: int)
    requires pid in s.procs && s.procs[pid].ppid in s.procs
    ensures DeadBefore(s, CreateFails(pid), Abandoned(s, pid), p)
  {
    hide Removed;
  }

  lemma ReapedDead(s: State, e: Event, self: int, x: int, p: int)
    requires self in s.procs && !e.Exit? && !e.Create?
    ensures DeadBefore(s, e, Reaped(s, self, x), p)
  {
    hide Removed;
  }

  lemma AwaitedDead(s: State, e: Event, self: int, x: int, p: int)
    requires x in s.procs && !e.Exit? && !e.Create?
    ensures DeadBefore(s, e, Awaited(s, self, x), p)
  {
  }

  lemma ResumedDead(s: State, e: Event, self: int, x: int, p: int)
    requires self in s.procs && x in s.procs && s.procs[x].waitCount > 0 && !e.Exit? && !e.Create?
    ensures DeadBefore(s, e, Resumed(s, self, x), p)
  {
    hide Removed;
  }

  lemma EndedDead(s: State, x: int, code: int, p: int)
    requires 0 in s.procs && x in s.procs && x != 0 && s.procs[x].ppid in s.procs && s.procs[x].ppid != x
    ensures DeadBefore(s, Exit(x, code), Ended(s, x, code), p)
  {
    hide Removed;
  }

  lemma StepDead(s: State, e: Event, s': State, p: int)
    requires Table(s) && Step(s, e, s')
    ensures DeadBefore(s, e, s', p)
  {
    hide Table, Created, Abandoned, Reaped, Awaited, Resumed, Ended, DeadBefore;
    match e
    case Create(parent, pid) => CreatedDead(s, parent, pid, p);
    case Started(pid) => StartedDead(s, pid, p);
    case CreateFails(pid) => AbandonedDead(s, pid, p);
    case WaitForAny(self, nohang) =>
      if s.procs[self].zombies != [] {
        ReapedDead(s, e, self, s.procs[self].zombies[0], p);
      } else {
        SameDead(s, e, p);
      }
    case WaitFor(self, pid, nohang) =>
      if s' == s {
        SameDead(s, e, p);
      } else if !s.procs[pid].zombie {
        AwaitedDead(s, e, self, pid, p);
      } else {
        ReapedDead(s, e, self, pid, p);
      }
    case WaitEnds(self, pid) => ResumedDead(s, e, self, pid, p);
    case Exit(x, code) =>
      TableAt(s, x);
      EndedDead(s, x, code, p);
  }

  lemma SameDead(s: State, e: Event, p: int)
    requires !e.Exit? && !e.Create?
    ensures DeadBefore(s, e, s, p)
  {
  }

  lemma StartedDead(s: State, pid: int, p: int)
    ensures DeadBefore(s, Started(pid), s.(starting := s.starting - {pid}), p)
  {
  }

  lemma NextCode(s: State, events: seq<Event>, i: nat, s': State, p: int)
    requires i < |events| && CodeAt(s, events, i, p) && DeadBefore(s, events[i], s', p)
    ensures CodeAt(s', events, i + 1, p)
  {
  }

  // -------------------------------------------------------------- whose child it is

  /** Where among the first i events p was last created, or -1. */
  function LastCreate(events: seq<Event>, i: nat, p: int): (j: int)
    requires i <= |events|
    ensures -1 <= j < i && (j >= 0 ==> events[j].Create? && events[j].pid == p)
    ensures forall k :: j < k < i ==> !(events[k].Create? && events[k].pid == p)
  {
    if i == 0 then -1 else if events[i - 1].Create? && events[i - 1].pid == p then i - 1 else LastCreate(events, i - 1, p)
  }

  /** A process is a child of the one that created it, or of the kernel if that has ended since. */
  ghost predicate ParentIs(s: State, events: seq<Event>, i: nat, p: int)
    requires i <= |events|
  {
    p != 0 && p in s.procs ==>
      var j := LastCreate(events, i, p);
      j >= 0 && s.procs[p].ppid == if exists k :: j < k < i && Ends(events[k], events[j].parent) then 0 else events[j].parent
  }

  predicate Ends(e: Event, q: int) {
    e.Exit? && e.p == q
  }

  ghost predicate ParentBefore(s: State, e: Event, s': State, p: int) {
    p != 0 && p in s'.procs ==>
      if e.Create? && e.pid == p then s'.procs[p].ppid == e.parent
      else p in s.procs && s'.procs[p].ppid == if e.Exit? && s.procs[p].ppid == e.p then 0 else s.procs[p].ppid
  }

  lemma WaitAnyParent(s: State, self: int, nohang: bool, p: int)
    requires Table(s) && self in s.procs
    ensures ParentBefore(s, WaitForAny(self, nohang), WaitAny(s, self, nohang).0, p)
  {
    hide Table, Reaped;
    if s.procs[self].zombies != [] {
      FrontZombie(s, self);
      TableAt(s, s.procs[self].zombies[0]);
      ReapedAt(s, self, s.procs[self].zombies[0], p);
    }
  }

  lemma WaitOneParent(s: State, self: int, pid: int, nohang: bool, p: int)
    requires Table(s) && self in s.procs
    ensures ParentBefore(s, WaitFor(self, pid, nohang), WaitOne(s, self, pid, nohang).0, p)
  {
    hide Table, Reaped;
    if pid in s.procs && pid != self {
      ReapedAt(s, self, pid, p);
    }
  }

  lemma WaitOverParent(s: State, self: int, pid: int, p: int)
    requires Table(s) && MayResume(s, self, pid)
    ensures ParentBefore(s, WaitEnds(self, pid), WaitOver(s, self, pid).0, p)
  {
    hide Table, Reaped;
    TableAt(s, pid);
    if s.procs[pid].waitCount == 1 {
      ReapedAt(CountedDown(s, self, pid), self, pid, p);
    }
  }

  lemma StepParent(s: State, e: Event, s': State, p: int)
    requires Table(s) && Step(s, e, s')
    ensures ParentBefore(s, e, s', p)
  {
    hide Table, Created, Abandoned, Ended, WaitAny, WaitOne, WaitOver;
    match e
    case Create(parent, pid) => CreatedAt(s, parent, pid, p);
    case Started(pid) =>
    case CreateFails(pid) =>
      TableAt(s, pid);
      AbandonedAt(s, pid, p);
    case WaitForAny(self, nohang) => WaitAnyParent(s, self, nohang, p);
    case WaitFor(self, pid, nohang) => WaitOneParent(s, self, pid, nohang, p);
    case WaitEnds(self, pid) => WaitOverParent(s, self, pid, p);
    case Exit(x, code) => EndedAt(s, x, code, p);
  }

  lemma NextParent(s: State, events: seq<Event>, i: nat, s': State, p: int)
    requires Table(s) && i < |events| && Step(s, events[i], s') && ParentIs(s, events, i, p) && ParentBefore(s, events[i], s', p)
    ensures ParentIs(s', events, i + 1, p)
  {
    hide Table, Created, Abandoned, Reaped, Ended, WaitAny, WaitOne, WaitOver;
    if p != 0 && p in s'.procs {
      var e, j := events[i], LastCreate(events, i + 1, p);
      if j < i {
        var q := events[j].parent;
        assert (exists k :: j < k < i + 1 && Ends(events[k], q)) <==> (exists k :: j < k < i && Ends(events[k], q)) || Ends(e, q);
        assert e.Exit? ==> e.p != 0;
      }
    }
  }

  /** Over every run, whoever created a process is its parent, until it ends itself. */
  lemma {:induction false} ParentIsCreator(states: seq<State>, events: seq<Event>, i: nat, p: int)
    requires IsRun(states, events) && i <= |events|
    ensures ParentIs(states[i], events, i, p)
  {
    hide Table, Step, ParentIs;
    if i == 0 {
      NoParent(events, p);
    } else {
      RunKeepsTable(states, events, i - 1);
      ParentIsCreator(states, events, i - 1, p);
      assert Step(states[i - 1], events[i - 1], states[i - 1 + 1]);
      StepParent(states[i - 1], events[i - 1], states[i], p);
      NextParent(states[i - 1], events, i - 1, states[i], p);
    }
  }

  lemma NoParent(events: seq<Event>, p: int)
    ensures ParentIs(BOOTED, events, 0, p)
  {
  }

  // -------------------------------------------------------------- the order of the zombies

  /** In the order in which they ended. */
  ghost predicate Ordered(events: seq<Event>, i: nat, l: seq<int>)
    requires i <= |events|
  {
    forall a, b :: 0 <= a < b < |l| ==> LastExit(events, i, l[a]) < LastExit(events, i, l[b])
  }

  lemma {:induction false} RemovedOrdered(events: seq<Event>, i: nat, l: seq<int>, p: int)
    requires i <= |events| && Ordered(events, i, l)
    ensures Ordered(events, i, Removed(l, p)) && forall x :: x in Removed(l, p) ==> x in l
    decreases |l|
  {
    hide LastExit;
    if l != [] {
      var rest := l[1..];
      assert forall a :: 0 <= a < |rest| ==> rest[a] == l[a + 1];
      RemovedOrdered(events, i, rest, p);
      if l[0] != p {
        FrontOrdered(events, i, l[0], Removed(rest, p), rest);
      }
    }
  }

  lemma FrontOrdered(events: seq<Event>, i: nat, x: int, r: seq<int>, rest: seq<int>)
    requires i <= |events| && Ordered(events, i, r) && (forall y :: y in r ==> y in rest)
    requires forall b :: 0 <= b < |rest| ==> LastExit(events, i, x) < LastExit(events, i, rest[b])
    ensures Ordered(events, i, [x] + r)
  {
    hide LastExit;
    var l := [x] + r;
    forall a, b | 0 <= a < b < |l|
      ensures LastExit(events, i, l[a]) < LastExit(events, i, l[b])
    {
      assert l[b] == r[b - 1] && r[b - 1] in rest;
      if a > 0 {
        assert l[a] == r[a - 1];
      }
    }
  }

  /** A step keeps the order of zombies that do not end in it. */
  lemma SameOrder(events: seq<Event>, i: nat, l: seq<int>)
    requires i < |events| && Ordered(events, i, l) && forall x :: x in l ==> !(events[i].Exit? && events[i].p == x)
    ensures Ordered(events, i + 1, l)
  {
    forall a, b | 0 <= a < b < |l|
      ensures LastExit(events, i + 1, l[a]) < LastExit(events, i + 1, l[b])
    {
      assert l[a] in l && l[b] in l;
    }
  }

  lemma LastOrdered(events: seq<Event>, i: nat, l: seq<int>, p: int)
    requires i < |events| && Ordered(events, i + 1, l) && events[i].Exit? && events[i].p == p && p !in l
    ensures Ordered(events, i + 1, l + [p])
  {
    forall a, b | 0 <= a < b < |l + [p]|
      ensures LastExit(events, i + 1, (l + [p])[a]) < LastExit(events, i + 1, (l + [p])[b])
    {
      assert l[a] in l;
    }
  }

  /** Whoever is in a list of zombies is dead. */
  lemma ListedIsDead(s: State, q: int, x: int)
    requires Table(s) && x in s.Zombies(q)
    ensures s.IsChild(x, q) && q in s.procs && s.procs[x].zombie && s.procs[x].waitCount == 0
  {
    assert ZombiesAt(s, q, x);
    assert x in multiset(s.Zombies(q));
  }

  lemma DeadIsListed(s: State, q: int, x: int)
    requires Table(s) && s.IsChild(x, q) && q in s.procs && s.procs[x].zombie && s.procs[x].waitCount == 0
    ensures x in s.Zombies(q)
  {
    assert ZombiesAt(s, q, x);
    assert x in multiset(s.Zombies(q));
  }

  /** What a step makes of the zombies of a process other than the kernel. */
  lemma ZombiesAfter(s: State, e: Event, s': State, q: int) returns (x: int)
    requires Table(s) && Step(s, e, s') && q != 0
    ensures s'.Zombies(q) == s.Zombies(q) || s'.Zombies(q) == [] || (!e.Exit? && s'.Zombies(q) == Removed(s.Zombies(q), x))
         || (e.Exit? && s'.Zombies(q) == s.Zombies(q) + [e.p])
  {
    hide Table, Created, Abandoned, Reaped, Ended, Removed;
    x := 0;
    match e
    case Create(parent, pid) => CreatedAt(s, parent, pid, q);
    case Started(pid) =>
    case CreateFails(pid) =>
      TableAt(s, pid);
      AbandonedAt(s, pid, q);
    case WaitForAny(self, nohang) =>
      if s.procs[self].zombies != [] {
        x := s.procs[self].zombies[0];
        FrontZombie(s, self);
        TableAt(s, x);
        ReapedAt(s, self, x, q);
      }
    case WaitFor(self, pid, nohang) =>
      x := pid;
      if pid in s.procs && pid != self {
        ReapedAt(s, self, pid, q);
      }
    case WaitEnds(self, pid) =>
      x := pid;
      TableAt(s, pid);
      if s.procs[pid].waitCount == 1 {
        ReapedAt(CountedDown(s, self, pid), self, pid, q);
      }
    case Exit(p, code) => EndedAt(s, p, code, q);
  }

  lemma NextOrder(s: State, events: seq<Event>, i: nat, s': State, q: int)
    requires Table(s) && i < |events| && Step(s, events[i], s') && q != 0 && Ordered(events, i, s.Zombies(q))
    ensures Ordered(events, i + 1, s'.Zombies(q))
  {
    hide Table, Step, LastExit, Ordered, Removed;
    var e, l := events[i], s.Zombies(q);
    forall x | x in l
      ensures !(e.Exit? && e.p == x)
    {
      ListedIsDead(s, q, x);
      NoneEndsTwice(s, e, s', x);
    }
    var x := ZombiesAfter(s, e, s', q);
    SameOrder(events, i, l);
    RemovedOrdered(events, i + 1, l, x);
    NoneOrdered(events, i + 1);
    if e.Exit? && s'.Zombies(q) == l + [e.p] {
      LastOrdered(events, i, l, e.p);
    }
  }

  lemma NoneEndsTwice(s: State, e: Event, s': State, x: int)
    requires Step(s, e, s') && x in s.procs && s.procs[x].zombie
    ensures !(e.Exit? && e.p == x)
  {
  }

  lemma NoneOrdered(events: seq<Event>, i: nat)
    requires i <= |events|
    ensures Ordered(events, i, [])
  {
  }

  // -------------------------------------------------------------- over every run

  lemma {:induction false} CodesKept(states: seq<State>, events: seq<Event>, i: nat, p: int)
    requires IsRun(states, events) && i <= |events|
    ensures Table(states[i]) && CodeAt(states[i], events, i, p)
  {
    hide Table, Step, CodeAt;
    RunKeepsTable(states, events, i);
    if i == 0 {
      NoneDead(events, p);
    } else {
      CodesKept(states, events, i - 1, p);
      assert Step(states[i - 1], events[i - 1], states[i - 1 + 1]);
      StepDead(states[i - 1], events[i - 1], states[i], p);
      NextCode(states[i - 1], events, i - 1, states[i], p);
    }
  }

  lemma NoneDead(events: seq<Event>, p: int)
    ensures CodeAt(BOOTED, events, 0, p)
  {
  }

  lemma {:induction false} OrderKept(states: seq<State>, events: seq<Event>, i: nat, q: int)
    requires IsRun(states, events) && i <= |events| && q != 0
    ensures Ordered(events, i, states[i].Zombies(q))
  {
    hide Table, Step, Ordered;
    if i == 0 {
      NoneOrdered(events, 0);
    } else {
      RunKeepsTable(states, events, i - 1);
      OrderKept(states, events, i - 1, q);
      assert Step(states[i - 1], events[i - 1], states[i - 1 + 1]);
      NextOrder(states[i - 1], events, i - 1, states[i], q);
    }
  }

  ghost predicate IsWait(e: Event) {
    e.WaitForAny? || e.WaitFor? || e.WaitEnds?
  }

  /** What a step that is a wait, or the end of one, answers. */
  ghost function AnswerOf(s: State, e: Event): Answer
    requires IsWait(e) && e.self in s.procs && (e.WaitEnds? ==> MayResume(s, e.self, e.pid))
  {
    match e
    case WaitForAny(self, nohang) => WaitAny(s, self, nohang).1
    case WaitFor(self, pid, nohang) => WaitOne(s, self, pid, nohang).1
    case WaitEnds(self, pid) => WaitOver(s, self, pid).1
  }

  lemma WhoIsReported(s: State, e: Event, s': State, p: int, code: int)
    requires Table(s) && Step(s, e, s') && IsWait(e) && AnswerOf(s, e) == Reported(p, code)
    ensures s.IsChild(p, e.self) && s.procs[p].zombie && s.procs[p].exitCode == code && (e.WaitForAny? || e.pid == p)
    ensures p !in s'.procs && s'.reported == s.reported + multiset{p}
    ensures e.WaitForAny? ==> s.Zombies(e.self) != [] && s.Zombies(e.self)[0] == p
  {
    hide Table, Removed;
    if e.WaitForAny? {
      FrontZombie(s, e.self);
      TableAt(s, p);
    }
  }

  /**
   Over every run, whoever a wait reports is a child of the caller, has ended with the code that is reported and not been
   created again since, and is gone after that; a process that waits for any child is told of its dead in the order in
   which they ended.
   */
  lemma ReportedHasEnded(states: seq<State>, events: seq<Event>, i: nat, p: int, code: int)
    requires IsRun(states, events) && i < |events| && IsWait(events[i]) && events[i].self in states[i].procs
    requires events[i].WaitEnds? ==> MayResume(states[i], events[i].self, events[i].pid)
    requires AnswerOf(states[i], events[i]) == Reported(p, code)
    ensures EndedBy(events, i, p, code)
    ensures states[i].IsChild(p, events[i].self) && (events[i].WaitForAny? || events[i].pid == p)
    ensures p !in states[i + 1].procs && states[i + 1].reported == states[i].reported + multiset{p}
    ensures events[i].WaitForAny? && events[i].self != 0 ==>
      forall q :: q != p && DeadChild(states[i], events[i].self, q) ==> LastExit(events, i, p) < LastExit(events, i, q)
  {
    hide Table, Step, EndedBy, LastExit, AnswerOf;
    var s, e := states[i], events[i];
    CodesKept(states, events, i, p);
    assert Step(states[i], events[i], states[i + 1]);
    WhoIsReported(s, e, states[i + 1], p, code);
    if e.WaitForAny? && e.self != 0 {
      OrderKept(states, events, i, e.self);
      forall q | q != p && DeadChild(s, e.self, q)
        ensures LastExit(events, i, p) < LastExit(events, i, q)
      {
        DeadIsListed(s, e.self, q);
        var b :| 0 <= b < |s.Zombies(e.self)| && s.Zombies(e.self)[b] == q;
      }
    }
  }

  // -------------------------------------------------------------- the other answers

  lemma LivingIsListed(s: State, q: int, x: int)
    requires Table(s) && q in s.procs
    ensures LivingChild(s, q, x) <==> x in s.Childs(q)
  {
    assert ChildsAt(s, q, x);
    assert x in s.Childs(q) <==> x in multiset(s.Childs(q));
  }

  /** waitpid for any child reports somebody exactly if there is a dead child, and is an error exactly if there is no child. */
  lemma WaitAnyAnswers(s: State, self: int, nohang: bool)
    requires Table(s) && self in s.procs
    ensures var r := WaitAny(s, self, nohang).1;
      && (r.Reported? <==> exists p :: DeadChild(s, self, p))
      && (r == NotYet <==> nohang && !exists p :: DeadChild(s, self, p))
      && (r == Error <==> !nohang && (!exists p :: DeadChild(s, self, p)) && !exists p :: LivingChild(s, self, p))
      && (r == Waits <==> !nohang && (!exists p :: DeadChild(s, self, p)) && exists p :: LivingChild(s, self, p))
  {
    hide Table, Reaped;
    forall p
      ensures DeadChild(s, self, p) <==> p in s.Zombies(self)
      ensures LivingChild(s, self, p) <==> p in s.Childs(self)
    {
      LivingIsListed(s, self, p);
      if p in s.Zombies(self) {
        ListedIsDead(s, self, p);
      }
      if DeadChild(s, self, p) {
        DeadIsListed(s, self, p);
      }
    }
    if s.Zombies(self) != [] {
      assert DeadChild(s, self, s.Zombies(self)[0]);
    }
    if s.Childs(self) != [] {
      assert LivingChild(s, self, s.Childs(self)[0]);
    }
  }

  /** waitpid for one child: the answer of its first part, in every case. */
  lemma WaitOneAnswers(s: State, self: int, pid: int, nohang: bool)
    requires Table(s) && self in s.procs && pid > 0
    ensures var r := WaitOne(s, self, pid, nohang).1;
      && (r.Reported? <==> DeadChild(s, self, pid))
      && (r == NotYet <==> nohang && LivingChild(s, self, pid))
      && (r == Waits <==> !nohang && LivingChild(s, self, pid))
      && (r == Error <==> !DeadChild(s, self, pid) && !LivingChild(s, self, pid))
  {
    hide Table;
    TableAt(s, pid);
  }

  // -------------------------------------------------------------- waits for one child that are over

  /** How many waits for p go on after the first i events: those that had to wait, less those that are over. */
  ghost function Pending(states: seq<State>, events: seq<Event>, i: nat, p: int): int
    requires |states| == |events| + 1 && i <= |events|
  {
    if i == 0 then 0 else
      var s, e, before := states[i - 1], events[i - 1], Pending(states, events, i - 1, p);
      if e.Create? && e.pid == p then 0 else before + Begun(s, e, p) - Over(e, p)
  }

  ghost function Begun(s: State, e: Event, p: int): int {
    if e.WaitFor? && e.pid == p && !e.nohang && LivingChild(s, e.self, p) then 1 else 0
  }

  function Over(e: Event, p: int): int {
    if e.WaitEnds? && e.pid == p then 1 else 0
  }

  ghost predicate CountedBefore(s: State, e: Event, s': State, p: int) {
    p in s'.procs ==>
      if e.Create? && e.pid == p then s'.procs[p].waitCount == 0
      else p in s.procs && s'.procs[p].waitCount == s.procs[p].waitCount + Begun(s, e, p) - Over(e, p)
  }

  lemma WaitAnyPending(s: State, self: int, nohang: bool, p: int)
    requires Table(s) && self in s.procs && p != 0
    ensures CountedBefore(s, WaitForAny(self, nohang), WaitAny(s, self, nohang).0, p)
  {
    hide Table, Reaped;
    if s.procs[self].zombies != [] {
      FrontZombie(s, self);
      TableAt(s, s.procs[self].zombies[0]);
      ReapedAt(s, self, s.procs[self].zombies[0], p);
    }
  }

  lemma WaitOnePending(s: State, self: int, pid: int, nohang: bool, p: int)
    requires Table(s) && self in s.procs && pid > 0 && p != 0
    ensures CountedBefore(s, WaitFor(self, pid, nohang), WaitOne(s, self, pid, nohang).0, p)
  {
    hide Table, Reaped;
    TableAt(s, pid);
    if pid in s.procs && pid != self {
      ReapedAt(s, self, pid, p);
    }
  }

  lemma WaitOverPending(s: State, self: int, pid: int, p: int)
    requires Table(s) && MayResume(s, self, pid) && p != 0
    ensures CountedBefore(s, WaitEnds(self, pid), WaitOver(s, self, pid).0, p)
  {
    hide Table, Reaped;
    TableAt(s, pid);
    if s.procs[pid].waitCount == 1 {
      ReapedAt(CountedDown(s, self, pid), self, pid, p);
    }
  }

  lemma StepPending(s: State, e: Event, s': State, p: int)
    requires Table(s) && Step(s, e, s') && p != 0
    ensures CountedBefore(s, e, s', p)
  {
    hide Table, Created, Abandoned, Ended, WaitAny, WaitOne, WaitOver;
    match e
    case Create(parent, pid) => CreatedAt(s, parent, pid, p);
    case Started(pid) =>
    case CreateFails(pid) =>
      TableAt(s, pid);
      AbandonedAt(s, pid, p);
    case WaitForAny(self, nohang) => WaitAnyPending(s, self, nohang, p);
    case WaitFor(self, pid, nohang) => WaitOnePending(s, self, pid, nohang, p);
    case WaitEnds(self, pid) => WaitOverPending(s, self, pid, p);
    case Exit(x, code) =>
      TableAt(s, x);
      EndedAt(s, x, code, p);
  }

  lemma {:induction false} PendingCounted(states: seq<State>, events: seq<Event>, i: nat, p: int)
    requires IsRun(states, events) && i <= |events| && p != 0
    ensures p in states[i].procs ==> states[i].procs[p].waitCount == Pending(states, events, i, p)
  {
    hide Table, Step, Begun, Over;
    if i > 0 {
      RunKeepsTable(states, events, i - 1);
      PendingCounted(states, events, i - 1, p);
      assert Step(states[i - 1], events[i - 1], states[i - 1 + 1]);
      StepPending(states[i - 1], events[i - 1], states[i], p);
    }
  }

  /** Over every run, a wait for one child can go on exactly if it is a wait for a child that is dead. */
  lemma ResumesIff(states: seq<State>, events: seq<Event>, i: nat, self: int, p: int)
    requires IsRun(states, events) && i <= |events|
    ensures MayResume(states[i], self, p) <==>
      states[i].IsChild(p, self) && states[i].procs[p].zombie && Pending(states, events, i, p) > 0
  {
    hide Table, Pending;
    RunKeepsTable(states, events, i);
    TableAt(states[i], p);
    if p != 0 {
      PendingCounted(states, events, i, p);
    }
  }

  /** Over every run, the last wait for a child that goes on reports it and takes it out of the table; others before it are errors. */
  lemma WaitOverAnswers(states: seq<State>, events: seq<Event>, i: nat, self: int, pid: int)
    requires IsRun(states, events) && i < |events| && events[i] == WaitEnds(self, pid) && MayResume(states[i], self, pid)
    ensures var r, n := WaitOver(states[i], self, pid).1, Pending(states, events, i, pid);
      && n > 0 && (n == 1 ==> r.Reported? && r.pid == pid && pid !in states[i + 1].procs)
      && (n > 1 ==> r == Error && pid in states[i + 1].procs)
  {
    hide Table, Removed, Pending;
    assert Step(states[i], events[i], states[i + 1]);
    RunKeepsTable(states, events, i);
    TableAt(states[i], pid);
    PendingCounted(states, events, i, pid);
  }
}
