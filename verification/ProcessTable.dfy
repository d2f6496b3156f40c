/**
 The process table on values: parents, living children and zombies, and the steps that
 creating, waiting for and ending processes take. Process 0 is the kernel, which may have
 many threads; every other process has one.
 */
module ProcessTable {

  datatype Proc = Proc(ppid: int, childs: seq<int>, zombies: seq<int>, waitCount: nat, zombie: bool, exitCode: int)

  datatype State = State(
    procs: map<int, Proc>,
    /** The child that the one thread of a process, not of the kernel, is blocked on. */
    waitingFor: map<int, int>,
    /** The processes whose first thread is still to be made; whoever creates one is busy with it meanwhile. */
    starting: set<int>,
    /** How often each pid was given to a new process, and how often reported by a wait. */
    created: multiset<int>,
    reported: multiset<int>)
  {
    function Childs(q: int): seq<int> {
      if q in procs then procs[q].childs else []
    }

    function Zombies(q: int): seq<int> {
      if q in procs then procs[q].zombies else []
    }

    /** A process, not the kernel, whose parent is q. */
    predicate IsChild(p: int, q: int) {
      p != 0 && p in procs && procs[p].ppid == q
    }
  }

  /** A living child is once in its parent's list of children, and no one else is in it. */
  ghost predicate ChildsAt(s: State, q: int, p: int) {
    multiset(s.Childs(q))[p] == if s.IsChild(p, q) && q in s.procs && !s.procs[p].zombie then 1 else 0
  }

  /** A dead child nobody waits for is once in its parent's list of zombies, and no one else is in it. */
  ghost predicate ZombiesAt(s: State, q: int, p: int) {
    multiset(s.Zombies(q))[p] == if s.IsChild(p, q) && q in s.procs && s.procs[p].zombie && s.procs[p].waitCount == 0 then 1 else 0
  }

  /** The parent is there and lives; a parent other than the kernel has one thread to wait with. */
  ghost predicate ParentAt(s: State, p: int) {
    p in s.procs && p != 0 ==>
      var q := s.procs[p].ppid;
      && q in s.procs && !s.procs[q].zombie && q != p && p > 0
      && (q != 0 ==> s.procs[p].waitCount == if q in s.waitingFor && s.waitingFor[q] == p then 1 else 0)
  }

  ghost predicate WaiterAt(s: State, q: int) {
    q in s.waitingFor ==> q != 0 && q in s.procs && !s.procs[q].zombie && s.IsChild(s.waitingFor[q], q)
  }

  /** A process without a thread has done nothing yet, and its parent, if not the kernel, does nothing else. */
  ghost predicate StartingAt(s: State, p: int) {
    p in s.starting ==>
      && p != 0 && p in s.procs && !s.procs[p].zombie && s.procs[p].childs == [] && s.procs[p].zombies == [] && p !in s.waitingFor
      && (s.procs[p].ppid != 0 ==> s.procs[p].ppid !in s.waitingFor && s.procs[p].ppid !in s.starting)
  }

  /** A process is reported once for every time that its pid was created, and until then it is in the table. */
  ghost predicate CountedAt(s: State, p: int) {
    s.created[p] == s.reported[p] + if p != 0 && p in s.procs then 1 else 0
  }

  /** What every step keeps. */
  ghost predicate Table(s: State) {
    && 0 in s.procs && !s.procs[0].zombie && s.procs[0].ppid == 0
    && (forall q, p :: ChildsAt(s, q, p)) && (forall q, p :: ZombiesAt(s, q, p))
    && (forall p :: ParentAt(s, p)) && (forall q :: WaiterAt(s, q)) && (forall p :: CountedAt(s, p))
    && (forall p :: StartingAt(s, p))
  }

  /** A process with a thread that is neither blocked in a wait for one child nor creating one; the kernel has such threads. */
  ghost predicate Running(s: State, q: int) {
    && q in s.procs && !s.procs[q].zombie && q !in s.waitingFor && q !in s.starting
    && (q != 0 ==> forall p :: s.IsChild(p, q) ==> p !in s.starting)
  }

  // -------------------------------------------------------------- the steps

  /** All occurrences of an element are removed. */
  function Removed(l: seq<int>, p: int): seq<int> {
    if l == [] then [] else if l[0] == p then Removed(l[1..], p) else [l[0]] + Removed(l[1..], p)
  }

  lemma {:induction false} RemovedCount(l: seq<int>, p: int, x: int)
    ensures multiset(Removed(l, p))[x] == if x == p then 0 else multiset(l)[x]
  {
    if l != [] {
      RemovedCount(l[1..], p, x);
      assert l == [l[0]] + l[1..];
    }
  }

  function Created(s: State, parent: int, pid: int): State
    requires parent in s.procs
  {
    var q := s.procs[parent];
    s.(procs := s.procs[parent := q.(childs := q.childs + [pid])][pid := Proc(parent, [], [], 0, false, 0)],
       starting := s.starting + {pid},
       created := s.created + multiset{pid})
  }

  /** No thread could be made for a new process: it leaves the table and its parent's list as if it had never been there. */
  function Abandoned(s: State, pid: int): State
    requires pid in s.procs && s.procs[pid].ppid in s.procs
  {
    var q := s.procs[s.procs[pid].ppid];
    s.(procs := s.procs[s.procs[pid].ppid := q.(childs := Removed(q.childs, pid))] - {pid},
       starting := s.starting - {pid},
       created := s.created - multiset{pid})
  }

  /** A zombie is reported and leaves the table and its parent's list. */
  function Reaped(s: State, self: int, p: int): State
    requires self in s.procs
  {
    var q := s.procs[self];
    s.(procs := s.procs[self := q.(zombies := Removed(q.zombies, p))] - {p}, reported := s.reported + multiset{p})
  }

  /** A thread of `self` starts to wait for one child. */
  function Awaited(s: State, self: int, p: int): State
    requires p in s.procs
  {
    s.(procs := s.procs[p := s.procs[p].(waitCount := s.procs[p].waitCount + 1)],
       waitingFor := if self == 0 then s.waitingFor else s.waitingFor[self := p])
  }

  function CountedDown(s: State, self: int, p: int): State
    requires p in s.procs && s.procs[p].waitCount > 0
  {
    s.(procs := s.procs[p := s.procs[p].(waitCount := s.procs[p].waitCount - 1)], waitingFor := s.waitingFor - {self})
  }

  /** A thread of `self` that waited for p runs again; the last of them reaps it. */
  function Resumed(s: State, self: int, p: int): State
    requires self in s.procs && p in s.procs && s.procs[p].waitCount > 0
  {
    if s.procs[p].waitCount == 1 then Reaped(CountedDown(s, self, p), self, p) else CountedDown(s, self, p)
  }

  /** The children of a process become children of the kernel. */
  function Adopted(s: State, p: int): map<int, Proc> {
    map k | k in s.procs :: if s.IsChild(k, p) then s.procs[k].(ppid := 0) else s.procs[k]
  }

  /** A process ends: it hands its children over and goes to its parent's zombies, unless someone waits for it. */
  function Ended(s: State, p: int, code: int): State
    requires 0 in s.procs && p in s.procs
  {
    var a := Adopted(s, p);
    var me := s.procs[p];
    var b := a[0 := a[0].(childs := me.childs + a[0].childs, zombies := me.zombies + a[0].zombies)];
    var c := b[p := b[p].(childs := [], zombies := [], zombie := true, exitCode := code)];
    if me.ppid !in c then s.(procs := c) else
      var q := c[me.ppid];
      s.(procs := c[me.ppid := q.(childs := Removed(q.childs, p), zombies := if me.waitCount > 0 then q.zombies else q.zombies + [p])])
  }

  lemma CreatedTable(s: State, parent: int, pid: int)
    requires Table(s) && Running(s, parent) && pid > 0 && pid !in s.procs
    ensures Table(Created(s, parent, pid))
  {
    var s' := Created(s, parent, pid);
    forall q, p
      ensures ChildsAt(s', q, p) && ZombiesAt(s', q, p)
    {
      CreatedLists(s, parent, pid, q, p);
    }
    forall p
      ensures ParentAt(s', p) && WaiterAt(s', p) && CountedAt(s', p) && StartingAt(s', p)
    {
      CreatedRest(s, parent, pid, p);
    }
    hide ChildsAt, ZombiesAt, ParentAt, WaiterAt, CountedAt, StartingAt;
  }

  /** What a table looks like after a process has been created, process by process. */
  lemma CreatedAt(s: State, parent: int, pid: int, k: int)
    requires parent in s.procs && pid !in s.procs
    ensures var s' := Created(s, parent, pid);
      && s'.procs.Keys == s.procs.Keys + {pid}
      && (k in s.procs ==>
            && s'.procs[k].ppid == s.procs[k].ppid && s'.procs[k].waitCount == s.procs[k].waitCount
            && s'.procs[k].zombie == s.procs[k].zombie)
      && (k == pid ==> s'.procs[k] == Proc(parent, [], [], 0, false, 0))
      && s'.Childs(k) == (if k == parent then s.Childs(k) + [pid] else s.Childs(k))
      && s'.Zombies(k) == s.Zombies(k)
      && s'.waitingFor == s.waitingFor && s'.reported == s.reported && s'.created == s.created + multiset{pid}
      && s'.starting == s.starting + {pid}
  {
  }

  lemma CreatedLists(s: State, parent: int, pid: int, q: int, p: int)
    requires Table(s) && Running(s, parent) && pid > 0 && pid !in s.procs
    ensures var s' := Created(s, parent, pid); ChildsAt(s', q, p) && ZombiesAt(s', q, p)
  {
    assert ChildsAt(s, q, p) && ZombiesAt(s, q, p) && ParentAt(s, p);
    hide Created, Table;
    CreatedAt(s, parent, pid, q);
    CreatedAt(s, parent, pid, p);
  }

  lemma CreatedRest(s: State, parent: int, pid: int, p: int)
    requires Table(s) && Running(s, parent) && pid > 0 && pid !in s.procs
    ensures var s' := Created(s, parent, pid); ParentAt(s', p) && WaiterAt(s', p) && CountedAt(s', p) && StartingAt(s', p)
  {
    assert ParentAt(s, p) && WaiterAt(s, p) && CountedAt(s, p) && StartingAt(s, p);
  }

  lemma StartedTable(s: State, pid: int)
    requires Table(s) && pid in s.starting
    ensures Table(s.(starting := s.starting - {pid}))
  {
    var s' := s.(starting := s.starting - {pid});
    forall q, p
      ensures ChildsAt(s', q, p) && ZombiesAt(s', q, p)
    {
      assert ChildsAt(s, q, p) && ZombiesAt(s, q, p);
    }
    forall p
      ensures ParentAt(s', p) && WaiterAt(s', p) && CountedAt(s', p) && StartingAt(s', p)
    {
      assert ParentAt(s, p) && WaiterAt(s, p) && CountedAt(s, p) && StartingAt(s, p);
    }
  }

  /** A process that has still to start has no children, not even one that somebody waits for. */
  lemma Childless(s: State, pid: int, x: int)
    requires Table(s) && pid in s.starting
    ensures !s.IsChild(x, pid)
  {
    assert StartingAt(s, pid) && ChildsAt(s, pid, x) && ZombiesAt(s, pid, x) && ParentAt(s, x);
  }

  /** What a table looks like after a new process has been given up, process by process. */
  lemma AbandonedAt(s: State, pid: int, k: int)
    requires pid in s.procs && s.procs[pid].ppid in s.procs && s.procs[pid].ppid != pid
    ensures var s', q := Abandoned(s, pid), s.procs[pid].ppid;
      && s'.procs.Keys == s.procs.Keys - {pid}
      && (k in s'.procs ==>
            && s'.procs[k].ppid == s.procs[k].ppid && s'.procs[k].waitCount == s.procs[k].waitCount
            && s'.procs[k].zombie == s.procs[k].zombie)
      && s'.Childs(k) == (if k == pid then [] else if k == q then Removed(s.Childs(k), pid) else s.Childs(k))
      && s'.Zombies(k) == (if k == pid then [] else s.Zombies(k))
      && s'.waitingFor == s.waitingFor && s'.reported == s.reported && s'.created == s.created - multiset{pid}
      && s'.starting == s.starting - {pid}
  {
  }

  lemma AbandonedTable(s: State, pid: int)
    requires Table(s) && pid in s.starting && pid in s.procs && s.procs[pid].ppid in s.procs
    ensures Table(Abandoned(s, pid))
  {
    var s' := Abandoned(s, pid);
    hide Abandoned;
    assert ParentAt(s, pid) && StartingAt(s, pid);
    AbandonedAt(s, pid, 0);
    forall q, x
      ensures ChildsAt(s', q, x) && ZombiesAt(s', q, x)
    {
      AbandonedLists(s, pid, q, x);
    }
    forall x
      ensures ParentAt(s', x) && WaiterAt(s', x) && CountedAt(s', x) && StartingAt(s', x)
    {
      AbandonedRest(s, pid, x);
    }
  }

  lemma AbandonedLists(s: State, pid: int, q: int, x: int)
    requires Table(s) && pid in s.starting && pid in s.procs && s.procs[pid].ppid in s.procs
    ensures var s' := Abandoned(s, pid); ChildsAt(s', q, x) && ZombiesAt(s', q, x)
  {
    var s' := Abandoned(s, pid);
    hide Abandoned;
    assert ParentAt(s, pid) && StartingAt(s, pid) && ChildsAt(s, q, x) && ZombiesAt(s, q, x);
    Childless(s, pid, x);
    AbandonedAt(s, pid, q);
    AbandonedAt(s, pid, x);
    RemovedCount(s.Childs(q), pid, x);
  }

  lemma AbandonedRest(s: State, pid: int, x: int)
    requires Table(s) && pid in s.starting && pid in s.procs && s.procs[pid].ppid in s.procs
    ensures var s' := Abandoned(s, pid); ParentAt(s', x) && WaiterAt(s', x) && CountedAt(s', x) && StartingAt(s', x)
  {
    var s' := Abandoned(s, pid);
    hide Abandoned;
    assert ParentAt(s, pid) && StartingAt(s, pid) && CountedAt(s, pid);
    assert ParentAt(s, x) && WaiterAt(s, x) && CountedAt(s, x) && StartingAt(s, x);
    Childless(s, pid, x);
    AbandonedAt(s, pid, x);
    if x in s.procs {
      AbandonedAt(s, pid, s.procs[x].ppid);
    }
    if x in s.waitingFor {
      AbandonedAt(s, pid, s.waitingFor[x]);
    }
  }

  /** What a table looks like after a zombie has been reaped, process by process. */
  lemma ReapedAt(s: State, self: int, p: int, k: int)
    requires self in s.procs && self != p
    ensures var s' := Reaped(s, self, p);
      && s'.procs.Keys == s.procs.Keys - {p}
      && (k in s'.procs ==>
            && s'.procs[k].ppid == s.procs[k].ppid && s'.procs[k].waitCount == s.procs[k].waitCount
            && s'.procs[k].zombie == s.procs[k].zombie)
      && s'.Childs(k) == (if k == p then [] else s.Childs(k))
      && s'.Zombies(k) == (if k == p then [] else if k == self then Removed(s.Zombies(k), p) else s.Zombies(k))
      && s'.waitingFor == s.waitingFor && s'.created == s.created && s'.reported == s.reported + multiset{p} && s'.starting == s.starting
  {
  }

  lemma ReapedKeeps(s: State, self: int, p: int, x: int)
    requires Table(s) && self in s.procs && s.IsChild(p, self) && s.procs[p].zombie && s.procs[p].waitCount == 0
    ensures var s' := Reaped(s, self, p); ParentAt(s', x) && WaiterAt(s', x) && CountedAt(s', x) && StartingAt(s', x)
  {
    hide Reaped, ChildsAt, ZombiesAt;
    assert ParentAt(s, p) && WaiterAt(s, p);
    assert ParentAt(s, x) && WaiterAt(s, x) && CountedAt(s, x) && StartingAt(s, x);
    ReapedAt(s, self, p, x);
    if x in s.procs {
      ReapedAt(s, self, p, s.procs[x].ppid);
    }
    if x in s.waitingFor {
      assert ParentAt(s, s.waitingFor[x]);
      ReapedAt(s, self, p, s.waitingFor[x]);
    }
  }

  lemma ReapedTable(s: State, self: int, p: int)
    requires Table(s) && self in s.procs && s.IsChild(p, self) && s.procs[p].zombie && s.procs[p].waitCount == 0
    ensures Table(Reaped(s, self, p))
  {
    var s' := Reaped(s, self, p);
    hide Reaped;
    assert ParentAt(s, p);
    ReapedAt(s, self, p, 0);
    forall q, x
      ensures ChildsAt(s', q, x) && ZombiesAt(s', q, x)
    {
      ReapedLists(s, self, p, q, x);
    }
    forall x
      ensures ParentAt(s', x) && WaiterAt(s', x) && CountedAt(s', x) && StartingAt(s', x)
    {
      ReapedKeeps(s, self, p, x);
    }
  }

  lemma ReapedLists(s: State, self: int, p: int, q: int, x: int)
    requires Table(s) && self in s.procs && s.IsChild(p, self) && s.procs[p].zombie && s.procs[p].waitCount == 0
    ensures var s' := Reaped(s, self, p); ChildsAt(s', q, x) && ZombiesAt(s', q, x)
  {
    var s' := Reaped(s, self, p);
    hide Reaped;
    assert ParentAt(s, p) && ParentAt(s, x) && ChildsAt(s, q, x) && ZombiesAt(s, q, x);
    ReapedAt(s, self, p, q);
    ReapedAt(s, self, p, x);
    RemovedCount(s.Zombies(self), p, x);
  }

  lemma AwaitedTable(s: State, self: int, p: int)
    requires Table(s) && Running(s, self) && s.IsChild(p, self) && !s.procs[p].zombie
    ensures Table(Awaited(s, self, p))
  {
    var s' := Awaited(s, self, p);
    forall q, x
      ensures ChildsAt(s', q, x) && ZombiesAt(s', q, x)
    {
      assert ChildsAt(s, q, x) && ZombiesAt(s, q, x);
    }
    assert ParentAt(s, p);
    forall x
      ensures ParentAt(s', x) && WaiterAt(s', x) && CountedAt(s', x) && StartingAt(s', x)
    {
      assert ParentAt(s, x) && WaiterAt(s, x) && CountedAt(s, x) && StartingAt(s, x);
    }
  }

  /** The waiter of p that runs next is a thread of p's parent, and p has ended. */
  ghost predicate MayResume(s: State, self: int, p: int) {
    self in s.procs && s.IsChild(p, self) && s.procs[p].zombie && s.procs[p].waitCount > 0
  }

  /** All but the last of the threads that wait for one zombie only count down. */
  lemma ResumedOne(s: State, self: int, p: int)
    requires Table(s) && MayResume(s, self, p) && s.procs[p].waitCount > 1
    ensures Table(Resumed(s, self, p))
  {
    var s' := Resumed(s, self, p);
    assert ParentAt(s, p);
    forall q, x
      ensures ChildsAt(s', q, x) && ZombiesAt(s', q, x)
    {
      assert ChildsAt(s, q, x) && ZombiesAt(s, q, x);
    }
    forall x
      ensures ParentAt(s', x) && WaiterAt(s', x) && CountedAt(s', x) && StartingAt(s', x)
    {
      assert ParentAt(s, x) && WaiterAt(s, x) && CountedAt(s, x) && StartingAt(s, x);
    }
  }

  /** The last one's countdown makes the zombie a plain one; it is reaped at once, before it could be listed. */
  lemma ResumedLast(s: State, self: int, p: int)
    requires Table(s) && MayResume(s, self, p) && s.procs[p].waitCount == 1
    ensures Table(Resumed(s, self, p))
  {
    hide Table, Listed, Reaped, Resumed;
    var z := Listed(s, self, p);
    ListedTable(s, self, p);
    ListedStill(s, self, p);
    ReapedTable(z, self, p);
    ListedReaped(s, self, p);
  }

  lemma ListedStill(s: State, self: int, p: int)
    requires self in s.procs && self != p && s.IsChild(p, self) && s.procs[p].zombie
    ensures var z := Listed(s, self, p); self in z.procs && z.IsChild(p, self) && z.procs[p].zombie && z.procs[p].waitCount == 0
  {
  }

  lemma ListedReaped(s: State, self: int, p: int)
    requires self in s.procs && p in s.procs && self != p && s.procs[p].waitCount == 1
    ensures self in Listed(s, self, p).procs && Reaped(Listed(s, self, p), self, p) == Resumed(s, self, p)
  {
    var z := Listed(s, self, p);
    hide Removed;
    RemovedLast(s.Zombies(self), p);
    assert Reaped(z, self, p).procs == Resumed(s, self, p).procs;
  }

  /** As if the zombie went to its parent's list before it is reaped. */
  function Listed(s: State, self: int, p: int): State
    requires self in s.procs && p in s.procs
  {
    s.(procs := s.procs[p := s.procs[p].(waitCount := 0)][self := s.procs[self].(zombies := s.procs[self].zombies + [p])],
       waitingFor := s.waitingFor - {self})
  }

  lemma {:induction false} RemovedLast(l: seq<int>, p: int)
    ensures Removed(l + [p], p) == Removed(l, p)
  {
    if l != [] {
      RemovedLast(l[1..], p);
      assert (l + [p])[1..] == l[1..] + [p];
    }
  }

  lemma ListedTable(s: State, self: int, p: int)
    requires Table(s) && MayResume(s, self, p) && s.procs[p].waitCount == 1
    ensures Table(Listed(s, self, p)) && self != p
  {
    var s' := Listed(s, self, p);
    assert ParentAt(s, p) && WaiterAt(s, self);
    assert self == s.procs[p].ppid && self != p;
    forall q, x
      ensures ChildsAt(s', q, x) && ZombiesAt(s', q, x)
    {
      ListedLists(s, self, p, q, x);
    }
    forall x
      ensures ParentAt(s', x) && WaiterAt(s', x) && CountedAt(s', x) && StartingAt(s', x)
    {
      ListedRest(s, self, p, x);
    }
    hide ChildsAt, ZombiesAt, ParentAt, WaiterAt, CountedAt, StartingAt;
  }

  lemma ListedAt(s: State, self: int, p: int, k: int)
    requires self in s.procs && p in s.procs && self != p
    ensures var s' := Listed(s, self, p);
      && s'.procs.Keys == s.procs.Keys
      && (k in s.procs ==>
            && s'.procs[k].ppid == s.procs[k].ppid && s'.procs[k].waitCount == (if k == p then 0 else s.procs[k].waitCount)
            && s'.procs[k].zombie == s.procs[k].zombie)
      && s'.Childs(k) == s.Childs(k) && s'.Zombies(k) == (if k == self then s.Zombies(k) + [p] else s.Zombies(k))
  {
  }

  lemma ListedLists(s: State, self: int, p: int, q: int, x: int)
    requires MayResume(s, self, p) && s.procs[p].waitCount == 1 && self != p
    requires ChildsAt(s, q, x) && ZombiesAt(s, q, x)
    ensures ChildsAt(Listed(s, self, p), q, x) && ZombiesAt(Listed(s, self, p), q, x)
  {
    hide Listed;
    ListedAt(s, self, p, q);
    ListedAt(s, self, p, x);
  }

  lemma ListedRest(s: State, self: int, p: int, x: int)
    requires MayResume(s, self, p) && s.procs[p].waitCount == 1 && self != p
    requires ParentAt(s, p) && WaiterAt(s, self) && ParentAt(s, x) && WaiterAt(s, x) && CountedAt(s, x) && StartingAt(s, x)
    ensures ParentAt(Listed(s, self, p), x) && WaiterAt(Listed(s, self, p), x) && CountedAt(Listed(s, self, p), x)
    ensures StartingAt(Listed(s, self, p), x)
  {
  }

  lemma EndedProcAt(s: State, p: int, code: int, k: int)
    requires 0 in s.procs && p in s.procs && p != 0 && s.procs[p].ppid in s.procs && s.procs[p].ppid != p
    ensures var s' := Ended(s, p, code);
      && s'.procs.Keys == s.procs.Keys
      && (k in s.procs ==>
            && s'.procs[k].ppid == (if s.IsChild(k, p) then 0 else s.procs[k].ppid)
            && s'.procs[k].waitCount == s.procs[k].waitCount
            && s'.procs[k].zombie == (k == p || s.procs[k].zombie))
  {
  }

  lemma EndedChildsAt(s: State, p: int, code: int, k: int)
    requires 0 in s.procs && p in s.procs && p != 0 && s.procs[p].ppid in s.procs && s.procs[p].ppid != p
    ensures Ended(s, p, code).Childs(k) == if k == p then [] else
      var l := if k == 0 then s.procs[p].childs + s.Childs(0) else s.Childs(k); if k == s.procs[p].ppid then Removed(l, p) else l
  {
  }

  lemma EndedZombiesOf(s: State, p: int, code: int, k: int)
    requires 0 in s.procs && p in s.procs && p != 0 && s.procs[p].ppid in s.procs && s.procs[p].ppid != p
    ensures var me := s.procs[p]; Ended(s, p, code).Zombies(k) == if k == p then [] else
      var l := if k == 0 then me.zombies + s.Zombies(0) else s.Zombies(k); if k == me.ppid && me.waitCount == 0 then l + [p] else l
  {
  }

  /** What a table looks like after a process has ended, process by process. */
  lemma EndedAt(s: State, p: int, code: int, k: int)
    requires Table(s) && Running(s, p) && p != 0
    ensures var s', me := Ended(s, p, code), s.procs[p];
      && s'.procs.Keys == s.procs.Keys
      && (k in s.procs ==>
            && s'.procs[k].ppid == (if s.IsChild(k, p) then 0 else s.procs[k].ppid)
            && s'.procs[k].waitCount == s.procs[k].waitCount
            && s'.procs[k].zombie == (k == p || s.procs[k].zombie))
      && s'.Childs(k) == (if k == p then []
            else var l := if k == 0 then me.childs + s.Childs(0) else s.Childs(k); if k == me.ppid then Removed(l, p) else l)
      && s'.Zombies(k) == (if k == p then []
            else var l := if k == 0 then me.zombies + s.Zombies(0) else s.Zombies(k); if k == me.ppid && me.waitCount == 0 then l + [p] else l)
  {
    hide Ended;
    assert ParentAt(s, p);
    EndedProcAt(s, p, code, k);
    EndedChildsAt(s, p, code, k);
    EndedZombiesOf(s, p, code, k);
  }

  lemma EndedTable(s: State, p: int, code: int)
    requires Table(s) && Running(s, p) && p != 0
    ensures Table(Ended(s, p, code))
  {
    var s' := Ended(s, p, code);
    EndedAt(s, p, code, 0);
    forall q, x
      ensures ChildsAt(s', q, x) && ZombiesAt(s', q, x)
    {
      EndedLists(s, p, code, q, x);
    }
    forall x
      ensures ParentAt(s', x) && WaiterAt(s', x) && CountedAt(s', x) && StartingAt(s', x)
    {
      EndedParents(s, p, code, x);
      EndedStarting(s, p, code, x);
    }
  }

  lemma EndedParents(s: State, p: int, code: int, x: int)
    requires Table(s) && Running(s, p) && p != 0
    ensures var s' := Ended(s, p, code); ParentAt(s', x) && WaiterAt(s', x) && CountedAt(s', x)
  {
    hide Ended, Table, ParentAt, WaiterAt, CountedAt;
    EndedParent(s, p, code, x);
    EndedWaiter(s, p, code, x);
    EndedCount(s, p, code, x);
  }

  lemma EndedParent(s: State, p: int, code: int, x: int)
    requires Table(s) && Running(s, p) && p != 0
    ensures ParentAt(Ended(s, p, code), x)
  {
    TableAt(s, p);
    TableAt(s, x);
    KernelThere(s);
    EndedAt(s, p, code, x);
    EndedAt(s, p, code, 0);
    if x in s.procs {
      EndedAt(s, p, code, s.procs[x].ppid);
    }
    EndedElse(s, p, code);
    hide Ended, Table, WaiterAt, CountedAt, StartingAt;
  }

  lemma EndedWaiter(s: State, p: int, code: int, x: int)
    requires Table(s) && Running(s, p) && p != 0
    ensures WaiterAt(Ended(s, p, code), x)
  {
    TableAt(s, x);
    KernelThere(s);
    EndedAt(s, p, code, x);
    if x in s.waitingFor {
      EndedAt(s, p, code, s.waitingFor[x]);
    }
    EndedElse(s, p, code);
    hide Ended, Table, ParentAt, CountedAt, StartingAt;
  }

  lemma EndedCount(s: State, p: int, code: int, x: int)
    requires Table(s) && Running(s, p) && p != 0
    ensures CountedAt(Ended(s, p, code), x)
  {
    TableAt(s, x);
    KernelThere(s);
    EndedAt(s, p, code, x);
    EndedElse(s, p, code);
    hide Ended, Table, ParentAt, WaiterAt, StartingAt;
  }

  lemma KernelThere(s: State)
    requires Table(s)
    ensures 0 in s.procs && !s.procs[0].zombie && s.procs[0].ppid == 0
  {
  }

  /** A process that has still to start is no parent of the one that ends, nor its child. */
  lemma EndedStarting(s: State, p: int, code: int, x: int)
    requires Table(s) && Running(s, p) && p != 0
    ensures StartingAt(Ended(s, p, code), x)
  {
    hide Ended;
    assert ParentAt(s, p) && StartingAt(s, x) && ChildsAt(s, s.procs[p].ppid, p);
    EndedAt(s, p, code, x);
    EndedElse(s, p, code);
    if x in s.starting {
      assert multiset(s.Childs(s.procs[p].ppid))[p] == 1;
      assert !s.IsChild(x, p) && s.procs[p].ppid != x;
    }
  }

  lemma EndedElse(s: State, p: int, code: int)
    requires 0 in s.procs && p in s.procs
    ensures var s' := Ended(s, p, code);
      s'.waitingFor == s.waitingFor && s'.created == s.created && s'.reported == s.reported && s'.starting == s.starting
  {
  }

  lemma EndedLists(s: State, p: int, code: int, q: int, x: int)
    requires Table(s) && Running(s, p) && p != 0
    ensures var s' := Ended(s, p, code); ChildsAt(s', q, x) && ZombiesAt(s', q, x)
  {
    hide Ended, ChildsAt, ZombiesAt, ParentAt;
    EndedChilds(s, p, code, q, x);
    EndedZombies(s, p, code, q, x);
  }

  lemma EndedChilds(s: State, p: int, code: int, q: int, x: int)
    requires Table(s) && Running(s, p) && p != 0
    ensures ChildsAt(Ended(s, p, code), q, x)
  {
    hide Ended, ZombiesAt;
    assert ParentAt(s, p) && ParentAt(s, x) && ChildsAt(s, q, x) && ChildsAt(s, p, x);
    EndedAt(s, p, code, q);
    EndedAt(s, p, code, x);
    hide Table, Running;
    var l := if q == 0 then s.procs[p].childs + s.Childs(0) else s.Childs(q);
    RemovedCount(l, p, x);
    EndedChildsIn(s, Ended(s, p, code), p, q, x, l);
  }

  lemma EndedChildsIn(s: State, s': State, p: int, q: int, x: int, l: seq<int>)
    requires 0 in s.procs && p in s.procs && p != 0 && !s.procs[p].zombie && s.procs[p].ppid in s.procs
    requires ParentAt(s, p) && ParentAt(s, x) && ChildsAt(s, q, x) && ChildsAt(s, p, x)
    requires s'.procs.Keys == s.procs.Keys
    requires x in s.procs ==>
      && s'.procs[x].ppid == (if s.IsChild(x, p) then 0 else s.procs[x].ppid)
      && s'.procs[x].zombie == (x == p || s.procs[x].zombie)
    requires l == if q == 0 then s.procs[p].childs + s.Childs(0) else s.Childs(q)
    requires multiset(Removed(l, p))[x] == if x == p then 0 else multiset(l)[x]
    requires s'.Childs(q) == if q == p then [] else if q == s.procs[p].ppid then Removed(l, p) else l
    ensures ChildsAt(s', q, x)
  {
    hide Removed;
  }

  lemma EndedZombies(s: State, p: int, code: int, q: int, x: int)
    requires Table(s) && Running(s, p) && p != 0
    ensures ZombiesAt(Ended(s, p, code), q, x)
  {
    hide Ended, ChildsAt;
    assert ParentAt(s, p) && ParentAt(s, x) && ZombiesAt(s, q, x) && ZombiesAt(s, p, x);
    EndedAt(s, p, code, q);
    EndedAt(s, p, code, x);
    hide Table;
    EndedZombiesAt(s, Ended(s, p, code), p, q, x);
  }

  lemma EndedZombiesAt(s: State, s': State, p: int, q: int, x: int)
    requires 0 in s.procs && p in s.procs && p != 0 && !s.procs[p].zombie && p !in s.waitingFor && s.procs[p].ppid in s.procs
    requires ParentAt(s, p) && ParentAt(s, x) && ZombiesAt(s, q, x) && ZombiesAt(s, p, x)
    requires s'.procs.Keys == s.procs.Keys
    requires x in s.procs ==>
      && s'.procs[x].ppid == (if s.IsChild(x, p) then 0 else s.procs[x].ppid)
      && s'.procs[x].waitCount == s.procs[x].waitCount && s'.procs[x].zombie == (x == p || s.procs[x].zombie)
    requires s'.Zombies(q) == if q == p then []
      else var l := if q == 0 then s.procs[p].zombies + s.Zombies(0) else s.Zombies(q);
           if q == s.procs[p].ppid && s.procs[p].waitCount == 0 then l + [p] else l
    ensures ZombiesAt(s', q, x)
  {
  }

  // -------------------------------------------------------------- waiting, as a whole

  datatype Answer = Reported(pid: int, exitCode: int) | NotYet | Error | Waits

  /** waitpid for any child: the longest dead zombie, or an answer without one. */
  function WaitAny(s: State, self: int, nohang: bool): (State, Answer)
    requires self in s.procs
  {
    var q := s.procs[self];
    if q.zombies != [] then
      var p := q.zombies[0];
      (Reaped(s, self, p), Reported(p, if p in s.procs then s.procs[p].exitCode else 0))
    else if nohang then (s, NotYet)
    else if q.childs == [] then (s, Error)
    else (s, Waits)
  }

  /** waitpid for one child, up to where it may have to wait. */
  function WaitOne(s: State, self: int, pid: int, nohang: bool): (State, Answer)
    requires self in s.procs
  {
    if pid !in s.procs || s.procs[pid].ppid != self || pid == self then (s, Error)
    else
      var r := s.procs[pid];
      if !r.zombie then (if nohang then (s, NotYet) else (Awaited(s, self, pid), Waits))
      else if r.waitCount == 0 then (Reaped(s, self, pid), Reported(pid, r.exitCode))
      else (s, Error)
  }

  /** The rest of waitpid for one child, after the wait. */
  function WaitOver(s: State, self: int, pid: int): (State, Answer)
    requires self in s.procs && pid in s.procs && s.procs[pid].waitCount > 0
  {
    (Resumed(s, self, pid), if s.procs[pid].waitCount == 1 then Reported(pid, s.procs[pid].exitCode) else Error)
  }

  /** The first zombie can be reaped: it is a dead child that nobody waits for. */
  lemma FrontZombie(s: State, self: int)
    requires Table(s) && self in s.procs && s.procs[self].zombies != []
    ensures var p := s.procs[self].zombies[0]; s.IsChild(p, self) && s.procs[p].zombie && s.procs[p].waitCount == 0
  {
    var p := s.procs[self].zombies[0];
    assert ZombiesAt(s, self, p);
    assert p in multiset(s.Zombies(self));
  }

  // -------------------------------------------------------------- runs

  datatype Event =
    | Create(parent: int, pid: int)
    | Started(pid: int)
    | CreateFails(pid: int)
    | WaitForAny(self: int, nohang: bool)
    | WaitFor(self: int, pid: int, nohang: bool)
    | WaitEnds(self: int, pid: int)
    | Exit(p: int, code: int)

  ghost predicate Step(s: State, e: Event, s': State) {
    match e
    case Create(parent, pid) => Running(s, parent) && pid > 0 && pid !in s.procs && s' == Created(s, parent, pid)
    case Started(pid) => pid in s.starting && s' == s.(starting := s.starting - {pid})
    case CreateFails(pid) => pid in s.starting && pid in s.procs && s.procs[pid].ppid in s.procs && s' == Abandoned(s, pid)
    case WaitForAny(self, nohang) => Running(s, self) && s' == WaitAny(s, self, nohang).0
    case WaitFor(self, pid, nohang) => Running(s, self) && pid > 0 && s' == WaitOne(s, self, pid, nohang).0
    case WaitEnds(self, pid) => MayResume(s, self, pid) && s' == WaitOver(s, self, pid).0
    case Exit(p, code) => 0 in s.procs && Running(s, p) && p != 0 && s' == Ended(s, p, code)
  }

  lemma StepKeepsTable(s: State, e: Event, s': State)
    requires Table(s) && Step(s, e, s')
    ensures Table(s')
  {
    hide Table, Created, Reaped, Awaited, Resumed, Ended;
    match e
    case Create(parent, pid) => CreatedTable(s, parent, pid);
    case Started(pid) => StartedTable(s, pid);
    case CreateFails(pid) => AbandonedTable(s, pid);
    case WaitForAny(self, nohang) =>
      if s.procs[self].zombies != [] {
        FrontZombie(s, self);
        ReapedTable(s, self, s.procs[self].zombies[0]);
      }
    case WaitFor(self, pid, nohang) =>
      if pid in s.procs && s.procs[pid].ppid == self && pid != self {
        if !s.procs[pid].zombie {
          AwaitedTable(s, self, pid);
        } else if s.procs[pid].waitCount == 0 {
          ReapedTable(s, self, pid);
        }
      }
    case WaitEnds(self, pid) =>
      if s.procs[pid].waitCount == 1 {
        ResumedLast(s, self, pid);
      } else {
        ResumedOne(s, self, pid);
      }
    case Exit(p, code) => EndedTable(s, p, code);
  }

  /** The process p is the same one in both tables, and has not been reported in between. */
  ghost predicate SameIn(s: State, s': State, p: int) {
    p in s.procs && p in s'.procs && s'.procs[p].ppid == s.procs[p].ppid && s'.reported[p] == s.reported[p]
  }

  lemma WaitAnyKept(s: State, self: int, nohang: bool, p: int)
    requires Table(s) && Running(s, self) && p != 0 && p in s.procs && s.procs[p].waitCount > 0
    ensures SameIn(s, WaitAny(s, self, nohang).0, p)
  {
    hide Table, Reaped;
    if s.procs[self].zombies != [] {
      FrontZombie(s, self);
      TableAt(s, s.procs[self].zombies[0]);
      ReapedAt(s, self, s.procs[self].zombies[0], p);
    }
  }

  lemma WaitOneKept(s: State, self: int, pid: int, nohang: bool, p: int)
    requires Table(s) && Running(s, self) && p != 0 && p in s.procs && s.procs[p].waitCount > 0
    ensures SameIn(s, WaitOne(s, self, pid, nohang).0, p)
  {
    hide Table, Reaped;
    if pid != self && pid in s.procs {
      ReapedAt(s, self, pid, p);
    }
  }

  lemma ResumedKept(s: State, self: int, pid: int, p: int)
    requires Table(s) && MayResume(s, self, pid) && p != 0 && p in s.procs && s.procs[p].waitCount > 0
    requires pid != p || s.procs[p].waitCount > 1
    ensures SameIn(s, Resumed(s, self, pid), p)
  {
    hide Table, Reaped;
    TableAt(s, pid);
    if s.procs[pid].waitCount == 1 {
      ReapedAt(CountedDown(s, self, pid), self, pid, p);
    }
  }

  lemma AwaitedKept(s: State, e: Event, s': State, p: int)
    requires Table(s) && Step(s, e, s') && p != 0 && p in s.procs && s.procs[p].waitCount > 0
    requires !(e == WaitEnds(s.procs[p].ppid, p) && s.procs[p].waitCount == 1) && e != CreateFails(p)
    ensures SameIn(s, s', p)
  {
    hide Table, Created, Ended, Reaped, Abandoned, WaitAny, WaitOne, Resumed;
    match e
    case Create(parent, pid) => CreatedAt(s, parent, pid, p);
    case Started(pid) =>
    case CreateFails(pid) =>
      TableAt(s, pid);
      AbandonedAt(s, pid, p);
    case WaitForAny(self, nohang) => WaitAnyKept(s, self, nohang, p);
    case WaitFor(self, pid, nohang) => WaitOneKept(s, self, pid, nohang, p);
    case WaitEnds(self, pid) => ResumedKept(s, self, pid, p);
    case Exit(x, code) =>
      EndedAt(s, x, code, p);
      EndedElse(s, x, code);
      TableAt(s, p);
  }

  /**
   Who is waited for stays in the table, as the same process, until the last of its waiters has run, but for one thing:
   a process that a thread of the kernel waits for before its own first thread is made is forgotten if that fails.
   */
  lemma AwaitedStays(s: State, e: Event, s': State, p: int)
    requires Table(s) && Step(s, e, s') && p != 0 && p in s.procs && s.procs[p].waitCount > 0
    ensures p in s'.procs <==> !(e == WaitEnds(s.procs[p].ppid, p) && s.procs[p].waitCount == 1) && e != CreateFails(p)
    ensures p in s'.procs ==> SameIn(s, s', p)
    ensures e == CreateFails(p) ==> s.procs[p].ppid == 0 && s'.reported[p] == s.reported[p]
  {
    hide Table, Ended, Reaped, Abandoned, Running;
    TableAt(s, p);
    if e == CreateFails(p) {
      AbandonedAt(s, p, p);
    } else if e == WaitEnds(s.procs[p].ppid, p) && s.procs[p].waitCount == 1 {
      ReapedAt(CountedDown(s, s.procs[p].ppid, p), s.procs[p].ppid, p, p);
    } else {
      AwaitedKept(s, e, s', p);
    }
  }

  lemma TableAt(s: State, p: int)
    requires Table(s)
    ensures ParentAt(s, p) && WaiterAt(s, p) && CountedAt(s, p) && StartingAt(s, p)
  {
  }

  const BOOTED := State(map[0 := Proc(0, [], [], 0, false, 0)], map[], {}, multiset{}, multiset{})

  ghost predicate IsRun(states: seq<State>, events: seq<Event>) {
    && |states| == |events| + 1 && states[0] == BOOTED
    && forall i :: 0 <= i < |events| ==> Step(states[i], events[i], states[i + 1])
  }

  /** Over every run the table is sound; in particular every process created is reported once, or still there. */
  lemma {:induction false} RunKeepsTable(states: seq<State>, events: seq<Event>, i: nat)
    requires IsRun(states, events) && i <= |events|
    ensures Table(states[i])
  {
    hide Table, Step;
    if i == 0 {
      BootedTable();
    } else {
      RunKeepsTable(states, events, i - 1);
      assert Step(states[i - 1], events[i - 1], states[i - 1 + 1]);
      StepKeepsTable(states[i - 1], events[i - 1], states[i]);
    }
  }

  lemma BootedTable()
    ensures Table(BOOTED)
  {
  }

  /** Two threads of the kernel: one creates a process, the other waits for it, and then no thread can be made for it. */
  lemma WaiterForgotten() returns (states: seq<State>, events: seq<Event>)
    ensures IsRun(states, events) && events == [Create(0, 1), WaitFor(0, 1, false), CreateFails(1)]
    ensures 1 in states[2].procs && states[2].procs[1].waitCount == 1
    ensures 1 !in states[3].procs && states[3].reported == multiset{}
  {
    var a := Created(BOOTED, 0, 1);
    var b := Awaited(a, 0, 1);
    var c := Abandoned(b, 1);
    states, events := [BOOTED, a, b, c], [Create(0, 1), WaitFor(0, 1, false), CreateFails(1)];
    assert WaitOne(a, 0, 1, false).0 == b;
    assert Step(BOOTED, events[0], a) && Step(a, events[1], b) && Step(b, events[2], c);
  }

  // -------------------------------------------------------------- pids

  const PID_MAX := 0x7FFF_FFFF

  /** Counting up in thirty-two bits. */
  function NextPid(n: int): int {
    if n == PID_MAX then -PID_MAX - 1 else n + 1
  }

  /** The number that the search looks at when the counter is n. */
  function Candidate(n: int): int {
    if n < 0 then 1 else n
  }

  predicate Accepted(used: set<int>, n: int) {
    Candidate(n) != 0 && Candidate(n) !in used
  }

  function CounterAfter(counter: int, turns: nat): int
    decreases turns
  {
    if turns == 0 then counter else CounterAfter(NextPid(Candidate(counter)), turns - 1)
  }

  /** How many turns the search takes at most from a counter to a pid that is free. */
  function Turns(counter: int, free: int): nat
    requires -PID_MAX - 1 <= counter <= PID_MAX && 0 < free <= PID_MAX
  {
    if counter < 0 then free + 3 * PID_MAX + 5
    else if counter <= free then free - counter
    else PID_MAX - counter + free + 3 * PID_MAX + 6
  }

  ghost predicate SearchEnds(used: set<int>, counter: int) {
    exists n: nat :: Accepted(used, CounterAfter(counter, n))
  }

  ghost predicate SomeFree(used: set<int>) {
    exists free: int :: 0 < free <= PID_MAX && free !in used
  }

  /** The search ends exactly if some positive pid is free; else it goes on for ever, holding the table's mutex. */
  lemma SearchEndsIff(used: set<int>, counter: int)
    requires -PID_MAX - 1 <= counter <= PID_MAX
    ensures SearchEnds(used, counter) <==> SomeFree(used)
  {
    if SomeFree(used) {
      var free: int :| 0 < free <= PID_MAX && free !in used;
      SearchArrives(used, counter, free);
    }
    if SearchEnds(used, counter) {
      var n: nat :| Accepted(used, CounterAfter(counter, n));
      CounterInRange(counter, n);
      assert 0 < Candidate(CounterAfter(counter, n)) <= PID_MAX;
    }
  }

  lemma {:induction false} CounterInRange(counter: int, n: nat)
    requires -PID_MAX - 1 <= counter <= PID_MAX
    ensures -PID_MAX - 1 <= CounterAfter(counter, n) <= PID_MAX
    decreases n
  {
    if n > 0 {
      CounterInRange(NextPid(Candidate(counter)), n - 1);
    }
  }

  lemma {:induction false} SearchArrives(used: set<int>, counter: int, free: int)
    requires -PID_MAX - 1 <= counter <= PID_MAX && 0 < free <= PID_MAX && free !in used
    ensures SearchEnds(used, counter)
    decreases Turns(counter, free)
  {
    if Accepted(used, counter) {
      assert Accepted(used, CounterAfter(counter, 0));
    } else {
      var next := NextPid(Candidate(counter));
      SearchArrives(used, next, free);
      var n: nat :| Accepted(used, CounterAfter(next, n));
      assert Accepted(used, CounterAfter(counter, n + 1));
    }
  }

  /** A positive pid that no process has, found by counting on. */
  method GetNewPid(used: set<int>, pidCounter: int) returns (pid: int, next: int)
    requires -PID_MAX - 1 <= pidCounter <= PID_MAX && SearchEnds(used, pidCounter)
    ensures 0 < pid <= PID_MAX && pid !in used && next == NextPid(pid)
  {
    SearchEndsIff(used, pidCounter);
    ghost var free: int :| 0 < free <= PID_MAX && free !in used;
    next := pidCounter;
    while true
      invariant -PID_MAX - 1 <= next <= PID_MAX
      decreases Turns(next, free)
    {
      if next < 0 {
        next := 1;
      }
      if next != 0 && next !in used {
        return next, NextPid(next);
      }
      next := NextPid(next);
    }
  }
}
