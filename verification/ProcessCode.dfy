/**
 The process code itself: process objects with their lists, in a map from pids, updated in
 place. Each method is what one thread does while it holds the table's mutex.
 */
module ProcessCode {
  import opened ProcessTable
  import opened ProcessWaiting

  class Process {
    const pid: int
    var ppid: int
    var childs: seq<Process>
    var zombies: seq<Process>
    var waitCount: nat
    var zombie: bool
    var exitCode: int

    constructor (pid: int, ppid: int)
      ensures this.pid == pid && this.ppid == ppid && childs == [] && zombies == []
      ensures waitCount == 0 && !zombie && exitCode == 0
    {
      this.pid, this.ppid, childs, zombies := pid, ppid, [], [];
      waitCount, zombie, exitCode := 0, false, 0;
    }

    /** What the fields say. */
    ghost function View(): Proc
      reads this
    {
      Proc(ppid, Pids(childs), Pids(zombies), waitCount, zombie, exitCode)
    }
  }

  function Pids(l: seq<Process>): seq<int> {
    seq(|l|, i requires 0 <= i < |l| => l[i].pid)
  }

  /** A list without one process, wherever it occurs. */
  function Drop(l: seq<Process>, p: Process): seq<Process> {
    if l == [] then [] else if l[0] == p then Drop(l[1..], p) else [l[0]] + Drop(l[1..], p)
  }

  /** A process is as the table on values says, but for its parent, and its lists are of processes in the table. */
  ghost predicate ShowsRest(p: Process, r: Proc, table: map<int, Process>)
    reads p`childs, p`zombies, p`waitCount, p`zombie, p`exitCode
  {
    && Pids(p.childs) == r.childs && Pids(p.zombies) == r.zombies
    && p.waitCount == r.waitCount && p.zombie == r.zombie && p.exitCode == r.exitCode
    && AllIn(p.childs, table) && AllIn(p.zombies, table)
  }

  ghost predicate Shows(p: Process, r: Proc, table: map<int, Process>)
    reads p
  {
    p.ppid == r.ppid && ShowsRest(p, r, table)
  }

  predicate AllIn(l: seq<Process>, table: map<int, Process>) {
    forall c :: c in l ==> c.pid in table && table[c.pid] == c
  }

  class Processes {
    var pidCounter: int
    var processes: map<int, Process>
    /** The list of the condition variable for waiting for any child: how many threads of which process are in it. */
    var genericWaiting: multiset<int>
    ghost var state: State

    ghost predicate Has(p: Process)
      reads `processes
    {
      p.pid in processes && processes[p.pid] == p
    }

    ghost predicate Numbered()
      reads `processes
    {
      forall k :: k in processes ==> processes[k].pid == k
    }

    ghost predicate Shown()
      reads `processes, `state, processes.Values
    {
      processes.Keys == state.procs.Keys && Numbered() && forall k :: k in processes ==> Shows(processes[k], state.procs[k], processes)
    }

    ghost predicate Valid()
      reads this, processes.Values
    {
      Shown() && Table(state) && -PID_MAX - 1 <= pidCounter <= PID_MAX
    }

    ghost function Now(): Waiting
      reads `state, `genericWaiting
    {
      Waiting(state, genericWaiting)
    }

    constructor ()
      ensures Valid() && Now() == Waiting(BOOTED, multiset{}) && fresh(processes.Values)
    {
      var kernel := new Process(0, 0);
      pidCounter := 0;
      processes := map[0 := kernel];
      genericWaiting := multiset{};
      state := BOOTED;
      new;
      BootedTable();
    }

    /** The first part of creating a process: a new child of `parent` is in the table, still without a thread. */
    method Create(parent: Process) returns (proc: Process)
      requires Valid() && Has(parent) && Running(state, parent.pid) && SearchEnds(processes.Keys, pidCounter)
      modifies `pidCounter, `processes, `state, parent`childs
      ensures Valid() && fresh(proc) && proc.pid !in old(processes) && processes == old(processes)[proc.pid := proc]
      ensures proc.ppid == parent.pid && Step(old(state), Event.Create(parent.pid, proc.pid), state)
    {
      hide Table, Shown, Shows, SearchEnds;
      SamePids(this);
      var pid;
      pid, pidCounter := GetNewPid(processes.Keys, pidCounter);
      CreatedTable(state, parent.pid, pid);
      proc := new Process(pid, parent.pid);
      Insert(parent, proc);
    }

    /** The last part, after the mutex was free for others: the process starts, or is forgotten if it has no thread. */
    method CreateOver(parent: Process, proc: Process, threadCreated: bool) returns (pid: int)
      requires Valid() && Has(parent) && Has(proc) && proc.pid in state.starting && proc.ppid == parent.pid
      modifies `processes, `state, parent`childs
      ensures Valid() && processes.Values <= old(processes.Values)
      ensures threadCreated ==> pid == proc.pid && processes == old(processes) && Step(old(state), Started(pid), state)
      ensures !threadCreated ==> pid == -1 && Step(old(state), CreateFails(proc.pid), state)
    {
      hide Table, Pids, Shown, Shows, Abandoned;
      TableAt(state, proc.pid);
      SamePids(this);
      FieldsShown(this, proc);
      if !threadCreated {
        AbandonedTable(state, proc.pid);
        OnlyCreator(state, proc.pid);
        Forget(parent, proc);
        return -1;
      }
      StartedTable(state, proc.pid);
      NoteStarted(proc);
      pid := proc.pid;
    }

    ghost method NoteStarted(proc: Process)
      requires Shown()
      modifies `state
      ensures Shown() && state == old(state).(starting := old(state).starting - {proc.pid})
    {
      state := state.(starting := state.starting - {proc.pid});
    }

    /** Takes a process that never ran out of the table and out of its parent's list. */
    method Forget(parent: Process, proc: Process)
      requires Shown() && Has(parent) && Has(proc) && parent != proc && proc.ppid == parent.pid
      requires forall k :: k in state.procs ==> proc.pid !in state.procs[k].zombies && (k != parent.pid ==> proc.pid !in state.procs[k].childs)
      modifies `processes, `state, parent`childs
      ensures Shown() && processes == old(processes) - {proc.pid}
      ensures state == Abandoned(old(state), proc.pid)
    {
      hide Pids, Drop, Shows;
      FieldsShown(this, proc);
      FieldsShown(this, parent);
      PidsDrop(this, parent.childs, proc);
      DropElements(parent.childs, proc);
      NotListed(parent.zombies, proc);
      ghost var s := state;
      processes := processes - {proc.pid};
      parent.childs := Drop(parent.childs, proc);
      state := Abandoned(s, proc.pid);
      forall k | k in processes
        ensures Shows(processes[k], state.procs[k], processes)
      {
        if k == parent.pid {
          UpdatedAt(parent, state.procs[k], processes);
        } else {
          assert old(Shows(processes[k], s.procs[k], processes));
          KeptWithout(processes[k], s.procs[k], old(processes), proc);
        }
      }
    }

    /** Lists a new process with its parent and in the table. */
    method Insert(parent: Process, proc: Process)
      requires Shown() && Has(parent) && proc.pid !in processes && proc != parent
      requires proc.View() == Proc(parent.pid, [], [], 0, false, 0)
      modifies `processes, `state, parent`childs
      ensures Shown() && processes == old(processes)[proc.pid := proc]
      ensures state == Created(old(state), parent.pid, proc.pid)
    {
      hide Pids, Shows;
      FieldsShown(this, parent);
      PidsSnoc(parent.childs, proc);
      NoPids(proc);
      ghost var s := state;
      parent.childs := parent.childs + [proc];
      processes := processes[proc.pid := proc];
      state := Created(s, parent.pid, proc.pid);
      forall k | k in processes
        ensures Shows(processes[k], state.procs[k], processes)
      {
        if k == parent.pid {
          UpdatedAt(parent, state.procs[k], processes);
        } else if k == proc.pid {
          UpdatedAt(proc, state.procs[k], processes);
        } else {
          assert old(Shows(processes[k], s.procs[k], processes));
          KeptWith(processes[k], s.procs[k], old(processes), proc);
        }
      }
    }

    /** waitpid for any child, one turn: the code waits and turns again while there are only living children. */
    method WaitAnyTurn(self: Process, nohang: bool) returns (r: Answer)
      requires Valid() && Has(self) && Running(state, self.pid)
      modifies `processes, `state, `genericWaiting, self`zombies
      ensures Valid() && processes.Values <= old(processes.Values)
      ensures Step(old(state), WaitForAny(self.pid, nohang), state) && r == WaitAny(old(state), self.pid, nohang).1
      ensures genericWaiting == Asleep(old(Now()), WaitForAny(self.pid, nohang))
    {
      hide Table, Shown, Shows, Pids, Reaped;
      SamePids(this);
      SameEmpty(this, self);
      if self.zombies == [] {
        if nohang {
          return NotYet;
        }
        if self.childs == [] {
          return Error;
        }
        genericWaiting := genericWaiting + multiset{self.pid};
        return Waits;
      }
      var joined := self.zombies[0];
      FrontShown(this, self);
      r := Reported(joined.pid, joined.exitCode);
      Reap(self, joined);
    }

    /** Takes a zombie out of its parent's list and out of the table. */
    method Reap(self: Process, joined: Process)
      requires Shown() && Has(self) && Has(joined) && self != joined && ParentOnly(self.pid, joined.pid)
      modifies `processes, `state, self`zombies
      ensures Shown() && processes == old(processes) - {joined.pid}
      ensures state == Reaped(old(state), self.pid, joined.pid)
    {
      hide Pids, Drop, Shows;
      FieldsShown(this, self);
      PidsDrop(this, self.zombies, joined);
      DropElements(self.zombies, joined);
      NotListed(self.childs, joined);
      ghost var s := state;
      self.zombies := Drop(self.zombies, joined);
      processes := processes - {joined.pid};
      state := Reaped(s, self.pid, joined.pid);
      forall k | k in processes
        ensures Shows(processes[k], state.procs[k], processes)
      {
        if k == self.pid {
          UpdatedAt(self, state.procs[k], processes);
        } else {
          assert old(Shows(processes[k], s.procs[k], processes));
          KeptWithout(processes[k], s.procs[k], old(processes), joined);
        }
      }
    }

    /** No list but the zombies of q mentions p. */
    ghost predicate ParentOnly(q: int, p: int)
      reads this
    {
      forall k :: k in state.procs ==> p !in state.procs[k].childs && (k != q ==> p !in state.procs[k].zombies)
    }

    /** waitpid for one child, up to where it may have to wait. */
    method WaitOneTurn(self: Process, pid: int, nohang: bool) returns (r: Answer)
      requires Valid() && Has(self) && Running(state, self.pid) && pid > 0
      modifies `processes, `state, self`zombies, (set p | p in processes.Values)`waitCount
      ensures Valid() && processes.Values <= old(processes.Values)
      ensures Step(old(state), WaitFor(self.pid, pid, nohang), state) && r == WaitOne(old(state), self.pid, pid, nohang).1
    {
      hide Table, Pids, Shown, Shows, Reaped, Awaited;
      SamePids(this);
      if pid !in processes {
        return Error;
      }
      var joined := processes[pid];
      FieldsShown(this, joined);
      if joined.ppid != self.pid || pid == self.pid {
        return Error;
      }
      if !joined.zombie {
        if nohang {
          return NotYet;
        }
        AwaitedTable(state, self.pid, pid);
        CountUp(self, joined);
        return Waits;
      }
      if joined.waitCount != 0 {
        return Error;
      }
      r := Reported(pid, joined.exitCode);
      OnlyParent(state, self.pid, pid);
      ReapedTable(state, self.pid, pid);
      Reap(self, joined);
    }

    method CountUp(self: Process, joined: Process)
      requires Shown() && Has(joined)
      modifies `state, joined`waitCount
      ensures Shown() && state == Awaited(old(state), self.pid, joined.pid)
    {
      hide Pids, Shows;
      FieldsShown(this, joined);
      ghost var s := state;
      joined.waitCount := joined.waitCount + 1;
      state := Awaited(s, self.pid, joined.pid);
      forall k | k in processes
        ensures Shows(processes[k], state.procs[k], processes)
      {
        if k == joined.pid {
          UpdatedAt(joined, state.procs[k], processes);
        } else {
          assert old(Shows(processes[k], s.procs[k], processes));
        }
      }
    }

    /** The rest of waitpid for one child, when the thread runs again after the child's end. */
    method WaitOver(self: Process, joined: Process) returns (r: Answer)
      requires Valid() && Has(self) && Has(joined) && MayResume(state, self.pid, joined.pid)
      modifies `processes, `state, self`zombies, joined`waitCount
      ensures Valid() && processes.Values <= old(processes.Values)
      ensures Step(old(state), WaitEnds(self.pid, joined.pid), state)
      ensures r == ProcessTable.WaitOver(old(state), self.pid, joined.pid).1
    {
      hide Table, Pids, Shown, Shows, Reaped;
      ghost var s := state;
      SamePids(this);
      StepKeepsTable(s, WaitEnds(self.pid, joined.pid), ProcessTable.WaitOver(s, self.pid, joined.pid).0);
      OnlyParent(s, self.pid, joined.pid);
      FieldsShown(this, joined);
      CountDown(self, joined);
      if joined.waitCount == 0 {
        r := Reported(joined.pid, joined.exitCode);
        Reap(self, joined);
      } else {
        r := Error;
      }
    }

    method CountDown(self: Process, joined: Process)
      requires Shown() && Has(joined) && joined.waitCount > 0 && state.procs[joined.pid].waitCount > 0
      modifies `state, joined`waitCount
      ensures Shown() && joined.waitCount == old(joined.waitCount) - 1 && state == CountedDown(old(state), self.pid, joined.pid)
    {
      hide Pids, Shows;
      FieldsShown(this, joined);
      ghost var s := state;
      joined.waitCount := joined.waitCount - 1;
      state := CountedDown(s, self.pid, joined.pid);
      forall k | k in processes
        ensures Shows(processes[k], state.procs[k], processes)
      {
        if k == joined.pid {
          UpdatedAt(joined, state.procs[k], processes);
        } else {
          assert old(Shows(processes[k], s.procs[k], processes));
        }
      }
    }

    // ------------------------------------------------------------ the end of a process

    /** The lists of a process hold all of whom it is the parent. */
    ghost predicate Family(proc: Process, s: State)
      reads `processes, proc`childs, proc`zombies
    {
      forall k :: k in processes ==> (s.IsChild(k, proc.pid) <==> processes[k] in proc.childs || processes[k] in proc.zombies)
    }

    /** The children and zombies of a process get the kernel for a parent. */
    method Orphan(proc: Process)
      requires Shown() && Has(proc)
      requires Family(proc, state)
      modifies `state, (set p | p in processes.Values)`ppid
      ensures Shown() && state == Orphaned(old(state), proc.pid)
      ensures forall p :: p in processes.Values ==> p.ppid == if p in proc.childs || p in proc.zombies then 0 else old(p.ppid)
    {
      hide Pids, Adopted, Shows, ShowsRest;
      ghost var s := state;
      FieldsShown(this, proc);
      RestShown(this);
      OrphanAll(proc.childs);
      OrphanAll(proc.zombies);
      state := s.(procs := Adopted(s, proc.pid));
      AdoptedKeys(s, proc.pid);
      forall k | k in processes
        ensures Shows(processes[k], state.procs[k], processes)
      {
        AdoptedAt(s, proc.pid, k);
        assert old(ShowsRest(processes[k], s.procs[k], processes));
        KeptBut(processes[k], s.procs[k], processes);
      }
    }

    method OrphanAll(l: seq<Process>)
      requires forall c :: c in l ==> Has(c)
      modifies (set p | p in processes.Values)`ppid
      ensures forall p :: p in processes.Values ==> p.ppid == if p in l then 0 else old(p.ppid)
    {
      for i := 0 to |l|
        invariant forall p :: p in processes.Values ==> p.ppid == if p in l[..i] then 0 else old(p.ppid)
      {
        assert l[i] in l;
        l[i].ppid := 0;
        assert l[..i + 1] == l[..i] + [l[i]];
      }
      assert l[..|l|] == l;
    }

    /** The code that the one thread of a process runs last. */
    method Exit(proc: Process, code: int)
      requires Valid() && Has(proc) && Running(state, proc.pid) && proc.pid != 0
      modifies `state, `genericWaiting, processes.Values
      ensures Valid() && Step(old(state), Event.Exit(proc.pid, code), state)
      ensures genericWaiting == Asleep(old(Now()), Event.Exit(proc.pid, code))
    {
      hide Table, Ended, Orphaned, Zombied, HandedOver, ParentTold, Shown, Family, Asleep;
      ghost var s := state;
      ExitTurn(Now(), proc.pid, code);
      EndedTable(s, proc.pid, code);
      FamilyShown(this, proc);
      EndedSteps(s, proc.pid, code);
      Bequeath(proc, processes[0], code);
      EndParent(proc, processes[proc.ppid]);
    }

    /** The process is a zombie and leaves its children and zombies to the kernel. */
    method Bequeath(proc: Process, kernel: Process, code: int)
      requires Shown() && Has(proc) && Family(proc, state) && proc !in proc.childs && proc !in proc.zombies
      requires Has(kernel) && kernel.pid == 0 && kernel != proc && 0 in state.procs && proc.pid in state.procs
      modifies `state, (set p | p in processes.Values)`ppid, proc`zombie, proc`exitCode, proc`childs, proc`zombies
      modifies kernel`childs, kernel`zombies
      ensures Shown() && proc.ppid == old(proc.ppid)
      ensures state == HandedOver(Orphaned(Zombied(old(state), proc.pid, code), proc.pid), proc.pid)
    {
      hide Orphaned, Zombied, HandedOver, Shown, Family;
      SameFamily(this, proc, state, code);
      SetEnded(proc, code);
      Orphan(proc);
      HandOver(proc, kernel);
    }

    /** Children and zombies go to the front of the kernel's lists. */
    method HandOver(proc: Process, kernel: Process)
      requires Shown() && Has(proc) && Has(kernel) && kernel.pid == 0 && proc != kernel
      modifies `state, proc`childs, proc`zombies, kernel`childs, kernel`zombies
      ensures Shown() && state == HandedOver(old(state), proc.pid)
    {
      hide Pids, Shows, Shown;
      PidsJoin(this, proc, kernel);
      SamePids(this);
      SetLists(kernel, proc.childs + kernel.childs, proc.zombies + kernel.zombies);
      SetLists(proc, [], []);
    }

    /** The parent's lists; whoever waits for the process is woken if there is someone, else it is a zombie for all. */
    method EndParent(proc: Process, parent: Process)
      requires Shown() && Has(proc) && Has(parent) && proc.ppid == parent.pid && parent != proc
      modifies `state, `genericWaiting, parent`childs, parent`zombies
      ensures Shown() && state == ParentTold(old(state), proc.pid)
      ensures genericWaiting == if proc.waitCount == 0 then multiset{} else old(genericWaiting)
    {
      hide Pids, Shown, Shows, Drop;
      SamePids(this);
      FieldsShown(this, proc);
      FieldsShown(this, parent);
      PidsDrop(this, parent.childs, proc);
      DropElements(parent.childs, proc);
      var childs := Drop(parent.childs, proc);
      forall c | c in childs
        ensures Has(c)
      {
        DropElement(parent.childs, proc, c);
      }
      PidsSnoc(parent.zombies, proc);
      var zombies := if proc.waitCount > 0 then parent.zombies else parent.zombies + [proc];
      SetLists(parent, childs, zombies);
      if proc.waitCount == 0 {
        genericWaiting := multiset{};
      }
    }

    method SetEnded(proc: Process, code: int)
      requires Shown() && Has(proc)
      modifies `state, proc`zombie, proc`exitCode
      ensures Shown()
      ensures state == Zombied(old(state), proc.pid, code)
    {
      hide Pids, Shows;
      FieldsShown(this, proc);
      ghost var s := state;
      proc.zombie := true;
      proc.exitCode := code;
      state := s.(procs := s.procs[proc.pid := s.procs[proc.pid].(zombie := true, exitCode := code)]);
      forall k | k in processes
        ensures Shows(processes[k], state.procs[k], processes)
      {
        if k == proc.pid {
          UpdatedAt(proc, state.procs[k], processes);
        } else {
          assert old(Shows(processes[k], s.procs[k], processes));
        }
      }
    }

    method SetLists(q: Process, childs: seq<Process>, zombies: seq<Process>)
      requires Shown() && Has(q) && (forall c :: c in childs ==> Has(c)) && (forall c :: c in zombies ==> Has(c))
      modifies `state, q`childs, q`zombies
      ensures Shown() && q.childs == childs && q.zombies == zombies
      ensures state == old(state).(procs := old(state).procs[q.pid := old(state).procs[q.pid].(childs := Pids(childs), zombies := Pids(zombies))])
    {
      hide Pids, Shows;
      FieldsShown(this, q);
      ghost var s := state;
      q.childs, q.zombies := childs, zombies;
      state := s.(procs := s.procs[q.pid := s.procs[q.pid].(childs := Pids(childs), zombies := Pids(zombies))]);
      forall k | k in processes
        ensures Shows(processes[k], state.procs[k], processes)
      {
        if k == q.pid {
          UpdatedAt(q, state.procs[k], processes);
        } else {
          assert old(Shows(processes[k], s.procs[k], processes));
        }
      }
    }
  }

  // -------------------------------------------------------------- one process in the table, before and after

  lemma SamePids(t: Processes)
    requires t.Shown()
    ensures t.processes.Keys == t.state.procs.Keys && t.Numbered()
  {
  }

  lemma FieldsShown(t: Processes, p: Process)
    requires t.Shown() && t.Has(p)
    ensures p.View() == t.state.procs[p.pid] && AllIn(p.childs, t.processes) && AllIn(p.zombies, t.processes)
  {
    assert Shows(t.processes[p.pid], t.state.procs[p.pid], t.processes);
  }

  lemma RestShown(t: Processes)
    requires t.Shown()
    ensures forall k :: k in t.processes ==> ShowsRest(t.processes[k], t.state.procs[k], t.processes)
  {
    hide ShowsRest;
    forall k | k in t.processes
      ensures ShowsRest(t.processes[k], t.state.procs[k], t.processes)
    {
      assert Shows(t.processes[k], t.state.procs[k], t.processes);
    }
  }

  lemma UpdatedAt(p: Process, r: Proc, table: map<int, Process>)
    requires p.View() == r && AllIn(p.childs, table) && AllIn(p.zombies, table)
    ensures Shows(p, r, table)
  {
  }

  /** A process of which only the parent has changed. */
  lemma KeptBut(p: Process, r: Proc, table: map<int, Process>)
    requires ShowsRest(p, r, table)
    ensures Shows(p, r.(ppid := p.ppid), table)
  {
  }

  /** A process that does not list the one that leaves the table. */
  lemma KeptWithout(p: Process, r: Proc, table: map<int, Process>, gone: Process)
    requires Shows(p, r, table) && gone.pid !in r.childs && gone.pid !in r.zombies
    ensures Shows(p, r, table - {gone.pid})
  {
    hide Pids;
    OnlyPid(p.childs, gone.pid);
    OnlyPid(p.zombies, gone.pid);
  }

  lemma KeptWith(p: Process, r: Proc, table: map<int, Process>, entered: Process)
    requires Shows(p, r, table) && entered.pid !in table
    ensures Shows(p, r, table[entered.pid := entered])
  {
  }

  /** Members of a list have the pids of the list. */
  lemma OnlyPid(l: seq<Process>, pid: int)
    requires pid !in Pids(l)
    ensures forall c :: c in l ==> c.pid != pid
  {
    forall c | c in l
      ensures c.pid != pid
    {
      NotListed(l, c);
    }
  }

  lemma ExitTurn(w: Waiting, p: int, code: int)
    requires p in w.s.procs
    ensures Asleep(w, Event.Exit(p, code)) == if w.s.procs[p].waitCount == 0 then multiset{} else w.asleep
  {
  }

  /** The last piece of a process's end: what happens to its parent's lists. */
  function ParentTold(s: State, p: int): State
    requires p in s.procs
  {
    var me := s.procs[p];
    if me.ppid !in s.procs then s else
      var q := s.procs[me.ppid];
      s.(procs := s.procs[me.ppid := q.(childs := Removed(q.childs, p), zombies := if me.waitCount > 0 then q.zombies else q.zombies + [p])])
  }

  function Zombied(s: State, p: int, code: int): State
    requires p in s.procs
  {
    s.(procs := s.procs[p := s.procs[p].(zombie := true, exitCode := code)])
  }

  function Orphaned(s: State, p: int): (o: State)
    ensures o.procs.Keys == s.procs.Keys
  {
    s.(procs := Adopted(s, p))
  }

  function HandedOver(s: State, p: int): (h: State)
    requires 0 in s.procs && p in s.procs
    ensures h.procs.Keys == s.procs.Keys
  {
    var k := s.procs[0];
    var joined := s.procs[0 := k.(childs := s.procs[p].childs + k.childs, zombies := s.procs[p].zombies + k.zombies)];
    s.(procs := joined[p := joined[p].(childs := [], zombies := [])])
  }

  /** The end of a process, piece by piece as the code does it. */
  lemma EndedSteps(s: State, p: int, code: int)
    requires 0 in s.procs && p in s.procs && p != 0 && s.procs[p].ppid in s.procs && s.procs[p].ppid != p && s.procs[0].ppid != p
    ensures p in Zombied(s, p, code).procs && 0 in Zombied(s, p, code).procs
    ensures ParentTold(HandedOver(Orphaned(Zombied(s, p, code), p), p), p) == Ended(s, p, code)
  {
    hide Zombied, Orphaned, HandedOver, ParentTold, Ended;
    EndedStepsKeys(s, p, code);
    var s', t := ParentTold(HandedOver(Orphaned(Zombied(s, p, code), p), p), p), Ended(s, p, code);
    forall k | k in s.procs
      ensures s'.procs[k] == t.procs[k]
    {
      EndedStepsAt(s, p, code, k);
    }
    assert s'.procs == t.procs;
  }

  lemma EndedStepsKeys(s: State, p: int, code: int)
    requires 0 in s.procs && p in s.procs
    ensures Zombied(s, p, code).procs.Keys == s.procs.Keys
    ensures var s' := ParentTold(HandedOver(Orphaned(Zombied(s, p, code), p), p), p);
      s'.procs.Keys == Ended(s, p, code).procs.Keys == s.procs.Keys && s'.(procs := map[]) == Ended(s, p, code).(procs := map[])
  {
  }

  lemma EndedStepsAt(s: State, p: int, code: int, k: int)
    requires 0 in s.procs && p in s.procs && p != 0 && s.procs[p].ppid in s.procs && s.procs[p].ppid != p && s.procs[0].ppid != p
    requires k in s.procs && Zombied(s, p, code).procs.Keys == s.procs.Keys
    ensures var s' := ParentTold(HandedOver(Orphaned(Zombied(s, p, code), p), p), p);
      k in s'.procs && k in Ended(s, p, code).procs && s'.procs[k] == Ended(s, p, code).procs[k]
  {
  }

  lemma AdoptedKeys(s: State, p: int)
    ensures Adopted(s, p).Keys == s.procs.Keys
  {
  }

  lemma AdoptedAt(s: State, p: int, k: int)
    requires k in s.procs
    ensures Adopted(s, p)[k] == if s.IsChild(k, p) then s.procs[k].(ppid := 0) else s.procs[k]
  {
  }

  lemma SameFamily(t: Processes, p: Process, s: State, code: int)
    requires p.pid in s.procs && t.Family(p, s)
    ensures t.Family(p, Zombied(s, p.pid, code)) && Zombied(s, p.pid, code).procs.Keys == s.procs.Keys
  {
    hide Zombied;
    forall k
      ensures Zombied(s, p.pid, code).IsChild(k, p.pid) <==> s.IsChild(k, p.pid)
    {
      ZombiedChild(s, p.pid, code, k);
    }
    ZombiedChild(s, p.pid, code, 0);
  }

  lemma ZombiedChild(s: State, p: int, code: int, k: int)
    requires p in s.procs
    ensures Zombied(s, p, code).IsChild(k, p) <==> s.IsChild(k, p)
    ensures Zombied(s, p, code).procs.Keys == s.procs.Keys
  {
  }

  lemma PidsJoin(t: Processes, p: Process, q: Process)
    requires t.Shown() && t.Has(p) && t.Has(q)
    ensures Pids(p.childs + q.childs) == t.state.Childs(p.pid) + t.state.Childs(q.pid)
    ensures Pids(p.zombies + q.zombies) == t.state.Zombies(p.pid) + t.state.Zombies(q.pid)
    ensures forall c :: c in p.childs + q.childs + p.zombies + q.zombies ==> t.Has(c)
    ensures Pids([]) == []
  {
    FieldsShown(t, p);
    FieldsShown(t, q);
  }

  lemma FamilyShown(t: Processes, p: Process)
    requires t.Valid() && t.Has(p) && Running(t.state, p.pid) && p.pid != 0
    ensures 0 in t.processes && t.processes[0].pid == 0 && t.processes[0] != p && t.state.procs[0].ppid != p.pid
    ensures p.ppid == t.state.procs[p.pid].ppid && p.ppid in t.processes && p.ppid != p.pid && t.processes[p.ppid].pid == p.ppid
    ensures p.waitCount == t.state.procs[p.pid].waitCount && t.processes.Keys == t.state.procs.Keys
    ensures t.Family(p, t.state) && p !in p.childs && p !in p.zombies
  {
    var s := t.state;
    FieldsShown(t, p);
    FieldsShown(t, t.processes[0]);
    assert ParentAt(s, p.pid) && WaiterAt(s, p.pid);
    FieldsShown(t, t.processes[p.ppid]);
    forall k | k in t.processes
      ensures s.IsChild(k, p.pid) <==> t.processes[k] in p.childs || t.processes[k] in p.zombies
    {
      FieldsShown(t, t.processes[k]);
      assert ParentAt(s, k) && ChildsAt(s, p.pid, k) && ZombiesAt(s, p.pid, k);
      Listed(t, p.childs, t.processes[k]);
      Listed(t, p.zombies, t.processes[k]);
    }
  }

  lemma Listed(t: Processes, l: seq<Process>, c: Process)
    requires t.Has(c) && forall x :: x in l ==> t.Has(x)
    ensures c in l <==> multiset(Pids(l))[c.pid] > 0
  {
    InList(Pids(l), c.pid);
    NotListed(l, c);
    if c.pid in Pids(l) {
      var i :| 0 <= i < |l| && Pids(l)[i] == c.pid;
      assert l[i] in l;
    }
  }

  lemma SameEmpty(t: Processes, p: Process)
    requires t.Valid() && t.Has(p)
    ensures p.zombies == [] <==> t.state.procs[p.pid].zombies == []
    ensures p.childs == [] <==> t.state.procs[p.pid].childs == []
  {
    FieldsShown(t, p);
  }

  lemma FrontShown(t: Processes, self: Process)
    requires t.Valid() && t.Has(self) && self.zombies != []
    ensures t.Has(self.zombies[0]) && self.zombies[0] != self && t.state.procs[self.pid].zombies != []
    ensures t.state.procs[self.pid].zombies[0] == self.zombies[0].pid
    ensures t.state.procs[self.zombies[0].pid].exitCode == self.zombies[0].exitCode
    ensures t.ParentOnly(self.pid, self.zombies[0].pid) && Table(Reaped(t.state, self.pid, self.zombies[0].pid))
  {
    FieldsShown(t, self);
    var p := self.zombies[0];
    assert p in self.zombies;
    FieldsShown(t, p);
    FrontZombie(t.state, self.pid);
    ReapedTable(t.state, self.pid, p.pid);
    OnlyParent(t.state, self.pid, p.pid);
  }

  lemma OnlyCreator(s: State, p: int)
    requires Table(s) && p in s.starting && p in s.procs
    ensures forall k :: k in s.procs ==> p !in s.procs[k].zombies && (k != s.procs[p].ppid ==> p !in s.procs[k].childs)
  {
    TableAt(s, p);
    forall k | k in s.procs
      ensures p !in s.procs[k].zombies && (k != s.procs[p].ppid ==> p !in s.procs[k].childs)
    {
      assert ChildsAt(s, k, p) && ZombiesAt(s, k, p);
      InList(s.procs[k].childs, p);
      InList(s.procs[k].zombies, p);
    }
  }

  lemma InList(l: seq<int>, p: int)
    ensures p in l <==> multiset(l)[p] > 0
  {
    assert p in l <==> p in multiset(l);
  }

  lemma OnlyParent(s: State, q: int, p: int)
    requires Table(s) && q in s.procs && s.IsChild(p, q) && s.procs[p].zombie
    ensures q != p && forall k :: k in s.procs ==> p !in s.procs[k].childs && (k != q ==> p !in s.procs[k].zombies)
  {
    assert ParentAt(s, p);
    forall k | k in s.procs
      ensures p !in s.procs[k].childs && (k != q ==> p !in s.procs[k].zombies)
    {
      assert ChildsAt(s, k, p) && ZombiesAt(s, k, p);
      InList(s.procs[k].childs, p);
      InList(s.procs[k].zombies, p);
    }
  }

  lemma {:induction false} PidsDrop(t: Processes, l: seq<Process>, p: Process)
    requires t.Has(p) && forall c :: c in l ==> t.Has(c)
    ensures Pids(Drop(l, p)) == Removed(Pids(l), p.pid)
  {
    if l != [] {
      PidsDrop(t, l[1..], p);
      assert l[0] in l;
      assert Pids(l) == [l[0].pid] + Pids(l[1..]);
      assert l[0] != p ==> Pids(Drop(l, p)) == [l[0].pid] + Pids(Drop(l[1..], p));
    }
  }

  lemma {:induction false} DropElement(l: seq<Process>, p: Process, c: Process)
    requires c in Drop(l, p)
    ensures c in l && c != p
  {
    if l[0] == p || c != l[0] {
      DropElement(l[1..], p, c);
    }
  }

  lemma {:induction false} DropElements(l: seq<Process>, p: Process)
    ensures forall c :: c in Drop(l, p) <==> c in l && c != p
  {
    if l != [] {
      DropElements(l[1..], p);
    }
  }

  lemma NoPids(p: Process)
    requires Pids(p.childs) == [] && Pids(p.zombies) == []
    ensures p.childs == [] && p.zombies == []
  {
    assert |Pids(p.childs)| == 0 && |Pids(p.zombies)| == 0;
  }

  lemma NotListed(l: seq<Process>, p: Process)
    ensures p.pid !in Pids(l) ==> p !in l
  {
    if p in l {
      var i :| 0 <= i < |l| && l[i] == p;
      assert Pids(l)[i] == p.pid;
    }
  }

  lemma PidsSnoc(l: seq<Process>, p: Process)
    ensures Pids(l + [p]) == Pids(l) + [p.pid]
  {
  }
}
