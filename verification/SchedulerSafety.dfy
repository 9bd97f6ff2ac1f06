/**
 Safety over whole runs: every reachable state keeps each process in exactly one place, every
 pid unique for ever, every saved context and every exit record where it belongs, and its history
 is a correct one.
 */
module SchedulerSafety {
  import opened Arithmetic
  import opened Results
  import opened Scheduler
  import opened SchedulerHistory

  // ----- who is where -----

  function Pids(ps: seq<Pcb>): (r: seq<int>)
    ensures |r| == |ps|
  {
    seq(|ps|, i requires 0 <= i < |ps| => ps[i].pid)
  }

  function Bag(ps: seq<Pcb>): multiset<int> { multiset(Pids(ps)) }

  function RunningBag(r: Option<Pcb>): multiset<int> {
    if r.Some? then multiset{r.value.pid} else multiset{}
  }

  /** The pids of all processes, one entry for each place a process sits in. */
  function Places(s: State): multiset<int> {
    RunningBag(s.running) + Bag(s.runnable) + Bag(s.blocked)
  }

  ghost predicate Queued(s: State, p: Pcb) { p in s.runnable || p in s.blocked }

  ghost predicate Live(s: State, p: Pcb) { s.running == Some(p) || Queued(s, p) }

  // ----- the invariant -----

  /** Every process ever born is in exactly one place or has died exactly once. */
  ghost predicate Accounted(s: State) {
    && BornPids(s.log) == Places(s) + DiedPids(s.log)
    && forall q :: BornPids(s.log)[q] <= 1
  }

  ghost predicate IdsOk(log: Log, g: int, p: Pcb) {
    && 2 <= p.pid <= g && 1 <= p.ppid < p.pid
    && Birth(log, p.pid).Some? && Birth(log, p.pid).value.ppid == p.ppid && Birth(log, p.pid).value.stack == p.stack
  }

  /** The waits of `p` have returned its dead children in order; its signals are the ones still to come. */
  ghost predicate Conserved(log: Log, pid: int, signals: seq<Signal>) {
    var dead, got := DeadChildren(log, pid), WaitResults(log, pid);
    && |got| <= |dead| && dead[|got|..] == signals
    && forall i :: 0 <= i < |got| ==> got[i] == dead[i].pid
  }

  /** A queued process would continue correctly. */
  ghost predicate RunnableOk(log: Log, p: Pcb) {
    && !Waiting(log, p.pid)
    && match Own(log, p.pid)
       case None => false
       case Some(Born(_, _, _, first)) => p.context == first
       case Some(Trapped(_, at, trap)) =>
         match trap {
           case RawYield => p.context == at
           case Yield => p.context == Skip(at)
           case YieldReturn(v) => p.context == Return(at, v)
           case _ => false
         }
  }

  /** A blocked process lacks only the result of its wait. */
  ghost predicate BlockedOk(log: Log, p: Pcb) {
    && Waiting(log, p.pid)
    && Own(log, p.pid).Some? && Own(log, p.pid).value.Trapped?
    && Own(log, p.pid).value.trap == Wait(p.wstatus)
    && p.context == Skip(Own(log, p.pid).value.context)
  }

  ghost predicate RunnablesOk(log: Log, g: int, ps: seq<Pcb>) {
    forall p :: p in ps ==> IdsOk(log, g, p) && Conserved(log, p.pid, p.signals) && RunnableOk(log, p)
  }

  ghost predicate BlockedsOk(log: Log, g: int, ps: seq<Pcb>) {
    forall p :: p in ps ==> IdsOk(log, g, p) && Conserved(log, p.pid, p.signals) && BlockedOk(log, p)
  }

  /** What holds between trap and resume as well: everything but the running process's own state. */
  ghost predicate Core(s: State) {
    && s.globalPid == 1 + s.start.used + |BornPids(s.log)|
    && PidsBelow(s.log, s.globalPid) && BornAbove(s.log, 1 + s.start.used)
    && Accounted(s)
    && RunnablesOk(s.log, s.globalPid, s.runnable)
    && BlockedsOk(s.log, s.globalPid, s.blocked)
    && Correct(s.start, s.log)
  }

  /** The lists, the dispatch counter and the programs left are what the history says. */
  ghost predicate Lines(s: State) {
    && Ready(s.log) == Pids(s.runnable) && Asleep(s.log) == Pids(s.blocked)
    && s.times == s.start.times + Choices(s.log)
    && if s.log == [] then !s.dirty && s.tests == s.start.tests else s.dirty
  }

  /** The processor has been given up, and no choice been made yet. */
  ghost predicate Free(log: Log) {
    Returning(log).None? && (log != [] ==> Settled(log) && !Last(log).Status?)
  }

  /** A state in which a process has just been resumed. */
  ghost predicate Inv(s: State) {
    && Core(s) && Lines(s) && s.running.Some? && s.fastPid == s.running.value.pid
    && IdsOk(s.log, s.globalPid, s.running.value)
    && Conserved(s.log, s.fastPid, s.running.value.signals)
    && !Waiting(s.log, s.fastPid)
    && s.log != [] && Last(s.log) == Resumed(s.fastPid, s.live)
  }

  /** A machine that has stopped: nothing can run, and whatever is left is blocked without a signal. */
  ghost predicate Halted(o: Outcome) {
    && Core(o.state) && o.state.running.None? && o.state.runnable == []
    && Free(o.state.log) && Chosen(o.state.start.times, o.state.log) == None
    && o.state.times == o.state.start.times + Choices(o.state.log) + 1
    && (o.state.log == [] ==> o.state.start.tests == [])
    && (if o.DeadLoop? then o.state.blocked != [] else o.state.blocked == [])
    && forall p :: p in o.state.blocked ==> p.signals == []
  }

  ghost predicate Good(o: Outcome) { if o.Resume? then Inv(o.state) else Halted(o) }

  // ----- lists -----

  lemma PidsAppend(ps: seq<Pcb>, p: Pcb)
    ensures Bag(ps + [p]) == Bag(ps) + multiset{p.pid}
  {
    assert Pids(ps + [p]) == Pids(ps) + [p.pid];
  }

  lemma PidsWithout(ps: seq<Pcb>, i: nat)
    requires i < |ps|
    ensures Bag(ps) == Bag(Without(ps, i)) + multiset{ps[i].pid}
    ensures forall p :: p in Without(ps, i) ==> p in ps
  {
    var xs := Pids(ps);
    assert Pids(Without(ps, i)) == xs[..i] + xs[i + 1..];
    assert xs == xs[..i] + [xs[i]] + xs[i + 1..];
  }

  lemma PidsDeliver(ps: seq<Pcb>, to: int, sig: Signal)
    ensures Bag(DeliverAll(ps, to, sig)) == Bag(ps)
  {
    assert Pids(DeliverAll(ps, to, sig)) == Pids(ps);
  }

  lemma InBag(ps: seq<Pcb>, p: Pcb)
    requires p in ps
    ensures Bag(ps)[p.pid] >= 1
  {
    var i :| 0 <= i < |ps| && ps[i] == p;
    assert Pids(ps)[i] == p.pid;
  }

  /** A pid known to be born, and accounted for elsewhere, is not queued. */
  lemma NotQueued(s: State, pid: int)
    requires Accounted(s)
    requires s.running.Some? && s.running.value.pid == pid
    ensures forall p :: Queued(s, p) ==> p.pid != pid
  {
    forall p | Queued(s, p)
      ensures p.pid != pid
    {
      if p in s.runnable {
        InBag(s.runnable, p);
      } else {
        InBag(s.blocked, p);
      }
      assert BornPids(s.log)[p.pid] <= 1;
    }
  }

  // ----- one more event -----

  /** An event that is about no queued process leaves every queued process as correct as it was. */
  lemma QueuesKeep(log: Log, e: Event, g: int, g': int, rs: seq<Pcb>, bs: seq<Pcb>)
    requires RunnablesOk(log, g, rs) && BlockedsOk(log, g, bs) && g <= g' && !e.Died?
    requires e.Status? || forall p :: p in rs || p in bs ==> p.pid != e.pid
    ensures RunnablesOk(log + [e], g', rs) && BlockedsOk(log + [e], g', bs)
  {
    hide Own, Birth, Waiting, WaitResults, DeadChildren;
    forall p | p in rs || p in bs
      ensures IdsOk(log + [e], g', p) && Conserved(log + [e], p.pid, p.signals)
      ensures p in rs ==> RunnableOk(log + [e], p)
      ensures p in bs ==> BlockedOk(log + [e], p)
    {
      Append(log, e, p.pid);
    }
  }

  lemma NoteCore(s: State, e: Event)
    requires Core(s) && !e.Died? && !e.Born? && EventOk(s.start, s.log, e) && EventBelow(e, s.globalPid)
    requires e.Status? || forall p :: Queued(s, p) ==> p.pid != e.pid
    ensures Core(Note(s, e))
  {
    hide EventOk, RunnablesOk, BlockedsOk, Correct, BornPids, DiedPids;
    CorrectAppend(s.start, s.log, e);
    AppendCounts(s.log, e);
    QueuesKeep(s.log, e, s.globalPid, s.globalPid, s.runnable, s.blocked);
  }

  lemma NewPcbOk(log: Log, g: int, ppid: int, stack: int, c: Context)
    requires PidsBelow(log, g) && 1 <= ppid <= g
    ensures var p := Pcb(g + 1, ppid, stack, c, [], 0);
            var log' := log + [Born(g + 1, ppid, stack, c)];
            IdsOk(log', g + 1, p) && Conserved(log', p.pid, p.signals) && RunnableOk(log', p)
    ensures g + 1 !in BornPids(log)
  {
    hide BornPids, DiedPids, Own, Birth, Waiting, WaitResults, DeadChildren;
    Unused(log, g, g + 1);
    Append(log, Born(g + 1, ppid, stack, c), g + 1);
  }

  lemma SpawnAccounted(s: State, s': State, p: Pcb, e: Event)
    requires Accounted(s) && e.Born? && e.pid == p.pid && p.pid !in BornPids(s.log)
    requires s'.running == s.running && s'.runnable == s.runnable + [p] && s'.blocked == s.blocked
    requires s'.log == s.log + [e]
    ensures Accounted(s')
  {
    hide BornPids, DiedPids, Bag;
    AppendCounts(s.log, e);
    PidsAppend(s.runnable, p);
  }

  /** A new process: its pid is new for ever. */
  lemma SpawnCore(s: State, ppid: int, stack: int, c: Context)
    requires Core(s) && 1 <= ppid <= s.globalPid
    requires PidsBelow(s.log, s.globalPid) ==> EventOk(s.start, s.log, Born(s.globalPid + 1, ppid, stack, c))
    ensures Core(Spawn(s, ppid, stack, c))
  {
    hide EventOk, Correct, BornPids, DiedPids, Conserved, RunnableOk, BlockedOk, Birth, Accounted;
    var g := s.globalPid;
    var e := Born(g + 1, ppid, stack, c);
    var log' := s.log + [e];
    CorrectAppend(s.start, s.log, e);
    AppendCounts(s.log, e);
    NewPcbOk(s.log, g, ppid, stack, c);
    forall p | Queued(s, p)
      ensures p.pid != g + 1
    {
      assert IdsOk(s.log, g, p);
    }
    QueuesKeep(s.log, e, g, g + 1, s.runnable, s.blocked);
    var p := NewPcb(s, ppid, stack, c);
    SpawnAccounted(s, Spawn(s, ppid, stack, c), p, e);
    assert RunnablesOk(log', g + 1, s.runnable + [p]);
  }

  /** The exit record lands with the parent and nowhere else. */
  lemma NotifyQueues(log: Log, g: int, rs: seq<Pcb>, bs: seq<Pcb>, e: Event)
    requires RunnablesOk(log, g, rs) && BlockedsOk(log, g, bs) && e.Died?
    ensures var sig := Signal(e.pid, e.code);
            && RunnablesOk(log + [e], g, DeliverAll(rs, e.ppid, sig))
            && BlockedsOk(log + [e], g, DeliverAll(bs, e.ppid, sig))
  {
    hide Own, Birth, Waiting, WaitResults, DeadChildren;
    var sig := Signal(e.pid, e.code);
    forall p | p in rs || p in bs
      ensures var p' := Deliver(p, e.ppid, sig);
              IdsOk(log + [e], g, p') && Conserved(log + [e], p.pid, p'.signals)
      ensures p in rs ==> RunnableOk(log + [e], Deliver(p, e.ppid, sig))
      ensures p in bs ==> BlockedOk(log + [e], Deliver(p, e.ppid, sig))
    {
      NotifyOne(log, p, e);
    }
  }

  lemma NotifyOne(log: Log, p: Pcb, e: Event)
    requires e.Died? && Conserved(log, p.pid, p.signals)
    ensures Conserved(log + [e], p.pid, Deliver(p, e.ppid, Signal(e.pid, e.code)).signals)
    ensures Own(log + [e], p.pid) == Own(log, p.pid) && Birth(log + [e], p.pid) == Birth(log, p.pid)
    ensures Waiting(log + [e], p.pid) == Waiting(log, p.pid)
  {
    hide Own, Birth, Waiting, WaitResults, DeadChildren;
    Append(log, e, p.pid);
    var dead, got := DeadChildren(log, p.pid), WaitResults(log, p.pid);
    assert forall x: Signal :: (dead + [x])[|got|..] == dead[|got|..] + [x];
  }

  // ----- whose turn it is -----

  lemma BagDistinct(ps: seq<Pcb>, i: nat)
    requires i < |ps| && Bag(ps)[ps[i].pid] <= 1
    ensures forall j :: 0 <= j < |ps| && j != i ==> Pids(ps)[j] != Pids(ps)[i]
  {
    PidsWithout(ps, i);
    forall j | 0 <= j < |ps| && j != i
      ensures ps[j].pid != ps[i].pid
    {
      assert ps[j] in Without(ps, i) by {
        var k := if j < i then j else j - 1;
        assert Without(ps, i)[k] == ps[j];
      }
      InBag(Without(ps, i), ps[j]);
    }
  }

  lemma PidsOf(ps: seq<Pcb>, pid: int)
    ensures pid in Pids(ps) <==> Bag(ps)[pid] >= 1
  {
  }

  /** A process that is accounted for leaves its list and no other. */
  lemma LeavesLists(s: State, pid: int)
    requires Accounted(s)
    ensures s.running.Some? && s.running.value.pid == pid ==>
              Remove(Pids(s.runnable), pid) == Pids(s.runnable) && Remove(Pids(s.blocked), pid) == Pids(s.blocked)
    ensures forall i :: 0 <= i < |s.runnable| && s.runnable[i].pid == pid ==>
              && Remove(Pids(s.runnable), pid) == Pids(Without(s.runnable, i))
              && Remove(Pids(s.blocked), pid) == Pids(s.blocked)
    ensures forall i :: 0 <= i < |s.blocked| && s.blocked[i].pid == pid ==>
              && Remove(Pids(s.blocked), pid) == Pids(Without(s.blocked, i))
              && Remove(Pids(s.runnable), pid) == Pids(s.runnable)
  {
    hide BornPids, DiedPids, Bag, Pids;
    assert Places(s)[pid] <= 1 by {
      assert BornPids(s.log)[pid] <= 1;
    }
    PidsOf(s.runnable, pid);
    PidsOf(s.blocked, pid);
    if pid !in Pids(s.runnable) {
      RemoveAbsent(Pids(s.runnable), pid);
    }
    if pid !in Pids(s.blocked) {
      RemoveAbsent(Pids(s.blocked), pid);
    }
    forall i | 0 <= i < |s.runnable| && s.runnable[i].pid == pid
      ensures Remove(Pids(s.runnable), pid) == Pids(Without(s.runnable, i)) && pid in Pids(s.runnable)
    {
      LeavesList(s.runnable, i);
    }
    forall i | 0 <= i < |s.blocked| && s.blocked[i].pid == pid
      ensures Remove(Pids(s.blocked), pid) == Pids(Without(s.blocked, i)) && pid in Pids(s.blocked)
    {
      LeavesList(s.blocked, i);
    }
  }

  lemma LeavesList(ps: seq<Pcb>, i: nat)
    requires i < |ps| && Bag(ps)[ps[i].pid] <= 1
    ensures Remove(Pids(ps), ps[i].pid) == Pids(Without(ps, i)) && ps[i].pid in Pids(ps)
  {
    hide Bag;
    BagDistinct(ps, i);
    RemoveAt(Pids(ps), i);
    assert Without(Pids(ps), i) == Pids(Without(ps, i));
    assert Pids(ps)[i] == ps[i].pid;
  }

  /** A list of processes with their signals conserved: the first one with a signal is the first to report. */
  lemma {:induction false} ReportsAreSignals(log: Log, ps: seq<Pcb>)
    requires forall p :: p in ps ==> Conserved(log, p.pid, p.signals)
    ensures var i := FirstSignalled(ps);
            FirstReport(log, Pids(ps)) == if i < |ps| then Some(ps[i].pid) else None
  {
    hide WaitResults, DeadChildren;
    if ps != [] {
      assert Pids(ps)[1..] == Pids(ps[1..]);
      assert Conserved(log, ps[0].pid, ps[0].signals);
      ReportsAreSignals(log, ps[1..]);
    }
  }

  /** The choice of the scheduler, told by the lists, is the one that the history tells. */
  lemma ChosenIs(s: State)
    requires Core(s) && Lines(s) && Free(s.log) && s.log != []
    ensures var i := FirstSignalled(s.blocked);
            Chosen(s.start.times, s.log) ==
            if s.times > 100 && i < |s.blocked| then Some(s.blocked[i].pid)
            else if s.runnable != [] then Some(s.runnable[0].pid)
            else if i < |s.blocked| then Some(s.blocked[i].pid) else None
  {
    hide Correct, Accounted, Conserved, RunnableOk, BlockedOk, IdsOk, FirstReport, FirstSignalled, Choices, Returning;
    hide Ready, Asleep;
    ReportsAreSignals(s.log, s.blocked);
  }

  /** The status of a wait changes nothing about whose turn it is. */
  lemma {:induction false} StatusKeepsReport(log: Log, e: Event, pids: seq<int>)
    requires e.Status?
    ensures FirstReport(log + [e], pids) == FirstReport(log, pids)
  {
    hide WaitResults, DeadChildren;
    if pids != [] {
      Append(log, e, pids[0]);
      StatusKeepsReport(log, e, pids[1..]);
    }
  }

  lemma StatusKeepsChosen(times: nat, log: Log, e: Event)
    requires e.Status? && Settled(log)
    ensures Chosen(times, log + [e]) == Chosen(times, log) && Returning(log + [e]) == Returning(log)
  {
    hide Ready, Asleep, Choices, Returning, FirstReport;
    AppendTurn(log, e);
    AppendReturning(log, e);
    StatusKeepsReport(log, e, Asleep(log));
  }

  /** A direct return leaves the lists alone and is no choice. */
  lemma ReturnLines(s: State, c: Context)
    requires Lines(s) && Accounted(s) && s.running.Some? && Returning(s.log).Some? && s.log != []
    ensures Lines(Note(s, Resumed(s.running.value.pid, c)))
  {
    hide Ready, Asleep, Choices, Returning, Accounted, Pids, Remove;
    AppendTurn(s.log, Resumed(s.running.value.pid, c));
    LeavesLists(s, s.running.value.pid);
  }

  /** The head of the run queue is taken off it. */
  lemma DispatchLines(s: State, c: Context)
    requires Lines(s) && Accounted(s) && Free(s.log) && s.log != [] && s.runnable != []
    ensures Lines(Note(s.(times := s.times + 1, runnable := s.runnable[1..]), Resumed(s.runnable[0].pid, c)))
  {
    hide Ready, Asleep, Choices, Returning, Accounted, Pids, Remove;
    AppendTurn(s.log, Resumed(s.runnable[0].pid, c));
    LeavesLists(s, s.runnable[0].pid);
    assert Without(s.runnable, 0) == s.runnable[1..];
  }

  /** A blocked process is taken off its list, whether or not its status has been written. */
  lemma WakeLines(s: State, i: nat, c: Context, e: Event)
    requires Lines(s) && Accounted(s) && Free(s.log) && s.log != [] && i < |s.blocked| && e.Status?
    ensures var s1, r := s.(times := s.times + 1, blocked := Without(s.blocked, i)), Resumed(s.blocked[i].pid, c);
            Lines(Note(s1, r)) && Lines(Note(Note(s1, e), r))
  {
    hide Ready, Asleep, Choices, Returning, Accounted, Pids, Remove;
    var r := Resumed(s.blocked[i].pid, c);
    AppendTurn(s.log, r);
    AppendTurn(s.log, e);
    AppendReturning(s.log, e);
    AppendTurn(s.log + [e], r);
    LeavesLists(s, s.blocked[i].pid);
  }

  // ----- leaving the handler -----

  /** The last event of a step: the process in `running` continues with registers `c`. */
  lemma ResumeInv(s: State, c: Context)
    requires Core(s) && s.running.Some?
    requires Chosen(s.start.times, s.log) == Some(s.running.value.pid) && ResumeOk(s.log, s.running.value.pid, c)
    requires Lines(Note(s, Resumed(s.running.value.pid, c)))
    requires IdsOk(s.log, s.globalPid, s.running.value)
    requires Conserved(s.log + [Resumed(s.running.value.pid, c)], s.running.value.pid, s.running.value.signals)
    ensures var p := s.running.value;
            Inv(Note(s.(live := c, fastPid := p.pid), Resumed(p.pid, c)))
  {
    hide ResumeOk, RunnablesOk, BlockedsOk, Correct, BornPids, DiedPids, Accounted, Conserved, Chosen;
    hide Own, Birth, Waiting, WaitResults, DeadChildren, Ready, Asleep, Choices;
    var p := s.running.value;
    var e := Resumed(p.pid, c);
    NotQueued(s, p.pid);
    var s0 := s.(live := c, fastPid := p.pid);
    assert Core(s0) && forall q :: Queued(s0, q) <==> Queued(s, q) by {
      SameCore(s, s0);
    }
    NoteCore(s0, e);
    Append(s.log, e, p.pid);
  }

  /** Core looks at the lists, the history and the pid counter only. */
  lemma SameCore(s: State, s': State)
    requires Core(s) && s'.log == s.log && s'.start == s.start && s'.globalPid == s.globalPid
    requires s'.running == s.running && s'.runnable == s.runnable && s'.blocked == s.blocked
    ensures Core(s')
  {
    hide RunnablesOk, BlockedsOk, Correct, BornPids, DiedPids, Bag;
  }

  /** The running process may change, as long as it stays the same process. */
  lemma SwapCore(s: State, p: Pcb)
    requires Core(s) && s.running.Some? && p.pid == s.running.value.pid
    ensures Core(s.(running := Some(p)))
  {
    hide RunnablesOk, BlockedsOk, Correct, BornPids, DiedPids, Bag;
  }

  /** A direct return, when the wait results do not change. */
  lemma ReturnInv(s: State, c: Context)
    requires Core(s) && s.running.Some? && s.fastPid == s.running.value.pid
    requires !Waiting(s.log, s.fastPid) && ResumeOk(s.log, s.fastPid, c)
    requires Lines(s) && Settled(s.log) && Returning(s.log) == Some(s.fastPid)
    requires IdsOk(s.log, s.globalPid, s.running.value) && Conserved(s.log, s.fastPid, s.running.value.signals)
    ensures Inv(ReturnTo(s, c).state)
  {
    hide ResumeOk, Core, Waiting, WaitResults, DeadChildren, Own, Birth, Lines, Returning;
    Append(s.log, Resumed(s.fastPid, c), s.fastPid);
    CoreAccounted(s);
    ReturnLines(s, c);
    ResumeInv(s, c);
    assert s.(live := c, fastPid := s.fastPid) == s.(live := c);
  }

  lemma CoreAccounted(s: State)
    requires Core(s)
    ensures Accounted(s)
  {
  }

  /** What a queued process is, it still is after an event that does not name it. */
  lemma PcbKeeps(log: Log, g: int, p: Pcb, e: Event)
    requires e.Status?
    ensures IdsOk(log, g, p) ==> IdsOk(log + [e], g, p)
    ensures Conserved(log, p.pid, p.signals) ==> Conserved(log + [e], p.pid, p.signals)
    ensures RunnableOk(log, p) ==> RunnableOk(log + [e], p)
    ensures BlockedOk(log, p) ==> BlockedOk(log + [e], p)
  {
    hide Own, Birth, Waiting, WaitResults, DeadChildren;
    Append(log, e, p.pid);
  }

  /** The head of the run queue leaves it to run. */
  lemma DispatchCore(s: State)
    requires Core(s) && s.running.None? && s.runnable != []
    ensures var p := s.runnable[0];
            && Core(s.(times := s.times + 1, runnable := s.runnable[1..], running := Some(p)))
            && IdsOk(s.log, s.globalPid, p) && Conserved(s.log, p.pid, p.signals) && RunnableOk(s.log, p)
  {
    hide Correct, BornPids, DiedPids, Bag, IdsOk, Conserved, RunnableOk, BlockedOk;
    PidsWithout(s.runnable, 0);
    assert Without(s.runnable, 0) == s.runnable[1..];
  }

  lemma RunnableResumes(log: Log, p: Pcb)
    requires RunnableOk(log, p) && Conserved(log, p.pid, p.signals)
    ensures ResumeOk(log, p.pid, p.context)
    ensures Conserved(log + [Resumed(p.pid, p.context)], p.pid, p.signals)
  {
    hide Own, Waiting, WaitResults, DeadChildren;
    Append(log, Resumed(p.pid, p.context), p.pid);
  }

  lemma DispatchInv(s: State)
    requires Core(s) && Lines(s) && Free(s.log) && s.log != [] && s.running.None? && s.runnable != []
    requires s.times <= 100 || !AnySignalled(s.blocked)
    ensures Inv(Restore(s.(times := s.times + 1, runnable := s.runnable[1..]), s.runnable[0]))
  {
    hide Core, Lines, Free, Inv, ResumeOk, IdsOk, Conserved, RunnableOk, Chosen, FirstSignalled;
    var p := s.runnable[0];
    DispatchCore(s);
    RunnableResumes(s.log, p);
    ChosenIs(s);
    CoreAccounted(s);
    DispatchLines(s, p.context);
    var s2 := s.(times := s.times + 1, runnable := s.runnable[1..], running := Some(p));
    SameLines(Note(s.(times := s.times + 1, runnable := s.runnable[1..]), Resumed(p.pid, p.context)),
              Note(s2, Resumed(p.pid, p.context)));
    ResumeInv(s2, p.context);
  }

  lemma SameLines(s: State, s': State)
    requires Lines(s) && s'.log == s.log && s'.runnable == s.runnable && s'.blocked == s.blocked
    requires s'.times == s.times && s'.dirty == s.dirty && s'.tests == s.tests && s'.start == s.start
    ensures Lines(s')
  {
  }

  /** A blocked process leaves its list to run, with another context and fewer signals. */
  lemma WakeCore(s: State, i: nat, p': Pcb)
    requires Core(s) && s.running.None? && i < |s.blocked| && p'.pid == s.blocked[i].pid
    ensures var p := s.blocked[i];
            && Core(s.(blocked := Without(s.blocked, i), running := Some(p')))
            && IdsOk(s.log, s.globalPid, p) && Conserved(s.log, p.pid, p.signals) && BlockedOk(s.log, p)
  {
    hide Correct, BornPids, DiedPids, Bag, IdsOk, Conserved, RunnableOk, BlockedOk;
    PidsWithout(s.blocked, i);
    assert s.blocked[i] in s.blocked;
  }

  /** A blocked process continues with its oldest signal as the result of its wait, once the status is written. */
  lemma WokenResumes(log: Log, p: Pcb)
    requires BlockedOk(log, p) && Conserved(log, p.pid, p.signals) && p.signals != [] && log != []
    requires Last(log).Status? <==> p.wstatus != 0 && Returning(log).None?
    ensures var c := p.context.(a0 := p.signals[0].pid);
            ResumeOk(log, p.pid, c) && Conserved(log + [Resumed(p.pid, c)], p.pid, p.signals[1..])
  {
    hide Own, Waiting, WaitResults, DeadChildren, Returning;
    Append(log, Resumed(p.pid, p.context.(a0 := p.signals[0].pid)), p.pid);
  }

  lemma StatusOk(start: Start, log: Log, p: Pcb)
    requires BlockedOk(log, p) && Conserved(log, p.pid, p.signals) && p.signals != [] && p.wstatus != 0
    requires Free(log) && log != [] && Chosen(start.times, log) == Some(p.pid)
    ensures EventOk(start, log, Status(p.pid, p.wstatus, p.signals[0].code * 256))
  {
    hide Own, Waiting, WaitResults, DeadChildren, Chosen, Returning;
  }

  lemma WakeInv(s: State, i: nat)
    requires Core(s) && Lines(s) && Free(s.log) && s.log != [] && s.running.None?
    requires i < |s.blocked| && s.blocked[i].signals != [] && Chosen(s.start.times, s.log) == Some(s.blocked[i].pid)
    ensures Inv(Wake(s.(times := s.times + 1), i))
  {
    hide Core, Lines, Inv, ResumeOk, EventOk, IdsOk, Conserved, BlockedOk, Chosen, Returning;
    var p := s.blocked[i];
    var sig := p.signals[0];
    var p' := p.(context := p.context.(a0 := sig.pid), signals := p.signals[1..]);
    var s1 := s.(times := s.times + 1, blocked := Without(s.blocked, i), running := Some(p'));
    WakeCore(s, i, p');
    CoreAccounted(s);
    SameCore(s.(blocked := s1.blocked, running := s1.running), s1);
    var e, back := Status(p.pid, p.wstatus, sig.code * 256), Resumed(p.pid, p'.context);
    WakeLines(s, i, p'.context, e);
    var s2 := if p.wstatus != 0 then Note(s1, e) else s1;
    if p.wstatus != 0 {
      StatusOk(s.start, s.log, p);
      PidInRange(s.log, s.globalPid, p);
      NoteCore(s1, e);
      PcbKeeps(s.log, s.globalPid, p, e);
      StatusKeepsChosen(s.start.times, s.log, e);
    }
    WokenResumes(s2.log, p);
    SameIds(s2.log, s.globalPid, p, p');
    SameLines(Note(s2.(running := None), back), Note(s2, back));
    ResumeInv(s2, p'.context);
  }

  lemma PidInRange(log: Log, g: int, p: Pcb)
    requires IdsOk(log, g, p)
    ensures p.pid <= g
  {
  }

  lemma SameIds(log: Log, g: int, p: Pcb, p': Pcb)
    requires IdsOk(log, g, p) && p' == p.(context := p'.context, signals := p'.signals)
    ensures IdsOk(log, g, p')
  {
  }

  /** Whatever process is picked, it is the right one, and the step ends in a good state. */
  lemma {:induction false} ScheduleInv(s: State)
    requires Core(s) && Lines(s) && Free(s.log) && s.running.None?
    ensures Good(Schedule(s))
    decreases |s.tests|
  {
    hide Core, Lines, Free, Inv, Wake, Spawn, Restore, FirstSignalled, Chosen;
    if s.log == [] {
      LinesMean(s);
      SameCore(s, s.(times := s.times + 1));
      if s.tests != [] {
        var s' := FirstSpawn(s);
        ScheduleInv(s');
      }
    } else {
      ChosenIs(s);
      if AnySignalled(s.blocked) && (s.times > 100 || s.runnable == []) {
        WakeInv(s, FirstSignalled(s.blocked));
      } else if s.runnable != [] {
        DispatchInv(s);
      } else {
        NoneSignalled(s.blocked);
        LinesMean(s);
        SameCore(s, s.(times := s.times + 1));
      }
    }
  }

  lemma LinesMean(s: State)
    requires Lines(s)
    ensures s.times == s.start.times + Choices(s.log)
    ensures s.log == [] ==> s.runnable == [] && s.blocked == [] && Chosen(s.start.times, s.log) == None
    ensures if s.log == [] then !s.dirty && s.tests == s.start.tests else s.dirty
  {
    if s.log == [] {
      assert |Pids(s.runnable)| == 0 && |Pids(s.blocked)| == 0;
    }
  }

  /** The first choice of a boot starts the first program. */
  lemma FirstSpawn(s: State) returns (s': State)
    requires Core(s) && Lines(s) && s.running.None? && s.log == [] && s.tests != []
    ensures var s1 := s.(times := s.times + 1, tests := s.tests[1..]);
            s' == Spawn(s1, 1, s.tests[0].stack, s.tests[0].context).(dirty := true)
    ensures Core(s') && Lines(s') && Free(s'.log) && s'.log != [] && s'.running.None? && |s'.tests| < |s.tests|
  {
    hide Core, Lines, Spawn;
    LinesMean(s);
    var image := s.tests[0];
    var s1 := s.(times := s.times + 1, tests := s.tests[1..]);
    SameCore(s, s1);
    SpawnAnyCore(s1, image);
    s' := Spawn(s1, 1, image.stack, image.context).(dirty := true);
    SpawnKeepsRest(s1, 1, image.stack, image.context);
    SameCore(Spawn(s1, 1, image.stack, image.context), s');
    FirstLines(s, s', Born(s.globalPid + 1, 1, image.stack, image.context));
  }

  lemma FirstLines(s: State, s': State, e: Event)
    requires Lines(s) && s.log == [] && e.Born? && e.ppid == 1 && s'.log == [e] && s'.dirty && s'.start == s.start
    requires Pids(s'.runnable) == [e.pid] && s'.blocked == s.blocked && s'.times == s.times + 1
    ensures Lines(s') && Free(s'.log)
  {
    assert [] + [e] == [e];
    AppendTurn([], e);
    AppendReturning([], e);
  }

  lemma NoneSignalled(ps: seq<Pcb>)
    ensures !AnySignalled(ps) ==> forall p :: p in ps ==> p.signals == []
  {
  }

  lemma SpawnKeepsRest(s: State, ppid: int, stack: int, c: Context)
    ensures var s' := Spawn(s, ppid, stack, c);
            && s'.running == s.running && s'.tests == s.tests && s'.fastPid == s.fastPid && s'.live == s.live
            && s'.start == s.start && s'.times == s.times && s'.blocked == s.blocked && s'.globalPid == s.globalPid + 1
            && s'.log == s.log + [Born(s'.globalPid, ppid, stack, c)]
            && Pids(s'.runnable) == Pids(s.runnable) + [s'.globalPid]
  {
  }

  lemma SpawnAnyCore(s: State, image: Image)
    requires Core(s) && s.log == [] && s.start.tests != [] && image == s.start.tests[0]
    ensures Core(Spawn(s, 1, image.stack, image.context))
  {
    hide Accounted, RunnablesOk, BlockedsOk, Correct;
    SpawnCore(s, 1, image.stack, image.context);
  }

  // ----- the handlers -----

  /** The state in the middle of a step: the running process has just trapped. */
  ghost predicate InTrap(s: State, trap: Trap) {
    && Core(s) && s.running.Some? && s.fastPid == s.running.value.pid
    && IdsOk(s.log, s.globalPid, s.running.value)
    && Conserved(s.log, s.fastPid, s.running.value.signals)
    && Waiting(s.log, s.fastPid) == trap.Wait?
    && Own(s.log, s.fastPid) == Some(Trapped(s.fastPid, s.live, trap))
    && s.log != [] && Last(s.log) == Trapped(s.fastPid, s.live, trap)
    && TrapLines(s, trap)
  }

  /** A process that yields or waits is in line from its trap on. */
  ghost predicate TrapLines(s: State, trap: Trap)
    requires s.running.Some?
  {
    var p := s.running.value;
    && Ready(s.log) == Pids(s.runnable) + (if Yields(trap) then [p.pid] else [])
    && Asleep(s.log) == Pids(s.blocked) + (if trap.Wait? then [p.pid] else [])
    && s.times == s.start.times + Choices(s.log) && s.dirty && s.log != []
    && Returning(s.log) == if Yields(trap) || trap.Exit? || (trap.Wait? && p.signals == []) then None else Some(p.pid)
  }

  lemma TrapEnters(s: State, c: Context, trap: Trap)
    requires Inv(s)
    ensures InTrap(Note(s.(live := c), Trapped(s.running.value.pid, c, trap)), trap)
  {
    hide Accounted, RunnablesOk, BlockedsOk, Correct, Own, Birth, Waiting, WaitResults, DeadChildren, TrapLines, Lines;
    var e := Trapped(s.fastPid, c, trap);
    var s0 := s.(live := c);
    SameCore(s, s0);
    NotQueued(s, s.fastPid);
    assert forall p :: Queued(s0, p) <==> Queued(s, p);
    NoteCore(s0, e);
    Append(s.log, e, s.fastPid);
    TrapEntersLines(s, c, trap);
  }

  lemma TrapEntersLines(s: State, c: Context, trap: Trap)
    requires Lines(s) && s.running.Some? && s.log != []
    requires Conserved(s.log, s.running.value.pid, s.running.value.signals)
    ensures TrapLines(Note(s.(live := c), Trapped(s.running.value.pid, c, trap)), trap)
  {
    hide Ready, Asleep, Choices, Returning, Pids, WaitResults, DeadChildren;
    var e := Trapped(s.running.value.pid, c, trap);
    AppendTurn(s.log, e);
    AppendReturning(s.log, e);
    assert Pids(s.runnable) + [] == Pids(s.runnable) && Pids(s.blocked) + [] == Pids(s.blocked);
  }

  /** A trap that neither yields nor waits leaves the lists as they are. */
  lemma PlainLines(s: State, trap: Trap)
    requires s.running.Some? && TrapLines(s, trap) && !Yields(trap) && !trap.Wait?
    ensures Lines(s)
  {
    assert Pids(s.runnable) + [] == Pids(s.runnable) && Pids(s.blocked) + [] == Pids(s.blocked);
  }

  /** The process that gave up the processor joins the list it is in line for. */
  lemma JoinLines(s: State, trap: Trap, p: Pcb, s': State)
    requires s.running.Some? && TrapLines(s, trap) && p.pid == s.running.value.pid
    requires s' == if Yields(trap) then s.(running := None, runnable := s.runnable + [p])
                   else s.(running := None, blocked := s.blocked + [p])
    requires Yields(trap) || (trap.Wait? && s.running.value.signals == [])
    requires Last(s.log).Trapped? && Last(s.log).trap == trap
    ensures Lines(s') && Free(s'.log)
  {
    hide Ready, Asleep, Choices, Returning;
    assert Pids(s.runnable + [p]) == Pids(s.runnable) + [p.pid];
    assert Pids(s.blocked + [p]) == Pids(s.blocked) + [p.pid];
    assert Pids(s.runnable) + [] == Pids(s.runnable) && Pids(s.blocked) + [] == Pids(s.blocked);
  }

  lemma RequeueInv(s: State, trap: Trap, c: Context)
    requires InTrap(s, trap) && (trap.Yield? || trap.RawYield? || trap.YieldReturn?)
    requires ResumeOk(s.log, s.fastPid, c)
    ensures Good(Requeue(s, c))
  {
    hide Correct, BornPids, DiedPids, Bag, Own, Birth, Waiting, WaitResults, DeadChildren, Schedule, TrapLines, Lines;
    hide Free;
    var p := s.running.value.(context := c);
    var s1 := s.(running := None, runnable := s.runnable + [p]);
    assert Core(s1) by {
      PidsAppend(s.runnable, p);
    }
    JoinLines(s, trap, p, s1);
    ScheduleInv(s1);
  }

  lemma WaitInv(s: State, w: int)
    requires InTrap(s, Wait(w))
    ensures Good(Handle(s, Wait(w)))
  {
    hide Core, Own, Birth, Waiting, WaitResults, DeadChildren, Schedule, TrapLines, Lines, Free, Chosen;
    var p := s.running.value;
    if p.signals != [] {
      var p' := p.(signals := p.signals[1..]);
      SwapCore(s, p');
      var c := Return(s.live, p.signals[0].pid);
      Append(s.log, Resumed(p.pid, c), p.pid);
      CoreAccounted(s);
      WaitReturnLines(s, p', w, c);
      ResumeInv(s.(running := Some(p')), c);
      assert s.(running := Some(p'), live := c, fastPid := p.pid) == s.(running := Some(p'), live := c);
    } else {
      var p' := p.(context := Skip(s.live), wstatus := w);
      BlockCore(s, p');
      JoinLines(s, Wait(w), p', s.(running := None, blocked := s.blocked + [p']));
      ScheduleInv(s.(running := None, blocked := s.blocked + [p']));
    }
  }

  /** A wait that finds a signal is in line only until it returns. */
  lemma WaitReturnLines(s: State, p: Pcb, w: int, c: Context)
    requires s.running.Some? && TrapLines(s, Wait(w)) && Accounted(s) && p.pid == s.running.value.pid
    requires s.running.value.signals != [] && Last(s.log).Trapped? && Last(s.log).trap == Wait(w)
    ensures Lines(Note(s.(running := Some(p)), Resumed(p.pid, c)))
    ensures Returning(s.log).Some? && Chosen(s.start.times, s.log) == Some(p.pid)
  {
    hide Ready, Asleep, Choices, Returning, Accounted, Pids;
    AppendTurn(s.log, Resumed(p.pid, c));
    LeavesLists(s, p.pid);
    assert Pids(s.runnable) + [] == Pids(s.runnable);
    var asleep := Pids(s.blocked) + [p.pid];
    assert asleep[..|asleep| - 1] == Pids(s.blocked);
  }

  lemma BlockCore(s: State, p: Pcb)
    requires Core(s) && s.running.Some? && p.pid == s.running.value.pid
    requires IdsOk(s.log, s.globalPid, p) && Conserved(s.log, p.pid, p.signals) && BlockedOk(s.log, p)
    ensures Core(s.(running := None, blocked := s.blocked + [p]))
  {
    hide Correct, BornPids, DiedPids, Bag, IdsOk, Conserved, RunnableOk, BlockedOk;
    PidsAppend(s.blocked, p);
  }

  lemma CloneInv(s: State, trap: Trap)
    requires InTrap(s, trap) && trap.Clone?
    ensures Inv(Handle(s, trap).state)
  {
    hide RunnablesOk, BlockedsOk, Accounted, Correct, Own, Birth, Waiting, WaitResults;
    hide DeadChildren, Schedule, TrapLines;
    var p, c := s.running.value, s.live;
    var stack := if trap.childSp != 0 then p.stack else trap.page;
    var c0 := ChildContext(c, p.stack, trap);
    SpawnCore(s, p.pid, stack, c0);
    SpawnKeepsRest(s, p.pid, stack, c0);
    CloneReturns(s, trap, Spawn(s, p.pid, stack, c0), Born(s.globalPid + 1, p.pid, stack, c0));
  }

  lemma CloneReturns(s: State, trap: Trap, s1: State, e: Event)
    requires InTrap(s, trap) && trap.Clone? && Core(s1) && s1.running == s.running && s1.fastPid == s.fastPid
    requires s1.log == s.log + [e] && e.Born? && e.pid == s1.globalPid == s.globalPid + 1 && e.ppid == s.fastPid
    requires Pids(s1.runnable) == Pids(s.runnable) + [e.pid] && s1.blocked == s.blocked
    requires s1.times == s.times && s1.start == s.start && s1.dirty == s.dirty
    ensures var c1 := s.live.(a0 := e.pid);
            Inv(ReturnTo(s1.(running := Some(s.running.value.(context := c1))), Skip(c1)).state)
  {
    hide Core, Own, Birth, Waiting, WaitResults, DeadChildren, Inv, TrapLines, Lines;
    var p := s.running.value;
    Append(s.log, e, p.pid);
    var c1 := s.live.(a0 := e.pid);
    SwapCore(s1, p.(context := c1));
    CloneLines(s, trap, s1, e);
    SameLines(s1, s1.(running := Some(p.(context := c1))));
    ReturnInv(s1.(running := Some(p.(context := c1))), Skip(c1));
  }

  lemma CloneLines(s: State, trap: Trap, s1: State, e: Event)
    requires s.running.Some? && TrapLines(s, trap) && trap.Clone? && e.Born? && s1.log == s.log + [e] && e.ppid != 1
    requires Pids(s1.runnable) == Pids(s.runnable) + [e.pid] && s1.blocked == s.blocked
    requires s1.times == s.times && s1.start == s.start && s1.dirty == s.dirty
    ensures Lines(s1) && Settled(s1.log) && Returning(s1.log) == Some(s.running.value.pid)
  {
    hide Ready, Asleep, Choices, Returning;
    PlainLines(s, trap);
    AppendTurn(s.log, e);
    AppendReturning(s.log, e);
  }

  /** A process leaves its place and its exit record enters the history. */
  lemma DeathCore(s: State, s': State, p: Pcb, code: int)
    requires Core(s) && IdsOk(s.log, s.globalPid, p) && Places(s) == Places(s') + multiset{p.pid}
    requires s'.log == s.log + [Died(p.pid, p.ppid, code)] && s'.globalPid == s.globalPid
    requires s'.start == s.start && s.log != [] && Last(s.log).Trapped?
    requires || (Last(s.log).pid == p.pid && Last(s.log).trap == Exit(code))
             || (Last(s.log).trap == Kill(p.pid) && code == 1)
    requires RunnablesOk(s'.log, s.globalPid, s'.runnable) && BlockedsOk(s'.log, s.globalPid, s'.blocked)
    ensures Core(s')
  {
    hide Correct, BornPids, DiedPids, RunnablesOk, BlockedsOk, Birth, Places;
    var e := Died(p.pid, p.ppid, code);
    AppendCounts(s.log, e);
    assert p.pid !in DiedPids(s.log) by {
      assert BornPids(s.log)[p.pid] <= 1;
      assert Places(s)[p.pid] >= 1;
    }
    CorrectAppend(s.start, s.log, e);
  }

  lemma ExitInv(s: State, code: int)
    requires InTrap(s, Exit(code))
    ensures Good(Handle(s, Exit(code)))
  {
    hide Correct, BornPids, DiedPids, Bag, RunnablesOk, BlockedsOk, Own, Birth, Waiting;
    hide WaitResults, DeadChildren, TrapLines, Lines, Free;
    hide Schedule, DeliverAll, Accounted;
    var p := s.running.value;
    var s1 := Notify(s, p, code).(running := None);
    var sig := Signal(p.pid, code);
    NotifyQueues(s.log, s.globalPid, s.runnable, s.blocked, Died(p.pid, p.ppid, code));
    PidsDeliver(s.runnable, p.ppid, sig);
    PidsDeliver(s.blocked, p.ppid, sig);
    DeathCore(s, s1, p, code);
    CoreAccounted(s);
    ExitLines(s, code);
    ScheduleInv(s1);
  }

  /** The process that exits is in no list, and the processor is free. */
  lemma ExitLines(s: State, code: int)
    requires s.running.Some? && TrapLines(s, Exit(code)) && Accounted(s)
    ensures var s' := Notify(s, s.running.value, code).(running := None); Lines(s') && Free(s'.log)
  {
    hide Ready, Asleep, Choices, Returning, Accounted, Pids, DeliverAll, Remove;
    var p := s.running.value;
    var e := Died(p.pid, p.ppid, code);
    PlainLines(s, Exit(code));
    AppendTurn(s.log, e);
    AppendReturning(s.log, e);
    LeavesLists(s, p.pid);
    DeliverKeepsPids(s, p.ppid, Signal(p.pid, code));
  }

  lemma DeliverKeepsPids(s: State, to: int, sig: Signal)
    ensures Pids(DeliverAll(s.runnable, to, sig)) == Pids(s.runnable)
    ensures Pids(DeliverAll(s.blocked, to, sig)) == Pids(s.blocked)
  {
  }

  /** A victim leaves its list; the process that killed it goes on. */
  lemma KillLines(s: State, q: int, victim: Pcb, i: nat, s': State)
    requires s.running.Some? && TrapLines(s, Kill(q)) && Accounted(s) && victim.pid == q
    requires Last(s.log).Trapped? && Last(s.log).trap == Kill(q)
    requires var s1 := Notify(s, victim, 1);
             || (i < |s.runnable| && s.runnable[i] == victim && s' == s1.(runnable := Without(s1.runnable, i)))
             || (i < |s.blocked| && s.blocked[i] == victim && s' == s1.(blocked := Without(s1.blocked, i)))
    ensures Lines(s') && Settled(s'.log) && Returning(s'.log) == Some(s.running.value.pid)
  {
    hide Ready, Asleep, Choices, Returning, Accounted, Pids, DeliverAll, Remove;
    var e := Died(q, victim.ppid, 1);
    PlainLines(s, Kill(q));
    AppendTurn(s.log, e);
    AppendReturning(s.log, e);
    LeavesLists(s, q);
    var sig := Signal(q, 1);
    DeliverKeepsPids(s, victim.ppid, sig);
    if i < |s.runnable| && s.runnable[i] == victim {
      WithoutPids(s.runnable, DeliverAll(s.runnable, victim.ppid, sig), i);
    }
    if i < |s.blocked| && s.blocked[i] == victim {
      WithoutPids(s.blocked, DeliverAll(s.blocked, victim.ppid, sig), i);
    }
  }

  lemma WithoutPids(a: seq<Pcb>, b: seq<Pcb>, i: nat)
    requires Pids(a) == Pids(b) && i < |a| && |a| == |b|
    ensures Pids(Without(a, i)) == Pids(Without(b, i))
  {
    assert forall k :: 0 <= k < |a| ==> Pids(a)[k] == a[k].pid && Pids(b)[k] == b[k].pid;
  }

  lemma NoIndexNoPid(ps: seq<Pcb>, pid: int)
    requires IndexOf(ps, pid) == |ps|
    ensures Bag(ps)[pid] == 0
  {
    assert pid !in Pids(ps);
  }

  /** The running process after one of its relatives died: its registers are untouched, its signals conserved. */
  lemma RunningNotified(s: State, trap: Trap, e: Event)
    requires InTrap(s, trap) && e.Died?
    ensures var p := Deliver(s.running.value, e.ppid, Signal(e.pid, e.code));
            var log' := s.log + [e];
            && IdsOk(log', s.globalPid, p) && Conserved(log', s.fastPid, p.signals)
            && Waiting(log', s.fastPid) == trap.Wait? && Own(log', s.fastPid) == Some(Trapped(s.fastPid, s.live, trap))
            && Last(log') == e
  {
    hide Core, Own, Birth, Waiting, WaitResults, DeadChildren;
    NotifyOne(s.log, s.running.value, e);
  }

  lemma KillQueuedInv(s: State, q: int)
    requires InTrap(s, Kill(q)) && q != s.fastPid
    requires IndexOf(s.runnable, q) < |s.runnable| || IndexOf(s.blocked, q) < |s.blocked|
    ensures Inv(HandleKill(s, q).state)
  {
    hide Core, TrapLines, Lines, Returning, Waiting, Conserved, Own, IdsOk, DeliverAll, IndexOf, Deliver;
    var i, j := IndexOf(s.runnable, q), IndexOf(s.blocked, q);
    var victim, k := if i < |s.runnable| then s.runnable[i] else s.blocked[j], if i < |s.runnable| then i else j;
    var s1 := Notify(s, victim, 1);
    var s2 := if i < |s.runnable| then s1.(runnable := Without(s1.runnable, i))
              else s1.(blocked := Without(s1.blocked, j));
    RunningNotified(s, Kill(q), Died(q, victim.ppid, 1));
    DelivererPid(s, victim, Signal(q, 1), i, j);
    KilledCore(s, q, victim, k, s2);
    CoreAccounted(s);
    KillLines(s, q, victim, k, s2);
    ReturnInv(s2, Return(s.live, 0));
  }

  /** A queued victim leaves its place. */
  lemma KilledCore(s: State, q: int, victim: Pcb, i: nat, s': State)
    requires InTrap(s, Kill(q)) && victim.pid == q
    requires var s1 := Notify(s, victim, 1);
             || (i < |s.runnable| && s.runnable[i] == victim && s' == s1.(runnable := Without(s1.runnable, i)))
             || (i < |s.blocked| && s.blocked[i] == victim && s' == s1.(blocked := Without(s1.blocked, i)))
    ensures Core(s')
  {
    hide Correct, BornPids, DiedPids, Bag, RunnableOk, BlockedOk, Conserved, Own, Birth;
    hide Waiting, WaitResults, DeadChildren, TrapLines, PidsBelow, BornAbove;
    hide DeliverAll, Accounted, Deliver, IdsOk;
    assert Queued(s, victim);
    var e, sig := Died(q, victim.ppid, 1), Signal(q, 1);
    NotifyQueues(s.log, s.globalPid, s.runnable, s.blocked, e);
    PidsDeliver(s.runnable, victim.ppid, sig);
    PidsDeliver(s.blocked, victim.ppid, sig);
    DelivererPid(s, victim, sig, i, i);
    var s1 := Notify(s, victim, 1);
    if i < |s.runnable| && s.runnable[i] == victim && s' == s1.(runnable := Without(s1.runnable, i)) {
      PidsWithout(s1.runnable, i);
    } else {
      PidsWithout(s1.blocked, i);
    }
    DeathCore(s, s', victim, 1);
  }

  lemma DelivererPid(s: State, victim: Pcb, sig: Signal, i: nat, j: nat)
    requires i < |s.runnable| || j < |s.blocked|
    ensures i < |s.runnable| ==> DeliverAll(s.runnable, victim.ppid, sig)[i].pid == s.runnable[i].pid
    ensures j < |s.blocked| ==> DeliverAll(s.blocked, victim.ppid, sig)[j].pid == s.blocked[j].pid
    ensures s.running.Some? ==> Deliver(s.running.value, victim.ppid, sig).pid == s.running.value.pid
  {
  }

  lemma KillNobodyInv(s: State, q: int)
    requires InTrap(s, Kill(q)) && q != s.fastPid
    requires IndexOf(s.runnable, q) == |s.runnable| && IndexOf(s.blocked, q) == |s.blocked|
    ensures Inv(HandleKill(s, q).state)
  {
    hide Correct, BornPids, DiedPids, Bag, Own, Birth, Waiting, WaitResults, DeadChildren, IndexOf;
    NoIndexNoPid(s.runnable, q);
    NoIndexNoPid(s.blocked, q);
    PlainLines(s, Kill(q));
    ReturnInv(s, Return(s.live, WORD - 1));
  }

  /** Killing the running process leaves it running although it counts as dead. */
  lemma KillSelfBreaks(s: State, q: int)
    requires InTrap(s, Kill(q)) && q == s.fastPid
    ensures HandleKill(s, q).Resume? && !Accounted(HandleKill(s, q).state)
  {
    hide Correct, RunnablesOk, BlockedsOk, PidsBelow, IdsOk, Conserved, Own, Waiting;
    hide BornPids, DiedPids, Bag, DeliverAll;
    var p := s.running.value;
    var e, back := Died(q, p.ppid, 1), Resumed(q, Return(s.live, 0));
    PidsDeliver(s.runnable, p.ppid, Signal(q, 1));
    PidsDeliver(s.blocked, p.ppid, Signal(q, 1));
    AppendCounts(s.log, e);
    AppendCounts(s.log + [e], back);
    var s' := HandleKill(s, q).state;
    assert s'.log == s.log + [e] + [back];
    assert Places(s') == Places(s);
    assert BornPids(s'.log) == BornPids(s.log) && DiedPids(s'.log) == DiedPids(s.log) + multiset{q};
    OneMoreDeath(BornPids(s.log), Places(s), DiedPids(s.log), q);
  }

  /** Counting one more death of `q` cannot balance. */
  lemma OneMoreDeath(born: multiset<int>, places: multiset<int>, died: multiset<int>, q: int)
    requires born == places + died
    ensures born != places + (died + multiset{q})
  {
    assert (places + (died + multiset{q}))[q] == places[q] + died[q] + 1;
    assert born[q] == places[q] + died[q];
  }

  // ----- the theorems -----

  /** Every step but a kill aimed at the running process itself leads to a good state again, or stops the machine. */
  lemma StepKeepsInv(s: State, c: Context, trap: Trap)
    requires Inv(s) && trap != Kill(s.running.value.pid)
    ensures Good(Step(s, c, trap))
  {
    hide Core, Own, Birth, Waiting, WaitResults, DeadChildren, Schedule, Inv, Lines;
    TrapEntersFacts(s, c, trap);
    var s1 := Note(s.(live := c), Trapped(s.running.value.pid, c, trap));
    if trap.Tick? || trap.Breakpoint? || trap.Call? {
      PlainLines(s1, trap);
    }
    match trap
    case Tick => ReturnInv(s1, c);
    case Breakpoint => ReturnInv(s1, Skip(c));
    case Call(v) => ReturnInv(s1, Return(c, v));
    case Yield => RequeueInv(s1, trap, Skip(c));
    case RawYield => RequeueInv(s1, trap, c);
    case YieldReturn(v) => RequeueInv(s1, trap, Return(c, v));
    case Clone(_, _, _) => CloneInv(s1, trap);
    case Wait(w) => WaitInv(s1, w);
    case Exit(code) => ExitInv(s1, code);
    case Kill(q) =>
      if IndexOf(s1.runnable, q) < |s1.runnable| || IndexOf(s1.blocked, q) < |s1.blocked| {
        KillQueuedInv(s1, q);
      } else {
        KillNobodyInv(s1, q);
      }
  }

  lemma TrapEntersFacts(s: State, c: Context, trap: Trap)
    requires Inv(s)
    ensures s.running.Some? && s.running.value.pid == s.fastPid
    ensures InTrap(Note(s.(live := c), Trapped(s.running.value.pid, c, trap)), trap)
  {
    TrapEnters(s, c, trap);
  }

  /** A kill keeps the invariant exactly when it is not aimed at the process that calls it. */
  lemma KillKeepsInvIff(s: State, c: Context, q: int)
    requires Inv(s)
    ensures Step(s, c, Kill(q)).Resume? && (Inv(Step(s, c, Kill(q)).state) <==> q != s.running.value.pid)
  {
    hide RunnablesOk, BlockedsOk, Correct, Accounted, Own, Birth, Waiting, WaitResults;
    hide DeadChildren, IndexOf;
    if q == s.running.value.pid {
      TrapEnters(s, c, Kill(q));
      KillSelfBreaks(Note(s.(live := c), Trapped(q, c, Kill(q))), q);
    } else {
      StepKeepsInv(s, c, Kill(q));
    }
  }

  datatype Input = Input(context: Context, trap: Trap)

  /** A whole run from boot: the state after the first resume and the given traps, or how the machine stopped. */
  function Run(start: Start, inputs: seq<Input>): (o: Outcome)
    ensures o.Resume? ==> o.state.running.Some?
  {
    var n := |inputs|;
    if n == 0 then Schedule(Boot(start))
    else
      var o := Run(start, inputs[..n - 1]);
      if !o.Resume? then o else Step(o.state, inputs[n - 1].context, inputs[n - 1].trap)
  }

  /** No process of the run kills itself through the kill call. */
  ghost predicate Legal(start: Start, inputs: seq<Input>) {
    forall n :: 0 <= n < |inputs| ==>
      var o := Run(start, inputs[..n]);
      o.Resume? ==> inputs[n].trap != Kill(o.state.running.value.pid)
  }

  lemma {:induction false} RunsKeepInv(start: Start, inputs: seq<Input>)
    requires Legal(start, inputs)
    ensures Good(Run(start, inputs))
  {
    hide Inv, Step, Schedule, Core;
    var n := |inputs|;
    if n == 0 {
      BootCore(start);
      ScheduleInv(Boot(start));
    } else {
      var before := inputs[..n - 1];
      assert forall k :: 0 <= k < n - 1 ==> before[..k] == inputs[..k];
      RunsKeepInv(start, before);
      var o := Run(start, before);
      if o.Resume? {
        StepKeepsInv(o.state, inputs[n - 1].context, inputs[n - 1].trap);
      }
    }
  }

  // The record of how the boot began never changes.

  lemma {:induction false} ScheduleKeepsStart(s: State)
    ensures Schedule(s).state.start == s.start
    decreases |s.tests|
  {
    if s.tests != [] {
      var image := s.tests[0];
      var s1 := s.(times := s.times + 1, tests := s.tests[1..]);
      ScheduleKeepsStart(Spawn(s1, 1, image.stack, image.context).(dirty := true));
    }
  }

  lemma HandleKeepsStart(s: State, trap: Trap)
    requires s.running.Some?
    ensures Handle(s, trap).state.start == s.start
  {
    hide Schedule, IndexOf;
    var p, c := s.running.value, s.live;
    match trap {
      case Yield => RequeueKeepsStart(s, Skip(c));
      case RawYield => RequeueKeepsStart(s, c);
      case YieldReturn(v) => RequeueKeepsStart(s, Return(c, v));
      case Wait(w) =>
        if p.signals == [] {
          ScheduleKeepsStart(s.(running := None, blocked := s.blocked + [p.(context := Skip(c), wstatus := w)]));
        }
      case Exit(code) => ScheduleKeepsStart(Notify(s, p, code).(running := None));
      case _ =>
    }
  }

  lemma RequeueKeepsStart(s: State, c: Context)
    requires s.running.Some?
    ensures Requeue(s, c).state.start == s.start
  {
    hide Schedule;
    ScheduleKeepsStart(s.(running := None, runnable := s.runnable + [s.running.value.(context := c)]));
  }

  lemma {:induction false} RunsKeepStart(start: Start, inputs: seq<Input>)
    ensures Run(start, inputs).state.start == start
  {
    hide Handle, Schedule;
    var n := |inputs|;
    if n == 0 {
      ScheduleKeepsStart(Boot(start));
    } else {
      RunsKeepStart(start, inputs[..n - 1]);
      var o := Run(start, inputs[..n - 1]);
      if o.Resume? {
        var c, trap := inputs[n - 1].context, inputs[n - 1].trap;
        HandleKeepsStart(Note(o.state.(live := c), Trapped(o.state.running.value.pid, c, trap)), trap);
      }
    }
  }

  lemma BootCore(start: Start)
    ensures Core(Boot(start))
  {
  }

  /**
   In every state reached by a run: the history is correct, so every resume has the right registers;
   every process ever born is in exactly one place once, or died once; the fast pid is the running one.
   */
  lemma RunsAreSafe(start: Start, inputs: seq<Input>)
    requires Legal(start, inputs)
    ensures var o := Run(start, inputs);
            o.Resume? ==>
              && Correct(start, o.state.log)
              && BornPids(o.state.log) == Places(o.state) + DiedPids(o.state.log)
              && (forall q :: BornPids(o.state.log)[q] <= 1)
              && o.state.fastPid == o.state.running.value.pid
              && Last(o.state.log) == Resumed(o.state.fastPid, o.state.live)
  {
    hide Correct, Run, RunnablesOk, BlockedsOk;
    RunsKeepInv(start, inputs);
    RunsKeepStart(start, inputs);
  }

  /** In every reached state a process has a larger pid than its parent, which is the one it was born to. */
  lemma ParentsComeFirst(start: Start, inputs: seq<Input>, p: Pcb)
    requires Legal(start, inputs) && Run(start, inputs).Resume? && Live(Run(start, inputs).state, p)
    ensures var s := Run(start, inputs).state;
            && 1 <= p.ppid < p.pid <= s.globalPid
            && Birth(s.log, p.pid).Some? && Birth(s.log, p.pid).value.ppid == p.ppid
  {
    hide Correct, Run, BornPids, DiedPids, Own, Birth, Waiting, WaitResults, DeadChildren, Conserved;
    RunsKeepInv(start, inputs);
    var s := Run(start, inputs).state;
    assert IdsOk(s.log, s.globalPid, p);
  }

  /** For every live process, its wait results and its pending signals are its dead children, in order, each once. */
  lemma SignalsAreConserved(start: Start, inputs: seq<Input>, p: Pcb)
    requires Legal(start, inputs) && Run(start, inputs).Resume? && Live(Run(start, inputs).state, p)
    ensures var log := Run(start, inputs).state.log;
            var dead, got := DeadChildren(log, p.pid), WaitResults(log, p.pid);
            && |dead| == |got| + |p.signals|
            && (forall i :: 0 <= i < |got| ==> dead[i].pid == got[i])
            && (forall i :: 0 <= i < |p.signals| ==> dead[|got| + i] == p.signals[i])
            && (forall i, j :: 0 <= i < j < |dead| ==> dead[i].pid != dead[j].pid)
  {
    hide Run, Inv, Legal, DiedPids, WaitResults, DeadChildren;
    RunsKeepInv(start, inputs);
    var s := Run(start, inputs).state;
    LiveConserved(s, p);
    DeathsAreSingle(s);
    ChildrenDieOnce(s.log, p.pid);
  }

  lemma LiveConserved(s: State, p: Pcb)
    requires Inv(s) && Live(s, p)
    ensures Conserved(s.log, p.pid, p.signals)
  {
    hide Correct, Accounted, Lines, IdsOk, Conserved, RunnableOk, BlockedOk;
  }

  lemma DeathsAreSingle(s: State)
    requires Inv(s)
    ensures forall q :: DiedPids(s.log)[q] <= 1
  {
    hide Correct, RunnablesOk, BlockedsOk, Lines, IdsOk, Conserved, BornPids, DiedPids, Places;
    forall q
      ensures DiedPids(s.log)[q] <= 1
    {
      assert BornPids(s.log)[q] <= 1;
    }
  }

  function SignalPids(sigs: seq<Signal>): multiset<int> {
    if sigs == [] then multiset{} else SignalPids(sigs[..|sigs| - 1]) + multiset{sigs[|sigs| - 1].pid}
  }

  lemma {:induction false} ChildrenBag(log: Log, pid: int)
    ensures SignalPids(DeadChildren(log, pid)) <= DiedPids(log)
  {
    if log != [] {
      ChildrenBag(Prior(log), pid);
      var dead := DeadChildren(Prior(log), pid);
      var e := Last(log);
      if e.Died? && e.ppid == pid {
        assert (dead + [Signal(e.pid, e.code)])[..|dead|] == dead;
      } else {
        assert dead + [] == dead;
      }
    }
  }

  lemma {:induction false} SignalPidsAt(sigs: seq<Signal>, i: nat)
    requires i < |sigs|
    ensures sigs[i].pid in SignalPids(sigs)
  {
    if i < |sigs| - 1 {
      SignalPidsAt(sigs[..|sigs| - 1], i);
    }
  }

  lemma {:induction false} DistinctSignals(sigs: seq<Signal>)
    requires forall q :: SignalPids(sigs)[q] <= 1
    ensures forall i, j :: 0 <= i < j < |sigs| ==> sigs[i].pid != sigs[j].pid
  {
    if sigs != [] {
      var front := sigs[..|sigs| - 1];
      forall q ensures SignalPids(front)[q] <= 1 {
        assert SignalPids(sigs)[q] <= 1;
      }
      DistinctSignals(front);
      forall i | 0 <= i < |front|
        ensures sigs[i].pid != sigs[|sigs| - 1].pid
      {
        SignalPidsAt(front, i);
        assert SignalPids(sigs)[sigs[i].pid] <= 1;
      }
    }
  }

  lemma ChildrenDieOnce(log: Log, pid: int)
    requires forall q :: DiedPids(log)[q] <= 1
    ensures var dead := DeadChildren(log, pid); forall i, j :: 0 <= i < j < |dead| ==> dead[i].pid != dead[j].pid
  {
    ChildrenBag(log, pid);
    forall q ensures SignalPids(DeadChildren(log, pid))[q] <= 1 {
      assert DiedPids(log)[q] <= 1;
    }
    DistinctSignals(DeadChildren(log, pid));
  }
}
