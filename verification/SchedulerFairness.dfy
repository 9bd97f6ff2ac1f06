/** How long a queued process can wait, and when the scheduler gives up. */
module SchedulerFairness {
  import opened Arithmetic
  import opened Results
  import opened Scheduler
  import opened SchedulerHistory
  import opened SchedulerSafety

  /** All pending signals of a list of processes. */
  function SignalCount(ps: seq<Pcb>): nat {
    if ps == [] then 0 else SignalCount(ps[..|ps| - 1]) + |ps[|ps| - 1].signals|
  }

  function Pending(s: State): nat {
    (if s.running.Some? then |s.running.value.signals| else 0) + SignalCount(s.runnable) + SignalCount(s.blocked)
  }

  function Deaths(log: Log): nat { |DiedPids(log)| }

  ghost predicate IsQueued(s: State, q: int) { IndexOf(s.runnable, q) < |s.runnable| }

  /** What dispatches use up: the place in the queue plus the signals that may jump it. */
  function Rank(s: State, q: int): int { IndexOf(s.runnable, q) + Pending(s) + s.times }

  // ----- sums and positions -----

  lemma CountAppend(ps: seq<Pcb>, p: Pcb)
    ensures SignalCount(ps + [p]) == SignalCount(ps) + |p.signals|
  {
    assert (ps + [p])[..|ps|] == ps;
  }

  lemma {:induction false} CountConcat(a: seq<Pcb>, b: seq<Pcb>)
    ensures SignalCount(a + b) == SignalCount(a) + SignalCount(b)
  {
    if b == [] {
      assert a + b == a;
    } else {
      hide SignalCount;
      var n := |b| - 1;
      assert b == b[..n] + [b[n]];
      CountAppend(b[..n], b[n]);
      CountConcat(a, b[..n]);
      CountAppend(a + b[..n], b[n]);
      assert a + b == (a + b[..n]) + [b[n]];
    }
  }

  lemma CountWithout(ps: seq<Pcb>, i: nat)
    requires i < |ps|
    ensures SignalCount(ps) == SignalCount(Without(ps, i)) + |ps[i].signals|
  {
    CountConcat(ps[..i], ps[i + 1..]);
    CountConcat(ps[..i] + [ps[i]], ps[i + 1..]);
    CountAppend(ps[..i], ps[i]);
    assert ps == ps[..i] + [ps[i]] + ps[i + 1..];
  }

  lemma DeliverSplit(ps: seq<Pcb>, p: Pcb, to: int, sig: Signal)
    ensures DeliverAll(ps + [p], to, sig) == DeliverAll(ps, to, sig) + [Deliver(p, to, sig)]
  {
  }

  lemma {:induction false} CountDeliver(ps: seq<Pcb>, to: int, sig: Signal)
    ensures SignalCount(DeliverAll(ps, to, sig)) == SignalCount(ps) + Bag(ps)[to]
  {
    hide DeliverAll, Bag, SignalCount;
    if ps == [] {
      CountNone(to, sig);
    } else {
      var n := |ps| - 1;
      var front, p := ps[..n], ps[n];
      assert ps == front + [p];
      CountDeliver(front, to, sig);
      DeliverSplit(front, p, to, sig);
      PidsAppend(front, p);
      CountAppend(front, p);
      CountAppend(DeliverAll(front, to, sig), Deliver(p, to, sig));
    }
  }

  lemma CountNone(to: int, sig: Signal)
    ensures SignalCount(DeliverAll([], to, sig)) == 0 == SignalCount([]) && Bag([])[to] == 0
  {
  }

  /** `IndexOf` is the only position with the pid before which it does not occur. */
  lemma IndexIs(ps: seq<Pcb>, q: int, i: nat)
    requires i < |ps| && ps[i].pid == q && forall j :: 0 <= j < i ==> ps[j].pid != q
    ensures IndexOf(ps, q) == i
  {
  }

  lemma IndexAppend(ps: seq<Pcb>, p: Pcb, q: int)
    requires IndexOf(ps, q) < |ps|
    ensures IndexOf(ps + [p], q) == IndexOf(ps, q)
  {
    hide IndexOf;
    IndexIs(ps + [p], q, IndexOf(ps, q));
  }

  lemma IndexDeliver(ps: seq<Pcb>, to: int, sig: Signal, q: int)
    requires IndexOf(ps, q) < |ps|
    ensures IndexOf(DeliverAll(ps, to, sig), q) == IndexOf(ps, q)
  {
    hide IndexOf;
    IndexIs(DeliverAll(ps, to, sig), q, IndexOf(ps, q));
  }

  /** Taking out another process moves `q` forward by one or not at all. */
  lemma IndexWithout(ps: seq<Pcb>, i: nat, q: int)
    requires i < |ps| && IndexOf(ps, q) < |ps| && ps[i].pid != q
    ensures var k := IndexOf(ps, q); IndexOf(Without(ps, i), q) == if i < k then k - 1 else k
  {
    hide IndexOf;
    var k := IndexOf(ps, q);
    IndexIs(Without(ps, i), q, if i < k then k - 1 else k);
  }

  lemma {:induction false} BagAt(ps: seq<Pcb>, q: int)
    requires IndexOf(ps, q) < |ps|
    ensures Bag(ps)[q] >= 1
  {
    InBag(ps, ps[IndexOf(ps, q)]);
  }

  /** A queue that held `q` once and lost that entry no longer holds `q`. */
  lemma LostEntry(ps: seq<Pcb>, q: int)
    requires ps != [] && ps[0].pid == q && Bag(ps)[q] <= 1
    ensures IndexOf(ps[1..], q) == |ps[1..]|
  {
    hide IndexOf;
    PidsWithout(ps, 0);
    assert Without(ps, 0) == ps[1..];
    if IndexOf(ps[1..], q) < |ps[1..]| {
      BagAt(ps[1..], q);
    }
  }

  // ----- one dispatch, one step -----

  lemma WakeRank(s: State, i: nat)
    requires i < |s.blocked| && s.blocked[i].signals != [] && s.running.None?
    ensures var s' := Wake(s, i);
            && s'.runnable == s.runnable && s'.times == s.times
            && Pending(s') == Pending(s) - 1 && Deaths(s'.log) == Deaths(s.log)
  {
    hide DiedPids, SignalCount;
    CountWithout(s.blocked, i);
    var p := s.blocked[i];
    var e := Status(p.pid, p.wstatus, p.signals[0].code * 256);
    AppendCounts(s.log, e);
    var r := Resumed(p.pid, p.context.(a0 := p.signals[0].pid));
    AppendCounts(s.log, r);
    AppendCounts(s.log + [e], r);
  }

  lemma DispatchRank(s: State, s': State, q: int)
    requires IsQueued(s, q) && Bag(s.runnable)[q] <= 1 && s.running.None?
    requires s'.runnable == s.runnable[1..] && s'.blocked == s.blocked && s'.running == Some(s.runnable[0])
    requires s'.times == s.times + 1
    ensures Pending(s') == Pending(s)
    ensures IsQueued(s', q) ==> IndexOf(s'.runnable, q) == IndexOf(s.runnable, q) - 1
  {
    hide IndexOf, SignalCount, Bag;
    CountWithout(s.runnable, 0);
    assert Without(s.runnable, 0) == s.runnable[1..];
    if s.runnable[0].pid == q {
      LostEntry(s.runnable, q);
    } else {
      IndexWithout(s.runnable, 0, q);
    }
  }

  lemma RestoreDeaths(s: State, p: Pcb)
    ensures Deaths(Restore(s, p).log) == Deaths(s.log)
  {
    hide DiedPids;
    AppendCounts(s.log, Resumed(p.pid, p.context));
  }

  /** A dispatch that leaves `q` queued does not move it back and uses up one unit of its rank. */
  lemma ScheduleRank(s: State, q: int)
    requires s.running.None? && IsQueued(s, q) && Bag(s.runnable)[q] <= 1
    ensures var o := Schedule(s);
            o.Resume? && IsQueued(o.state, q) ==>
              && IndexOf(o.state.runnable, q) <= IndexOf(s.runnable, q)
              && Rank(o.state, q) <= Rank(s, q)
              && Deaths(o.state.log) == Deaths(s.log)
  {
    hide IndexOf, Deaths, FirstSignalled, Bag, Pending, Wake;
    var s1 := s.(times := s.times + 1);
    assert Pending(s1) == Pending(s) by {
      SamePending(s, s1);
    }
    if AnySignalled(s.blocked) && s.times > 100 {
      WakeRank(s1, FirstSignalled(s.blocked));
    } else {
      DispatchRank(s, Schedule(s).state, q);
      RestoreDeaths(s1.(runnable := s.runnable[1..]), s.runnable[0]);
    }
  }

  lemma SamePending(s: State, s': State)
    requires s'.running == s.running && s'.runnable == s.runnable && s'.blocked == s.blocked
    ensures Pending(s') == Pending(s)
  {
  }

  /** The claim about one step, from the state `s` inside the trap. */
  ghost predicate StepBound(s: State, o: Outcome, q: int) {
    o.Resume? && IsQueued(o.state, q) ==>
      && IndexOf(o.state.runnable, q) <= IndexOf(s.runnable, q)
      && Rank(o.state, q) <= Rank(s, q) + Deaths(o.state.log) - Deaths(s.log)
  }

  /** At most one place holds any pid. */
  ghost predicate Single(s: State) { forall x :: Places(s)[x] <= 1 }

  lemma AccountedSingle(s: State)
    requires Accounted(s)
    ensures Single(s)
  {
    hide BornPids, DiedPids, Places;
    forall x ensures Places(s)[x] <= 1 {
      assert BornPids(s.log)[x] <= 1;
    }
  }

  lemma ReturnBound(s: State, s': State, c: Context, q: int)
    requires s'.running.Some? && s'.times == s.times
    requires IsQueued(s', q) ==> IndexOf(s'.runnable, q) <= IndexOf(s.runnable, q)
    requires Pending(s') <= Pending(s) + Deaths(s'.log) - Deaths(s.log)
    ensures StepBound(s, ReturnTo(s', c), q)
  {
    hide IndexOf, DiedPids, SignalCount;
    AppendCounts(s'.log, Resumed(s'.running.value.pid, c));
  }

  lemma ScheduleBound(s: State, s': State, q: int)
    requires IsQueued(s, q) && s'.running.None? && s'.times == s.times
    requires IsQueued(s', q) && IndexOf(s'.runnable, q) == IndexOf(s.runnable, q) && Bag(s'.runnable)[q] <= 1
    requires Pending(s') <= Pending(s) + Deaths(s'.log) - Deaths(s.log)
    ensures StepBound(s, Schedule(s'), q)
  {
    hide IndexOf, Deaths, Pending, Bag, Schedule;
    ScheduleRank(s', q);
  }

  lemma RequeueBound(s: State, c: Context, q: int)
    requires s.running.Some? && Single(s) && IsQueued(s, q)
    ensures StepBound(s, Requeue(s, c), q)
  {
    hide IndexOf, Deaths, Bag, SignalCount, Schedule;
    var p := s.running.value.(context := c);
    BagAt(s.runnable, q);
    assert Places(s)[q] <= 1 && Places(s)[p.pid] <= 1;
    IndexAppend(s.runnable, p, q);
    PidsAppend(s.runnable, p);
    CountAppend(s.runnable, p);
    ScheduleBound(s, s.(running := None, runnable := s.runnable + [p]), q);
  }

  lemma WaitBound(s: State, w: int, q: int)
    requires s.running.Some? && Single(s) && IsQueued(s, q)
    ensures StepBound(s, Handle(s, Wait(w)), q)
  {
    hide IndexOf, Deaths, Bag, SignalCount, Schedule;
    var p := s.running.value;
    if p.signals != [] {
      ReturnBound(s, s.(running := Some(p.(signals := p.signals[1..]))), Return(s.live, p.signals[0].pid), q);
    } else {
      var p' := p.(context := Skip(s.live), wstatus := w);
      assert Places(s)[q] <= 1;
      CountAppend(s.blocked, p');
      ScheduleBound(s, s.(running := None, blocked := s.blocked + [p']), q);
    }
  }

  lemma CloneBound(s: State, trap: Trap, q: int)
    requires s.running.Some? && trap.Clone? && IsQueued(s, q)
    ensures StepBound(s, Handle(s, trap), q)
  {
    hide IndexOf, DiedPids, Bag, SignalCount, ChildContext;
    var p, c := s.running.value, s.live;
    var stack := if trap.childSp != 0 then p.stack else trap.page;
    var c0 := ChildContext(c, p.stack, trap);
    var child := NewPcb(s, p.pid, stack, c0);
    IndexAppend(s.runnable, child, q);
    CountAppend(s.runnable, child);
    AppendCounts(s.log, Born(child.pid, p.pid, stack, c0));
    var c1 := c.(a0 := child.pid);
    ReturnBound(s, Spawn(s, p.pid, stack, c0).(running := Some(p.(context := c1))), Skip(c1), q);
  }

  lemma PlacesAt(s: State, x: int)
    ensures Places(s)[x] ==
      (if s.running.Some? && s.running.value.pid == x then 1 else 0) + Bag(s.runnable)[x] + Bag(s.blocked)[x]
  {
    hide Bag;
  }

  /** A death adds at most one pending signal, and one death. */
  lemma NotifyPending(s: State, p: Pcb, code: int)
    requires Single(s)
    ensures var s' := Notify(s, p, code);
            Pending(s') <= Pending(s) + 1 && Deaths(s'.log) == Deaths(s.log) + 1
  {
    hide DiedPids, Bag, SignalCount, DeliverAll, Places;
    var sig := Signal(p.pid, code);
    CountDeliver(s.runnable, p.ppid, sig);
    CountDeliver(s.blocked, p.ppid, sig);
    PlacesAt(s, p.ppid);
    AppendCounts(s.log, Died(p.pid, p.ppid, code));
  }

  lemma NotifyPlaces(s: State, p: Pcb, code: int, q: int)
    requires IsQueued(s, q)
    ensures var s' := Notify(s, p, code);
            Bag(s'.runnable) == Bag(s.runnable) && IsQueued(s', q) && IndexOf(s'.runnable, q) == IndexOf(s.runnable, q)
  {
    hide IndexOf, Bag, DeliverAll;
    PidsDeliver(s.runnable, p.ppid, Signal(p.pid, code));
    IndexDeliver(s.runnable, p.ppid, Signal(p.pid, code), q);
  }

  lemma ExitBound(s: State, code: int, q: int)
    requires s.running.Some? && Single(s) && IsQueued(s, q)
    ensures StepBound(s, Handle(s, Exit(code)), q)
  {
    hide IndexOf, Deaths, Bag, SignalCount, Schedule;
    NotifyPending(s, s.running.value, code);
    NotifyPlaces(s, s.running.value, code, q);
    assert Places(s)[q] <= 1;
    ScheduleBound(s, Notify(s, s.running.value, code).(running := None), q);
  }

  lemma KillBound(s: State, target: int, q: int)
    requires s.running.Some? && Single(s) && IsQueued(s, q)
    ensures StepBound(s, HandleKill(s, target), q)
  {
    hide IndexOf, Deaths, Bag, SignalCount, Notify;
    var p := s.running.value;
    var i, j := IndexOf(s.runnable, target), IndexOf(s.blocked, target);
    if p.pid == target {
      NotifyPending(s, p, 1);
      NotifyPlaces(s, p, 1, q);
      NotifyKeeps(s, p, 1);
      ReturnBound(s, Notify(s, p, 1), Return(s.live, 0), q);
    } else if i < |s.runnable| {
      KillRunnableBound(s, i, q);
    } else if j < |s.blocked| {
      var s1 := Notify(s, s.blocked[j], 1);
      NotifyPending(s, s.blocked[j], 1);
      NotifyPlaces(s, s.blocked[j], 1, q);
      NotifyKeeps(s, s.blocked[j], 1);
      CountWithout(s1.blocked, j);
      ReturnBound(s, s1.(blocked := Without(s1.blocked, j)), Return(s.live, 0), q);
    } else {
      ReturnBound(s, s, Return(s.live, WORD - 1), q);
    }
  }

  lemma NotifyKeeps(s: State, p: Pcb, code: int)
    ensures var s' := Notify(s, p, code);
            && s'.running.Some? == s.running.Some? && s'.times == s.times
            && |s'.runnable| == |s.runnable| && |s'.blocked| == |s.blocked|
            && forall k :: 0 <= k < |s.runnable| ==> s'.runnable[k].pid == s.runnable[k].pid
  {
  }

  lemma KillRunnableBound(s: State, i: nat, q: int)
    requires s.running.Some? && Single(s) && IsQueued(s, q)
    requires i < |s.runnable| && i == IndexOf(s.runnable, s.runnable[i].pid)
    ensures var s1 := Notify(s, s.runnable[i], 1);
            i < |s1.runnable| && s1.running.Some? &&
            StepBound(s, ReturnTo(s1.(runnable := Without(s1.runnable, i)), Return(s.live, 0)), q)
  {
    hide IndexOf, Deaths, Bag, SignalCount, Notify;
    var victim := s.runnable[i];
    var s1 := Notify(s, victim, 1);
    NotifyPending(s, victim, 1);
    NotifyPlaces(s, victim, 1, q);
    NotifyKeeps(s, victim, 1);
    CountWithout(s1.runnable, i);
    var s2 := s1.(runnable := Without(s1.runnable, i));
    if victim.pid == q {
      PidsWithout(s1.runnable, i);
      assert Places(s)[q] <= 1;
      if IsQueued(s2, q) {
        BagAt(s2.runnable, q);
      }
    } else {
      IndexWithout(s1.runnable, i, q);
    }
    ReturnBound(s, s2, Return(s.live, 0), q);
  }

  /** One step: a process that stays queued never moves back, and its rank grows only by the deaths of the step. */
  lemma StepRank(s: State, c: Context, trap: Trap, q: int)
    requires Inv(s) && IsQueued(s, q)
    ensures StepBound(s, Step(s, c, trap), q)
  {
    hide IndexOf, DiedPids, Pending, Handle, RunnablesOk, BlockedsOk, Correct, Lines;
    var e := Trapped(s.running.value.pid, c, trap);
    var s1 := Note(s.(live := c), e);
    AppendCounts(s.log, e);
    AccountedSingle(s);
    SamePending(s, s1);
    HandleBound(s1, trap, q);
  }

  lemma HandleBound(s: State, trap: Trap, q: int)
    requires s.running.Some? && Single(s) && IsQueued(s, q)
    ensures StepBound(s, Handle(s, trap), q)
  {
    hide IndexOf, Deaths, Pending, Requeue, HandleKill, Single, Schedule, StepBound;
    match trap
    case Tick => ReturnBound(s, s, s.live, q);
    case Breakpoint => ReturnBound(s, s, Skip(s.live), q);
    case Call(v) => ReturnBound(s, s, Return(s.live, v), q);
    case Yield => RequeueBound(s, Skip(s.live), q);
    case RawYield => RequeueBound(s, s.live, q);
    case YieldReturn(v) => RequeueBound(s, Return(s.live, v), q);
    case Clone(_, _, _) => CloneBound(s, trap, q);
    case Wait(w) => WaitBound(s, w, q);
    case Exit(code) => ExitBound(s, code, q);
    case Kill(target) => KillBound(s, target, q);
  }

  // ----- whole runs -----

  /** Process `q` sits in the run queue after each of the traps `from` to `until` of the run. */
  ghost predicate StaysQueued(start: Start, inputs: seq<Input>, from: nat, until: nat, q: int) {
    && from <= until <= |inputs|
    && forall n :: from <= n <= until ==>
         Run(start, inputs[..n]).Resume? && IsQueued(Run(start, inputs[..n]).state, q)
  }

  /**
   Bounded waiting: while a process stays queued it never moves back, and the dispatches since it stood at
   position k number at most k, plus the signals then pending, plus the terminations since.
   */
  lemma {:induction false} BoundedWaiting(start: Start, inputs: seq<Input>, from: nat, until: nat, q: int)
    requires Legal(start, inputs) && StaysQueued(start, inputs, from, until, q)
    ensures var a, b := Run(start, inputs[..from]).state, Run(start, inputs[..until]).state;
            && IndexOf(b.runnable, q) <= IndexOf(a.runnable, q)
            && b.times - a.times <= IndexOf(a.runnable, q) + Pending(a) + Deaths(b.log) - Deaths(a.log)
    decreases until - from
  {
    hide Run, IndexOf, Deaths, Pending;
    RankBound(start, inputs, from, until, q);
  }

  lemma {:induction false} RankBound(start: Start, inputs: seq<Input>, from: nat, until: nat, q: int)
    requires Legal(start, inputs) && StaysQueued(start, inputs, from, until, q)
    ensures var a, b := Run(start, inputs[..from]).state, Run(start, inputs[..until]).state;
            && IndexOf(b.runnable, q) <= IndexOf(a.runnable, q)
            && Rank(b, q) <= Rank(a, q) + Deaths(b.log) - Deaths(a.log)
    decreases until - from
  {
    hide IndexOf, Deaths, Pending, Step, Schedule, Inv;
    if from < until {
      RankBound(start, inputs, from, until - 1, q);
      var before := inputs[..until - 1];
      assert before == inputs[..until][..until - 1];
      assert forall k :: 0 <= k < until - 1 ==> before[..k] == inputs[..k];
      RunsKeepInv(start, before);
      StepRank(Run(start, before).state, inputs[until - 1].context, inputs[until - 1].trap, q);
    }
  }

  // ----- passed over -----

  /** A process is waiting, not dead, and has a child to report. */
  ghost predicate CanWake(log: Log, q: int) {
    Waiting(log, q) && q !in DiedPids(log) && NextChild(log, q).Some?
  }

  /** The processor had been given up, and went to a process that did not wait although one that did could wake. */
  ghost predicate PassesOver(log: Log, e: Event) {
    e.Resumed? && Returning(log).None? && !Waiting(log, e.pid) && exists q :: CanWake(log, q)
  }

  ghost function Overlooks(log: Log): nat {
    if log == [] then 0 else Overlooks(Prior(log)) + (if PassesOver(Prior(log), Last(log)) then 1 else 0)
  }

  lemma {:induction false} RemoveKeeps(xs: seq<int>, x: int, y: int)
    ensures y in Remove(xs, x) <==> y in xs && y != x
  {
    if xs != [] {
      RemoveKeeps(xs[..|xs| - 1], x, y);
      assert xs == xs[..|xs| - 1] + [xs[|xs| - 1]];
    }
  }

  lemma {:induction false} WaitingIsAsleep(log: Log, q: int)
    requires Waiting(log, q) && q !in DiedPids(log)
    ensures q in Asleep(log)
  {
    var e := Last(log);
    if !(e.Trapped? && e.pid == q) {
      WaitingIsAsleep(Prior(log), q);
      if e.Resumed? || e.Died? {
        RemoveKeeps(Asleep(Prior(log)), e.pid, q);
      }
    }
  }

  lemma {:induction false} SomebodyReports(log: Log, pids: seq<int>, q: int)
    requires q in pids && NextChild(log, q).Some?
    ensures FirstReport(log, pids).Some? && FirstReport(log, pids).value in pids
  {
    hide NextChild;
    if NextChild(log, pids[0]).None? {
      SomebodyReports(log, pids[1..], q);
    }
  }

  /** In a correct history the processes in line for a report do wait. */
  lemma {:induction false} AsleepIsWaiting(start: Start, log: Log, q: int)
    requires Correct(start, log) && q in Asleep(log)
    ensures Waiting(log, q)
  {
    hide EventOk, Correct;
    var e := Last(log);
    CorrectPrior(start, log);
    if e.Resumed? || e.Died? {
      RemoveKeeps(Asleep(Prior(log)), e.pid, q);
    }
    if e.Trapped? && e.pid == q {
      TrapsAreAwake(start, Prior(log), e);
    } else {
      AsleepIsWaiting(start, Prior(log), q);
    }
  }

  /** A process that traps was not in line. */
  lemma TrapsAreAwake(start: Start, log: Log, e: Event)
    requires EventOk(start, log, e) && e.Trapped?
    ensures e.pid !in Asleep(log)
  {
    RemoveKeeps(Asleep(Prior(log)), e.pid, e.pid);
  }

  /** In a correct history a process that could wake is passed over in the first 101 choices only. */
  lemma PassedOverEarly(start: Start, log: Log, e: Event)
    requires Correct(start, log) && EventOk(start, log, e) && PassesOver(log, e)
    ensures start.times + Choices(log) <= 100
  {
    hide Correct, ResumeOk, Waiting, NextChild, DiedPids, Asleep, Ready, Choices, Returning, FirstReport;
    var q :| CanWake(log, q);
    WaitingIsAsleep(log, q);
    SomebodyReports(log, Asleep(log), q);
    if e.pid in Asleep(log) {
      AsleepIsWaiting(start, log, e.pid);
    }
  }

  lemma {:induction false} OverlooksOf(start: Start, log: Log)
    requires Correct(start, log)
    ensures Overlooks(log) + Min(start.times, 101) <= Min(start.times + Choices(log), 101)
  {
    hide Correct, EventOk, PassesOver;
    if log != [] {
      CorrectPrior(start, log);
      OverlooksOf(start, Prior(log));
      if PassesOver(Prior(log), Last(log)) {
        PassedOverEarly(start, Prior(log), Last(log));
        PassingIsChoice(log);
      }
    }
  }

  lemma PassingIsChoice(log: Log)
    requires log != [] && PassesOver(Prior(log), Last(log))
    ensures Choices(log) == Choices(Prior(log)) + 1
  {
    hide CanWake, Returning;
  }

  /**
   However a run goes, at most 101 times, counted over all boots, is the processor given to another process while
   one that waits could wake.
   */
  lemma FewOverlooks(start: Start, inputs: seq<Input>)
    requires Legal(start, inputs)
    ensures var s := Run(start, inputs).state;
            Overlooks(s.log) + Min(start.times, 101) <= Min(s.times, 101)
  {
    hide Run, Accounted, RunnablesOk, BlockedsOk, Correct, Ready, Asleep, Free, Chosen, Choices, Overlooks;
    RunsKeepInv(start, inputs);
    RunsKeepStart(start, inputs);
    OverlooksOf(start, Run(start, inputs).state.log);
  }

  /** A dead loop is declared exactly if something is blocked, nothing is runnable and no signal is pending. */
  lemma DeadLoopIff(s: State)
    ensures Schedule(s).DeadLoop? <==>
      s.blocked != [] && s.runnable == [] && forall p :: p in s.blocked ==> p.signals == []
  {
    if s.runnable == [] && s.blocked == [] && !s.dirty && s.tests != [] {
      var image := s.tests[0];
      var s1 := Spawn(s.(times := s.times + 1, tests := s.tests[1..]), 1, image.stack, image.context).(dirty := true);
      assert s1.runnable != [];
    }
  }
}
