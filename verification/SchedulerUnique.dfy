/**
 What the kernel does is fixed by its history: after any correct history at most one event may follow, other than a
 trap of the running process. So a run has no other history than the one it has.
 */
module SchedulerUnique {
  import opened Results
  import opened Scheduler
  import opened SchedulerHistory
  import opened SchedulerSafety

  /** What the processes have trapped for, with which registers, in order. */
  function Requests(log: Log): seq<Input> {
    if log == [] then []
    else Requests(Prior(log)) + (if Last(log).Trapped? then [Input(Last(log).context, Last(log).trap)] else [])
  }

  lemma AppendRequests(log: Log, e: Event)
    ensures Requests(log + [e]) == Requests(log) + (if e.Trapped? then [Input(e.context, e.trap)] else [])
  {
    assert Prior(log + [e]) == log;
  }

  lemma OtherRequests(log: Log, e: Event)
    requires !e.Trapped?
    ensures Requests(log + [e]) == Requests(log)
  {
    AppendRequests(log, e);
    assert Requests(log) + [] == Requests(log);
  }

  lemma {:induction false} BirthIsCounted(log: Log, pid: int)
    requires Birth(log, pid).Some?
    ensures pid in BornPids(log)
  {
    if !(Last(log).Born? && Last(log).pid == pid) {
      BirthIsCounted(Prior(log), pid);
    }
  }

  // ----- one event -----

  lemma OneResume(start: Start, log: Log, e: Event, f: Event)
    requires EventOk(start, log, e) && EventOk(start, log, f) && e.Resumed? && f.Resumed?
    ensures e == f
  {
    hide Chosen, Own, NextChild, Returning, BornPids, DiedPids;
  }

  /** The status of a wait is written exactly before its resume. */
  lemma StatusFirst(start: Start, log: Log, e: Event, f: Event)
    requires EventOk(start, log, e) && EventOk(start, log, f) && e.Status?
    ensures e == f
  {
    hide Own, NextChild, BornPids, DiedPids, Birth, Ready, Asleep, Choices, FirstReport;
  }

  lemma DeathFirst(start: Start, log: Log, e: Event, f: Event)
    requires EventOk(start, log, e) && EventOk(start, log, f) && e.Died?
    ensures e == f
  {
    hide NextChild, BornPids, DiedPids, Birth, Ready, Asleep, Choices, FirstReport;
    BirthIsCounted(log, e.pid);
  }

  lemma BirthFirst(start: Start, log: Log, e: Event, f: Event)
    requires EventOk(start, log, e) && EventOk(start, log, f) && e.Born?
    ensures e == f
  {
    hide NextChild, BornPids, DiedPids, Birth, Ready, Asleep, Choices, FirstReport;
  }

  /** After any history at most one event may follow that is not a trap, and none besides a trap. */
  lemma NextIsUnique(start: Start, log: Log, e: Event, f: Event)
    requires EventOk(start, log, e) && EventOk(start, log, f) && !(e.Trapped? && f.Trapped?)
    ensures e == f
  {
    hide EventOk;
    match e
    case Status(_, _, _) => StatusFirst(start, log, e, f);
    case Died(_, _, _) => DeathFirst(start, log, e, f);
    case Born(_, _, _, _) => BirthFirst(start, log, e, f);
    case _ =>
      match f {
        case Status(_, _, _) => StatusFirst(start, log, f, e);
        case Died(_, _, _) => DeathFirst(start, log, f, e);
        case Born(_, _, _, _) => BirthFirst(start, log, f, e);
        case _ => ResumeOrTrap(start, log, e, f);
      }
  }

  lemma ResumeOrTrap(start: Start, log: Log, e: Event, f: Event)
    requires EventOk(start, log, e) && EventOk(start, log, f) && !(e.Trapped? && f.Trapped?)
    requires (e.Resumed? || e.Trapped?) && (f.Resumed? || f.Trapped?)
    ensures e == f
  {
    hide ResumeOk, Returning, Ready, Asleep, Choices, FirstReport, EventOk;
    if e.Resumed? && f.Resumed? {
      OneResume(start, log, e, f);
    } else {
      RunningTraps(start, log, if e.Trapped? then e else f, if e.Trapped? then f else e);
    }
  }

  /** While a process runs nobody is resumed. */
  lemma RunningTraps(start: Start, log: Log, e: Event, f: Event)
    requires EventOk(start, log, e) && e.Trapped? && f.Resumed?
    ensures !EventOk(start, log, f)
  {
  }

  // ----- whole histories -----

  lemma {:induction false} RequestsPrefix(log: Log, n: nat)
    requires n <= |log|
    ensures Requests(log[..n]) <= Requests(log)
  {
    if n == |log| {
      assert log[..n] == log;
    } else {
      RequestsPrefix(Prior(log), n);
      assert Prior(log)[..n] == log[..n];
    }
  }

  /** The request at a trap is the next of the requests. */
  lemma RequestAt(log: Log, n: nat)
    requires n < |log| && log[n].Trapped?
    ensures var k := |Requests(log[..n])|; k < |Requests(log)| && Requests(log)[k] == Input(log[n].context, log[n].trap)
  {
    assert log[..n + 1] == log[..n] + [log[n]];
    AppendRequests(log[..n], log[n]);
    RequestsPrefix(log, n + 1);
  }

  /** Two correct histories with the same requests never part. */
  lemma {:induction false} HistoriesAgree(start: Start, a: Log, b: Log, n: nat)
    requires Correct(start, a) && Correct(start, b) && Requests(a) == Requests(b) && n <= |a| && n <= |b|
    ensures a[..n] == b[..n]
  {
    hide EventOk;
    if n > 0 {
      var i := n - 1;
      HistoriesAgree(start, a, b, i);
      var log := a[..i];
      assert EventOk(start, log, a[i]) && EventOk(start, b[..i], b[i]);
      if a[i].Trapped? && b[i].Trapped? {
        RequestAt(a, i);
        RequestAt(b, i);
        SamePid(start, log, a[i], b[i]);
      } else {
        NextIsUnique(start, log, a[i], b[i]);
      }
      assert a[..n] == log + [a[i]] && b[..n] == log + [b[i]];
    }
  }

  lemma SamePid(start: Start, log: Log, e: Event, f: Event)
    requires EventOk(start, log, e) && EventOk(start, log, f) && e.Trapped? && f.Trapped?
    ensures e.pid == f.pid
  {
  }

  // ----- runs -----

  lemma NoteRequests(s: State, e: Event)
    requires !e.Trapped?
    ensures Requests(Note(s, e).log) == Requests(s.log)
  {
    OtherRequests(s.log, e);
  }

  lemma RestoreRequests(s: State, p: Pcb)
    ensures Requests(Restore(s, p).log) == Requests(s.log)
  {
    OtherRequests(s.log, Resumed(p.pid, p.context));
  }

  lemma WakeRequests(s: State, i: nat)
    requires i < |s.blocked| && s.blocked[i].signals != []
    ensures Requests(Wake(s, i).log) == Requests(s.log)
  {
    hide Requests, Restore;
    var p := s.blocked[i];
    OtherRequests(s.log, Status(p.pid, p.wstatus, p.signals[0].code * 256));
    RestoreRequests(TakeSignal(s, i), TakeSignal(s, i).running.value);
  }

  lemma {:induction false} ScheduleRequests(s: State)
    ensures Requests(Schedule(s).state.log) == Requests(s.log)
    decreases |s.tests|
  {
    hide Requests, Restore, Wake, FirstSignalled;
    var s1 := s.(times := s.times + 1);
    if AnySignalled(s.blocked) {
      WakeRequests(s1, FirstSignalled(s.blocked));
    }
    if s.runnable != [] {
      RestoreRequests(s1.(runnable := s.runnable[1..]), s.runnable[0]);
    } else if s.tests != [] {
      var image := s.tests[0];
      OtherRequests(s.log, Born(s.globalPid + 1, 1, image.stack, image.context));
      ScheduleRequests(Spawn(s1.(tests := s.tests[1..]), 1, image.stack, image.context).(dirty := true));
    }
  }

  lemma ReturnRequests(s: State, c: Context)
    requires s.running.Some?
    ensures Requests(ReturnTo(s, c).state.log) == Requests(s.log)
  {
    OtherRequests(s.log, Resumed(s.running.value.pid, c));
  }

  lemma KillRequests(s: State, q: int)
    requires s.running.Some?
    ensures Requests(HandleKill(s, q).state.log) == Requests(s.log)
  {
    hide Requests, IndexOf, DeliverAll;
    var p, c := s.running.value, s.live;
    var i, j := IndexOf(s.runnable, q), IndexOf(s.blocked, q);
    var victim := if p.pid == q || (i == |s.runnable| && j == |s.blocked|) then p
                  else if i < |s.runnable| then s.runnable[i] else s.blocked[j];
    var died := Died(victim.pid, victim.ppid, 1);
    OtherRequests(s.log, died);
    OtherRequests(s.log + [died], Resumed(p.pid, Return(c, 0)));
    OtherRequests(s.log, Resumed(p.pid, Return(c, WORD - 1)));
  }

  lemma HandleRequests(s: State, trap: Trap)
    requires s.running.Some?
    ensures Requests(Handle(s, trap).state.log) == Requests(s.log)
  {
    hide Requests, Schedule, IndexOf, DeliverAll, HandleKill, ReturnTo;
    var p, c := s.running.value, s.live;
    match trap
    case Tick => ReturnRequests(s, c);
    case Breakpoint => ReturnRequests(s, Skip(c));
    case Call(v) => ReturnRequests(s, Return(c, v));
    case Yield => RequeueRequests(s, Skip(c));
    case RawYield => RequeueRequests(s, c);
    case YieldReturn(v) => RequeueRequests(s, Return(c, v));
    case Clone(sp, page, _) =>
      var stack := if sp != 0 then p.stack else page;
      var s1 := Spawn(s, p.pid, stack, ChildContext(c, p.stack, trap));
      OtherRequests(s.log, Born(s1.globalPid, p.pid, stack, ChildContext(c, p.stack, trap)));
      var c1 := c.(a0 := s1.globalPid);
      ReturnRequests(s1.(running := Some(p.(context := c1))), Skip(c1));
    case Wait(w) =>
      if p.signals != [] {
        ReturnRequests(s.(running := Some(p.(signals := p.signals[1..]))), Return(c, p.signals[0].pid));
      } else {
        ScheduleRequests(s.(running := None, blocked := s.blocked + [p.(context := Skip(c), wstatus := w)]));
      }
    case Exit(code) =>
      OtherRequests(s.log, Died(p.pid, p.ppid, code));
      ScheduleRequests(Notify(s, p, code).(running := None));
    case Kill(q) => KillRequests(s, q);
  }

  lemma RequeueRequests(s: State, c: Context)
    requires s.running.Some?
    ensures Requests(Requeue(s, c).state.log) == Requests(s.log)
  {
    hide Requests, Schedule;
    ScheduleRequests(s.(running := None, runnable := s.runnable + [s.running.value.(context := c)]));
  }

  /** A run takes its inputs one after the other, all of them unless the machine stops. */
  lemma {:induction false} RunTakesInputs(start: Start, inputs: seq<Input>)
    ensures var o := Run(start, inputs);
            Requests(o.state.log) <= inputs && (o.Resume? ==> Requests(o.state.log) == inputs)
  {
    hide Handle, Schedule, Requests;
    var n := |inputs|;
    if n == 0 {
      ScheduleRequests(Boot(start));
      BootRequests(start);
    } else {
      RunTakesInputs(start, inputs[..n - 1]);
      var o := Run(start, inputs[..n - 1]);
      if o.Resume? {
        var c, trap := inputs[n - 1].context, inputs[n - 1].trap;
        var e := Trapped(o.state.running.value.pid, c, trap);
        AppendRequests(o.state.log, e);
        HandleRequests(Note(o.state.(live := c), e), trap);
        assert inputs == inputs[..n - 1] + [inputs[n - 1]];
      }
    }
  }

  lemma BootRequests(start: Start)
    ensures Requests(Boot(start).log) == []
  {
  }

  /** After a run has stopped, nothing may follow. */
  lemma NothingFollows(o: Outcome, e: Event)
    requires Halted(o)
    ensures !EventOk(o.state.start, o.state.log, e)
  {
    hide Core, Ready, Asleep, Choices, FirstReport, ResumeOk, NextChild, Birth, BornPids, DiedPids;
  }

  lemma OnlyTrapsFollow(start: Start, s: State, e: Event)
    requires Inv(s) && EventOk(start, s.log, e)
    ensures e.Trapped?
  {
    hide Core, Lines, Conserved, IdsOk, Waiting, ResumeOk, Birth, BornPids, DiedPids, Ready, Asleep, Choices;
    hide FirstReport;
  }

  /** The history of a run is the one correct history with its requests: every other is the beginning of it. */
  lemma RunsAreDetermined(start: Start, inputs: seq<Input>, log: Log)
    requires Legal(start, inputs) && Correct(start, log)
    requires Requests(log) == Requests(Run(start, inputs).state.log)
    ensures log <= Run(start, inputs).state.log
  {
    hide Run, EventOk, Correct, Legal, Inv, Halted, Requests;
    var o := Run(start, inputs);
    var own := o.state.log;
    RunsKeepInv(start, inputs);
    RunsKeepStart(start, inputs);
    RunIsCorrect(o);
    var n := if |log| < |own| then |log| else |own|;
    HistoriesAgree(start, log, own, n);
    if |log| > |own| {
      assert own[..n] == own;
      EventAt(start, log, n);
      if o.Resume? {
        OnlyTrapsFollow(start, o.state, log[n]);
        RequestAt(log, n);
      } else {
        NothingFollows(o, log[n]);
      }
    }
  }

  lemma EventAt(start: Start, log: Log, n: nat)
    requires Correct(start, log) && n < |log|
    ensures EventOk(start, log[..n], log[n])
  {
  }

  lemma RunIsCorrect(o: Outcome)
    requires Good(o)
    ensures Correct(o.state.start, o.state.log)
  {
  }
}
