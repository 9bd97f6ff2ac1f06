/** The program a run starts on its own is the first of those given, with its own stack and registers. */
module SchedulerStarts {
  import opened Results
  import opened Scheduler
  import opened SchedulerHistory
  import opened SchedulerSafety

  /** The programs started without a parent so far, in order. */
  function Started(log: Log): seq<Image> {
    if log == [] then []
    else Started(Prior(log)) +
         (if Last(log).Born? && Last(log).ppid == 1 then [Image(Last(log).stack, Last(log).context)] else [])
  }

  /** What has been started, followed by what is still to start. */
  function Plan(s: State): seq<Image> { Started(s.log) + s.tests }

  lemma StartedNext(log: Log, e: Event)
    ensures Started(log + [e]) ==
      Started(log) + (if e.Born? && e.ppid == 1 then [Image(e.stack, e.context)] else [])
  {
    assert Prior(log + [e]) == log;
  }

  /** An event other than a start without a parent leaves the plan alone. */
  lemma NoteKeepsPlan(s: State, e: Event)
    requires !(e.Born? && e.ppid == 1)
    ensures Plan(Note(s, e)) == Plan(s)
  {
    StartedNext(s.log, e);
    assert Started(s.log) + [] == Started(s.log);
  }

  lemma RestoreKeepsPlan(s: State, p: Pcb)
    ensures Plan(Restore(s, p)) == Plan(s)
  {
    hide Started;
    NoteKeepsPlan(s.(running := Some(p), live := p.context, fastPid := p.pid), Resumed(p.pid, p.context));
  }

  lemma WakeKeepsPlan(s: State, i: nat)
    requires i < |s.blocked| && s.blocked[i].signals != []
    ensures Plan(Wake(s, i)) == Plan(s)
  {
    hide Started, Restore;
    var p := s.blocked[i];
    var s1 := TakeSignal(s, i);
    NoteKeepsPlan(s.(blocked := Without(s.blocked, i), running := s1.running),
                  Status(p.pid, p.wstatus, p.signals[0].code * 256));
    RestoreKeepsPlan(s1, s1.running.value);
  }

  /** Starting the next program moves it from what is to start to what has been started. */
  lemma StartKeepsPlan(s: State)
    requires s.tests != []
    ensures var image := s.tests[0];
            Plan(Spawn(s.(tests := s.tests[1..]), 1, image.stack, image.context)) == Plan(s)
  {
    hide Started;
    var image := s.tests[0];
    StartedNext(s.log, Born(s.globalPid + 1, 1, image.stack, image.context));
    assert s.tests == [image] + s.tests[1..];
  }

  lemma {:induction false} ScheduleKeepsPlan(s: State)
    ensures Plan(Schedule(s).state) == Plan(s)
    decreases |s.tests|
  {
    hide Plan, Restore, Wake, Spawn, FirstSignalled;
    SamePlan(s, s.(times := s.times + 1));
    var s1 := s.(times := s.times + 1);
    if AnySignalled(s.blocked) {
      WakeKeepsPlan(s1, FirstSignalled(s.blocked));
    }
    if s.runnable != [] {
      var s2 := s1.(runnable := s.runnable[1..]);
      SamePlan(s1, s2);
      RestoreKeepsPlan(s2, s.runnable[0]);
    } else if !AnySignalled(s.blocked) && s.blocked == [] && !s.dirty && s.tests != [] {
      var image := s.tests[0];
      StartKeepsPlan(s1);
      var s2 := Spawn(s1.(tests := s.tests[1..]), 1, image.stack, image.context);
      SpawnKeepsRest(s1.(tests := s.tests[1..]), 1, image.stack, image.context);
      SamePlan(s2, s2.(dirty := true));
      ScheduleKeepsPlan(s2.(dirty := true));
    }
  }

  lemma SamePlan(s: State, s': State)
    requires s'.log == s.log && s'.tests == s.tests
    ensures Plan(s') == Plan(s)
  {
  }

  lemma ReturnKeepsPlan(s: State, c: Context)
    requires s.running.Some?
    ensures Plan(ReturnTo(s, c).state) == Plan(s)
  {
    hide Started;
    NoteKeepsPlan(s.(live := c), Resumed(s.running.value.pid, c));
  }

  lemma NotifyKeepsPlan(s: State, p: Pcb, code: int)
    ensures Plan(Notify(s, p, code)) == Plan(s)
  {
    hide Started, DeliverAll, Deliver;
    StartedNext(s.log, Died(p.pid, p.ppid, code));
    assert Started(s.log) + [] == Started(s.log);
  }

  lemma KillKeepsPlan(s: State, q: int)
    requires s.running.Some?
    ensures HandleKill(s, q).Resume? && Plan(HandleKill(s, q).state) == Plan(s)
  {
    hide Plan, Notify, ReturnTo, IndexOf;
    var p, c := s.running.value, s.live;
    var i, j := IndexOf(s.runnable, q), IndexOf(s.blocked, q);
    if p.pid == q {
      DeliveredSizes(s, p);
      KilledKeepsPlan(s, p, Notify(s, p, 1), Return(c, 0));
    } else if i < |s.runnable| {
      var s1 := Notify(s, s.runnable[i], 1);
      DeliveredSizes(s, s.runnable[i]);
      KilledKeepsPlan(s, s.runnable[i], s1.(runnable := Without(s1.runnable, i)), Return(c, 0));
    } else if j < |s.blocked| {
      var s1 := Notify(s, s.blocked[j], 1);
      DeliveredSizes(s, s.blocked[j]);
      KilledKeepsPlan(s, s.blocked[j], s1.(blocked := Without(s1.blocked, j)), Return(c, 0));
    } else {
      Returns(s, Return(c, WORD - 1));
      ReturnKeepsPlan(s, Return(c, WORD - 1));
    }
  }

  lemma Returns(s: State, c: Context)
    requires s.running.Some?
    ensures ReturnTo(s, c).Resume?
  {
  }

  lemma DeliveredSizes(s: State, p: Pcb)
    ensures var s1 := Notify(s, p, 1);
            |s1.runnable| == |s.runnable| && |s1.blocked| == |s.blocked| && s1.running.Some? == s.running.Some?
  {
  }

  lemma KilledKeepsPlan(s: State, p: Pcb, s': State, c: Context)
    requires s'.running.Some? && s'.log == Notify(s, p, 1).log && s'.tests == Notify(s, p, 1).tests
    ensures ReturnTo(s', c).Resume? && Plan(ReturnTo(s', c).state) == Plan(s)
  {
    hide Plan, Notify, ReturnTo;
    NotifyKeepsPlan(s, p, 1);
    SamePlan(Notify(s, p, 1), s');
    Returns(s', c);
    ReturnKeepsPlan(s', c);
  }

  /** Whatever the trap, a step keeps the plan. */
  lemma HandleKeepsPlan(s: State, trap: Trap)
    requires s.running.Some? && s.running.value.pid != 1
    ensures Plan(Handle(s, trap).state) == Plan(s)
  {
    hide Plan, Schedule, ReturnTo, Notify, Spawn, HandleKill, ChildContext;
    var p, c := s.running.value, s.live;
    match trap {
      case Tick => ReturnKeepsPlan(s, c);
      case Breakpoint => ReturnKeepsPlan(s, Skip(c));
      case Call(v) => ReturnKeepsPlan(s, Return(c, v));
      case Yield => RequeueKeepsPlan(s, Skip(c));
      case RawYield => RequeueKeepsPlan(s, c);
      case YieldReturn(v) => RequeueKeepsPlan(s, Return(c, v));
      case Clone(sp, page, _) => CloneKeepsPlan(s, trap);
      case Wait(w) => WaitKeepsPlan(s, w);
      case Exit(code) =>
        var s1 := Notify(s, p, code);
        NotifyKeepsPlan(s, p, code);
        SamePlan(s1, s1.(running := None));
        ScheduleKeepsPlan(s1.(running := None));
      case Kill(q) => KillKeepsPlan(s, q);
    }
  }

  lemma RequeueKeepsPlan(s: State, c: Context)
    requires s.running.Some?
    ensures Plan(Requeue(s, c).state) == Plan(s)
  {
    hide Plan, Schedule;
    var s1 := s.(running := None, runnable := s.runnable + [s.running.value.(context := c)]);
    SamePlan(s, s1);
    ScheduleKeepsPlan(s1);
  }

  lemma WaitKeepsPlan(s: State, w: int)
    requires s.running.Some?
    ensures Plan(Handle(s, Wait(w)).state) == Plan(s)
  {
    hide Plan, Schedule, ReturnTo;
    var p, c := s.running.value, s.live;
    if p.signals != [] {
      var s1 := s.(running := Some(p.(signals := p.signals[1..])));
      SamePlan(s, s1);
      ReturnKeepsPlan(s1, Return(c, p.signals[0].pid));
    } else {
      var s1 := s.(running := None, blocked := s.blocked + [p.(context := Skip(c), wstatus := w)]);
      SamePlan(s, s1);
      ScheduleKeepsPlan(s1);
    }
  }

  lemma CloneKeepsPlan(s: State, trap: Trap)
    requires s.running.Some? && s.running.value.pid != 1 && trap.Clone?
    ensures Handle(s, trap).Resume? && Plan(Handle(s, trap).state) == Plan(s)
  {
    hide Plan, ReturnTo, ChildContext;
    var p, c := s.running.value, s.live;
    var stack := if trap.childSp != 0 then p.stack else trap.page;
    var child := ChildContext(c, p.stack, trap);
    var s1 := Spawn(s, p.pid, stack, child);
    var q := NewPcb(s, p.pid, stack, child);
    var s0 := s.(globalPid := q.pid, runnable := s.runnable + [q]);
    SamePlan(s, s0);
    NoteKeepsPlan(s0, Born(q.pid, p.pid, stack, child));
    var c1 := c.(a0 := s1.globalPid);
    var s2 := s1.(running := Some(p.(context := c1)));
    SamePlan(s1, s2);
    Returns(s2, Skip(c1));
    ReturnKeepsPlan(s2, Skip(c1));
  }

  // ----- one program per boot -----

  /** A program has been started in this boot, and these are still to start. */
  predicate Begun(o: Outcome, tests: seq<Image>) { !o.Shutdown? && o.state.dirty && o.state.tests == tests }

  /** Once a program has been started the scheduler starts no other. */
  lemma ScheduleStartsNoMore(s: State)
    requires s.dirty
    ensures Begun(Schedule(s), s.tests)
  {
  }

  lemma HandleStartsNoMore(s: State, trap: Trap)
    requires s.running.Some? && s.dirty
    ensures Begun(Handle(s, trap), s.tests)
  {
    hide Schedule, IndexOf;
    var p, c := s.running.value, s.live;
    match trap {
      case Yield => RequeueStartsNoMore(s, Skip(c));
      case RawYield => RequeueStartsNoMore(s, c);
      case YieldReturn(v) => RequeueStartsNoMore(s, Return(c, v));
      case Wait(w) =>
        if p.signals == [] {
          ScheduleStartsNoMore(s.(running := None, blocked := s.blocked + [p.(context := Skip(c), wstatus := w)]));
        }
      case Exit(code) => ScheduleStartsNoMore(Notify(s, p, code).(running := None));
      case _ =>
    }
  }

  lemma RequeueStartsNoMore(s: State, c: Context)
    requires s.running.Some? && s.dirty
    ensures Begun(Requeue(s, c), s.tests)
  {
    hide Schedule;
    ScheduleStartsNoMore(s.(running := None, runnable := s.runnable + [s.running.value.(context := c)]));
  }

  /** The boot starts the first program, if there is one. */
  lemma BootStartsFirst(start: Start)
    ensures start.tests == [] ==> Schedule(Boot(start)).Shutdown?
    ensures start.tests != [] ==> Begun(Schedule(Boot(start)), start.tests[1..])
  {
    hide Schedule;
    var s, tests := Boot(start), start.tests;
    ScheduleBoot(s);
    if tests != [] {
      var image := tests[0];
      var s1 := Spawn(s.(times := s.times + 1, tests := tests[1..]), 1, image.stack, image.context).(dirty := true);
      ScheduleStartsNoMore(s1);
    }
  }

  lemma ScheduleBoot(s: State)
    requires s.running.None? && s.runnable == [] && s.blocked == [] && !s.dirty
    ensures Schedule(s) ==
      var s1 := s.(times := s.times + 1);
      if s.tests == [] then Shutdown(s1)
      else
        var image := s.tests[0];
        Schedule(Spawn(s1.(tests := s.tests[1..]), 1, image.stack, image.context).(dirty := true))
  {
  }

  /**
   Over every run, however it ends: without programs the machine shuts down at once; otherwise exactly one
   program is started without a parent, the first one, and the others wait for the next boot.
   */
  lemma {:induction false} RunsStartOneTest(start: Start, inputs: seq<Input>)
    requires Legal(start, inputs)
    ensures var o := Run(start, inputs);
            && (o.Shutdown? <==> start.tests == [])
            && (start.tests != [] ==> Started(o.state.log) == start.tests[..1] && o.state.tests == start.tests[1..])
  {
    hide Run, Started, Legal;
    RunsKeepPlan(start, inputs);
    RunsBegin(start, inputs);
    var o, tests := Run(start, inputs), start.tests;
    if tests != [] {
      assert tests == Started(o.state.log) + tests[1..];
      assert tests[..1] == Started(o.state.log);
    }
  }

  lemma {:induction false} RunsBegin(start: Start, inputs: seq<Input>)
    ensures start.tests == [] ==> Run(start, inputs).Shutdown?
    ensures start.tests != [] ==> Begun(Run(start, inputs), start.tests[1..])
  {
    hide Step, Schedule;
    var n := |inputs|;
    if n == 0 {
      BootStartsFirst(start);
    } else {
      RunsBegin(start, inputs[..n - 1]);
      var o := Run(start, inputs[..n - 1]);
      if o.Resume? {
        StepStartsNoMore(o.state, inputs[n - 1].context, inputs[n - 1].trap);
      }
    }
  }

  lemma StepStartsNoMore(s: State, c: Context, trap: Trap)
    requires s.running.Some? && s.dirty
    ensures Begun(Step(s, c, trap), s.tests)
  {
    hide Handle;
    HandleStartsNoMore(Note(s.(live := c), Trapped(s.running.value.pid, c, trap)), trap);
  }

  /** Over every run, the programs started without a parent followed by those still to start are the given ones. */
  lemma {:induction false} RunsKeepPlan(start: Start, inputs: seq<Input>)
    requires Legal(start, inputs)
    ensures Plan(Run(start, inputs).state) == start.tests
  {
    hide Step, Schedule, Correct, Accounted, RunnablesOk, BlockedsOk, Started;
    var n := |inputs|;
    if n == 0 {
      ScheduleKeepsPlan(Boot(start));
      BootPlan(start);
    } else {
      var before := inputs[..n - 1];
      assert forall k :: 0 <= k < n - 1 ==> before[..k] == inputs[..k];
      RunsKeepPlan(start, before);
      RunsKeepInv(start, before);
      if Run(start, before).Resume? {
        StepKeepsPlan(Run(start, before).state, inputs[n - 1].context, inputs[n - 1].trap);
      }
    }
  }

  lemma BootPlan(start: Start)
    ensures Plan(Boot(start)) == start.tests
  {
    assert [] + start.tests == start.tests;
  }

  lemma StepKeepsPlan(s: State, c: Context, trap: Trap)
    requires s.running.Some? && s.running.value.pid != 1
    ensures Plan(Step(s, c, trap).state) == Plan(s)
  {
    hide Plan, Handle;
    var s1 := s.(live := c);
    SamePlan(s, s1);
    NoteKeepsPlan(s1, Trapped(s.running.value.pid, c, trap));
    HandleKeepsPlan(Note(s1, Trapped(s.running.value.pid, c, trap)), trap);
  }
}
