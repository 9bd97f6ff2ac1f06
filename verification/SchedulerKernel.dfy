/**
 The scheduler as the kernel runs it: process objects shared between lists, global variables, and
 handlers that change them in place. Every handler is proved to make the step of the state machine.
 */
module SchedulerKernel {
  import opened Results
  import opened Scheduler
  import opened SchedulerHistory
  import opened SchedulerSafety
  import SchedulerFairness

  class Process {
    var pid: int
    var ppid: int
    var stack: int
    var context: Context
    var signals: seq<Signal>
    var wstatus: int

    constructor (pid: int, ppid: int, stack: int, context: Context)
      ensures Snap() == Pcb(pid, ppid, stack, context, [], 0)
    {
      this.pid, this.ppid, this.stack, this.context := pid, ppid, stack, context;
      signals, wstatus := [], 0;
    }

    function Snap(): Pcb
      reads this
    {
      Pcb(pid, ppid, stack, context, signals, wstatus)
    }
  }

  /** The objects of a list have the values of `s`, position by position. */
  ghost predicate Hold(ps: seq<Process>, s: seq<Pcb>)
    reads ps
  {
    |ps| == |s| && forall i :: 0 <= i < |ps| ==> ps[i].Snap() == s[i]
  }

  /** No two places hold the same pid, so in particular no process object sits in two places. */
  ghost predicate Apart(s: State) {
    && (forall i, j :: 0 <= i < j < |s.runnable| ==> s.runnable[i].pid != s.runnable[j].pid)
    && (forall i, j :: 0 <= i < j < |s.blocked| ==> s.blocked[i].pid != s.blocked[j].pid)
    && (forall i, j :: 0 <= i < |s.runnable| && 0 <= j < |s.blocked| ==> s.runnable[i].pid != s.blocked[j].pid)
    && (s.running.Some? ==> forall i :: 0 <= i < |s.runnable| ==> s.runnable[i].pid != s.running.value.pid)
    && (s.running.Some? ==> forall i :: 0 <= i < |s.blocked| ==> s.blocked[i].pid != s.running.value.pid)
  }

  /** Every state of the state machine that is accounted for keeps its processes apart. */
  lemma AccountedApart(s: State)
    requires Accounted(s)
    ensures Apart(s)
  {
    hide Places, BornPids, DiedPids;
    SchedulerFairness.AccountedSingle(s);
    forall i: nat, j: nat {
      SinglesApart(s, i, j);
    }
  }

  lemma NoteApart(s: State, c: Context, e: Event)
    requires Apart(s)
    ensures Apart(Note(s.(live := c), e))
  {
  }

  lemma NotifyApart(s: State, p: Pcb, code: int)
    requires Apart(s)
    ensures Apart(Notify(s, p, code).(running := None))
  {
  }

  lemma RequeueApart(s: State, c: Context)
    requires Apart(s) && s.running.Some?
    ensures Apart(s.(running := None, runnable := s.runnable + [s.running.value.(context := c)]))
  {
  }

  lemma BlockApart(s: State, w: int)
    requires Apart(s) && s.running.Some?
    ensures Apart(s.(running := None, blocked := s.blocked + [s.running.value.(context := Skip(s.live), wstatus := w)]))
  {
  }

  datatype Place = InRunning | InRunnable | InBlocked | Nowhere

  /** How a handler leaves the kernel. */
  datatype Exit = Restored | Panicked | Rebooted | PoweredOff

  class Kernel {
    var running: Process?
    var runnable: seq<Process>
    var blocked: seq<Process>
    var globalPid: int
    var fastPid: int
    var live: Context
    var times: int
    var dirty: bool
    var tests: seq<Image>
    ghost var start: Start
    ghost var log: Log

    ghost function Processes(): set<Process>
      reads this
    {
      (if running == null then {} else {running}) + (set p | p in runnable) + (set p | p in blocked)
    }

    /** The kernel is in state `s` of the state machine. */
    ghost predicate In(s: State)
      reads this, Processes()
    {
      && (running == null <==> s.running == None) && (running != null ==> s.running == Some(running.Snap()))
      && Hold(runnable, s.runnable) && Hold(blocked, s.blocked)
      && globalPid == s.globalPid && fastPid == s.fastPid && live == s.live && times == s.times
      && dirty == s.dirty && tests == s.tests && start == s.start && log == s.log
    }

    /** The handler ended as the state machine says. */
    ghost predicate Ended(o: Outcome, e: Exit)
      reads this, Processes()
    {
      In(o.state) &&
      match o
      case Resume(_) => e == Restored
      case DeadLoop(_) => e == Panicked
      case Reboot(_) => e == Rebooted
      case Shutdown(_) => e == PoweredOff
    }

    lemma OnlyOne(p: Process, s: State)
      requires In(s) && Apart(s) && p in Processes()
      ensures forall q :: q in Processes() && q.pid == p.pid ==> q == p
    {
    }

    /** A blocked process sits in its place only. */
    lemma OthersApart(i: nat, s: State)
      requires In(s) && Apart(s) && i < |blocked|
      ensures forall k :: 0 <= k < |blocked| && k != i ==> blocked[k] != blocked[i]
      ensures forall k :: 0 <= k < |runnable| ==> runnable[k] != blocked[i]
      ensures blocked[i] in Processes()
    {
    }

    /** The process with the pid, and the place it was found in. */
    method SearchByPid(pid: int) returns (p: Process?, place: Place)
      ensures p == null <==> place == Nowhere
      ensures p == null ==> (running == null || running.pid != pid)
      ensures p == null ==> forall q :: q in runnable || q in blocked ==> q.pid != pid
      ensures p != null ==> p.pid == pid && p in Processes()
      ensures match place
              case Nowhere => true
              case InRunning => p == running
              case InRunnable => p in runnable && (running == null || running.pid != pid)
              case InBlocked =>
                && p in blocked && (running == null || running.pid != pid)
                && forall q :: q in runnable ==> q.pid != pid
    {
      if running != null && running.pid == pid {
        return running, InRunning;
      }
      for i := 0 to |runnable|
        invariant forall j :: 0 <= j < i ==> runnable[j].pid != pid
      {
        if runnable[i].pid == pid {
          return runnable[i], InRunnable;
        }
      }
      for i := 0 to |blocked|
        invariant forall j :: 0 <= j < i ==> blocked[j].pid != pid
      {
        if blocked[i].pid == pid {
          return blocked[i], InBlocked;
        }
      }
      p, place := null, Nowhere;
    }

    /** Sends the exit record of `p` to its parent, and changes no other process. */
    method KillProcess(p: Process, code: int, ghost s: State)
      requires In(s) && Apart(s) && p in Processes()
      modifies this`log, Processes()
      ensures In(Notify(s, old(p.Snap()), code))
    {
      hide Apart;
      ghost var snap := p.Snap();
      SendSignal(p, code, s);
      log := log + [Died(snap.pid, snap.ppid, code)];
    }

    method SendSignal(p: Process, code: int, ghost s: State)
      requires In(s) && Apart(s)
      modifies Processes()
      ensures forall q :: q in Processes() ==>
        q.Snap() == Deliver(old(q.Snap()), old(p.ppid), Signal(old(p.pid), code))
    {
      hide Apart;
      var parent, _ := SearchByPid(p.ppid);
      if parent != null {
        OnlyOne(parent, s);
        parent.signals := parent.signals + [Signal(p.pid, code)];
      }
    }

    /** Loads the registers of the process in `running` and leaves. */
    method Restore(ghost s: State)
      requires running != null && In(s.(running := Some(running.Snap())))
      modifies this`live, this`fastPid, this`log
      ensures In(Scheduler.Restore(s, running.Snap()))
    {
      live := running.context;
      fastPid := running.pid;
      log := log + [Resumed(running.pid, running.context)];
    }

    /** Runs the first blocked process that has a signal, if there is one. */
    method TryToUnfreeze(ghost s: State) returns (woken: bool)
      requires In(s) && Apart(s) && s.running == None
      modifies this, Processes()
      ensures woken <==> AnySignalled(s.blocked)
      ensures woken ==> In(Wake(s, FirstSignalled(s.blocked)))
      ensures !woken ==> In(s) && Processes() == old(Processes())
      ensures Processes() <= old(Processes())
    {
      hide FirstSignalled;
      for i := 0 to |blocked|
        invariant In(s)
        invariant blocked == old(blocked) && runnable == old(runnable) && running == null
        invariant forall j :: 0 <= j < i ==> s.blocked[j].signals == []
      {
        if blocked[i].signals != [] {
          assert FirstSignalled(s.blocked) == i;
          Unfreeze(i, s);
          return true;
        }
      }
      woken := false;
    }

    method Unfreeze(i: nat, ghost s: State)
      requires In(s) && Apart(s) && s.running == None && i < |blocked| && blocked[i].signals != []
      modifies this, Processes()
      ensures In(Wake(s, i))
      ensures Processes() <= old(Processes())
    {
      hide Scheduler.TakeSignal, Scheduler.Restore, Apart;
      TakeSignal(i, s);
      Restore(Scheduler.TakeSignal(s, i));
    }

    method TakeSignal(i: nat, ghost s: State)
      requires In(s) && Apart(s) && s.running == None && i < |blocked| && blocked[i].signals != []
      modifies this, Processes()
      ensures running != null && In(Scheduler.TakeSignal(s, i))
      ensures runnable == old(runnable) && running == old(blocked[i])
      ensures blocked == old(blocked)[..i] + old(blocked)[i + 1..]
    {
      hide Apart, Processes;
      OthersApart(i, s);
      var p := blocked[i];
      running := p;
      blocked := blocked[..i] + blocked[i + 1..];
      p.context := p.context.(a0 := p.signals[0].pid);
      if p.wstatus != 0 {
        log := log + [Status(p.pid, p.wstatus, p.signals[0].code * 256)];
      }
      p.signals := p.signals[1..];
    }

    /** The new process takes the next pid and the tail of the run queue. */
    method AddProcess(ppid: int, stack: int, context: Context, ghost s: State)
      requires In(s)
      modifies this`globalPid, this`runnable, this`log
      ensures In(Spawn(s, ppid, stack, context))
      ensures fresh(Processes() - old(Processes()))
      ensures running !in old(runnable) ==> running !in runnable
    {
      globalPid := globalPid + 1;
      var p := new Process(globalPid, ppid, stack, context);
      runnable := runnable + [p];
      log := log + [Born(p.pid, ppid, stack, context)];
    }

    /** The head of the run queue is dispatched. */
    method Dispatch(ghost s: State)
      requires In(s) && s.running == None && runnable != []
      modifies this
      ensures In(Scheduler.Restore(s.(runnable := s.runnable[1..]), s.runnable[0]))
      ensures Processes() <= old(Processes())
    {
      hide Scheduler.Restore, In;
      PopFirst(s);
      Restore(s.(runnable := s.runnable[1..]));
    }

    /** The head of the run queue becomes the running process. */
    method PopFirst(ghost s: State)
      requires In(s) && s.running == None && runnable != []
      modifies this`running, this`runnable
      ensures running != null && s.runnable != [] && running.Snap() == s.runnable[0]
      ensures In(s.(runnable := s.runnable[1..], running := Some(s.runnable[0])))
      ensures Processes() <= old(Processes())
    {
      running := runnable[0];
      runnable := runnable[1..];
    }

    method CountDispatch(ghost s: State)
      requires In(s) && Apart(s)
      modifies this`times
      ensures In(s.(times := s.times + 1)) && Apart(s.(times := s.times + 1))
      ensures Processes() == old(Processes())
    {
      times := times + 1;
    }

    /** The objects are empty where the state is. */
    lemma Mirrors(s: State)
      requires In(s)
      ensures (running == null <==> s.running == None) && (runnable == [] <==> s.runnable == [])
      ensures (blocked == [] <==> s.blocked == []) && times == s.times && dirty == s.dirty && tests == s.tests
    {
    }

    method Schedule(ghost s: State) returns (e: Exit)
      requires In(s) && s.running == None && Apart(s)
      modifies this, Processes()
      ensures Ended(Scheduler.Schedule(s), e)
      ensures fresh(Processes() - old(Processes()))
      decreases |tests|
    {
      hide FirstSignalled, Wake, Scheduler.Restore, Spawn, In, Apart;
      Mirrors(s);
      CountDispatch(s);
      ghost var s1 := s.(times := s.times + 1);
      Mirrors(s1);
      if times - 1 > 100 && blocked != [] {
        var woken := TryToUnfreeze(s1);
        if woken {
          return Restored;
        }
        Mirrors(s1);
      }
      if runnable != [] {
        Dispatch(s1);
        return Restored;
      }
      if blocked != [] {
        var woken := TryToUnfreeze(s1);
        return if woken then Restored else Panicked;
      }
      if dirty {
        return Rebooted;
      }
      if tests != [] {
        e := StartTest(s1);
      } else {
        e := PoweredOff;
      }
    }

    /** Nothing is left but a program that has not run yet. */
    method StartTest(ghost s: State) returns (e: Exit)
      requires In(s) && s.running == None && runnable == [] && blocked == [] && tests != []
      modifies this
      ensures var image := s.tests[0];
              var started := Spawn(s.(tests := s.tests[1..]), 1, image.stack, image.context).(dirty := true);
              Ended(Scheduler.Schedule(started), e)
      ensures fresh(Processes() - old(Processes()))
      decreases |tests|, 0
    {
      hide Scheduler.Schedule, Spawn, In;
      Mirrors(s);
      var image := PopTest(s);
      ghost var s1 := s.(tests := s.tests[1..]);
      AddProcess(1, image.stack, image.context, s1);
      ghost var s2 := Spawn(s1, 1, image.stack, image.context);
      SetDirty(s2);
      SpawnedApart(s1, image);
      e := Schedule(s2.(dirty := true));
    }

    method PopTest(ghost s: State) returns (image: Image)
      requires In(s) && tests != []
      modifies this`tests
      ensures s.tests != [] && image == s.tests[0] && In(s.(tests := s.tests[1..]))
      ensures tests == old(tests)[1..] && Processes() == old(Processes())
    {
      image := tests[0];
      tests := tests[1..];
    }

    method SetDirty(ghost s: State)
      requires In(s)
      modifies this`dirty
      ensures In(s.(dirty := true)) && Processes() == old(Processes())
    {
      dirty := true;
    }

    constructor (start: Start)
      ensures In(Boot(start)) && Processes() == {}
    {
      running, runnable, blocked := null, [], [];
      globalPid, fastPid, times, dirty := 1 + start.used, 0, start.times, false;
      live := Context(0, 0, 0, 0, []);
      this.tests := start.tests;
      this.start := start;
      log := [];
    }

    /** The trap entry: the registers are saved, the handler for the trap runs, and some process is resumed. */
    method HandleTrap(c: Context, trap: Trap, ghost s: State) returns (e: Exit)
      requires In(s) && Apart(s) && running != null
      modifies this, Processes()
      ensures Ended(Step(s, c, trap), e)
      ensures fresh(Processes() - old(Processes()))
    {
      hide Apart, Handle;
      live := c;
      log := log + [Trapped(running.pid, c, trap)];
      ghost var s1 := Note(s.(live := c), Trapped(running.pid, c, trap));
      NoteApart(s, c, Trapped(running.pid, c, trap));
      e := Dispatched(trap, s1);
    }

    method Dispatched(trap: Trap, ghost s: State) returns (e: Exit)
      requires In(s) && Apart(s) && running != null
      modifies this, Processes()
      ensures Ended(Handle(s, trap), e)
      ensures fresh(Processes() - old(Processes()))
    {
      hide Apart;
      match trap {
        case Clone(sp, page, table) => e := Clone(sp, page, table, s);
        case Yield => e := Yield(s);
        case RawYield => e := RawYield(s);
        case YieldReturn(a0) => e := YieldWithReturn(a0, s);
        case Wait(w) => e := Wait(w, s);
        case Exit(code) => e := ExitProcess(code, s);
        case Kill(pid) => e := SysKill(pid, s);
        case Call(a0) => e := SyscallReturn(a0, s);
        case Breakpoint => e := SkipInstruction(s);
        case Tick => e := Resume(s);
      }
    }

    method SkipInstruction(ghost s: State) returns (e: Exit)
      requires In(s) && running != null
      modifies this`live, this`log
      ensures Ended(ReturnTo(s, Skip(s.live)), e)
    {
      live := live.(sepc := Add(live.sepc, 4));
      e := Resume(s.(live := live));
    }

    method Resume(ghost s: State) returns (e: Exit)
      requires In(s) && running != null
      modifies this`log
      ensures Ended(ReturnTo(s, s.live), e)
    {
      log := log + [Resumed(running.pid, live)];
      e := Restored;
    }

    // ----- the system calls that end in the scheduler -----

    /** Saves the registers and queues the running process; the three yields differ in what they save. */
    method Requeue(saved: Context, ghost s: State) returns (e: Exit)
      requires In(s) && Apart(s) && running != null
      modifies this, Processes()
      ensures Ended(Scheduler.Requeue(s, saved), e)
      ensures fresh(Processes() - old(Processes()))
    {
      hide Scheduler.Schedule, Apart, In;
      IsRunning(s);
      Enqueue(saved, s);
      RequeueApart(s, saved);
      e := Schedule(s.(running := None, runnable := s.runnable + [s.running.value.(context := saved)]));
    }

    /** The running process goes to the tail of the run queue. */
    method Enqueue(saved: Context, ghost s: State)
      requires In(s) && Apart(s) && running != null
      modifies this`running, this`runnable, running`context
      ensures In(s.(running := None, runnable := s.runnable + [s.running.value.(context := saved)]))
      ensures Processes() == old(Processes())
    {
      RunningApart(s);
      running.context := saved;
      runnable := runnable + [running];
      running := null;
    }

    lemma IsRunning(s: State)
      requires In(s) && running != null
      ensures s.running == Some(running.Snap())
    {
    }

    lemma RunningApart(s: State)
      requires In(s) && Apart(s) && running != null
      ensures running !in runnable && running !in blocked
    {
    }

    method YieldWithReturn(a0: int, ghost s: State) returns (e: Exit)
      requires In(s) && Apart(s) && running != null
      modifies this, Processes()
      ensures Ended(Handle(s, YieldReturn(a0)), e)
      ensures fresh(Processes() - old(Processes()))
    {
      hide Scheduler.Requeue;
      e := Requeue(live.(a0 := a0, sepc := Add(live.sepc, 4)), s);
    }

    method RawYield(ghost s: State) returns (e: Exit)
      requires In(s) && Apart(s) && running != null
      modifies this, Processes()
      ensures Ended(Handle(s, Trap.RawYield), e)
      ensures fresh(Processes() - old(Processes()))
    {
      hide Scheduler.Requeue;
      e := Requeue(live, s);
    }

    method Yield(ghost s: State) returns (e: Exit)
      requires In(s) && Apart(s) && running != null
      modifies this, Processes()
      ensures Ended(Handle(s, Trap.Yield), e)
      ensures fresh(Processes() - old(Processes()))
    {
      hide Scheduler.Requeue;
      e := Requeue(live.(sepc := Add(live.sepc, 4)), s);
    }

    /** The end of every trap that goes straight back. */
    method SyscallReturn(a0: int, ghost s: State) returns (e: Exit)
      requires In(s) && running != null
      modifies this`live, this`log
      ensures Ended(ReturnTo(s, Return(s.live, a0)), e)
    {
      live := live.(a0 := a0, sepc := Add(live.sepc, 4));
      log := log + [Resumed(running.pid, live)];
      e := Restored;
    }

    method Wait(wstatus: int, ghost s: State) returns (e: Exit)
      requires In(s) && Apart(s) && running != null
      modifies this, Processes()
      ensures Ended(Handle(s, Trap.Wait(wstatus)), e)
      ensures fresh(Processes() - old(Processes()))
    {
      hide Scheduler.Schedule;
      if running.signals != [] {
        RunningApart(s);
        var ret := running.signals[0].pid;
        running.signals := running.signals[1..];
        e := SyscallReturn(ret, s.(running := Some(running.Snap())));
      } else {
        e := Block(wstatus, s);
      }
    }

    method Block(wstatus: int, ghost s: State) returns (e: Exit)
      requires In(s) && Apart(s) && running != null
      modifies this, Processes()
      ensures Ended(Scheduler.Schedule(s.(running := None,
                blocked := s.blocked + [s.running.value.(context := Skip(s.live), wstatus := wstatus)])), e)
      ensures fresh(Processes() - old(Processes()))
    {
      hide Scheduler.Schedule, Apart, In;
      IsRunning(s);
      Suspend(wstatus, s);
      BlockApart(s, wstatus);
      e := Schedule(s.(running := None,
                       blocked := s.blocked + [s.running.value.(context := Skip(s.live), wstatus := wstatus)]));
    }

    /** The running process goes to the tail of the blocked list. */
    method Suspend(wstatus: int, ghost s: State)
      requires In(s) && Apart(s) && running != null
      modifies this`running, this`blocked, running
      ensures In(s.(running := None,
                    blocked := s.blocked + [s.running.value.(context := Skip(s.live), wstatus := wstatus)]))
      ensures Processes() == old(Processes())
    {
      RunningApart(s);
      running.context := live.(sepc := Add(live.sepc, 4));
      running.wstatus := wstatus;
      blocked := blocked + [running];
      running := null;
    }

    /** The child's registers, built on a copy of the parent's. */
    method CopyContext(childSp: int, page: int, table: int) returns (child: Context)
      requires running != null
      ensures child == ChildContext(live, running.stack, Trap.Clone(childSp, page, table))
    {
      child := live.(a0 := 0);
      if childSp != 0 {
        child := child.(sp := childSp);
        child := child.(sepc := Add(child.sepc, 4));
      } else {
        child := child.(satp := table / 4096 + 0x8000_0000_0000_0000);
        child := child.(sepc := Add(child.sepc, 4));
        child := child.(sp := (live.sp - running.stack + page) % WORD);
      }
    }

    method SaveRunning(c: Context, ghost s: State)
      requires In(s) && running != null && running !in runnable && running !in blocked
      modifies this`live, running`context
      ensures live == c
      ensures In(s.(running := Some(s.running.value.(context := c)), live := c))
    {
      running.context := c;
      live := running.context;
    }

    method Clone(childSp: int, page: int, table: int, ghost s: State) returns (e: Exit)
      requires In(s) && Apart(s) && running != null
      modifies this, Processes()
      ensures Ended(Handle(s, Trap.Clone(childSp, page, table)), e)
      ensures fresh(Processes() - old(Processes()))
    {
      hide ChildContext, Apart, Spawn;
      RunningApart(s);
      var child := CopyContext(childSp, page, table);
      var stack := if childSp != 0 then running.stack else page;
      AddProcess(running.pid, stack, child, s);
      ghost var s1 := Spawn(s, running.pid, stack, child);
      SpawnKeepsRest(s, running.pid, stack, child);
      SaveRunning(live.(a0 := globalPid), s1);
      ghost var s2 := s1.(running := Some(s1.running.value.(context := live)), live := live);
      e := SyscallReturn(live.a0, s2);
      assert ReturnTo(s2, Return(s2.live, s2.live.a0)) == Handle(s, Trap.Clone(childSp, page, table));
    }

    method ExitProcess(code: int, ghost s: State) returns (e: Exit)
      requires In(s) && Apart(s) && running != null
      modifies this, Processes()
      ensures Ended(Handle(s, Trap.Exit(code)), e)
      ensures fresh(Processes() - old(Processes()))
    {
      hide Scheduler.Schedule, Notify, Apart, In;
      IsRunning(s);
      KillProcess(running, code, s);
      ghost var s1 := Notify(s, s.running.value, code);
      Drop(s1);
      NotifyApart(s, s.running.value, code);
      e := Schedule(s1.(running := None));
    }

    /** The running process is forgotten. */
    method Drop(ghost s: State)
      requires In(s)
      modifies this`running
      ensures In(s.(running := None)) && Processes() <= old(Processes())
    {
      running := null;
    }

    method SysKill(pid: int, ghost s: State) returns (e: Exit)
      requires In(s) && Apart(s) && running != null
      modifies this, Processes()
      ensures Ended(Handle(s, Trap.Kill(pid)), e)
      ensures fresh(Processes() - old(Processes()))
    {
      hide Notify, IndexOf, Apart, ReturnTo, In;
      var process, place := SearchByPid(pid);
      if process == null {
        NotFound(pid, s);
        e := SyscallReturn(WORD - 1, s);
        return;
      }
      ghost var k := FoundAt(process, place, s);
      ghost var victim := process.Snap();
      KillProcess(process, 1, s);
      ghost var s1 := Notify(s, victim, 1);
      NotifySizes(s, victim, 1);
      Erase(process, place, k, s1);
      e := SyscallReturn(0, Erased(s1, place, k));
    }

    /** Takes a killed process out of the list it was found in; the running process is in no list. */
    method Erase(p: Process, place: Place, ghost k: nat, ghost s: State)
      requires In(s) && place != Nowhere
      requires place == InRunnable ==> k < |runnable| && runnable[k] == p && forall n :: 0 <= n < k ==> runnable[n] != p
      requires place == InBlocked ==> k < |blocked| && blocked[k] == p && forall n :: 0 <= n < k ==> blocked[n] != p
      modifies this`runnable, this`blocked
      ensures In(Erased(s, place, k))
      ensures Processes() <= old(Processes())
    {
      match place {
        case InRunnable => EraseRunnable(p, k, s);
        case InBlocked => EraseBlocked(p, k, s);
        case _ =>
      }
    }

    method EraseRunnable(p: Process, ghost k: nat, ghost s: State)
      requires In(s) && k < |runnable| && runnable[k] == p && forall n :: 0 <= n < k ==> runnable[n] != p
      modifies this`runnable
      ensures In(s.(runnable := Without(s.runnable, k)))
      ensures Processes() <= old(Processes())
    {
      for i := 0 to |runnable|
        invariant In(s) && runnable == old(runnable) && i <= k
      {
        if runnable[i] == p {
          runnable := runnable[..i] + runnable[i + 1..];
          return;
        }
      }
    }

    method EraseBlocked(p: Process, ghost k: nat, ghost s: State)
      requires In(s) && k < |blocked| && blocked[k] == p && forall n :: 0 <= n < k ==> blocked[n] != p
      modifies this`blocked
      ensures In(s.(blocked := Without(s.blocked, k)))
      ensures Processes() <= old(Processes())
    {
      for i := 0 to |blocked|
        invariant In(s) && blocked == old(blocked) && i <= k
      {
        if blocked[i] == p {
          blocked := blocked[..i] + blocked[i + 1..];
          return;
        }
      }
    }

    lemma NotFound(pid: int, s: State)
      requires In(s) && running != null && running.pid != pid
      requires forall q :: q in runnable || q in blocked ==> q.pid != pid
      ensures s.running.Some? && s.running.value.pid != pid
      ensures IndexOf(s.runnable, pid) == |s.runnable| && IndexOf(s.blocked, pid) == |s.blocked|
    {
      hide IndexOf;
      assert forall i :: 0 <= i < |runnable| ==> runnable[i] in runnable;
      assert forall i :: 0 <= i < |blocked| ==> blocked[i] in blocked;
    }

    /** A found process is at the position the state machine finds. */
    lemma FoundAt(p: Process, place: Place, s: State) returns (k: nat)
      requires In(s) && Apart(s) && p in Processes() && running != null
      requires place == InRunning ==> p == running
      requires place == InRunnable ==> p in runnable
      requires place == InBlocked ==> p in blocked
      ensures s.running.Some? && (place == InRunning ==> s.running.value == p.Snap())
      ensures place == InRunnable ==> k < |s.runnable| && s.runnable[k] == p.Snap() && s.running.value.pid != p.pid
      ensures place == InBlocked ==> k < |s.blocked| && s.blocked[k] == p.Snap() && s.running.value.pid != p.pid
      ensures place == InRunnable ==> k < |runnable| && runnable[k] == p && IndexOf(s.runnable, p.pid) == k
      ensures place == InRunnable ==> forall n :: 0 <= n < k ==> runnable[n] != p
      ensures place == InBlocked ==> k < |blocked| && blocked[k] == p && IndexOf(s.blocked, p.pid) == k
      ensures place == InBlocked ==> forall n :: 0 <= n < k ==> blocked[n] != p
      ensures place == InBlocked ==> IndexOf(s.runnable, p.pid) == |s.runnable|
    {
      hide IndexOf;
      k := 0;
      if place == InRunnable {
        k :| 0 <= k < |runnable| && runnable[k] == p;
        SchedulerFairness.IndexIs(s.runnable, p.pid, k);
      } else if place == InBlocked {
        k :| 0 <= k < |blocked| && blocked[k] == p;
        SchedulerFairness.IndexIs(s.blocked, p.pid, k);
      }
    }
  }

  /**
   A whole run: the booted kernel takes one trap after the other until the machine stops. Its objects
   end in the state of the run, so what holds of every run holds of them.
   */
  method RunKernel(start: Start, inputs: seq<Input>) returns (k: Kernel, e: Exit)
    requires Legal(start, inputs)
    ensures fresh(k) && k.Ended(Run(start, inputs), e)
    ensures e == Restored ==> k.running != null && k.fastPid == k.running.pid && Correct(start, k.log)
    ensures e == Restored ==> forall p, q :: p in k.Processes() && q in k.Processes() && p.pid == q.pid ==> p == q
  {
    hide Run, Legal, Correct, Kernel.Ended;
    k := new Kernel(start);
    BootApart(start);
    NoInputs(start, inputs);
    e := k.Schedule(Boot(start));
    for i := 0 to |inputs|
      invariant fresh(k) && fresh(k.Processes())
      invariant k.Ended(Run(start, inputs[..i]), e)
    {
      e := Advance(k, e, start, inputs, i);
    }
    assert inputs[..|inputs|] == inputs;
    RunFacts(k, e, start, inputs);
  }

  /** One more trap of the run, unless the machine has stopped. */
  method Advance(k: Kernel, e: Exit, ghost start: Start, inputs: seq<Input>, i: nat) returns (e': Exit)
    requires Legal(start, inputs) && i < |inputs| && k.Ended(Run(start, inputs[..i]), e)
    modifies k, k.Processes()
    ensures k.Ended(Run(start, inputs[..i + 1]), e') && fresh(k.Processes() - old(k.Processes()))
  {
    hide Step, Scheduler.Schedule, Apart, Legal, Kernel.Processes;
    assert inputs[..i + 1][..i] == inputs[..i];
    e' := e;
    if e == Restored {
      ghost var s := Reached(start, inputs, i);
      e' := k.HandleTrap(inputs[i].context, inputs[i].trap, s);
    }
  }

  lemma NoInputs(start: Start, inputs: seq<Input>)
    ensures Run(start, inputs[..0]) == Schedule(Boot(start))
  {
  }

  lemma RunFacts(k: Kernel, e: Exit, start: Start, inputs: seq<Input>)
    requires Legal(start, inputs) && k.Ended(Run(start, inputs), e)
    ensures e == Restored ==> k.running != null && k.fastPid == k.running.pid && Correct(start, k.log)
    ensures e == Restored ==> forall p, q :: p in k.Processes() && q in k.Processes() && p.pid == q.pid ==> p == q
  {
    hide Run, Legal, Correct, Apart, Kernel.Processes, Places, BornPids, DiedPids;
    if e == Restored {
      assert inputs[..|inputs|] == inputs;
      var s := Reached(start, inputs, |inputs|);
      RunsAreSafe(start, inputs);
      Distinct(k, s);
    }
  }

  lemma Distinct(k: Kernel, s: State)
    requires k.In(s) && Apart(s)
    ensures forall p, q :: p in k.Processes() && q in k.Processes() && p.pid == q.pid ==> p == q
  {
    hide Apart;
    forall p | p in k.Processes() ensures forall q :: q in k.Processes() && q.pid == p.pid ==> q == p {
      k.OnlyOne(p, s);
    }
  }

  /** A single process is apart from all others. */
  lemma SpawnedApart(s: State, image: Image)
    requires s.running == None && s.runnable == [] && s.blocked == []
    ensures var s' := Spawn(s, 1, image.stack, image.context).(dirty := true);
            s'.running == None && Apart(s')
  {
  }

  lemma BootApart(start: Start)
    ensures Apart(Boot(start)) && Boot(start).running == None
  {
  }

  /** A state reached on the way has its processes apart. */
  lemma Reached(start: Start, inputs: seq<Input>, n: nat) returns (s: State)
    requires Legal(start, inputs) && n <= |inputs| && Run(start, inputs[..n]).Resume?
    ensures s == Run(start, inputs[..n]).state && Apart(s) && s.running.Some?
  {
    hide Run, Correct, RunnablesOk, BlockedsOk, Accounted, Apart;
    s := Run(start, inputs[..n]).state;
    LegalPrefix(start, inputs, n);
    RunsKeepInv(start, inputs[..n]);
    AccountedApart(s);
  }

  lemma LegalPrefix(start: Start, inputs: seq<Input>, n: nat)
    requires Legal(start, inputs) && n <= |inputs|
    ensures Legal(start, inputs[..n])
  {
    hide Run;
    assert forall k :: 0 <= k < n ==> inputs[..n][..k] == inputs[..k];
  }

  ghost function Erased(s: State, place: Place, k: nat): State
    requires place == InRunnable ==> k < |s.runnable|
    requires place == InBlocked ==> k < |s.blocked|
  {
    match place
    case InRunnable => s.(runnable := Without(s.runnable, k))
    case InBlocked => s.(blocked := Without(s.blocked, k))
    case _ => s
  }

  lemma NotifySizes(s: State, p: Pcb, code: int)
    ensures var s' := Notify(s, p, code);
            && |s'.runnable| == |s.runnable| && |s'.blocked| == |s.blocked|
            && s'.live == s.live && s'.running.Some? == s.running.Some?
  {
  }

  lemma TwiceInBag(ps: seq<Pcb>, i: nat, j: nat)
    requires i < j < |ps| && ps[i].pid == ps[j].pid
    ensures Bag(ps)[ps[i].pid] >= 2
  {
    hide Bag;
    PidsWithout(ps, i);
    assert Without(ps, i)[j - 1] == ps[j];
    InBag(Without(ps, i), ps[j]);
  }

  lemma SinglesApart(s: State, i: nat, j: nat)
    requires SchedulerFairness.Single(s)
    ensures s.running.Some? && i < |s.runnable| ==> s.runnable[i].pid != s.running.value.pid
    ensures s.running.Some? && i < |s.blocked| ==> s.blocked[i].pid != s.running.value.pid
    ensures i < |s.runnable| && j < |s.blocked| ==> s.runnable[i].pid != s.blocked[j].pid
    ensures i < j < |s.runnable| ==> s.runnable[i].pid != s.runnable[j].pid
    ensures i < j < |s.blocked| ==> s.blocked[i].pid != s.blocked[j].pid
  {
    hide Bag, Places;
    if i < |s.runnable| {
      InBag(s.runnable, s.runnable[i]);
      SchedulerFairness.PlacesAt(s, s.runnable[i].pid);
      if i < j < |s.runnable| && s.runnable[i].pid == s.runnable[j].pid {
        TwiceInBag(s.runnable, i, j);
      }
    }
    if i < |s.blocked| {
      InBag(s.blocked, s.blocked[i]);
      SchedulerFairness.PlacesAt(s, s.blocked[i].pid);
      if i < j < |s.blocked| && s.blocked[i].pid == s.blocked[j].pid {
        TwiceInBag(s.blocked, i, j);
      }
    }
    if j < |s.blocked| {
      InBag(s.blocked, s.blocked[j]);
    }
  }
}
