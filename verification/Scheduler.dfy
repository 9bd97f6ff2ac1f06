/**
 The process scheduler as a state machine. One step runs from a trap of the running process to the
 next resume: the handler never returns, it ends by restoring some process's registers.
 */
module Scheduler {

  import opened Results

  const WORD := 0x1_0000_0000_0000_0000

  function Add(a: int, b: int): int { (a + b) % WORD }

  /** The saved registers; `rest` stands for all that the scheduler itself never touches. */
  datatype Context = Context(sp: int, a0: int, sepc: int, satp: int, rest: seq<int>)

  datatype Signal = Signal(pid: int, code: int)

  datatype Pcb = Pcb(pid: int, ppid: int, stack: int, context: Context, signals: seq<Signal>, wstatus: int)

  /** What a running process may trap for. `Call` is any system call that only computes a result. */
  datatype Trap =
    | Clone(childSp: int, page: int, table: int)
    | Yield | RawYield | YieldReturn(value: int)
    | Wait(wstatus: int)
    | Exit(code: int)
    | Kill(target: int)
    | Call(result: int)
    | Breakpoint | Tick

  /** A program to start when nothing is left to run: its stack page and first registers. */
  datatype Image = Image(stack: int, context: Context)

  /** The observable history. */
  datatype Event =
    | Born(pid: int, ppid: int, stack: int, context: Context)
    | Trapped(pid: int, context: Context, trap: Trap)
    | Resumed(pid: int, context: Context)
    | Died(pid: int, ppid: int, code: int)
    | Status(pid: int, addr: int, value: int)

  /** What a boot finds: the programs still to start, and the pids and dispatches of the boots before it. */
  datatype Start = Start(tests: seq<Image>, used: nat, times: nat)

  /** `start` and `log` only record what this boot began with and what happened since. */
  datatype State = State(
    running: Option<Pcb>, runnable: seq<Pcb>, blocked: seq<Pcb>,
    globalPid: int, fastPid: int, live: Context, times: int,
    dirty: bool, tests: seq<Image>, start: Start, log: seq<Event>)

  /** How a step ends: a process resumed, or the machine stops in a last state. */
  datatype Outcome = Resume(state: State) | DeadLoop(state: State) | Reboot(state: State) | Shutdown(state: State)

  // ----- the parts of a step -----

  function Note(s: State, e: Event): State { s.(log := s.log + [e]) }

  /** Past the `ecall` instruction, with a result. */
  function Return(c: Context, a0: int): Context { c.(a0 := a0, sepc := Add(c.sepc, 4)) }

  function Skip(c: Context): Context { c.(sepc := Add(c.sepc, 4)) }

  /** Straight back to the process that trapped. */
  function ReturnTo(s: State, c: Context): (o: Outcome)
    requires s.running.Some?
    ensures o.Resume? ==> o.state.running.Some?
  {
    Resume(Note(s.(live := c), Resumed(s.running.value.pid, c)))
  }

  /** A process that sits in no queue becomes the running one. */
  function Restore(s: State, p: Pcb): State {
    Note(s.(running := Some(p), live := p.context, fastPid := p.pid), Resumed(p.pid, p.context))
  }

  /** The first position holding a process with a pending signal. */
  function FirstSignalled(ps: seq<Pcb>): (i: nat)
    ensures i <= |ps|
    ensures i < |ps| ==> ps[i].signals != []
    ensures forall j :: 0 <= j < i ==> ps[j].signals == []
  {
    if ps == [] then 0 else if ps[0].signals != [] then 0 else 1 + FirstSignalled(ps[1..])
  }

  predicate AnySignalled(ps: seq<Pcb>) { FirstSignalled(ps) < |ps| }

  function Without<T>(ps: seq<T>, i: int): seq<T>
    requires 0 <= i < |ps|
  {
    ps[..i] + ps[i + 1..]
  }

  /** A blocked process becomes the running one with its oldest signal as result and, if asked for, as status. */
  function TakeSignal(s: State, i: nat): (s': State)
    requires i < |s.blocked| && s.blocked[i].signals != []
    ensures s'.running.Some?
  {
    var p := s.blocked[i];
    var sig := p.signals[0];
    var p' := p.(context := p.context.(a0 := sig.pid), signals := p.signals[1..]);
    var s1 := s.(blocked := Without(s.blocked, i), running := Some(p'));
    if p.wstatus != 0 then Note(s1, Status(p.pid, p.wstatus, sig.code * 256)) else s1
  }

  /** Hands a blocked process its oldest signal and runs it at once. */
  function Wake(s: State, i: nat): State
    requires i < |s.blocked| && s.blocked[i].signals != []
  {
    var s1 := TakeSignal(s, i);
    Restore(s1, s1.running.value)
  }

  function NewPcb(s: State, ppid: int, stack: int, c: Context): Pcb {
    Pcb(s.globalPid + 1, ppid, stack, c, [], 0)
  }

  /** A new process at the tail of the run queue. */
  function Spawn(s: State, ppid: int, stack: int, c: Context): State {
    var p := NewPcb(s, ppid, stack, c);
    Note(s.(globalPid := p.pid, runnable := s.runnable + [p]), Born(p.pid, ppid, stack, c))
  }

  /** Picks the next process; `running` is empty on entry. */
  function Schedule(s: State): (o: Outcome)
    ensures o.Resume? ==> o.state.running.Some?
    decreases |s.tests|
  {
    var s1 := s.(times := s.times + 1);
    if s.times > 100 && AnySignalled(s.blocked) then Resume(Wake(s1, FirstSignalled(s.blocked)))
    else if s.runnable != [] then Resume(Restore(s1.(runnable := s.runnable[1..]), s.runnable[0]))
    else if AnySignalled(s.blocked) then Resume(Wake(s1, FirstSignalled(s.blocked)))
    else if s.blocked != [] then DeadLoop(s1)
    else if s.dirty then Reboot(s1)
    else if s.tests != [] then
      var image := s.tests[0];
      Schedule(Spawn(s1.(tests := s.tests[1..]), 1, image.stack, image.context).(dirty := true))
    else Shutdown(s1)
  }

  function Deliver(p: Pcb, to: int, sig: Signal): Pcb {
    if p.pid == to then p.(signals := p.signals + [sig]) else p
  }

  function DeliverAll(ps: seq<Pcb>, to: int, sig: Signal): (r: seq<Pcb>)
    ensures |r| == |ps|
  {
    seq(|ps|, i requires 0 <= i < |ps| => Deliver(ps[i], to, sig))
  }

  /** The exit record of a process goes to its parent, wherever that is; without a parent it is lost. */
  function Notify(s: State, p: Pcb, code: int): State {
    var sig := Signal(p.pid, code);
    Note(s.(running := if s.running.Some? then Some(Deliver(s.running.value, p.ppid, sig)) else None,
            runnable := DeliverAll(s.runnable, p.ppid, sig),
            blocked := DeliverAll(s.blocked, p.ppid, sig)),
         Died(p.pid, p.ppid, code))
  }

  function IndexOf(ps: seq<Pcb>, pid: int): (i: nat)
    ensures i <= |ps|
    ensures i < |ps| ==> ps[i].pid == pid
    ensures forall j :: 0 <= j < i ==> ps[j].pid != pid
  {
    if ps == [] then 0 else if ps[0].pid == pid then 0 else 1 + IndexOf(ps[1..], pid)
  }

  /**
   The child's first registers: the parent's at its trap, with result 0, its own stack and, on fork, its own
   page table.
   */
  function ChildContext(c: Context, parentStack: int, t: Trap): Context
    requires t.Clone?
  {
    if t.childSp != 0 then Return(c, 0).(sp := t.childSp)
    else Return(c, 0).(sp := (c.sp - parentStack + t.page) % WORD,
                       satp := t.table / 4096 + 0x8000_0000_0000_0000)
  }

  /** The handler for each trap, entered with the trap's registers in `live`. */
  function Handle(s: State, trap: Trap): (o: Outcome)
    requires s.running.Some?
    ensures o.Resume? ==> o.state.running.Some?
  {
    var p, c := s.running.value, s.live;
    match trap
    case Tick => ReturnTo(s, c)
    case Breakpoint => ReturnTo(s, Skip(c))
    case Call(v) => ReturnTo(s, Return(c, v))
    case Yield => Requeue(s, Skip(c))
    case RawYield => Requeue(s, c)
    case YieldReturn(v) => Requeue(s, Return(c, v))
    case Clone(sp, page, _) =>
      var stack := if sp != 0 then p.stack else page;
      var s1 := Spawn(s, p.pid, stack, ChildContext(c, p.stack, trap));
      var c1 := c.(a0 := s1.globalPid);
      ReturnTo(s1.(running := Some(p.(context := c1))), Skip(c1))
    case Wait(w) =>
      if p.signals != [] then
        ReturnTo(s.(running := Some(p.(signals := p.signals[1..]))), Return(c, p.signals[0].pid))
      else
        Schedule(s.(running := None, blocked := s.blocked + [p.(context := Skip(c), wstatus := w)]))
    case Exit(code) => Schedule(Notify(s, p, code).(running := None))
    case Kill(q) => HandleKill(s, q)
  }

  function Requeue(s: State, c: Context): (o: Outcome)
    requires s.running.Some?
    ensures o.Resume? ==> o.state.running.Some?
  {
    Schedule(s.(running := None, runnable := s.runnable + [s.running.value.(context := c)]))
  }

  /** The victim gets exit code 1. A running victim is not taken out of anything. */
  function HandleKill(s: State, q: int): (o: Outcome)
    requires s.running.Some?
    ensures o.Resume? ==> o.state.running.Some?
  {
    var p, c := s.running.value, s.live;
    var i, j := IndexOf(s.runnable, q), IndexOf(s.blocked, q);
    if p.pid == q then ReturnTo(Notify(s, p, 1), Return(c, 0))
    else if i < |s.runnable| then
      var s1 := Notify(s, s.runnable[i], 1);
      ReturnTo(s1.(runnable := Without(s1.runnable, i)), Return(c, 0))
    else if j < |s.blocked| then
      var s1 := Notify(s, s.blocked[j], 1);
      ReturnTo(s1.(blocked := Without(s1.blocked, j)), Return(c, 0))
    else ReturnTo(s, Return(c, WORD - 1))
  }

  /** One step: the running process has computed, traps with registers `c`, and the handler runs to the next resume. */
  function Step(s: State, c: Context, trap: Trap): (o: Outcome)
    requires s.running.Some?
    ensures o.Resume? ==> o.state.running.Some?
  {
    Handle(Note(s.(live := c), Trapped(s.running.value.pid, c, trap)), trap)
  }

  /** The lists are made anew; the pid counter, which began at 1, and the dispatch counter go on. */
  function Boot(start: Start): State {
    State(None, [], [], 1 + start.used, 0, Context(0, 0, 0, 0, []), start.times, false, start.tests, start, [])
  }
}
