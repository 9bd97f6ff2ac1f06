/** What the history alone says about each process, and when a history is a correct one. */
module SchedulerHistory {
  import opened Results
  import opened Scheduler

  type Log = seq<Event>

  function Last(log: Log): Event
    requires log != []
  {
    log[|log| - 1]
  }

  function Prior(log: Log): Log
    requires log != []
  {
    log[..|log| - 1]
  }

  /** The event that decides with which registers `pid` has to continue: its birth or its last trap. */
  function Own(log: Log, pid: int): (e: Option<Event>)
    ensures e.Some? ==> (e.value.Born? || e.value.Trapped?) && e.value.pid == pid
  {
    if log == [] then None
    else if (Last(log).Born? || Last(log).Trapped?) && Last(log).pid == pid then Some(Last(log))
    else Own(Prior(log), pid)
  }

  function Birth(log: Log, pid: int): (e: Option<Event>)
    ensures e.Some? ==> e.value.Born? && e.value.pid == pid
  {
    if log == [] then None
    else if Last(log).Born? && Last(log).pid == pid then Some(Last(log))
    else Birth(Prior(log), pid)
  }

  /** `pid` has trapped for a wait and not been resumed since. */
  predicate Waiting(log: Log, pid: int) {
    log != [] &&
    if Last(log).Trapped? && Last(log).pid == pid then Last(log).trap.Wait?
    else if Last(log).Resumed? && Last(log).pid == pid then false
    else Waiting(Prior(log), pid)
  }

  /** The results the waits of `pid` have returned, in order. */
  function WaitResults(log: Log, pid: int): seq<int> {
    if log == [] then []
    else WaitResults(Prior(log), pid) +
         (if Last(log).Resumed? && Last(log).pid == pid && Waiting(Prior(log), pid) then [Last(log).context.a0] else [])
  }

  /** The terminated children of `pid` with their exit codes, in order of termination. */
  function DeadChildren(log: Log, pid: int): seq<Signal> {
    if log == [] then []
    else DeadChildren(Prior(log), pid) +
         (if Last(log).Died? && Last(log).ppid == pid then [Signal(Last(log).pid, Last(log).code)] else [])
  }

  function BornPids(log: Log): multiset<int> {
    if log == [] then multiset{}
    else BornPids(Prior(log)) + (if Last(log).Born? then multiset{Last(log).pid} else multiset{})
  }

  function DiedPids(log: Log): multiset<int> {
    if log == [] then multiset{}
    else DiedPids(Prior(log)) + (if Last(log).Died? then multiset{Last(log).pid} else multiset{})
  }

  ghost predicate PidsBelow(log: Log, bound: int) {
    forall i :: 0 <= i < |log| ==> EventBelow(log[i], bound)
  }

  /** Every pid of the history was given out after `bound`. */
  ghost predicate BornAbove(log: Log, bound: int) {
    forall i :: 0 <= i < |log| && log[i].Born? ==> log[i].pid > bound
  }

  predicate EventBelow(e: Event, bound: int) {
    e.pid <= bound && (e.Died? ==> e.ppid <= bound)
  }

  /** The next child a wait of `pid` has to report. */
  function NextChild(log: Log, pid: int): Option<Signal> {
    var n := |WaitResults(log, pid)|;
    if n < |DeadChildren(log, pid)| then Some(DeadChildren(log, pid)[n]) else None
  }

  // ----- whose turn it is -----

  function Remove(xs: seq<int>, x: int): seq<int> {
    if xs == [] then []
    else
      var n := |xs| - 1;
      Remove(xs[..n], x) + (if xs[n] == x then [] else [xs[n]])
  }

  predicate Yields(trap: Trap) { trap.Yield? || trap.RawYield? || trap.YieldReturn? }

  /** The processes that can run, in the order in which they were born or gave up the processor. */
  function Ready(log: Log): seq<int> {
    if log == [] then [] else ReadyAfter(Ready(Prior(log)), Last(log))
  }

  function ReadyAfter(ready: seq<int>, e: Event): seq<int> {
    match e
    case Born(pid, _, _, _) => ready + [pid]
    case Trapped(pid, _, trap) => if Yields(trap) then ready + [pid] else ready
    case Resumed(pid, _) => Remove(ready, pid)
    case Died(pid, _, _) => Remove(ready, pid)
    case Status(_, _, _) => ready
  }

  /** The processes that wait, in the order in which they began to. */
  function Asleep(log: Log): seq<int> {
    if log == [] then [] else AsleepAfter(Asleep(Prior(log)), Last(log))
  }

  function AsleepAfter(asleep: seq<int>, e: Event): seq<int> {
    match e
    case Trapped(pid, _, trap) => if trap.Wait? then asleep + [pid] else asleep
    case Resumed(pid, _) => Remove(asleep, pid)
    case Died(pid, _, _) => Remove(asleep, pid)
    case _ => asleep
  }

  /** The process that trapped and goes on at once, without a choice. */
  function Returning(log: Log): Option<int> {
    if log == [] then None
    else match Last(log)
      case Trapped(pid, _, trap) =>
        if Yields(trap) || trap.Exit? || (trap.Wait? && NextChild(log, pid).None?) then None else Some(pid)
      case Resumed(_, _) => None
      case _ => Returning(Prior(log))
  }

  /** The choices made so far: one for the program of the boot, and one whenever the processor was given up. */
  function Choices(log: Log): nat {
    if log == [] then 0
    else
      var e := Last(log);
      Choices(Prior(log)) +
      (if (e.Born? && e.ppid == 1) || (e.Resumed? && Returning(Prior(log)).None?) then 1 else 0)
  }

  /** The first of the given processes that has a child to report. */
  function FirstReport(log: Log, pids: seq<int>): Option<int> {
    if pids == [] then None
    else if NextChild(log, pids[0]).Some? then Some(pids[0])
    else FirstReport(log, pids[1..])
  }

  /** While a process runs, and until the death of one that has exited, there is nothing to choose. */
  predicate Settled(log: Log) {
    log != [] && !Last(log).Resumed? && !(Last(log).Trapped? && Last(log).trap.Exit?)
  }

  /**
   The process that has to run next, if any. After 101 choices, counted over all boots, a waiting process with a
   child to report goes before those that are ready.
   */
  function Chosen(times: nat, log: Log): Option<int> {
    if !Settled(log) then None
    else if Returning(log).Some? then Returning(log)
    else if times + Choices(log) > 100 && FirstReport(log, Asleep(log)).Some? then FirstReport(log, Asleep(log))
    else if Ready(log) != [] then Some(Ready(log)[0])
    else FirstReport(log, Asleep(log))
  }

  // ----- correct histories -----

  /** The registers at a trap, moved past the instruction, and with a result. */
  function Past(at: Context, result: int): Context {
    Context(at.sp, result, (at.sepc + 4) % 0x1_0000_0000_0000_0000, at.satp, at.rest)
  }

  /** `pid` may continue with registers `c`. */
  ghost predicate ResumeOk(log: Log, pid: int, c: Context) {
    match Own(log, pid)
    case None => false
    case Some(Born(_, _, _, first)) => c == first
    case Some(Trapped(_, at, trap)) =>
      match trap {
        case Tick => c == at
        case RawYield => c == at
        case Yield => c == Past(at, at.a0)
        case Breakpoint => c == Past(at, at.a0)
        case YieldReturn(v) => c == Past(at, v)
        case Call(v) => c == Past(at, v)
        case Clone(_, _, _) => c == Past(at, c.a0) && Last(log).Born? && Last(log).pid == c.a0 && Last(log).ppid == pid
        case Wait(addr) =>
          && NextChild(log, pid).Some? && c == Past(at, NextChild(log, pid).value.pid)
          && (Last(log).Status? <==> addr != 0 && Returning(log).None?)
        case Exit(_) => false
        case Kill(q) =>
          if Last(log).Died? then Last(log).pid == q && c == Past(at, 0)
          else c == Past(at, 0xffff_ffff_ffff_ffff) && BornPids(log)[q] == DiedPids(log)[q]
      }
  }

  /**
   The first process of a boot is the first program. Any other is a clone: it has the registers of its parent's
   trap with result 0, and shares the parent's stack page and page table or has its own copy of both.
   */
  ghost predicate BirthOk(start: Start, log: Log, ppid: int, stack: int, c: Context) {
    if log == [] then ppid == 1 && start.tests != [] && Image(stack, c) == start.tests[0]
    else
      match Last(log)
      case Trapped(pid, at, Clone(childSp, page, table)) =>
        && pid == ppid && Birth(log, ppid).Some?
        && var parentStack := Birth(log, ppid).value.stack;
           if childSp != 0 then stack == parentStack && c == Past(at, 0).(sp := childSp)
           else && stack == page
                && c == Past(at, 0).(sp := (page + (at.sp - parentStack)) % 0x1_0000_0000_0000_0000,
                                     satp := 0x8000_0000_0000_0000 + table / 0x1000)
      case _ => false
  }

  /** Event `e` may follow the history `log`. */
  ghost predicate EventOk(start: Start, log: Log, e: Event) {
    match e
    case Trapped(pid, _, _) => log != [] && Last(log).Resumed? && Last(log).pid == pid
    case Resumed(pid, c) => Chosen(start.times, log) == Some(pid) && ResumeOk(log, pid, c)
    case Status(pid, addr, v) =>
      && Chosen(start.times, log) == Some(pid) && Returning(log).None? && !Last(log).Status?
      && Own(log, pid).Some? && Own(log, pid).value.Trapped? && Own(log, pid).value.trap == Wait(addr) && addr != 0
      && NextChild(log, pid).Some? && v == NextChild(log, pid).value.code * 256
    case Born(pid, ppid, stack, c) =>
      && pid == start.used + |BornPids(log)| + 2 && PidsBelow(log, pid - 1)
      && BirthOk(start, log, ppid, stack, c)
    case Died(pid, ppid, code) =>
      && log != [] && Last(log).Trapped?
      && ((Last(log).pid == pid && Last(log).trap == Exit(code)) || (Last(log).trap == Kill(pid) && code == 1))
      && pid !in DiedPids(log) && Birth(log, pid).Some? && Birth(log, pid).value.ppid == ppid
  }

  /** Every event of the history may follow the events before it. */
  ghost predicate Correct(start: Start, log: Log) {
    forall i :: 0 <= i < |log| ==> EventOk(start, log[..i], log[i])
  }

  lemma CorrectAppend(start: Start, log: Log, e: Event)
    requires Correct(start, log) && EventOk(start, log, e)
    ensures Correct(start, log + [e])
  {
    hide EventOk;
    var log' := log + [e];
    forall i | 0 <= i < |log'|
      ensures EventOk(start, log'[..i], log'[i])
    {
      if i < |log| {
        assert log'[..i] == log[..i];
      } else {
        assert log'[..i] == log;
      }
    }
  }

  lemma CorrectPrior(start: Start, log: Log)
    requires Correct(start, log) && log != []
    ensures Correct(start, Prior(log)) && EventOk(start, Prior(log), Last(log))
  {
    hide EventOk;
    var n := |log| - 1;
    assert EventOk(start, log[..n], log[n]);
    forall i | 0 <= i < n
      ensures EventOk(start, Prior(log)[..i], Prior(log)[i])
    {
      assert Prior(log)[..i] == log[..i];
    }
  }

  /** Appending one event changes these summaries only for the processes it names. */
  lemma Append(log: Log, e: Event, pid: int)
    ensures var log' := log + [e];
            && Prior(log') == log && Last(log') == e
            && Own(log', pid) == (if (e.Born? || e.Trapped?) && e.pid == pid then Some(e) else Own(log, pid))
            && Birth(log', pid) == (if e.Born? && e.pid == pid then Some(e) else Birth(log, pid))
            && Waiting(log', pid) == (if e.Trapped? && e.pid == pid then e.trap.Wait?
                                      else if e.Resumed? && e.pid == pid then false else Waiting(log, pid))
            && WaitResults(log', pid) ==
               WaitResults(log, pid) + (if e.Resumed? && e.pid == pid && Waiting(log, pid) then [e.context.a0] else [])
            && DeadChildren(log', pid) ==
               DeadChildren(log, pid) + (if e.Died? && e.ppid == pid then [Signal(e.pid, e.code)] else [])
  {
    assert Prior(log + [e]) == log;
  }

  lemma AppendCounts(log: Log, e: Event)
    ensures var log' := log + [e];
            && BornPids(log') == BornPids(log) + (if e.Born? then multiset{e.pid} else multiset{})
            && DiedPids(log') == DiedPids(log) + (if e.Died? then multiset{e.pid} else multiset{})
  {
    assert Prior(log + [e]) == log;
  }

  /** How one more event changes whose turn it is. */
  lemma AppendTurn(log: Log, e: Event)
    ensures var log' := log + [e];
            && Ready(log') == ReadyAfter(Ready(log), e) && Asleep(log') == AsleepAfter(Asleep(log), e)
            && Choices(log') == Choices(log) +
                                (if (e.Born? && e.ppid == 1) || (e.Resumed? && Returning(log).None?) then 1 else 0)
  {
    assert Prior(log + [e]) == log;
  }

  lemma AppendReturning(log: Log, e: Event)
    ensures e.Born? || e.Died? || e.Status? ==> Returning(log + [e]) == Returning(log)
    ensures e.Trapped? ==>
              Returning(log + [e]) ==
              if Yields(e.trap) || e.trap.Exit? || (e.trap.Wait? && NextChild(log, e.pid).None?) then None
              else Some(e.pid)
  {
    assert Prior(log + [e]) == log;
    if e.Trapped? {
      Append(log, e, e.pid);
    }
  }

  lemma {:induction false} RemoveAbsent(xs: seq<int>, x: int)
    requires x !in xs
    ensures Remove(xs, x) == xs
  {
    if xs != [] {
      RemoveAbsent(xs[..|xs| - 1], x);
    }
  }

  lemma {:induction false} RemoveAt(xs: seq<int>, i: nat)
    requires i < |xs| && forall j :: 0 <= j < |xs| && j != i ==> xs[j] != xs[i]
    ensures Remove(xs, xs[i]) == Without(xs, i)
  {
    var n := |xs| - 1;
    if i == n {
      RemoveAbsent(xs[..n], xs[i]);
      assert xs[n + 1..] == [];
    } else {
      RemoveAt(xs[..n], i);
      assert Without(xs, i) == Without(xs[..n], i) + [xs[n]];
    }
  }

  /** A pid above all pids of the history has no past; a parent id above them has no dead children. */
  lemma {:induction false} Unused(log: Log, bound: int, pid: int)
    requires PidsBelow(log, bound) && bound < pid
    ensures Own(log, pid) == None && Birth(log, pid) == None && !Waiting(log, pid)
    ensures WaitResults(log, pid) == [] && DeadChildren(log, pid) == []
    ensures pid !in BornPids(log) && pid !in DiedPids(log)
  {
    if log != [] {
      Unused(Prior(log), bound, pid);
    }
  }
}
