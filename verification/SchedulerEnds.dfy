/** How a run ends, told from its history alone. */
module SchedulerEnds {
  import opened Scheduler
  import opened SchedulerHistory
  import opened SchedulerSafety
  import opened SchedulerStarts

  /** Born and not dead. */
  predicate Alive(log: Log, q: int) { BornPids(log)[q] > DiedPids(log)[q] }

  /** `q` waits, and its waits have already returned all its dead children. */
  ghost predicate WaitsInVain(log: Log, q: int) {
    var dead, got := DeadChildren(log, q), WaitResults(log, q);
    Waiting(log, q) && |got| == |dead| && forall i :: 0 <= i < |dead| ==> got[i] == dead[i].pid
  }

  /** Somebody is alive, and all that are alive wait in vain. */
  ghost predicate Stuck(log: Log) {
    (exists q :: Alive(log, q)) && forall q :: Alive(log, q) ==> WaitsInVain(log, q)
  }

  lemma AliveIsPlaced(s: State, q: int)
    requires Accounted(s)
    ensures Alive(s.log, q) <==> q in Places(s)
  {
    assert BornPids(s.log)[q] == Places(s)[q] + DiedPids(s.log)[q];
  }

  lemma PlacedInBlocked(ps: seq<Pcb>, q: int) returns (p: Pcb)
    requires q in Bag(ps)
    ensures p in ps && p.pid == q
  {
    var i :| 0 <= i < |ps| && Pids(ps)[i] == q;
    p := ps[i];
  }

  /** A resumed process is alive and does not wait. */
  lemma ResumedIsNotStuck(s: State)
    requires Inv(s)
    ensures Alive(s.log, s.fastPid) && !WaitsInVain(s.log, s.fastPid)
  {
    hide Correct, RunnablesOk, BlockedsOk, Accounted, Birth, Conserved, BornPids, DiedPids;
    AliveIsPlaced(s, s.fastPid);
  }

  /** A blocked process without a signal waits in vain. */
  lemma BlockedInVain(s: State, p: Pcb)
    requires BlockedsOk(s.log, s.globalPid, s.blocked) && p in s.blocked && p.signals == []
    ensures WaitsInVain(s.log, p.pid)
  {
    assert Conserved(s.log, p.pid, []) && BlockedOk(s.log, p);
  }

  lemma HaltedMeans(o: Outcome)
    requires Halted(o)
    ensures o.DeadLoop? ==> Stuck(o.state.log)
    ensures !o.DeadLoop? ==> forall q :: !Alive(o.state.log, q)
  {
    hide Correct, BlockedsOk, Accounted, Alive, WaitsInVain, Bag;
    var s := o.state;
    assert Places(s) == Bag(s.blocked) by { OnlyBlocked(s); }
    forall q | Alive(s.log, q) ensures o.DeadLoop? && WaitsInVain(s.log, q) {
      AliveIsPlaced(s, q);
      var p := PlacedInBlocked(s.blocked, q);
      BlockedInVain(s, p);
    }
    if o.DeadLoop? {
      var p := s.blocked[0];
      InBag(s.blocked, p);
      AliveIsPlaced(s, p.pid);
    }
  }

  lemma OnlyBlocked(s: State)
    requires s.running.None? && s.runnable == []
    ensures Places(s) == Bag(s.blocked)
  {
    assert Pids([]) == [];
  }

  /**
   However a run ends, its history says so: the dead-loop panic comes exactly when somebody is alive and all
   that are alive wait with nothing left to report, and the machine reboots exactly when nobody is alive any more.
   */
  lemma RunsEndIff(start: Start, inputs: seq<Input>)
    requires Legal(start, inputs)
    ensures var o := Run(start, inputs);
            && (o.DeadLoop? <==> Stuck(o.state.log))
            && (o.Reboot? <==> start.tests != [] && forall q :: !Alive(o.state.log, q))
            && (o.Shutdown? <==> start.tests == [])
  {
    hide Run, Inv, Halted, Alive, WaitsInVain, Legal, Started;
    var o := Run(start, inputs);
    RunsKeepInv(start, inputs);
    RunsStartOneTest(start, inputs);
    if o.Resume? {
      ResumedIsNotStuck(o.state);
    } else {
      HaltedMeans(o);
    }
  }
}
