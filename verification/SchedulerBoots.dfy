/** The whole life of a machine: boot after boot, each going on with the counters of the one before. */
module SchedulerBoots {
  import opened Arithmetic
  import opened Scheduler
  import opened SchedulerHistory
  import opened SchedulerSafety
  import opened SchedulerStarts
  import SchedulerFairness

  /** One boot: how it began, and the traps until it ended. */
  datatype Session = Session(start: Start, inputs: seq<Input>)

  function EndOf(s: Session): Outcome { Run(s.start, s.inputs) }

  /** After a reboot the next boot finds the programs left and the counters as they were. */
  predicate Follows(o: Outcome, next: Start) {
    && o.Reboot? && next.tests == o.state.tests
    && next.used == o.state.globalPid - 1 && next.times == o.state.times
  }

  /** Boots one after the other, from a machine that has just been switched on with some programs. */
  ghost predicate Life(tests: seq<Image>, life: seq<Session>) {
    && (forall i :: 0 <= i < |life| ==> Legal(life[i].start, life[i].inputs))
    && (|life| > 0 ==> life[0].start == Start(tests, 0, 0))
    && forall i {:trigger life[i]} :: 0 < i < |life| ==> Follows(EndOf(life[i - 1]), life[i].start)
  }

  lemma LifePrefix(tests: seq<Image>, life: seq<Session>)
    requires Life(tests, life) && life != []
    ensures Life(tests, life[..|life| - 1])
  {
    hide Legal, Follows;
    var n := |life| - 1;
    assert forall i :: 0 <= i < n ==> life[..n][i] == life[i];
  }

  /** How often in a life the processor went to another process while one that waits could wake. */
  ghost function AllOverlooks(life: seq<Session>): nat {
    if life == [] then 0
    else AllOverlooks(life[..|life| - 1]) + SchedulerFairness.Overlooks(EndOf(life[|life| - 1]).state.log)
  }

  /** Over all boots together that happens at most 101 times. */
  lemma {:induction false} FewOverlooksEver(tests: seq<Image>, life: seq<Session>)
    requires Life(tests, life)
    ensures AllOverlooks(life) <= 101
    ensures life != [] ==> AllOverlooks(life) <= Min(EndOf(life[|life| - 1]).state.times, 101)
  {
    hide Run, Legal;
    if life != [] {
      var n := |life| - 1;
      LifePrefix(tests, life);
      FewOverlooksEver(tests, life[..n]);
      SchedulerFairness.FewOverlooks(life[n].start, life[n].inputs);
      if n > 0 {
        assert life[..n][n - 1] == life[n - 1];
      }
    }
  }

  /** Boot number `i` finds the programs that the boots before it left, one less each time. */
  lemma {:induction false} BootFinds(tests: seq<Image>, life: seq<Session>, i: nat)
    requires Life(tests, life) && i < |life|
    ensures i <= |tests| && life[i].start.tests == tests[i..]
  {
    hide Run, Legal;
    if i > 0 {
      BootFinds(tests, life, i - 1);
      assert Follows(EndOf(life[i - 1]), life[i].start);
      RunsStartOneTest(life[i - 1].start, life[i - 1].inputs);
    }
  }

  /**
   The boots of a life start the given programs in order, one each; after the last of them one more boot shuts the
   machine down, and there is no boot after that.
   */
  lemma BootsStartTheTests(tests: seq<Image>, life: seq<Session>, i: nat)
    requires Life(tests, life) && i < |life|
    ensures i <= |tests|
    ensures i < |tests| ==> Started(EndOf(life[i]).state.log) == [tests[i]] && !EndOf(life[i]).Shutdown?
    ensures i == |tests| ==> EndOf(life[i]).Shutdown? && i == |life| - 1
  {
    hide Run, Legal;
    BootFinds(tests, life, i);
    assert i + 1 < |life| ==> Follows(EndOf(life[i]), life[i + 1].start);
    RunsStartOneTest(life[i].start, life[i].inputs);
    if i < |tests| {
      assert tests[i..][..1] == [tests[i]];
    }
  }

  /** The pids of a boot lie above the counter it began with, and not above the one it ended with. */
  lemma BootPids(s: Session, q: int)
    requires Legal(s.start, s.inputs) && q in BornPids(EndOf(s).state.log)
    ensures 1 + s.start.used < q <= EndOf(s).state.globalPid
  {
    hide Run, Legal, Accounted, RunnablesOk, BlockedsOk, Correct, BornPids;
    RunsKeepInv(s.start, s.inputs);
    RunsKeepStart(s.start, s.inputs);
    BornIsEvent(EndOf(s).state.log, q);
  }

  lemma {:induction false} BornIsEvent(log: Log, q: int)
    requires q in BornPids(log)
    ensures exists i :: 0 <= i < |log| && log[i].Born? && log[i].pid == q
  {
    var n := |log| - 1;
    if Last(log).Born? && Last(log).pid == q {
      assert log[n].Born? && log[n].pid == q;
    } else {
      BornIsEvent(Prior(log), q);
      var i :| 0 <= i < n && Prior(log)[i].Born? && Prior(log)[i].pid == q;
      assert log[i] == Prior(log)[i];
    }
  }

  /** The counter never goes back, from boot to boot. */
  lemma {:induction false} CounterGrows(tests: seq<Image>, life: seq<Session>, i: nat, j: nat)
    requires Life(tests, life) && i < j < |life|
    ensures EndOf(life[i]).state.globalPid <= 1 + life[j].start.used
    decreases j - i
  {
    hide Run, Legal, Accounted, RunnablesOk, BlockedsOk, Correct, BornPids, Lines, Free, Chosen, Choices;
    hide PidsBelow, BornAbove, Conserved, IdsOk;
    assert Follows(EndOf(life[j - 1]), life[j].start);
    if i < j - 1 {
      CounterGrows(tests, life, i, j - 1);
      RunsKeepInv(life[j - 1].start, life[j - 1].inputs);
      RunsKeepStart(life[j - 1].start, life[j - 1].inputs);
    }
  }

  /** No pid is used in two boots of a life. */
  lemma PidsNeverReused(tests: seq<Image>, life: seq<Session>, i: nat, j: nat, p: int, q: int)
    requires Life(tests, life) && i < j < |life|
    requires p in BornPids(EndOf(life[i]).state.log) && q in BornPids(EndOf(life[j]).state.log)
    ensures p < q
  {
    hide Run, Legal, Follows, BornPids;
    BootPids(life[i], p);
    BootPids(life[j], q);
    CounterGrows(tests, life, i, j);
  }
}
