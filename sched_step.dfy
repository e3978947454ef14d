/**
 * What a whole `step()` and `add_process()` promise: processes are only
 * moved, never lost or duplicated; the clock advances by one; the events of
 * a step carry the clock before it advances; after a step no resource is idle
 * while its queue holds a process; and a step with work to do lowers the work
 * still owed, so `run()` ends whenever there is at least one CPU and one
 * device.  Without a CPU (or without a device) a non-empty ready (or wait)
 * queue never drains, and `run()` would not return.
 */
module SchedulerStep {
  import opened Wrappers
  import opened Process
  import opened SchedulerSpec
  import opened SchedulerProps

  /** Admission (phase 1) only moves processes. */
  lemma AdmissionMoves(s: Sys)
    ensures Moves(s, Admission(s))
  {
    AdmitPrefixMoves(s, |s.future|);
  }

  /**
   * A step only moves processes between the pending list, the queues, the
   * resources and the finished list: none is lost or duplicated, the finished
   * list and the event log only grow, the events it adds carry the clock of
   * the step, no process comes to owe more work, and the clock advances by
   * exactly one.
   */
  lemma StepMoves(s: Sys)
    ensures Step(s).now == s.now + 1
    ensures Moves(s, Step(s).(now := s.now))
  {
    var a := Admission(s);
    var c := TickCpus(a);
    var r := Routed(s);
    var d := DispatchCpus(r);
    var e := DispatchIos(d);
    AdmissionMoves(s);
    TickCpusMoves(a);
    MovesTrans(s, a, c);
    TickIosMoves(c);
    MovesTrans(s, c, r);
    DispatchMoves(r);
    MovesTrans(s, r, d);
    DispatchMoves(d);
    MovesTrans(s, d, e);
    assert Step(s).(now := s.now) == e;
  }

  /** The conservation facts of a step, spelled out. */
  lemma StepConserves(s: Sys)
    ensures AllPids(Step(s)) == AllPids(s)
    ensures s.finished <= Step(s).finished
    ensures s.events <= Step(s).events
    ensures forall k :: |s.events| <= k < |Step(s).events| ==> Step(s).events[k].time == s.now
    ensures |Step(s).cpus| == |s.cpus| && |Step(s).ios| == |s.ios|
    ensures SysWork(Step(s)) <= SysWork(s)
  {
    StepMoves(s);
    var t := Step(s).(now := s.now);
    assert AllPids(Step(s)) == AllPids(t) && SysWork(Step(s)) == SysWork(t);
  }

  /** Event times never decrease and never run ahead of the clock, from one step to the next. */
  lemma StepEventsOrdered(s: Sys)
    requires EventsOrdered(s)
    ensures EventsOrdered(Step(s))
  {
    StepConserves(s);
    var t := Step(s);
    forall a | 0 <= a < |t.events| ensures t.events[a].time <= s.now {
      if a < |s.events| {
        assert t.events[a] == s.events[a];
      }
    }
    forall a, b | 0 <= a < b < |t.events| ensures t.events[a].time <= t.events[b].time {
      if b < |s.events| {
        assert t.events[a] == s.events[a] && t.events[b] == s.events[b];
      } else if a < |s.events| {
        assert t.events[a] == s.events[a];
      }
    }
  }

  /** Keeping the CPUs and the ready queue, a relation every device-dispatch iteration satisfies. */
  predicate SameCpuSide(a: Sys, b: Sys)
  {
    a.cpus == b.cpus && a.ready == b.ready
  }

  /** After a step every CPU is busy or the ready queue is empty, and every device is busy or the wait queue is empty. */
  lemma StepDispatched(s: Sys)
    ensures Dispatched(Step(s))
  {
    var r := Routed(s);
    var d := DispatchCpus(r);
    DispatchCpusPrefixFills(r, |r.cpus|);
    DispatchIosPrefixFills(d, |d.ios|);
    LoopRel(DispatchToIo, SameCpuSide, d, |d.ios|);
  }

  /** Relations kept by the loops of a step, used to follow a busy resource or a non-empty queue through it. */
  predicate SameIos(a: Sys, b: Sys)
  {
    a.ios == b.ios
  }

  predicate SameCpus(a: Sys, b: Sys)
  {
    a.cpus == b.cpus
  }

  predicate ReadyGrows(a: Sys, b: Sys)
  {
    a.ready <= b.ready
  }

  predicate WaitGrows(a: Sys, b: Sys)
  {
    a.wait <= b.wait
  }

  /**
   * A step from a dispatched state that is not idle lowers the work still
   * owed, given at least one CPU and one device: a non-empty queue means a
   * busy resource, and a busy resource completes one unit of a burst.
   */
  lemma StepProgress(s: Sys)
    requires |s.cpus| >= 1 && |s.ios| >= 1
    requires Dispatched(s) && !Idle(s)
    ensures SysWork(Step(s)) < SysWork(s)
  {
    RoutedProgress(s);
    DispatchKeepsWork(Routed(s));
    var e := DispatchIos(DispatchCpus(Routed(s)));
    assert Step(s) == e.(now := s.now + 1);
    assert SysWork(Step(s)) == SysWork(e);
  }

  /** Dispatch does not change the work owed. */
  lemma DispatchKeepsWork(r: Sys)
    ensures SysWork(DispatchIos(DispatchCpus(r))) <= SysWork(r)
  {
    DispatchMoves(r);
    DispatchMoves(DispatchCpus(r));
  }

  /** The ticks of a step from a dispatched state that is not idle complete at least one unit of work. */
  lemma RoutedProgress(s: Sys)
    requires |s.cpus| >= 1 && |s.ios| >= 1
    requires Dispatched(s) && !Idle(s)
    ensures SysWork(Routed(s)) < SysWork(s)
  {
    var a := Admission(s);
    var c := TickCpus(a);
    AdmissionMoves(s);
    TickCpusMoves(a);
    TickIosMoves(c);
    CpuOrIoBusy(s);
    if j :| 0 <= j < |a.cpus| && a.cpus[j].Some? {
    } else {
      var j :| 0 <= j < |s.ios| && s.ios[j].Some?;
      TickCpusKeepIos(a);
      assert c.ios[j].Some?;
    }
  }

  /** A dispatched state that is not idle has a busy CPU or a busy device. */
  lemma CpuOrIoBusy(s: Sys)
    requires |s.cpus| >= 1 && |s.ios| >= 1
    requires Dispatched(s) && !Idle(s)
    ensures (exists j :: 0 <= j < |s.cpus| && s.cpus[j].Some?) || (exists j :: 0 <= j < |s.ios| && s.ios[j].Some?)
  {
    if s.ready != [] {
      assert s.cpus[0].Some?;
    } else if s.wait != [] {
      assert s.ios[0].Some?;
    }
  }

  /** The CPU tick loop leaves the devices alone. */
  lemma TickCpusKeepIos(s: Sys)
    ensures TickCpus(s).ios == s.ios
  {
    LoopRel(TickCpu, SameIos, s, |s.cpus|);
  }

  /**
   * The termination argument of `run()`: with at least one CPU and one
   * device, each step from a state that is not idle leaves a dispatched
   * state and owes no more work, and owes strictly less when it started
   * from a dispatched state.
   */
  lemma RunProgress(s: Sys)
    requires |s.cpus| >= 1 && |s.ios| >= 1 && !Idle(s)
    ensures |Step(s).cpus| == |s.cpus| && |Step(s).ios| == |s.ios| && Dispatched(Step(s))
    ensures SysWork(Step(s)) <= SysWork(s)
    ensures Dispatched(s) ==> SysWork(Step(s)) < SysWork(s)
  {
    StepConserves(s);
    StepDispatched(s);
    if Dispatched(s) {
      StepProgress(s);
    }
  }

  /**
   * Without a CPU, a non-empty ready queue stays non-empty: nothing takes
   * processes off it, so `run()` never returns.
   */
  lemma StuckWithoutCpu(s: Sys)
    requires |s.cpus| == 0 && s.ready != []
    ensures |Step(s).cpus| == 0 && Step(s).ready != [] && !Idle(Step(s))
  {
    var a := Admission(s);
    AdmissionQueues(s);
    assert s.ready <= a.ready && |a.cpus| == 0;
    assert TickCpus(a) == a;
    var r := Routed(s);
    assert r == TickIos(a);
    LoopRel(TickIo, ReadyGrows, a, |a.ios|);
    LoopRel(TickIo, SameCpus, a, |a.ios|);
    assert DispatchCpus(r) == r;
    LoopRel(DispatchToIo, SameCpuSide, r, |r.ios|);
    assert Step(s).ready == r.ready;
    StepConserves(s);
  }

  /**
   * Without a device, a non-empty wait queue stays non-empty: nothing takes
   * processes off it, so `run()` never returns.
   */
  lemma StuckWithoutDevice(s: Sys)
    requires |s.ios| == 0 && s.wait != []
    ensures |Step(s).ios| == 0 && Step(s).wait != [] && !Idle(Step(s))
  {
    var a := Admission(s);
    AdmissionQueues(s);
    assert a.wait == s.wait;
    var c := TickCpus(a);
    LoopRel(TickCpu, WaitGrows, a, |a.cpus|);
    LoopRel(TickCpu, SameIos, a, |a.cpus|);
    var r := Routed(s);
    assert r == c;
    LoopRel(DispatchToCpu, SameWait, r, |r.cpus|);
    LoopRel(DispatchToCpu, SameIos, r, |r.cpus|);
    var d := DispatchCpus(r);
    assert |d.ios| == 0;
    assert DispatchIos(d) == d;
    assert Step(s).wait == r.wait;
    StepConserves(s);
  }

  predicate SameWait(a: Sys, b: Sys)
  {
    a.wait == b.wait
  }

  // ---------------------------------------------------------------------
  // add_process

  /**
   * `add_process` adds exactly one process: an arrived one joins the tail
   * of the ready queue as ready, with an enqueue event stamped with the
   * clock; a later one joins the pending list and no event is logged.
   * Nothing else changes.
   */
  lemma AddProcessPlaces(s: Sys, p: Proc)
    ensures AllPids(AddProcess(s, p)) == AllPids(s) + multiset{p.pid}
    ensures var r := AddProcess(s, p);
            r.now == s.now && r.wait == s.wait && r.cpus == s.cpus && r.ios == s.ios && r.finished == s.finished
    ensures var r := AddProcess(s, p);
            p.arrivalTime <= s.now ==>
              r.future == s.future && r.ready == s.ready + [p.(state := Ready)]
              && |r.events| == |s.events| + 1 && r.events[..|s.events|] == s.events
              && r.events[|s.events|].eventType == Enqueue && r.events[|s.events|].process == p.pid
              && r.events[|s.events|].time == s.now
    ensures p.arrivalTime > s.now ==> AddProcess(s, p) == s.(future := s.future + [p])
  {
    if p.arrivalTime <= s.now {
      var q := p.(state := Ready);
      EnterReady(s, q);
      var r := AddProcess(s, p);
      assert r.events[..|s.events|] == s.events;
    } else {
      PidMsAppend(s.future, p);
    }
  }

  /** `add_process` keeps the event log in clock order. */
  lemma AddProcessOrdered(s: Sys, p: Proc)
    requires EventsOrdered(s)
    ensures EventsOrdered(AddProcess(s, p))
  {
    AddProcessPlaces(s, p);
    var r := AddProcess(s, p);
    if p.arrivalTime <= s.now {
      forall a | 0 <= a < |s.events| ensures r.events[a] == s.events[a] {
        assert r.events[..|s.events|][a] == r.events[a];
      }
    }
  }
  // ---------------------------------------------------------------------
  // One resource's tick

  /**
   * A process on CPU i whose current burst does not end with this tick
   * loses one unit of quantum.  While quantum is left it stays on the CPU;
   * when none is left it is preempted: the CPU is freed and the process
   * joins the tail of the ready queue as ready with its full quantum back,
   * with one preemption event naming the process and CPU i.
   */
  lemma TickCpuQuantum(s: Sys, i: nat, p: Proc)
    requires i < |s.cpus| && s.cpus[i] == Some(p) && |p.bursts| > 0 && p.bursts[0].duration > 1
    ensures var r := TickCpu(s, i);
            p.remainingQuantum > 1 ==>
              r.cpus[i].Some? && r.cpus[i].value.pid == p.pid
              && r.cpus[i].value.remainingQuantum == p.remainingQuantum - 1
              && RemainingBurstTime(r.cpus[i].value) == RemainingBurstTime(p) - 1
              && r.ready == s.ready && r.wait == s.wait && r.finished == s.finished && r.events == s.events
    ensures var r := TickCpu(s, i);
            p.remainingQuantum <= 1 ==>
              r.cpus == s.cpus[i := None] && |r.ready| == |s.ready| + 1 && r.ready[..|s.ready|] == s.ready
              && r.ready[|s.ready|].pid == p.pid && r.ready[|s.ready|].state == Ready
              && r.ready[|s.ready|].remainingQuantum == p.quantum
              && r.wait == s.wait && r.finished == s.finished
              && |r.events| == |s.events| + 1 && r.events[..|s.events|] == s.events
              && r.events[|s.events|].eventType == Preempted && r.events[|s.events|].process == p.pid
              && r.events[|s.events|].device == Some(CpuDev(i))
  {
    var r := TickCpu(s, i);
    if p.remainingQuantum <= 1 {
      assert r.ready[..|s.ready|] == s.ready;
      assert r.events[..|s.events|] == s.events;
    }
  }

  /**
   * A process whose current burst ends with this tick on CPU i leaves the
   * CPU with the burst done and lands in exactly one place, with one event
   * naming it and CPU i: the tail of the wait queue as waiting when its next
   * burst is I/O, the tail of the ready queue with its state untouched when
   * the next burst is CPU, and the finished list as finished when there is
   * none.
   */
  lemma TickCpuRoutes(s: Sys, i: nat, p: Proc)
    requires i < |s.cpus| && s.cpus[i] == Some(p) && (|p.bursts| == 0 || p.bursts[0].duration <= 1)
    ensures var r := TickCpu(s, i);
            r.cpus == s.cpus[i := None]
            && |r.events| == |s.events| + 1 && r.events[..|s.events|] == s.events
            && r.events[|s.events|].process == p.pid && r.events[|s.events|].device == Some(CpuDev(i))
    ensures var r := TickCpu(s, i);
            var rest := if |p.bursts| == 0 then [] else p.bursts[1..];
            var e := r.events[|s.events|];
            (rest != [] && rest[0].kind == Io ==>
               r.wait == s.wait + [p.(bursts := rest, state := Waiting)] && r.ready == s.ready
               && r.finished == s.finished && e.eventType == CpuToIo)
            && (rest != [] && rest[0].kind == Cpu ==>
                  r.ready == s.ready + [p.(bursts := rest)] && r.wait == s.wait
                  && r.finished == s.finished && e.eventType == CpuToReady)
            && (rest == [] ==>
                  r.finished == s.finished + [p.(bursts := [], state := Finished)] && r.ready == s.ready
                  && r.wait == s.wait && e.eventType == FinishedAll)
  {
    var r := TickCpu(s, i);
    assert r.events[..|s.events|] == s.events;
  }

  /**
   * A process whose current burst ends with this tick on device i leaves
   * the device and lands in exactly one place, with one event naming it and
   * device i: the tail of the ready queue as ready when any burst is left,
   * whatever its kind, and the finished list as finished when none is.
   */
  lemma TickIoRoutes(s: Sys, i: nat, p: Proc)
    requires i < |s.ios| && s.ios[i] == Some(p) && (|p.bursts| == 0 || p.bursts[0].duration <= 1)
    ensures var r := TickIo(s, i);
            r.ios == s.ios[i := None] && r.cpus == s.cpus && r.wait == s.wait
            && |r.events| == |s.events| + 1 && r.events[..|s.events|] == s.events
            && r.events[|s.events|].process == p.pid && r.events[|s.events|].device == Some(IoDev(i))
    ensures var r := TickIo(s, i);
            var rest := if |p.bursts| == 0 then [] else p.bursts[1..];
            var e := r.events[|s.events|];
            (rest != [] ==>
               r.ready == s.ready + [p.(bursts := rest, state := Ready)] && r.finished == s.finished
               && e.eventType == IoToReady)
            && (rest == [] ==>
                  r.finished == s.finished + [p.(bursts := [], state := Finished)] && r.ready == s.ready
                  && e.eventType == FinishedAll)
  {
    var r := TickIo(s, i);
    assert r.events[..|s.events|] == s.events;
  }

  /** A device whose process's burst goes on keeps it, one tick nearer the end of the burst, and logs nothing. */
  lemma TickIoKeeps(s: Sys, i: nat, p: Proc)
    requires i < |s.ios| && s.ios[i] == Some(p) && |p.bursts| > 0 && p.bursts[0].duration > 1
    ensures var r := TickIo(s, i);
            r.ios[i].Some? && r.ios[i].value.pid == p.pid
            && RemainingBurstTime(r.ios[i].value) == RemainingBurstTime(p) - 1
            && r.ready == s.ready && r.wait == s.wait && r.finished == s.finished && r.events == s.events
  {
  }
}
