/**
 * The `Scheduler` object: a clock, the pending list, two FIFO queues, one
 * `current` slot per CPU and per I/O device, the finished list, and the
 * structured and human-readable logs.  Every method is proved to change the
 * state exactly as the function of the same phase in `SchedulerSpec` says,
 * so the lemmas of `SchedulerProps` and `SchedulerStep` apply to it.
 */
module Scheduling {
  import opened Wrappers
  import opened Text
  import opened Process
  import opened SchedulerSpec
  import opened SchedulerProps
  import opened SchedulerStep
  import opened SchedulerLog
  import opened SchedulerQuery

  /** `n` applications of `step()`. */
  ghost function Steps(s: Sys, n: nat): Sys
  {
    if n == 0 then s else Step(Steps(s, n - 1))
  }

  /** None of the first n states of a run is idle. */
  ghost predicate BusyBefore(s: Sys, n: nat)
  {
    forall m: nat :: m < n ==> !Idle(Steps(s, m))
  }

  lemma BusyExtend(s: Sys, n: nat)
    requires BusyBefore(s, n) && !Idle(Steps(s, n))
    ensures BusyBefore(s, n + 1)
  {
  }

  class Scheduler {
    var now: nat
    var future: seq<Proc>
    var ready: seq<Proc>
    var wait: seq<Proc>
    /** `cpu.current` for each CPU, in list order. */
    const cpus: array<Option<Proc>>
    /** `dev.current` for each I/O device, in list order. */
    const ios: array<Option<Proc>>
    var finished: seq<Proc>
    var events: seq<Event>
    var log: seq<string>

    /** The two resource lists are separate objects, and `log` holds one line per event. */
    ghost predicate Valid()
      reads this
    {
      cpus != ios && log == LogLines(events)
    }

    /** The state as a value. */
    function Abs(): Sys
      reads this, cpus, ios
    {
      Sys(now, future, ready, wait, cpus[..], ios[..], finished, events)
    }

    /**
     * `Scheduler(num_cpus, num_ios)`: idle resources, empty queues and logs;
     * the clock reads `start`, the current time of the shared clock.
     */
    constructor(numCpus: nat, numIos: nat, start: nat)
      ensures Valid() && Abs() == Init(numCpus, numIos, start)
    {
      now := start;
      future, ready, wait := [], [], [];
      cpus := new Option<Proc>[numCpus](_ => None);
      ios := new Option<Proc>[numIos](_ => None);
      finished, events, log := [], [], [];
    }

    /** `_record`: the structured event and its log line, both appended. */
    method RecordEvent(t: EventType, pid: nat, dev: Option<Device>)
      requires Valid()
      modifies this
      ensures Valid() && Abs() == Record(old(Abs()), t, pid, dev)
    {
      var e := Event(now, t, pid, dev, PidsOf(ready), PidsOf(wait), SlotPids(cpus[..]), SlotPids(ios[..]));
      assert LogLines(events + [e]) == LogLines(events) + [LogLine(e)];
      events := events + [e];
      log := log + [LogLine(e)];
    }

    /** `add_process`. */
    method AddProcess(p: Proc)
      requires Valid()
      modifies this
      ensures Valid() && Abs() == SchedulerSpec.AddProcess(old(Abs()), p)
    {
      if p.arrivalTime <= now {
        ready := ready + [p.(state := Ready)];
        RecordEvent(Enqueue, p.pid, None);
      } else {
        future := future + [p];
      }
    }

    /** Phase 1 of `step`: admit, in list order, every pending process whose arrival time has come. */
    method AdmitArrivals()
      requires Valid()
      modifies this
      ensures Valid() && Abs() == Admission(old(Abs())) && now == old(now)
    {
      ghost var s0 := Abs();
      var pending := future;
      var j := 0;
      while j < |pending|
        invariant j <= |pending| && Valid() && now == old(now)
        invariant Abs() == AdmitPrefix(s0, pending, j)
      {
        AdmitIfArrived(pending[j]);
        j := j + 1;
      }
    }

    /** The body of the admission loop for one process of the copied pending list. */
    method AdmitIfArrived(p: Proc)
      requires Valid()
      modifies this
      ensures Valid() && Abs() == AdmitOne(old(Abs()), p) && now == old(now)
    {
      if p.arrivalTime <= now {
        ready := ready + [p.(state := Ready)];
        RecordEvent(Arrival, p.pid, None);
        future := RemoveFirst(future, p);
      }
    }

    /** The body of the CPU loop for CPU i: tick, charge the quantum, route a completed process. */
    method TickCpuAt(i: nat)
      requires Valid() && i < cpus.Length
      modifies this, cpus
      ensures Valid() && Abs() == TickCpu(old(Abs()), i)
    {
      var (slot, done) := TickSlot(cpus[i]);
      cpus[i] := slot;
      if slot.Some? {
        var q := slot.value.(remainingQuantum := slot.value.remainingQuantum - 1);
        if q.remainingQuantum <= 0 && RemainingBurstTime(q) > 0 {
          cpus[i] := None;
          ready := ready + [q.(state := Ready, remainingQuantum := q.quantum)];
          RecordEvent(Preempted, q.pid, Some(CpuDev(i)));
        } else {
          cpus[i] := Some(q);
        }
      }
      if done.Some? {
        var p := done.value;
        match CurrentBurst(p)
        case Some(b) =>
          if b.kind == Io {
            wait := wait + [p.(state := Waiting)];
            RecordEvent(CpuToIo, p.pid, Some(CpuDev(i)));
          } else {
            ready := ready + [p];
            RecordEvent(CpuToReady, p.pid, Some(CpuDev(i)));
          }
        case None =>
          finished := finished + [p.(state := Finished)];
          RecordEvent(FinishedAll, p.pid, Some(CpuDev(i)));
      }
    }

    /** The body of the device loop for device i. */
    method TickIoAt(i: nat)
      requires Valid() && i < ios.Length
      modifies this, ios
      ensures Valid() && Abs() == TickIo(old(Abs()), i)
    {
      var (slot, done) := TickSlot(ios[i]);
      ios[i] := slot;
      if done.Some? {
        var p := done.value;
        if CurrentBurst(p).Some? {
          ready := ready + [p.(state := Ready)];
          RecordEvent(IoToReady, p.pid, Some(IoDev(i)));
        } else {
          finished := finished + [p.(state := Finished)];
          RecordEvent(FinishedAll, p.pid, Some(IoDev(i)));
        }
      }
    }

    /** The body of the CPU dispatch loop for CPU i. */
    method DispatchCpuAt(i: nat)
      requires Valid() && i < cpus.Length
      modifies this, cpus
      ensures Valid() && Abs() == DispatchToCpu(old(Abs()), i)
    {
      if cpus[i].None? && ready != [] {
        var p := ready[0].(state := Running);
        ready := ready[1..];
        cpus[i] := Some(p);
        RecordEvent(DispatchCpu, p.pid, Some(CpuDev(i)));
      }
    }

    /** The body of the device dispatch loop for device i. */
    method DispatchIoAt(i: nat)
      requires Valid() && i < ios.Length
      modifies this, ios
      ensures Valid() && Abs() == DispatchToIo(old(Abs()), i)
    {
      if ios[i].None? && wait != [] {
        var p := wait[0];
        wait := wait[1..];
        ios[i] := Some(p);
        RecordEvent(DispatchIo, p.pid, Some(IoDev(i)));
      }
    }

    /** Phase 2 of `step`: tick every CPU in list order. */
    method TickAllCpus()
      requires Valid()
      modifies this, cpus
      ensures Valid() && Abs() == TickCpus(old(Abs())) && now == old(now)
    {
      ghost var s := Abs();
      var i := 0;
      while i < cpus.Length
        invariant i <= cpus.Length && Valid() && now == old(now)
        invariant Abs() == Loop(TickCpu, s, i)
      {
        TickCpuAt(i);
        i := i + 1;
      }
    }

    /** Phase 3 of `step`: tick every I/O device in list order. */
    method TickAllIos()
      requires Valid()
      modifies this, ios
      ensures Valid() && Abs() == TickIos(old(Abs())) && now == old(now)
    {
      ghost var s := Abs();
      var i := 0;
      while i < ios.Length
        invariant i <= ios.Length && Valid() && now == old(now)
        invariant Abs() == Loop(TickIo, s, i)
      {
        TickIoAt(i);
        i := i + 1;
      }
    }

    /** Phase 4 of `step`: every idle CPU, in list order, takes the head of the ready queue. */
    method DispatchAllCpus()
      requires Valid()
      modifies this, cpus
      ensures Valid() && Abs() == DispatchCpus(old(Abs())) && now == old(now)
    {
      ghost var s := Abs();
      var i := 0;
      while i < cpus.Length
        invariant i <= cpus.Length && Valid() && now == old(now)
        invariant Abs() == Loop(DispatchToCpu, s, i)
      {
        DispatchCpuAt(i);
        i := i + 1;
      }
    }

    /** Phase 5 of `step`: every idle device, in list order, takes the head of the wait queue. */
    method DispatchAllIos()
      requires Valid()
      modifies this, ios
      ensures Valid() && Abs() == DispatchIos(old(Abs())) && now == old(now)
    {
      ghost var s := Abs();
      var i := 0;
      while i < ios.Length
        invariant i <= ios.Length && Valid() && now == old(now)
        invariant Abs() == Loop(DispatchToIo, s, i)
      {
        DispatchIoAt(i);
        i := i + 1;
      }
    }

    /** `step()`: the five phases in order; then the clock ticks. */
    method Step()
      requires Valid()
      modifies this, cpus, ios
      ensures Valid() && Abs() == SchedulerSpec.Step(old(Abs()))
    {
      AdmitArrivals();
      TickAllCpus();
      TickAllIos();
      DispatchAllCpus();
      DispatchAllIos();
      now := now + 1;
    }

    /**
     * `run()`: step while a queue holds a process or a resource is busy.
     * With at least one CPU and one device it returns, after exactly the
     * steps that reach the first state where all of that is false; pending
     * processes that have not arrived by then are left pending.
     */
    method Run()
      requires Valid() && cpus.Length >= 1 && ios.Length >= 1
      modifies this, cpus, ios
      ensures Valid() && Idle(Abs())
      ensures exists n: nat :: Abs() == Steps(old(Abs()), n) && BusyBefore(old(Abs()), n)
    {
      ghost var s0 := Abs();
      ghost var n: nat := 0;
      while !Idle(Abs())
        invariant Valid() && Abs() == Steps(s0, n)
        invariant |Abs().cpus| >= 1 && |Abs().ios| >= 1
        invariant BusyBefore(s0, n)
        decreases SysWork(Abs()), if Dispatched(Abs()) then 0 else 1
      {
        RunProgress(Abs());
        BusyExtend(s0, n);
        Step();
        n := n + 1;
      }
    }

    /** `timeline()`: the log lines joined by newlines; it splits back into the log. */
    function Timeline(): (t: string)
      requires Valid()
      reads this
      ensures events != [] ==> SplitOn(t, '\n') == log
    {
      if events != [] then TimelineSplits(events); SchedulerLog.Timeline(log)
      else SchedulerLog.Timeline(log)
    }

    /** `processes()`. */
    function Processes(): map<nat, Proc>
      reads this, cpus, ios
    {
      SchedulerQuery.Processes(Abs())
    }

    /** `_snapshot()`. */
    function Snapshot(): SchedulerQuery.Snapshot
      reads this, cpus, ios
    {
      TakeSnapshot(Abs())
    }
  }
}
