/**
 * The scheduler's state as a value, and one step of the scheduler as a
 * composition of phase functions, each phase the fold of a per-resource (or
 * per-process) function over the resources in list order.  The class
 * `Scheduling.Scheduler` is proved to follow these functions; the lemmas of
 * this module and of `SchedulerProps` state what the phases promise.
 */
module SchedulerSpec {
  import opened Wrappers
  import opened Process

  datatype EventType =
    | Enqueue | Arrival | Preempted | CpuToIo | CpuToReady | IoToReady | FinishedAll
    | DispatchCpu | DispatchIo

  /** The device label of an event: `CPU<cid>` or `IO<did>`. */
  datatype Device = CpuDev(cid: nat) | IoDev(did: nat)

  /**
   * A structured event record: the clock, the event's type, the process and
   * device involved, and the pids of the queues and resources at that moment.
   */
  datatype Event = Event(time: nat, eventType: EventType, process: nat, device: Option<Device>,
                         readyQueue: seq<nat>, waitQueue: seq<nat>,
                         cpus: seq<Option<nat>>, ios: seq<Option<nat>>)

  /**
   * Everything a scheduler holds: the clock, the not-yet-arrived processes,
   * the ready and wait queues (heads first), each CPU's and each device's
   * `current` process, the finished list and the event log.
   */
  datatype Sys = Sys(now: nat, future: seq<Proc>, ready: seq<Proc>, wait: seq<Proc>,
                     cpus: seq<Option<Proc>>, ios: seq<Option<Proc>>,
                     finished: seq<Proc>, events: seq<Event>)

  // ---------------------------------------------------------------------
  // Projections

  function PidsOf(q: seq<Proc>): (r: seq<nat>)
    ensures |r| == |q| && forall k :: 0 <= k < |q| ==> r[k] == q[k].pid
  {
    seq(|q|, k requires 0 <= k < |q| => q[k].pid)
  }

  function SlotPids(slots: seq<Option<Proc>>): (r: seq<Option<nat>>)
    ensures |r| == |slots|
    ensures forall k :: 0 <= k < |slots| ==> r[k] == if slots[k].Some? then Some(slots[k].value.pid) else None
  {
    seq(|slots|, k requires 0 <= k < |slots| => if slots[k].Some? then Some(slots[k].value.pid) else None)
  }

  function PidMs(q: seq<Proc>): multiset<nat>
  {
    if q == [] then multiset{} else multiset{q[0].pid} + PidMs(q[1..])
  }

  function SlotMs(x: Option<Proc>): multiset<nat>
  {
    if x.Some? then multiset{x.value.pid} else multiset{}
  }

  /** The pids held by a list of resources. */
  function HeldMs(slots: seq<Option<Proc>>): multiset<nat>
  {
    if slots == [] then multiset{} else SlotMs(slots[0]) + HeldMs(slots[1..])
  }

  /** Every process the scheduler holds, wherever it is, counted with multiplicity. */
  function AllPids(s: Sys): multiset<nat>
  {
    PidMs(s.future) + PidMs(s.ready) + PidMs(s.wait) + HeldMs(s.cpus) + HeldMs(s.ios) + PidMs(s.finished)
  }

  function WorkSeq(q: seq<Proc>): nat
  {
    if q == [] then 0 else Work(q[0]) + WorkSeq(q[1..])
  }

  function SlotWork(x: Option<Proc>): nat
  {
    if x.Some? then Work(x.value) else 0
  }

  function WorkSlots(slots: seq<Option<Proc>>): nat
  {
    if slots == [] then 0 else SlotWork(slots[0]) + WorkSlots(slots[1..])
  }

  /** The work still owed by every unfinished process; finished ones owe none. */
  function SysWork(s: Sys): nat
  {
    WorkSeq(s.future) + WorkSeq(s.ready) + WorkSeq(s.wait) + WorkSlots(s.cpus) + WorkSlots(s.ios)
  }

  /** The number of busy resources. */
  function BusyCount(slots: seq<Option<Proc>>): nat
  {
    if slots == [] then 0 else (if slots[0].Some? then 1 else 0) + BusyCount(slots[1..])
  }

  /** The guard of `run()` is false: both queues empty and nothing busy. */
  predicate Idle(s: Sys)
  {
    s.ready == [] && s.wait == []
    && (forall j :: 0 <= j < |s.cpus| ==> s.cpus[j].None?)
    && (forall j :: 0 <= j < |s.ios| ==> s.ios[j].None?)
  }

  /** What dispatch leaves behind: no CPU idle while the ready queue is not empty, and likewise for devices. */
  predicate Dispatched(s: Sys)
  {
    (forall j :: 0 <= j < |s.cpus| ==> s.cpus[j].Some? || s.ready == [])
    && (forall j :: 0 <= j < |s.ios| ==> s.ios[j].Some? || s.wait == [])
  }

  /** Event times never decrease and never run ahead of the clock. */
  predicate EventsOrdered(s: Sys)
  {
    (forall a, b :: 0 <= a < b < |s.events| ==> s.events[a].time <= s.events[b].time)
    && (forall a :: 0 <= a < |s.events| ==> s.events[a].time <= s.now)
  }

  // ---------------------------------------------------------------------
  // The operations

  /**
   * A scheduler with `numCpus` idle CPUs, `numIos` idle devices and everything
   * empty.  The clock is shared by every `Clock()` instance, so a new
   * scheduler reads whatever time the shared clock shows: `start`.
   */
  function Init(numCpus: nat, numIos: nat, start: nat): (s: Sys)
    ensures Idle(s) && Dispatched(s) && EventsOrdered(s) && AllPids(s) == multiset{}
    ensures |s.cpus| == numCpus && |s.ios| == numIos && s.now == start
  {
    var s := Sys(start, [], [], [], seq(numCpus, _ => None), seq(numIos, _ => None), [], []);
    assert HeldMs(s.cpus) == multiset{} by { HeldNone(s.cpus); }
    assert HeldMs(s.ios) == multiset{} by { HeldNone(s.ios); }
    s
  }

  /** `_record`: append one event stamped with the current clock and the current queue contents. */
  function Record(s: Sys, t: EventType, pid: nat, dev: Option<Device>): Sys
  {
    s.(events := s.events + [Event(s.now, t, pid, dev, PidsOf(s.ready), PidsOf(s.wait),
                                   SlotPids(s.cpus), SlotPids(s.ios))])
  }

  /** `add_process`. */
  function AddProcess(s: Sys, p: Proc): Sys
  {
    if p.arrivalTime <= s.now then Record(s.(ready := s.ready + [p.(state := Ready)]), Enqueue, p.pid, None)
    else s.(future := s.future + [p])
  }

  /** `list.remove(x)`: drop the first element equal to x. */
  function RemoveFirst(q: seq<Proc>, x: Proc): seq<Proc>
  {
    if q == [] then [] else if q[0] == x then q[1..] else [q[0]] + RemoveFirst(q[1..], x)
  }

  /** The body of the admission loop for one process p of the copied future list. */
  function AdmitOne(s: Sys, p: Proc): (r: Sys)
    ensures r.now == s.now && r.cpus == s.cpus && r.ios == s.ios
  {
    if p.arrivalTime <= s.now then
      var s1 := Record(s.(ready := s.ready + [p.(state := Ready)]), Arrival, p.pid, None);
      s1.(future := RemoveFirst(s1.future, p))
    else s
  }

  /** The admission loop after its first j iterations over `pending`. */
  function AdmitPrefix(s: Sys, pending: seq<Proc>, j: nat): (r: Sys)
    requires j <= |pending|
    ensures r.now == s.now && r.cpus == s.cpus && r.ios == s.ios
  {
    if j == 0 then s else AdmitOne(AdmitPrefix(s, pending, j - 1), pending[j - 1])
  }

  /** Phase 1 of `step`: admit the arrived processes. */
  function Admission(s: Sys): (r: Sys)
    ensures r.now == s.now && r.cpus == s.cpus && r.ios == s.ios
  {
    AdmitPrefix(s, s.future, |s.future|)
  }

  /**
   * `for i in range(k): s = body(s, i)`: the shape of the four resource
   * loops of `step`, each visiting the resources in list order.
   */
  function Loop(body: (Sys, nat) -> Sys, s: Sys, k: nat): Sys
  {
    if k == 0 then s else body(Loop(body, s, k - 1), k - 1)
  }

  /** The quantum bookkeeping for the process p that CPU i still holds after its tick. */
  function ExpireQuantum(s: Sys, i: nat, p: Proc): (r: Sys)
    requires i < |s.cpus|
    ensures r.now == s.now && |r.cpus| == |s.cpus| && r.cpus == s.cpus[i := r.cpus[i]] && r.ios == s.ios
    ensures s.ready <= r.ready && r.wait == s.wait
  {
    var q := p.(remainingQuantum := p.remainingQuantum - 1);
    if q.remainingQuantum <= 0 && RemainingBurstTime(q) > 0 then
      Record(s.(cpus := s.cpus[i := None], ready := s.ready + [q.(state := Ready, remainingQuantum := q.quantum)]),
             Preempted, q.pid, Some(CpuDev(i)))
    else s.(cpus := s.cpus[i := Some(q)])
  }

  /** Routing of a process whose CPU burst just completed on CPU i. */
  function RouteFromCpu(s: Sys, i: nat, p: Proc): (r: Sys)
    ensures r.now == s.now && r.cpus == s.cpus && r.ios == s.ios && |r.events| == |s.events| + 1
    ensures s.ready <= r.ready && s.wait <= r.wait
  {
    match CurrentBurst(p)
    case Some(b) =>
      if b.kind == Io then Record(s.(wait := s.wait + [p.(state := Waiting)]), CpuToIo, p.pid, Some(CpuDev(i)))
      else Record(s.(ready := s.ready + [p]), CpuToReady, p.pid, Some(CpuDev(i)))
    case None =>
      Record(s.(finished := s.finished + [p.(state := Finished)]), FinishedAll, p.pid, Some(CpuDev(i)))
  }

  /**
   * The body of the CPU loop for CPU i: tick, charge the quantum, route a
   * completed process.  The loop never passes an index beyond the last CPU;
   * such an index leaves the state unchanged.
   */
  function TickCpu(s: Sys, i: nat): (r: Sys)
    ensures r.now == s.now && |r.cpus| == |s.cpus| && r.ios == s.ios
    ensures s.ready <= r.ready && s.wait <= r.wait
    ensures i < |s.cpus| ==> r.cpus == s.cpus[i := r.cpus[i]]
  {
    if i >= |s.cpus| then s
    else
      var (slot, done) := TickSlot(s.cpus[i]);
      var s1 := s.(cpus := s.cpus[i := slot]);
      var s2 := if slot.Some? then ExpireQuantum(s1, i, slot.value) else s1;
      if done.Some? then RouteFromCpu(s2, i, done.value) else s2
  }

  /** Phase 2 of `step`: tick every CPU in list order. */
  function TickCpus(s: Sys): Sys
  {
    Loop(TickCpu, s, |s.cpus|)
  }

  /** Routing of a process whose I/O burst just completed on device i. */
  function RouteFromIo(s: Sys, i: nat, p: Proc): (r: Sys)
    ensures r.now == s.now && r.cpus == s.cpus && r.ios == s.ios && |r.events| == |s.events| + 1
    ensures s.ready <= r.ready && r.wait == s.wait
  {
    if CurrentBurst(p).Some? then
      Record(s.(ready := s.ready + [p.(state := Ready)]), IoToReady, p.pid, Some(IoDev(i)))
    else
      Record(s.(finished := s.finished + [p.(state := Finished)]), FinishedAll, p.pid, Some(IoDev(i)))
  }

  /** The body of the device loop for device i. */
  function TickIo(s: Sys, i: nat): (r: Sys)
    ensures r.now == s.now && r.cpus == s.cpus && |r.ios| == |s.ios|
    ensures s.ready <= r.ready && r.wait == s.wait
    ensures i < |s.ios| ==> r.ios == s.ios[i := r.ios[i]]
  {
    if i >= |s.ios| then s
    else
      var (slot, done) := TickSlot(s.ios[i]);
      var s1 := s.(ios := s.ios[i := slot]);
      if done.Some? then RouteFromIo(s1, i, done.value) else s1
  }

  /** Phase 3 of `step`: tick every I/O device in list order. */
  function TickIos(s: Sys): Sys
  {
    Loop(TickIo, s, |s.ios|)
  }

  /** The body of the CPU dispatch loop for CPU i: an idle CPU takes the head of the ready queue. */
  function DispatchToCpu(s: Sys, i: nat): (r: Sys)
    ensures r.now == s.now && |r.cpus| == |s.cpus| && r.ios == s.ios && r.wait == s.wait
    ensures i < |s.cpus| ==> r.cpus == s.cpus[i := r.cpus[i]]
  {
    if i < |s.cpus| && s.cpus[i].None? && s.ready != [] then
      var p := s.ready[0].(state := Running);
      Record(s.(cpus := s.cpus[i := Some(p)], ready := s.ready[1..]), DispatchCpu, p.pid, Some(CpuDev(i)))
    else s
  }

  /** Phase 4 of `step`: dispatch idle CPUs in list order. */
  function DispatchCpus(s: Sys): Sys
  {
    Loop(DispatchToCpu, s, |s.cpus|)
  }

  /** The body of the device dispatch loop for device i: an idle device takes the head of the wait queue. */
  function DispatchToIo(s: Sys, i: nat): (r: Sys)
    ensures r.now == s.now && r.cpus == s.cpus && |r.ios| == |s.ios| && r.ready == s.ready
    ensures i < |s.ios| ==> r.ios == s.ios[i := r.ios[i]]
  {
    if i < |s.ios| && s.ios[i].None? && s.wait != [] then
      var p := s.wait[0];
      Record(s.(ios := s.ios[i := Some(p)], wait := s.wait[1..]), DispatchIo, p.pid, Some(IoDev(i)))
    else s
  }

  /** Phase 5 of `step`: dispatch idle devices in list order. */
  function DispatchIos(s: Sys): Sys
  {
    Loop(DispatchToIo, s, |s.ios|)
  }

  /** The processes arrivals and ticks have produced, before dispatch. */
  function Routed(s: Sys): Sys
  {
    TickIos(TickCpus(Admission(s)))
  }

  /** `step()`: the five phases in order, then the clock advances by one. */
  function Step(s: Sys): Sys
  {
    var d := DispatchIos(DispatchCpus(Routed(s)));
    d.(now := s.now + 1)
  }

  // ---------------------------------------------------------------------
  // Basic facts about the projections

  lemma {:induction false} HeldNone(slots: seq<Option<Proc>>)
    requires forall j :: 0 <= j < |slots| ==> slots[j].None?
    ensures HeldMs(slots) == multiset{} && WorkSlots(slots) == 0 && BusyCount(slots) == 0
  {
    if slots != [] {
      HeldNone(slots[1..]);
    }
  }

  lemma {:induction false} PidMsAppend(q: seq<Proc>, p: Proc)
    ensures PidMs(q + [p]) == PidMs(q) + multiset{p.pid}
  {
    if q == [] {
      assert q + [p] == [p];
    } else {
      assert (q + [p])[1..] == q[1..] + [p];
      PidMsAppend(q[1..], p);
    }
  }

  lemma PidMsHead(q: seq<Proc>)
    requires q != []
    ensures PidMs(q) == multiset{q[0].pid} + PidMs(q[1..])
  {
  }

  lemma {:induction false} WorkConcat(a: seq<Proc>, b: seq<Proc>)
    ensures WorkSeq(a + b) == WorkSeq(a) + WorkSeq(b)
  {
    if a != [] {
      assert (a + b)[1..] == a[1..] + b;
      WorkConcat(a[1..], b);
    } else {
      assert a + b == b;
    }
  }

  lemma WorkAppend(q: seq<Proc>, p: Proc)
    ensures WorkSeq(q + [p]) == WorkSeq(q) + Work(p)
  {
    WorkConcat(q, [p]);
  }

  lemma {:induction false} RemoveFirstIn(q: seq<Proc>, x: Proc)
    requires x in q
    ensures PidMs(RemoveFirst(q, x)) + multiset{x.pid} == PidMs(q)
    ensures WorkSeq(RemoveFirst(q, x)) + Work(x) == WorkSeq(q)
  {
    if q[0] != x {
      assert x in q[1..];
      RemoveFirstIn(q[1..], x);
      var r := RemoveFirst(q[1..], x);
      assert ([q[0]] + r)[1..] == r;
      assert RemoveFirst(q, x) == [q[0]] + r;
    }
  }

  /** Replacing what resource i holds changes the held pids by exactly that resource's share. */
  lemma {:induction false} HeldUpdate(slots: seq<Option<Proc>>, i: nat, x: Option<Proc>)
    requires i < |slots|
    ensures HeldMs(slots[i := x]) + SlotMs(slots[i]) == HeldMs(slots) + SlotMs(x)
  {
    var t := slots[i := x];
    var old_ := SlotMs(slots[i]);
    var new_ := SlotMs(x);
    if i == 0 {
      assert t[1..] == slots[1..];
      var rest := HeldMs(slots[1..]);
      assert HeldMs(t) == new_ + rest;
      assert HeldMs(slots) == old_ + rest;
      assert (new_ + rest) + old_ == (old_ + rest) + new_;
    } else {
      assert t[1..] == slots[1..][i - 1 := x];
      HeldUpdate(slots[1..], i - 1, x);
      var head := SlotMs(slots[0]);
      var restNew := HeldMs(t[1..]);
      var restOld := HeldMs(slots[1..]);
      assert HeldMs(t) == head + restNew;
      assert HeldMs(slots) == head + restOld;
      MsShift(head, restNew, restOld, old_, new_);
    }
  }

  /** Adding the same multiset to both sides of a balance keeps it balanced. */
  lemma MsShift(h: multiset<nat>, a: multiset<nat>, b: multiset<nat>, x: multiset<nat>, y: multiset<nat>)
    requires a + x == b + y
    ensures (h + a) + x == (h + b) + y
  {
    calc {
      (h + a) + x;
      h + (a + x);
      h + (b + y);
      (h + b) + y;
    }
  }

  /** Replacing what resource i holds changes the work owed by exactly that resource's share. */
  lemma {:induction false} WorkUpdate(slots: seq<Option<Proc>>, i: nat, x: Option<Proc>)
    requires i < |slots|
    ensures WorkSlots(slots[i := x]) + SlotWork(slots[i]) == WorkSlots(slots) + SlotWork(x)
  {
    var t := slots[i := x];
    if i == 0 {
      assert t[1..] == slots[1..];
    } else {
      assert t[1..] == slots[1..][i - 1 := x];
      WorkUpdate(slots[1..], i - 1, x);
    }
  }

  lemma SlotUpdate(slots: seq<Option<Proc>>, i: nat, x: Option<Proc>)
    requires i < |slots|
    ensures HeldMs(slots[i := x]) + SlotMs(slots[i]) == HeldMs(slots) + SlotMs(x)
    ensures WorkSlots(slots[i := x]) + SlotWork(slots[i]) == WorkSlots(slots) + SlotWork(x)
  {
    HeldUpdate(slots, i, x);
    WorkUpdate(slots, i, x);
  }

  /** Replacing the process in a busy slot by one with the same pid keeps the held pids. */
  lemma SlotKeep(slots: seq<Option<Proc>>, i: nat, x: Option<Proc>)
    requires i < |slots| && slots[i].Some? && x.Some? && x.value.pid == slots[i].value.pid
    ensures HeldMs(slots[i := x]) == HeldMs(slots)
  {
    HeldUpdate(slots, i, x);
    var a, b, m := HeldMs(slots[i := x]), HeldMs(slots), multiset{x.value.pid};
    assert a + m == b + m;
    assert forall y :: a[y] == (a + m)[y] - m[y] == (b + m)[y] - m[y] == b[y];
  }

  // ---------------------------------------------------------------------
  // Moves: the relation every phase keeps

  /**
   * t is reachable from s by moving processes around within one tick: same
   * clock and resource lists, the same processes (no duplicate, no loss),
   * `finished` and the event log only extended, every new event stamped
   * with the clock, and no more work owed than before.
   */
  predicate Moves(s: Sys, t: Sys)
  {
    t.now == s.now && |t.cpus| == |s.cpus| && |t.ios| == |s.ios|
    && AllPids(t) == AllPids(s)
    && s.finished <= t.finished
    && s.events <= t.events
    && (forall k :: |s.events| <= k < |t.events| ==> t.events[k].time == s.now)
    && SysWork(t) <= SysWork(s)
  }

  lemma MovesTrans(a: Sys, b: Sys, c: Sys)
    requires Moves(a, b) && Moves(b, c)
    ensures Moves(a, c)
  {
  }

  /** Appending one event: the new event carries the clock, and nothing else changes. */
  lemma RecordFacts(s: Sys, t: EventType, pid: nat, dev: Option<Device>)
    ensures var r := Record(s, t, pid, dev);
            r.events == s.events + [r.events[|s.events|]] && r.events[|s.events|].time == s.now
            && r.(events := s.events) == s
  {
  }

  /** Moves from s to Record(s1, ...) where s1 changes no event: the log grows by one event stamped with the clock. */
  lemma RecordMoves(s: Sys, s1: Sys, t: EventType, pid: nat, dev: Option<Device>)
    requires s1.events == s.events && s1.now == s.now && |s1.cpus| == |s.cpus| && |s1.ios| == |s.ios|
    requires AllPids(s1) == AllPids(s) && s.finished <= s1.finished && SysWork(s1) <= SysWork(s)
    ensures Moves(s, Record(s1, t, pid, dev))
  {
  }

  // The six places a process can be, as multisets of pids.

  lemma ShiftFutureToReady(s: Sys, t: Sys, x: nat)
    requires t.wait == s.wait && t.cpus == s.cpus && t.ios == s.ios && t.finished == s.finished
    requires PidMs(t.future) + multiset{x} == PidMs(s.future)
    requires PidMs(t.ready) == PidMs(s.ready) + multiset{x}
    ensures AllPids(t) == AllPids(s)
  {
    var f, r, w, c, io, fin := PidMs(s.future), PidMs(s.ready), PidMs(s.wait), HeldMs(s.cpus), HeldMs(s.ios), PidMs(s.finished);
    var f', r' := PidMs(t.future), PidMs(t.ready);
    calc {
      AllPids(t);
      f' + r' + w + c + io + fin;
      f' + (r + multiset{x}) + w + c + io + fin;
      (f' + multiset{x}) + r + w + c + io + fin;
      AllPids(s);
    }
  }

  lemma ShiftCpuToReady(s: Sys, t: Sys, x: nat)
    requires t.future == s.future && t.wait == s.wait && t.ios == s.ios && t.finished == s.finished
    requires PidMs(t.ready) == PidMs(s.ready) + multiset{x}
    requires HeldMs(t.cpus) + multiset{x} == HeldMs(s.cpus)
    ensures AllPids(t) == AllPids(s)
  {
    var f, r, w, c, io, fin := PidMs(s.future), PidMs(s.ready), PidMs(s.wait), HeldMs(s.cpus), HeldMs(s.ios), PidMs(s.finished);
    var r', c' := PidMs(t.ready), HeldMs(t.cpus);
    calc {
      AllPids(t);
      f + r' + w + c' + io + fin;
      f + (r + multiset{x}) + w + c' + io + fin;
      f + r + w + (c' + multiset{x}) + io + fin;
      AllPids(s);
    }
  }

  lemma ShiftReadyToCpu(s: Sys, t: Sys, x: nat)
    requires t.future == s.future && t.wait == s.wait && t.ios == s.ios && t.finished == s.finished
    requires PidMs(t.ready) + multiset{x} == PidMs(s.ready)
    requires HeldMs(t.cpus) == HeldMs(s.cpus) + multiset{x}
    ensures AllPids(t) == AllPids(s)
  {
    var f, r, w, c, io, fin := PidMs(s.future), PidMs(s.ready), PidMs(s.wait), HeldMs(s.cpus), HeldMs(s.ios), PidMs(s.finished);
    var r', c' := PidMs(t.ready), HeldMs(t.cpus);
    calc {
      AllPids(t);
      f + r' + w + c' + io + fin;
      f + r' + w + (c + multiset{x}) + io + fin;
      f + (r' + multiset{x}) + w + c + io + fin;
      AllPids(s);
    }
  }

  lemma ShiftWaitToIo(s: Sys, t: Sys, x: nat)
    requires t.future == s.future && t.ready == s.ready && t.cpus == s.cpus && t.finished == s.finished
    requires PidMs(t.wait) + multiset{x} == PidMs(s.wait)
    requires HeldMs(t.ios) == HeldMs(s.ios) + multiset{x}
    ensures AllPids(t) == AllPids(s)
  {
    var f, r, w, c, io, fin := PidMs(s.future), PidMs(s.ready), PidMs(s.wait), HeldMs(s.cpus), HeldMs(s.ios), PidMs(s.finished);
    var w', io' := PidMs(t.wait), HeldMs(t.ios);
    calc {
      AllPids(t);
      f + r + w' + c + io' + fin;
      f + r + w' + c + (io + multiset{x}) + fin;
      f + r + (w' + multiset{x}) + c + io + fin;
      AllPids(s);
    }
  }

  /** A process leaving a resource: the held pids lose exactly it. */
  lemma LeaveCpu(s: Sys, t: Sys, i: nat, x: nat)
    requires i < |s.cpus| && s.cpus[i].Some? && s.cpus[i].value.pid == x
    requires t == s.(cpus := s.cpus[i := None])
    ensures AllPids(t) + multiset{x} == AllPids(s)
    ensures SysWork(t) + Work(s.cpus[i].value) == SysWork(s)
  {
    SlotUpdate(s.cpus, i, None);
    var f, r, w, c, io, fin := PidMs(s.future), PidMs(s.ready), PidMs(s.wait), HeldMs(s.cpus), HeldMs(s.ios), PidMs(s.finished);
    var c' := HeldMs(t.cpus);
    calc {
      AllPids(t) + multiset{x};
      f + r + w + c' + io + fin + multiset{x};
      f + r + w + (c' + multiset{x}) + io + fin;
      AllPids(s);
    }
  }

  lemma LeaveIo(s: Sys, t: Sys, i: nat, x: nat)
    requires i < |s.ios| && s.ios[i].Some? && s.ios[i].value.pid == x
    requires t == s.(ios := s.ios[i := None])
    ensures AllPids(t) + multiset{x} == AllPids(s)
    ensures SysWork(t) + Work(s.ios[i].value) == SysWork(s)
  {
    SlotUpdate(s.ios, i, None);
    var f, r, w, c, io, fin := PidMs(s.future), PidMs(s.ready), PidMs(s.wait), HeldMs(s.cpus), HeldMs(s.ios), PidMs(s.finished);
    var io' := HeldMs(t.ios);
    calc {
      AllPids(t) + multiset{x};
      f + r + w + c + io' + fin + multiset{x};
      f + r + w + c + (io' + multiset{x}) + fin;
      AllPids(s);
    }
  }

  /** A process arriving in a queue or in `finished`: the pids gain exactly it. */
  lemma EnterReady(s: Sys, p: Proc)
    ensures AllPids(s.(ready := s.ready + [p])) == AllPids(s) + multiset{p.pid}
    ensures SysWork(s.(ready := s.ready + [p])) == SysWork(s) + Work(p)
  {
    PidMsAppend(s.ready, p);
    WorkAppend(s.ready, p);
    var f, r, w, c, io, fin := PidMs(s.future), PidMs(s.ready), PidMs(s.wait), HeldMs(s.cpus), HeldMs(s.ios), PidMs(s.finished);
    calc {
      AllPids(s.(ready := s.ready + [p]));
      f + (r + multiset{p.pid}) + w + c + io + fin;
      f + r + w + c + io + fin + multiset{p.pid};
    }
  }

  lemma EnterWait(s: Sys, p: Proc)
    ensures AllPids(s.(wait := s.wait + [p])) == AllPids(s) + multiset{p.pid}
    ensures SysWork(s.(wait := s.wait + [p])) == SysWork(s) + Work(p)
  {
    PidMsAppend(s.wait, p);
    WorkAppend(s.wait, p);
    var f, r, w, c, io, fin := PidMs(s.future), PidMs(s.ready), PidMs(s.wait), HeldMs(s.cpus), HeldMs(s.ios), PidMs(s.finished);
    calc {
      AllPids(s.(wait := s.wait + [p]));
      f + r + (w + multiset{p.pid}) + c + io + fin;
      f + r + w + c + io + fin + multiset{p.pid};
    }
  }

  lemma EnterFinished(s: Sys, p: Proc)
    ensures AllPids(s.(finished := s.finished + [p])) == AllPids(s) + multiset{p.pid}
    ensures SysWork(s.(finished := s.finished + [p])) == SysWork(s)
  {
    PidMsAppend(s.finished, p);
  }

  lemma AdmitOneMoves(s: Sys, p: Proc)
    requires p.arrivalTime <= s.now ==> p in s.future
    ensures Moves(s, AdmitOne(s, p))
  {
    if p.arrivalTime <= s.now {
      var p' := p.(state := Ready);
      var s1 := s.(ready := s.ready + [p']);
      var s2 := Record(s1, Arrival, p.pid, None);
      var t := s1.(future := RemoveFirst(s.future, p));
      assert AdmitOne(s, p) == Record(t, Arrival, p.pid, None);
      PidMsAppend(s.ready, p');
      WorkAppend(s.ready, p');
      RemoveFirstIn(s.future, p);
      ShiftFutureToReady(s, t, p.pid);
      assert SysWork(t) == SysWork(s);
      RecordMoves(s, t, Arrival, p.pid, None);
    }
  }

  lemma ExpireQuantumMoves(s: Sys, i: nat, p: Proc)
    requires i < |s.cpus| && s.cpus[i] == Some(p)
    ensures Moves(s, ExpireQuantum(s, i, p))
  {
    var q := p.(remainingQuantum := p.remainingQuantum - 1);
    if q.remainingQuantum <= 0 && RemainingBurstTime(q) > 0 {
      PreemptMoves(s, i, q);
    } else {
      ExpireKeeps(s, i, p, q);
    }
  }

  /** A preempted process goes from CPU i to the tail of the ready queue. */
  lemma PreemptMoves(s: Sys, i: nat, q: Proc)
    requires i < |s.cpus| && s.cpus[i].Some? && s.cpus[i].value.pid == q.pid
    requires Work(s.cpus[i].value) == Work(q)
    ensures Moves(s, Record(s.(cpus := s.cpus[i := None], ready := s.ready + [q.(state := Ready, remainingQuantum := q.quantum)]),
                            Preempted, q.pid, Some(CpuDev(i))))
  {
    var q' := q.(state := Ready, remainingQuantum := q.quantum);
    var s1 := s.(cpus := s.cpus[i := None], ready := s.ready + [q']);
    SlotUpdate(s.cpus, i, None);
    PidMsAppend(s.ready, q');
    WorkAppend(s.ready, q');
    ShiftCpuToReady(s, s1, q.pid);
    RecordMoves(s, s1, Preempted, q.pid, Some(CpuDev(i)));
  }

  lemma ExpireKeeps(s: Sys, i: nat, p: Proc, q: Proc)
    requires i < |s.cpus| && s.cpus[i] == Some(p)
    requires q.pid == p.pid && q.bursts == p.bursts
    ensures Moves(s, s.(cpus := s.cpus[i := Some(q)]))
  {
    var t := s.(cpus := s.cpus[i := Some(q)]);
    SlotUpdate(s.cpus, i, Some(q));
    SlotKeep(s.cpus, i, Some(q));
    assert AllPids(t) == AllPids(s);
    assert SysWork(t) == SysWork(s);
  }

  /** Routing a process that left CPU i: it lands in exactly one place, owing the same work or, if finished, none. */
  lemma RouteFromCpuMoves(s: Sys, i: nat, p: Proc)
    ensures AllPids(RouteFromCpu(s, i, p)) == AllPids(s) + multiset{p.pid}
    ensures SysWork(RouteFromCpu(s, i, p)) == SysWork(s) + (if CurrentBurst(p).Some? then Work(p) else 0)
    ensures s.finished <= RouteFromCpu(s, i, p).finished
    ensures RouteFromCpu(s, i, p).events == s.events + [RouteFromCpu(s, i, p).events[|s.events|]]
    ensures RouteFromCpu(s, i, p).events[|s.events|].time == s.now
  {
    match CurrentBurst(p)
    case Some(b) =>
      if b.kind == Io {
        EnterWait(s, p.(state := Waiting));
      } else {
        EnterReady(s, p);
      }
    case None =>
      EnterFinished(s, p.(state := Finished));
  }

  /** Routing a process that left device i: it lands in exactly one place, owing the same work or, if finished, none. */
  lemma RouteFromIoMoves(s: Sys, i: nat, p: Proc)
    ensures AllPids(RouteFromIo(s, i, p)) == AllPids(s) + multiset{p.pid}
    ensures SysWork(RouteFromIo(s, i, p)) == SysWork(s) + (if CurrentBurst(p).Some? then Work(p) else 0)
    ensures s.finished <= RouteFromIo(s, i, p).finished
    ensures RouteFromIo(s, i, p).events == s.events + [RouteFromIo(s, i, p).events[|s.events|]]
    ensures RouteFromIo(s, i, p).events[|s.events|].time == s.now
  {
    if CurrentBurst(p).Some? {
      EnterReady(s, p.(state := Ready));
    } else {
      EnterFinished(s, p.(state := Finished));
    }
  }

  /** A process that stays on slot i of a resource list after its tick owes less work. */
  lemma SlotTicked(slots: seq<Option<Proc>>, i: nat, x: Option<Proc>)
    requires i < |slots| && slots[i].Some? && x.Some? && x.value.pid == slots[i].value.pid
    requires Work(x.value) < Work(slots[i].value)
    ensures HeldMs(slots[i := x]) == HeldMs(slots)
    ensures WorkSlots(slots[i := x]) < WorkSlots(slots)
  {
    SlotUpdate(slots, i, x);
    SlotKeep(slots, i, x);
  }

  /** A CPU whose process keeps running after its tick: only the work owed changes, and it drops. */
  lemma TickCpuKept(s: Sys, i: nat, x: Option<Proc>)
    requires i < |s.cpus| && s.cpus[i].Some? && x.Some? && x.value.pid == s.cpus[i].value.pid
    requires Work(x.value) < Work(s.cpus[i].value)
    ensures Moves(s, s.(cpus := s.cpus[i := x]))
    ensures SysWork(s.(cpus := s.cpus[i := x])) < SysWork(s)
  {
    SlotTicked(s.cpus, i, x);
    assert s.events <= s.events;
  }

  /** The same, followed by the quantum bookkeeping. */
  lemma TickCpuCharged(s: Sys, i: nat, x: Option<Proc>)
    requires i < |s.cpus| && s.cpus[i].Some? && x.Some? && x.value.pid == s.cpus[i].value.pid
    requires Work(x.value) < Work(s.cpus[i].value)
    ensures Moves(s, ExpireQuantum(s.(cpus := s.cpus[i := x]), i, x.value))
    ensures SysWork(ExpireQuantum(s.(cpus := s.cpus[i := x]), i, x.value)) < SysWork(s)
  {
    var s1 := s.(cpus := s.cpus[i := x]);
    TickCpuKept(s, i, x);
    ExpireQuantumMoves(s1, i, x.value);
    MovesTrans(s, s1, ExpireQuantum(s1, i, x.value));
  }

  /** A CPU whose process completed its burst: the process is routed on, owing less work or none. */
  lemma TickCpuDone(s: Sys, i: nat, p: Proc)
    requires i < |s.cpus| && s.cpus[i].Some? && p.pid == s.cpus[i].value.pid
    requires Work(p) < Work(s.cpus[i].value) || CurrentBurst(p).None?
    ensures Moves(s, RouteFromCpu(s.(cpus := s.cpus[i := None]), i, p))
    ensures SysWork(RouteFromCpu(s.(cpus := s.cpus[i := None]), i, p)) < SysWork(s)
  {
    var s1 := s.(cpus := s.cpus[i := None]);
    LeaveCpu(s, s1, i, p.pid);
    RouteFromCpuMoves(s1, i, p);
  }

  /** Ticking CPU i moves processes only, and lowers the work owed when the CPU was busy. */
  lemma TickCpuMoves(s: Sys, i: nat)
    requires i < |s.cpus|
    ensures Moves(s, TickCpu(s, i))
    ensures s.cpus[i].Some? ==> SysWork(TickCpu(s, i)) < SysWork(s)
  {
    var (slot, done) := TickSlot(s.cpus[i]);
    var s1 := s.(cpus := s.cpus[i := slot]);
    if s.cpus[i].None? {
      assert s1 == s;
      assert s.events <= s.events;
    } else if slot.Some? {
      TickCpuCharged(s, i, slot);
    } else {
      TickCpuDone(s, i, done.value);
    }
  }

  /** A device whose process keeps running after its tick: only the work owed changes, and it drops. */
  lemma TickIoKept(s: Sys, i: nat, x: Option<Proc>)
    requires i < |s.ios| && s.ios[i].Some? && x.Some? && x.value.pid == s.ios[i].value.pid
    requires Work(x.value) < Work(s.ios[i].value)
    ensures Moves(s, s.(ios := s.ios[i := x]))
    ensures SysWork(s.(ios := s.ios[i := x])) < SysWork(s)
  {
    SlotTicked(s.ios, i, x);
    assert s.events <= s.events;
  }

  /** A device whose process completed its burst: the process is routed on, owing less work or none. */
  lemma TickIoDone(s: Sys, i: nat, p: Proc)
    requires i < |s.ios| && s.ios[i].Some? && p.pid == s.ios[i].value.pid
    requires Work(p) < Work(s.ios[i].value) || CurrentBurst(p).None?
    ensures Moves(s, RouteFromIo(s.(ios := s.ios[i := None]), i, p))
    ensures SysWork(RouteFromIo(s.(ios := s.ios[i := None]), i, p)) < SysWork(s)
  {
    var s1 := s.(ios := s.ios[i := None]);
    LeaveIo(s, s1, i, p.pid);
    RouteFromIoMoves(s1, i, p);
  }

  /** Ticking device i moves processes only, and lowers the work owed when the device was busy. */
  lemma TickIoMoves(s: Sys, i: nat)
    requires i < |s.ios|
    ensures Moves(s, TickIo(s, i))
    ensures s.ios[i].Some? ==> SysWork(TickIo(s, i)) < SysWork(s)
  {
    var (slot, done) := TickSlot(s.ios[i]);
    if s.ios[i].None? {
      assert s.(ios := s.ios[i := slot]) == s;
      assert s.events <= s.events;
    } else if slot.Some? {
      TickIoKept(s, i, slot);
    } else {
      TickIoDone(s, i, done.value);
    }
  }

  lemma DispatchToCpuMoves(s: Sys, i: nat)
    requires i < |s.cpus|
    ensures Moves(s, DispatchToCpu(s, i)) && SysWork(DispatchToCpu(s, i)) == SysWork(s)
  {
    if s.cpus[i].None? && s.ready != [] {
      var p := s.ready[0].(state := Running);
      var s1 := s.(cpus := s.cpus[i := Some(p)], ready := s.ready[1..]);
      SlotUpdate(s.cpus, i, Some(p));
      PidMsHead(s.ready);
      ShiftReadyToCpu(s, s1, p.pid);
      assert SysWork(s1) == SysWork(s);
      RecordMoves(s, s1, DispatchCpu, p.pid, Some(CpuDev(i)));
    }
  }

  lemma DispatchToIoMoves(s: Sys, i: nat)
    requires i < |s.ios|
    ensures Moves(s, DispatchToIo(s, i)) && SysWork(DispatchToIo(s, i)) == SysWork(s)
  {
    if s.ios[i].None? && s.wait != [] {
      var p := s.wait[0];
      var s1 := s.(ios := s.ios[i := Some(p)], wait := s.wait[1..]);
      SlotUpdate(s.ios, i, Some(p));
      PidMsHead(s.wait);
      ShiftWaitToIo(s, s1, p.pid);
      assert SysWork(s1) == SysWork(s);
      RecordMoves(s, s1, DispatchIo, p.pid, Some(IoDev(i)));
    }
  }
}
