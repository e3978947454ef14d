/**
 * The process and resource contracts the scheduler relies on.  The classes
 * `Process`, `CPU` and `IODevice` are not part of this model; they are
 * specified here only by what `Scheduler.step` uses: `current_burst()`,
 * `remaining_burst_time()`, the quantum fields, and a resource's `tick()`.
 */
module Process {
  import opened Wrappers

  datatype Kind = Cpu | Io

  /** One burst of demand; `duration` is the number of ticks still owed. */
  datatype Burst = Burst(kind: Kind, duration: nat)

  /** The lifecycle states a process passes through. */
  datatype PState = New | Ready | Running | Waiting | Finished

  /** A process: its identity, arrival tick, Round-Robin quantum and the bursts it still has to run. */
  datatype Proc = Proc(pid: nat, arrivalTime: int, quantum: int, remainingQuantum: int,
                       bursts: seq<Burst>, state: PState)

  /** `current_burst()`: the burst the process is in, or none once all are done. */
  function CurrentBurst(p: Proc): Option<Burst>
  {
    if |p.bursts| == 0 then None else Some(p.bursts[0])
  }

  function TotalDuration(bs: seq<Burst>): nat
  {
    if bs == [] then 0 else bs[0].duration + TotalDuration(bs[1..])
  }

  /** `remaining_burst_time()`: the ticks still owed over the current and all later bursts. */
  function RemainingBurstTime(p: Proc): nat
  {
    TotalDuration(p.bursts)
  }

  /** A measure of the work a process still needs; every tick of a resource lowers it. */
  function BurstsWork(bs: seq<Burst>): nat
  {
    if bs == [] then 0 else bs[0].duration + 1 + BurstsWork(bs[1..])
  }

  function Work(p: Proc): nat
  {
    1 + BurstsWork(p.bursts)
  }

  /**
   * `tick()` of a CPU or an I/O device whose `current` is `slot`: the
   * current burst loses one tick; when it is used up (a burst of duration 1
   * or less, or no burst at all) the process advances past it, the resource
   * becomes free and the process is handed back.  The result is the new
   * `current` and the process handed back.
   */
  function TickSlot(slot: Option<Proc>): (r: (Option<Proc>, Option<Proc>))
    ensures slot.None? ==> r == (None, None)
    ensures slot.Some? ==> r.0.None? != r.1.None?
    ensures r.0.Some? ==> r.0.value.pid == slot.value.pid
                          && r.0.value.remainingQuantum == slot.value.remainingQuantum
                          && RemainingBurstTime(r.0.value) == RemainingBurstTime(slot.value) - 1 > 0
                          && Work(r.0.value) < Work(slot.value)
    ensures r.1.Some? ==> r.1.value.pid == slot.value.pid
                          && r.1.value.remainingQuantum == slot.value.remainingQuantum
                          && r.1.value.state == slot.value.state
                          && (|slot.value.bursts| > 0 ==> r.1.value.bursts == slot.value.bursts[1..])
                          && (Work(r.1.value) < Work(slot.value) || CurrentBurst(r.1.value).None?)
  {
    match slot
    case None => (None, None)
    case Some(p) =>
      if |p.bursts| == 0 then (None, Some(p))
      else if p.bursts[0].duration <= 1 then (None, Some(p.(bursts := p.bursts[1..])))
      else
        var b := p.bursts[0].(duration := p.bursts[0].duration - 1);
        assert ([b] + p.bursts[1..])[1..] == p.bursts[1..];
        (Some(p.(bursts := [b] + p.bursts[1..])), None)
  }
}
