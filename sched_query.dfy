/**
 * The two read-only views of a scheduler: `processes()`, a dictionary from
 * pid to process built from the queues, `finished` and the busy resources,
 * where a later entry with the same pid overwrites an earlier one; and
 * `_snapshot()`, the pids and quanta of the queues and resources at the
 * current clock.
 */
module SchedulerQuery {
  import opened Wrappers
  import opened Process
  import opened SchedulerSpec

  /** The processes held by the busy resources, in resource order. */
  function Busy(slots: seq<Option<Proc>>): (q: seq<Proc>)
    ensures forall p :: p in q <==> Some(p) in slots
  {
    if slots == [] then []
    else
      var rest := Busy(slots[1..]);
      assert forall p :: Some(p) in slots <==> slots[0] == Some(p) || Some(p) in slots[1..];
      if slots[0].Some? then [slots[0].value] + rest else rest
  }

  /** The list `processes()` builds its dictionary from; pending processes are not in it. */
  function Listed(s: Sys): seq<Proc>
  {
    s.ready + s.wait + s.finished + Busy(s.cpus) + Busy(s.ios)
  }

  /** `{p.pid: p for p in q}`: one entry per pid, the last process with that pid winning. */
  function LastWins(q: seq<Proc>): map<nat, Proc>
  {
    if q == [] then map[] else LastWins(q[..|q| - 1])[q[|q| - 1].pid := q[|q| - 1]]
  }

  /**
   * The dictionary has a key for exactly the pids in the list, and each
   * key maps to the last process in the list with that pid.
   */
  lemma {:induction false} LastWinsSpec(q: seq<Proc>)
    ensures forall i :: 0 <= i < |q| ==> q[i].pid in LastWins(q)
    ensures forall k :: k in LastWins(q) ==>
              exists i :: 0 <= i < |q| && q[i] == LastWins(q)[k] && q[i].pid == k
                          && forall j :: i < j < |q| ==> q[j].pid != k
  {
    if q != [] {
      var n := |q| - 1;
      var front := q[..n];
      LastWinsSpec(front);
      var m := LastWins(q);
      forall k | k in m
        ensures exists i :: 0 <= i < |q| && q[i] == m[k] && q[i].pid == k
                            && forall j :: i < j < |q| ==> q[j].pid != k
      {
        if k == q[n].pid {
          assert q[n] == m[k];
        } else {
          var i :| 0 <= i < |front| && front[i] == LastWins(front)[k] && front[i].pid == k
                   && forall j :: i < j < |front| ==> front[j].pid != k;
          assert q[i] == m[k] && forall j :: i < j < |q| ==> q[j].pid != k;
        }
      }
    }
  }

  /** `processes()`. */
  function Processes(s: Sys): map<nat, Proc>
  {
    LastWins(Listed(s))
  }

  /**
   * `processes()` knows a pid exactly when some queued, finished or running
   * process has it; a process that has not arrived yet is not listed under
   * its pid unless another process shares it.
   */
  lemma ProcessesKeys(s: Sys, k: nat)
    ensures k in Processes(s) <==> exists p :: p in Listed(s) && p.pid == k
  {
    var q := Listed(s);
    LastWinsSpec(q);
    if k in Processes(s) {
      var i :| 0 <= i < |q| && q[i] == Processes(s)[k] && q[i].pid == k
               && forall j :: i < j < |q| ==> q[j].pid != k;
      assert q[i] in q;
    }
    if p :| p in q && p.pid == k {
      var i :| 0 <= i < |q| && q[i] == p;
    }
  }

  /** When no two listed processes share a pid, `processes()` maps each pid to its process. */
  lemma ProcessesDistinct(s: Sys, i: nat)
    requires i < |Listed(s)|
    requires forall a, b :: 0 <= a < b < |Listed(s)| ==> Listed(s)[a].pid != Listed(s)[b].pid
    ensures Listed(s)[i].pid in Processes(s) && Processes(s)[Listed(s)[i].pid] == Listed(s)[i]
  {
    var q := Listed(s);
    LastWinsSpec(q);
    var k := q[i].pid;
    var j :| 0 <= j < |q| && q[j] == Processes(s)[k] && q[j].pid == k
             && forall l :: j < l < |q| ==> q[l].pid != k;
    assert j == i;
  }

  /** What `_snapshot()` returns. */
  datatype Snapshot = Snapshot(clock: nat, ready: seq<(nat, int)>, wait: seq<nat>,
                               cpu: seq<Option<nat>>, io: seq<Option<nat>>, finished: seq<nat>)

  function ReadyEntries(q: seq<Proc>): (r: seq<(nat, int)>)
    ensures |r| == |q| && forall k :: 0 <= k < |q| ==> r[k] == (q[k].pid, q[k].remainingQuantum)
  {
    seq(|q|, k requires 0 <= k < |q| => (q[k].pid, q[k].remainingQuantum))
  }

  /** `_snapshot()`: the clock, (pid, remaining quantum) per ready process, and the pids everywhere else. */
  function TakeSnapshot(s: Sys): Snapshot
  {
    Snapshot(s.now, ReadyEntries(s.ready), PidsOf(s.wait), SlotPids(s.cpus), SlotPids(s.ios), PidsOf(s.finished))
  }

  function Firsts(r: seq<(nat, int)>): (q: seq<nat>)
    ensures |q| == |r| && forall k :: 0 <= k < |r| ==> q[k] == r[k].0
  {
    seq(|r|, k requires 0 <= k < |r| => r[k].0)
  }

  /**
   * A snapshot and an event recorded in the same state agree: the same
   * clock, the same ready and wait queues, the same CPU and device holders.
   */
  lemma SnapshotMatchesEvent(s: Sys, t: EventType, pid: nat, dev: Option<Device>)
    ensures var e := Record(s, t, pid, dev).events[|s.events|];
            var sn := TakeSnapshot(s);
            e.time == sn.clock && e.readyQueue == Firsts(sn.ready) && e.waitQueue == sn.wait
            && e.cpus == sn.cpu && e.ios == sn.io
  {
    var sn := TakeSnapshot(s);
    assert Firsts(sn.ready) == PidsOf(s.ready);
  }
}
