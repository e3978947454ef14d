/**
 * What one `step()` promises, proved about the phase functions of
 * `SchedulerSpec`: admission moves exactly the arrived processes in order,
 * dispatch fills idle resources in list order from the queue heads, a step
 * only moves processes around, and a step that has work to do lowers the
 * work still owed.
 */
module SchedulerProps {
  import opened Wrappers
  import opened Process
  import opened SchedulerSpec

  // ---------------------------------------------------------------------
  // Admission

  /** The processes of q whose arrival time has been reached, in q's order. */
  function Arrived(q: seq<Proc>, now: int): (r: seq<Proc>)
    ensures forall k :: 0 <= k < |r| ==> r[k].arrivalTime <= now && r[k] in q
  {
    if q == [] then []
    else
      var last := q[|q| - 1];
      Arrived(q[..|q| - 1], now) + (if last.arrivalTime <= now then [last] else [])
  }

  /** The processes of q that have not arrived yet, in q's order. */
  function NotArrived(q: seq<Proc>, now: int): (r: seq<Proc>)
    ensures forall k :: 0 <= k < |r| ==> r[k].arrivalTime > now && r[k] in q
  {
    if q == [] then []
    else
      var last := q[|q| - 1];
      NotArrived(q[..|q| - 1], now) + (if last.arrivalTime > now then [last] else [])
  }

  /** Every process of q with its state set to "ready". */
  function AsReady(q: seq<Proc>): (r: seq<Proc>)
    ensures |r| == |q| && forall k :: 0 <= k < |q| ==> r[k] == q[k].(state := Ready)
  {
    seq(|q|, k requires 0 <= k < |q| => q[k].(state := Ready))
  }

  lemma {:induction false} ArrivedSplit(q: seq<Proc>, now: int)
    ensures |Arrived(q, now)| + |NotArrived(q, now)| == |q|
  {
    if q != [] {
      ArrivedSplit(q[..|q| - 1], now);
    }
  }

  /** `list.remove(x)` when x is not among the first elements removes the x that follows them. */
  lemma {:induction false} RemoveFirstSkip(a: seq<Proc>, x: Proc, b: seq<Proc>)
    requires x !in a
    ensures RemoveFirst(a + [x] + b, x) == a + b
  {
    if a == [] {
      assert a + [x] + b == [x] + b;
    } else {
      assert (a + [x] + b)[1..] == a[1..] + [x] + b;
      RemoveFirstSkip(a[1..], x, b);
      assert a + b == [a[0]] + (a[1..] + b);
    }
  }

  /**
   * What the admission loop has done to s once it has visited `done` and has
   * `rest` still to visit: the arrived processes of `done` are at the tail of
   * the ready queue in their original order, marked ready, each with one
   * arrival event stamped with the clock; the others are still pending,
   * ahead of the unvisited ones; nothing else has changed.
   */
  ghost predicate Admitted(s: Sys, r: Sys, done: seq<Proc>, rest: seq<Proc>)
  {
    var arrived := Arrived(done, s.now);
    r.now == s.now && r.cpus == s.cpus && r.ios == s.ios
    && r.future == NotArrived(done, s.now) + rest
    && r.ready == s.ready + AsReady(arrived)
    && r.wait == s.wait && r.finished == s.finished
    && |r.events| == |s.events| + |arrived|
    && r.events[..|s.events|] == s.events
    && forall k :: 0 <= k < |arrived| ==> ArrivalEventOf(r.events[|s.events| + k], arrived[k], s.now)
  }

  predicate ArrivalEventOf(e: Event, p: Proc, now: nat)
  {
    e.eventType == Arrival && e.process == p.pid && e.time == now
  }

  lemma AdmitArrived(s: Sys, r: Sys, done: seq<Proc>, x: Proc, rest: seq<Proc>)
    requires Admitted(s, r, done, [x] + rest) && x.arrivalTime <= s.now
    ensures Admitted(s, AdmitOne(r, x), done + [x], rest)
  {
    assert (done + [x])[..|done|] == done;
    var na := NotArrived(done, s.now);
    var ar := Arrived(done, s.now);
    assert Arrived(done + [x], s.now) == ar + [x];
    assert NotArrived(done + [x], s.now) == na;
    assert r.future == na + [x] + rest;
    RemoveFirstSkip(na, x, rest);
    assert AsReady(ar + [x]) == AsReady(ar) + [x.(state := Ready)];
    var t := AdmitOne(r, x);
    assert t.events == r.events + [t.events[|r.events|]];
    assert ArrivalEventOf(t.events[|r.events|], x, s.now);
  }

  lemma AdmitPending(s: Sys, r: Sys, done: seq<Proc>, x: Proc, rest: seq<Proc>)
    requires Admitted(s, r, done, [x] + rest) && x.arrivalTime > s.now
    ensures Admitted(s, AdmitOne(r, x), done + [x], rest)
  {
    assert (done + [x])[..|done|] == done;
    assert Arrived(done + [x], s.now) == Arrived(done, s.now);
    assert NotArrived(done + [x], s.now) == NotArrived(done, s.now) + [x];
  }

  /** The admission loop after its first j iterations. */
  lemma {:induction false} AdmitPrefixQueues(s: Sys, j: nat)
    requires j <= |s.future|
    ensures Admitted(s, AdmitPrefix(s, s.future, j), s.future[..j], s.future[j..])
  {
    var P := s.future;
    if j == 0 {
      assert P[..0] == [];
      assert P[0..] == P;
    } else {
      AdmitPrefixQueues(s, j - 1);
      var x := P[j - 1];
      assert P[..j] == P[..j - 1] + [x];
      assert P[j - 1..] == [x] + P[j..];
      if x.arrivalTime <= s.now {
        AdmitArrived(s, AdmitPrefix(s, P, j - 1), P[..j - 1], x, P[j..]);
      } else {
        AdmitPending(s, AdmitPrefix(s, P, j - 1), P[..j - 1], x, P[j..]);
      }
    }
  }

  /**
   * Admission (phase 1 of `step`): every arrived process moves, in its
   * original order and marked ready, to the tail of the ready queue with one
   * arrival event; the others stay pending in order.
   */
  lemma AdmissionQueues(s: Sys)
    ensures Admitted(s, Admission(s), s.future, [])
  {
    AdmitPrefixQueues(s, |s.future|);
    assert s.future[..|s.future|] == s.future;
    assert s.future[|s.future|..] == [];
  }

  /** The process the admission loop visits next is still pending when it gets there. */
  lemma AdmitPrefixNext(s: Sys, j: nat)
    requires j < |s.future|
    ensures s.future[j] in AdmitPrefix(s, s.future, j).future
  {
    AdmitPrefixQueues(s, j);
    var f := AdmitPrefix(s, s.future, j).future;
    assert f == NotArrived(s.future[..j], s.now) + s.future[j..];
    assert f[|f| - |s.future[j..]|] == s.future[j];
  }

  lemma ThenAdmitOne(s: Sys, x: Proc)
    requires x.arrivalTime <= s.now ==> x in s.future
    ensures forall a :: Moves(a, s) ==> Moves(a, AdmitOne(s, x))
  {
    forall a | Moves(a, s) ensures Moves(a, AdmitOne(s, x)) {
      AdmitOneMoves(s, x);
      MovesTrans(a, s, AdmitOne(s, x));
    }
  }

  lemma {:induction false} AdmitPrefixMoves(s: Sys, j: nat)
    requires j <= |s.future|
    ensures Moves(s, AdmitPrefix(s, s.future, j))
  {
    if j == 0 {
      assert s.events <= s.events;
    } else {
      AdmitPrefixMoves(s, j - 1);
      var x := s.future[j - 1];
      AdmitPrefixNext(s, j - 1);
      ThenAdmitOne(AdmitPrefix(s, s.future, j - 1), x);
    }
  }

  // ---------------------------------------------------------------------
  // The resource loops, whatever their body

  /** A loop whose every step is related to the next by a reflexive, transitive relation relates its start and end. */
  lemma {:induction false} LoopRel(body: (Sys, nat) -> Sys, R: (Sys, Sys) -> bool, s: Sys, k: nat)
    requires forall t: Sys :: R(t, t)
    requires forall a: Sys, b: Sys, c: Sys :: R(a, b) && R(b, c) ==> R(a, c)
    requires forall t: Sys, i: nat :: R(t, body(t, i))
    ensures R(s, Loop(body, s, k))
  {
    if k > 0 {
      LoopRel(body, R, s, k - 1);
    }
  }

  /** A loop whose body only moves processes only moves processes. */
  lemma LoopMoves(body: (Sys, nat) -> Sys, s: Sys, k: nat)
    requires forall t: Sys, i: nat :: Moves(t, body(t, i))
    ensures Moves(s, Loop(body, s, k))
  {
    forall a: Sys, b: Sys, c: Sys | Moves(a, b) && Moves(b, c) ensures Moves(a, c) {
      MovesTrans(a, b, c);
    }
    forall t: Sys ensures Moves(t, t) {
      assert t.events <= t.events;
    }
    LoopRel(body, Moves, s, k);
  }

  /** A loop whose body never raises the work owed does not raise it. */
  lemma {:induction false} LoopWorkBound(body: (Sys, nat) -> Sys, s: Sys, k: nat)
    requires forall t: Sys, i: nat :: SysWork(body(t, i)) <= SysWork(t)
    ensures SysWork(Loop(body, s, k)) <= SysWork(s)
  {
    if k > 0 {
      LoopWorkBound(body, s, k - 1);
    }
  }

  /** A loop whose body at i touches only CPU i has not touched the CPUs from k on. */
  lemma {:induction false} LoopCpuFrame(body: (Sys, nat) -> Sys, s: Sys, k: nat, j: nat)
    requires forall t: Sys, i: nat :: |body(t, i).cpus| == |t.cpus|
    requires forall t: Sys, i: nat, j: nat :: j < |t.cpus| && j != i ==> body(t, i).cpus[j] == t.cpus[j]
    requires k <= j < |s.cpus|
    ensures |Loop(body, s, k).cpus| == |s.cpus| && Loop(body, s, k).cpus[j] == s.cpus[j]
  {
    if k > 0 {
      LoopCpuFrame(body, s, k - 1, j);
    }
  }

  /** A loop whose body at i touches only device i has not touched the devices from k on. */
  lemma {:induction false} LoopIoFrame(body: (Sys, nat) -> Sys, s: Sys, k: nat, j: nat)
    requires forall t: Sys, i: nat :: |body(t, i).ios| == |t.ios|
    requires forall t: Sys, i: nat, j: nat :: j < |t.ios| && j != i ==> body(t, i).ios[j] == t.ios[j]
    requires k <= j < |s.ios|
    ensures |Loop(body, s, k).ios| == |s.ios| && Loop(body, s, k).ios[j] == s.ios[j]
  {
    if k > 0 {
      LoopIoFrame(body, s, k - 1, j);
    }
  }

  /** A loop whose body keeps the number of CPUs keeps it. */
  lemma {:induction false} LoopCpuLength(body: (Sys, nat) -> Sys, s: Sys, k: nat)
    requires forall t: Sys, i: nat :: |body(t, i).cpus| == |t.cpus|
    ensures |Loop(body, s, k).cpus| == |s.cpus|
  {
    if k > 0 {
      LoopCpuLength(body, s, k - 1);
    }
  }

  /** Once a loop whose body at i touches only CPU i has passed CPU j, later iterations leave it alone. */
  lemma {:induction false} LoopCpuKeep(body: (Sys, nat) -> Sys, s: Sys, j: nat, k: nat)
    requires forall t: Sys, i: nat :: |body(t, i).cpus| == |t.cpus|
    requires forall t: Sys, i: nat, j: nat :: j < |t.cpus| && j != i ==> body(t, i).cpus[j] == t.cpus[j]
    requires j < k <= |s.cpus|
    ensures |Loop(body, s, k).cpus| == |s.cpus| && |Loop(body, s, j + 1).cpus| == |s.cpus|
    ensures Loop(body, s, k).cpus[j] == Loop(body, s, j + 1).cpus[j]
  {
    if k > j + 1 {
      LoopCpuKeep(body, s, j, k - 1);
    } else {
      LoopCpuLength(body, s, k);
    }
  }

  /** A loop whose body keeps the number of devices keeps it. */
  lemma {:induction false} LoopIoLength(body: (Sys, nat) -> Sys, s: Sys, k: nat)
    requires forall t: Sys, i: nat :: |body(t, i).ios| == |t.ios|
    ensures |Loop(body, s, k).ios| == |s.ios|
  {
    if k > 0 {
      LoopIoLength(body, s, k - 1);
    }
  }

  /** Once a loop whose body at i touches only device i has passed device j, later iterations leave it alone. */
  lemma {:induction false} LoopIoKeep(body: (Sys, nat) -> Sys, s: Sys, j: nat, k: nat)
    requires forall t: Sys, i: nat :: |body(t, i).ios| == |t.ios|
    requires forall t: Sys, i: nat, j: nat :: j < |t.ios| && j != i ==> body(t, i).ios[j] == t.ios[j]
    requires j < k <= |s.ios|
    ensures |Loop(body, s, k).ios| == |s.ios| && |Loop(body, s, j + 1).ios| == |s.ios|
    ensures Loop(body, s, k).ios[j] == Loop(body, s, j + 1).ios[j]
  {
    if k > j + 1 {
      LoopIoKeep(body, s, j, k - 1);
    } else {
      LoopIoLength(body, s, k);
    }
  }

  /** A loop whose body lowers the work owed whenever CPU i was busy lowers it if one of the first k CPUs was. */
  lemma {:induction false} LoopCpuWork(body: (Sys, nat) -> Sys, s: Sys, k: nat, j: nat)
    requires forall t: Sys, i: nat :: |body(t, i).cpus| == |t.cpus|
    requires forall t: Sys, i: nat, j: nat :: j < |t.cpus| && j != i ==> body(t, i).cpus[j] == t.cpus[j]
    requires forall t: Sys, i: nat :: SysWork(body(t, i)) <= SysWork(t)
    requires forall t: Sys, i: nat :: i < |t.cpus| && t.cpus[i].Some? ==> SysWork(body(t, i)) < SysWork(t)
    requires j < k <= |s.cpus| && s.cpus[j].Some?
    ensures SysWork(Loop(body, s, k)) < SysWork(s)
  {
    if j == k - 1 {
      LoopWorkBound(body, s, k - 1);
      LoopCpuFrame(body, s, k - 1, j);
    } else {
      LoopCpuWork(body, s, k - 1, j);
    }
  }

  /** A loop whose body lowers the work owed whenever device i was busy lowers it if one of the first k devices was. */
  lemma {:induction false} LoopIoWork(body: (Sys, nat) -> Sys, s: Sys, k: nat, j: nat)
    requires forall t: Sys, i: nat :: |body(t, i).ios| == |t.ios|
    requires forall t: Sys, i: nat, j: nat :: j < |t.ios| && j != i ==> body(t, i).ios[j] == t.ios[j]
    requires forall t: Sys, i: nat :: SysWork(body(t, i)) <= SysWork(t)
    requires forall t: Sys, i: nat :: i < |t.ios| && t.ios[i].Some? ==> SysWork(body(t, i)) < SysWork(t)
    requires j < k <= |s.ios| && s.ios[j].Some?
    ensures SysWork(Loop(body, s, k)) < SysWork(s)
  {
    if j == k - 1 {
      LoopWorkBound(body, s, k - 1);
      LoopIoFrame(body, s, k - 1, j);
    } else {
      LoopIoWork(body, s, k - 1, j);
    }
  }

  // ---------------------------------------------------------------------
  // The four loops of `step`

  lemma TickCpuFrame()
    ensures forall t: Sys, i: nat :: |TickCpu(t, i).cpus| == |t.cpus|
    ensures forall t: Sys, i: nat, j: nat :: j < |t.cpus| && j != i ==> TickCpu(t, i).cpus[j] == t.cpus[j]
  {
    forall t: Sys, i: nat, j: nat | j < |t.cpus| && j != i ensures TickCpu(t, i).cpus[j] == t.cpus[j] {
    }
  }

  lemma TickCpuFacts()
    ensures forall t: Sys, i: nat :: Moves(t, TickCpu(t, i))
    ensures forall t: Sys, i: nat :: SysWork(TickCpu(t, i)) <= SysWork(t)
    ensures forall t: Sys, i: nat :: i < |t.cpus| && t.cpus[i].Some? ==> SysWork(TickCpu(t, i)) < SysWork(t)
  {
    forall t: Sys, i: nat
      ensures Moves(t, TickCpu(t, i)) && SysWork(TickCpu(t, i)) <= SysWork(t)
      ensures i < |t.cpus| && t.cpus[i].Some? ==> SysWork(TickCpu(t, i)) < SysWork(t)
    {
      if i < |t.cpus| {
        TickCpuMoves(t, i);
      } else {
        assert t.events <= t.events;
      }
    }
  }

  lemma TickIoFrame()
    ensures forall t: Sys, i: nat :: |TickIo(t, i).ios| == |t.ios|
    ensures forall t: Sys, i: nat, j: nat :: j < |t.ios| && j != i ==> TickIo(t, i).ios[j] == t.ios[j]
  {
    forall t: Sys, i: nat, j: nat | j < |t.ios| && j != i ensures TickIo(t, i).ios[j] == t.ios[j] {
    }
  }

  lemma TickIoFacts()
    ensures forall t: Sys, i: nat :: Moves(t, TickIo(t, i))
    ensures forall t: Sys, i: nat :: SysWork(TickIo(t, i)) <= SysWork(t)
    ensures forall t: Sys, i: nat :: i < |t.ios| && t.ios[i].Some? ==> SysWork(TickIo(t, i)) < SysWork(t)
  {
    forall t: Sys, i: nat
      ensures Moves(t, TickIo(t, i)) && SysWork(TickIo(t, i)) <= SysWork(t)
      ensures i < |t.ios| && t.ios[i].Some? ==> SysWork(TickIo(t, i)) < SysWork(t)
    {
      if i < |t.ios| {
        TickIoMoves(t, i);
      } else {
        assert t.events <= t.events;
      }
    }
  }

  lemma DispatchFrame()
    ensures forall t: Sys, i: nat :: |DispatchToCpu(t, i).cpus| == |t.cpus|
    ensures forall t: Sys, i: nat, j: nat :: j < |t.cpus| && j != i ==> DispatchToCpu(t, i).cpus[j] == t.cpus[j]
    ensures forall t: Sys, i: nat :: |DispatchToIo(t, i).ios| == |t.ios|
    ensures forall t: Sys, i: nat, j: nat :: j < |t.ios| && j != i ==> DispatchToIo(t, i).ios[j] == t.ios[j]
  {
    forall t: Sys, i: nat, j: nat | j < |t.cpus| && j != i ensures DispatchToCpu(t, i).cpus[j] == t.cpus[j] {
    }
    forall t: Sys, i: nat, j: nat | j < |t.ios| && j != i ensures DispatchToIo(t, i).ios[j] == t.ios[j] {
    }
  }

  lemma DispatchFacts()
    ensures forall t: Sys, i: nat :: Moves(t, DispatchToCpu(t, i))
    ensures forall t: Sys, i: nat :: Moves(t, DispatchToIo(t, i))
  {
    forall t: Sys, i: nat ensures Moves(t, DispatchToCpu(t, i)) && Moves(t, DispatchToIo(t, i)) {
      if i < |t.cpus| {
        DispatchToCpuMoves(t, i);
      } else {
        assert t.events <= t.events;
      }
      if i < |t.ios| {
        DispatchToIoMoves(t, i);
      } else {
        assert t.events <= t.events;
      }
    }
  }

  /** Phase 2: ticking the CPUs only moves processes, and lowers the work owed if a CPU was busy. */
  lemma TickCpusMoves(s: Sys)
    ensures Moves(s, TickCpus(s))
    ensures (exists j :: 0 <= j < |s.cpus| && s.cpus[j].Some?) ==> SysWork(TickCpus(s)) < SysWork(s)
  {
    TickCpuFacts();
    TickCpuFrame();
    LoopMoves(TickCpu, s, |s.cpus|);
    if j :| 0 <= j < |s.cpus| && s.cpus[j].Some? {
      LoopCpuWork(TickCpu, s, |s.cpus|, j);
    }
  }

  /** Phase 3: ticking the devices only moves processes, and lowers the work owed if a device was busy. */
  lemma TickIosMoves(s: Sys)
    ensures Moves(s, TickIos(s))
    ensures (exists j :: 0 <= j < |s.ios| && s.ios[j].Some?) ==> SysWork(TickIos(s)) < SysWork(s)
  {
    TickIoFacts();
    TickIoFrame();
    LoopMoves(TickIo, s, |s.ios|);
    if j :| 0 <= j < |s.ios| && s.ios[j].Some? {
      LoopIoWork(TickIo, s, |s.ios|, j);
    }
  }

  /** Phases 4 and 5: dispatch only moves processes. */
  lemma DispatchMoves(s: Sys)
    ensures Moves(s, DispatchCpus(s)) && Moves(s, DispatchIos(s))
  {
    DispatchFacts();
    LoopMoves(DispatchToCpu, s, |s.cpus|);
    LoopMoves(DispatchToIo, s, |s.ios|);
  }

  /** What dispatching CPU i does to that CPU and to the ready queue. */
  lemma DispatchToCpuAt(t: Sys, i: nat)
    requires i < |t.cpus|
    ensures var r := DispatchToCpu(t, i);
            |r.cpus| == |t.cpus| && r.cpus == t.cpus[i := r.cpus[i]]
            && r.ready == (if t.cpus[i].None? && t.ready != [] then t.ready[1..] else t.ready)
            && r.cpus[i] == (if t.cpus[i].None? && t.ready != [] then Some(t.ready[0].(state := Running)) else t.cpus[i])
  {
  }

  /** What dispatching device i does to that device and to the wait queue. */
  lemma DispatchToIoAt(t: Sys, i: nat)
    requires i < |t.ios|
    ensures var r := DispatchToIo(t, i);
            |r.ios| == |t.ios| && r.ios == t.ios[i := r.ios[i]]
            && r.wait == (if t.ios[i].None? && t.wait != [] then t.wait[1..] else t.wait)
            && r.ios[i] == (if t.ios[i].None? && t.wait != [] then Some(t.wait[0]) else t.ios[i])
  {
  }

  /** The CPU dispatch loop keeps the number of CPUs. */
  lemma {:induction false} DispatchCpusLength(s: Sys, k: nat)
    ensures |Loop(DispatchToCpu, s, k).cpus| == |s.cpus|
  {
    if k > 0 {
      DispatchCpusLength(s, k - 1);
    }
  }

  /** The device dispatch loop keeps the number of devices. */
  lemma {:induction false} DispatchIosLength(s: Sys, k: nat)
    ensures |Loop(DispatchToIo, s, k).ios| == |s.ios|
  {
    if k > 0 {
      DispatchIosLength(s, k - 1);
    }
  }

  /** After dispatching the first k CPUs, each of them is busy or the ready queue is empty. */
  lemma {:induction false} DispatchCpusPrefixFills(s: Sys, k: nat)
    requires k <= |s.cpus|
    ensures var r := Loop(DispatchToCpu, s, k);
            |r.cpus| == |s.cpus| && forall j :: 0 <= j < k ==> r.cpus[j].Some? || r.ready == []
  {
    DispatchCpusLength(s, k);
    if k > 0 {
      DispatchCpusPrefixFills(s, k - 1);
      DispatchCpuFills(Loop(DispatchToCpu, s, k - 1), k - 1);
    }
  }

  /** Dispatching CPU i fills it unless the ready queue is empty, and touches no other CPU. */
  lemma DispatchCpuFills(t: Sys, i: nat)
    requires i < |t.cpus|
    ensures var r := DispatchToCpu(t, i);
            |r.cpus| == |t.cpus| && (r.cpus[i].Some? || r.ready == []) && (t.ready == [] ==> r.ready == [])
            && forall j :: 0 <= j < |t.cpus| && j != i ==> r.cpus[j] == t.cpus[j]
  {
    DispatchToCpuAt(t, i);
  }

  /** After dispatching the first k devices, each of them is busy or the wait queue is empty. */
  lemma {:induction false} DispatchIosPrefixFills(s: Sys, k: nat)
    requires k <= |s.ios|
    ensures var r := Loop(DispatchToIo, s, k);
            |r.ios| == |s.ios| && forall j :: 0 <= j < k ==> r.ios[j].Some? || r.wait == []
  {
    DispatchIosLength(s, k);
    if k > 0 {
      DispatchIosPrefixFills(s, k - 1);
      DispatchIoFills(Loop(DispatchToIo, s, k - 1), k - 1);
    }
  }

  /** Dispatching device i fills it unless the wait queue is empty, and touches no other device. */
  lemma DispatchIoFills(t: Sys, i: nat)
    requires i < |t.ios|
    ensures var r := DispatchToIo(t, i);
            |r.ios| == |t.ios| && (r.ios[i].Some? || r.wait == []) && (t.wait == [] ==> r.wait == [])
            && forall j :: 0 <= j < |t.ios| && j != i ==> r.ios[j] == t.ios[j]
  {
    DispatchToIoAt(t, i);
  }

  /** The number of idle resources in a list. */
  function IdleCount(slots: seq<Option<Proc>>): (n: nat)
    ensures n <= |slots|
  {
    if slots == [] then 0
    else IdleCount(slots[..|slots| - 1]) + (if slots[|slots| - 1].None? then 1 else 0)
  }

  function Min(a: nat, b: nat): nat
  {
    if a <= b then a else b
  }

  /** Dispatching the first k CPUs takes one process off the ready queue per idle CPU, while any remain. */
  lemma {:induction false} DispatchCpusTaken(s: Sys, k: nat)
    requires k <= |s.cpus|
    ensures Loop(DispatchToCpu, s, k).ready == s.ready[Min(IdleCount(s.cpus[..k]), |s.ready|)..]
  {
    if k > 0 {
      DispatchCpusTaken(s, k - 1);
      assert s.cpus[..k][..k - 1] == s.cpus[..k - 1];
      DispatchCpuUntouched(s, k - 1);
      TakenStep(Loop(DispatchToCpu, s, k - 1).ready, s.ready, IdleCount(s.cpus[..k - 1]),
                s.cpus[k - 1].None?, Loop(DispatchToCpu, s, k).ready);
    } else {
      assert s.ready[0..] == s.ready;
    }
  }

  /** The CPU dispatch loop has not yet touched CPU k after k iterations. */
  lemma DispatchCpuUntouched(s: Sys, k: nat)
    requires k < |s.cpus|
    ensures var prev := Loop(DispatchToCpu, s, k);
            k < |prev.cpus| && prev.cpus[k] == s.cpus[k]
            && Loop(DispatchToCpu, s, k + 1).ready
               == (if s.cpus[k].None? && prev.ready != [] then prev.ready[1..] else prev.ready)
  {
    DispatchFrame();
    LoopCpuFrame(DispatchToCpu, s, k, k);
    DispatchToCpuAt(Loop(DispatchToCpu, s, k), k);
  }

  /** The device dispatch loop has not yet touched device k after k iterations. */
  lemma DispatchIoUntouched(s: Sys, k: nat)
    requires k < |s.ios|
    ensures var prev := Loop(DispatchToIo, s, k);
            k < |prev.ios| && prev.ios[k] == s.ios[k]
            && Loop(DispatchToIo, s, k + 1).wait
               == (if s.ios[k].None? && prev.wait != [] then prev.wait[1..] else prev.wait)
  {
    DispatchFrame();
    LoopIoFrame(DispatchToIo, s, k, k);
    DispatchToIoAt(Loop(DispatchToIo, s, k), k);
  }

  /** One more idle resource takes one more process off the queue, if any is left. */
  lemma TakenStep(prev: seq<Proc>, q: seq<Proc>, n: nat, idle: bool, next: seq<Proc>)
    requires prev == q[Min(n, |q|)..]
    requires next == (if idle && prev != [] then prev[1..] else prev)
    ensures next == q[Min(n + (if idle then 1 else 0), |q|)..]
  {
    if idle && prev != [] {
      assert prev[1..] == q[n + 1..];
    }
  }

  /** Dispatching the first k devices takes one process off the wait queue per idle device, while any remain. */
  lemma {:induction false} DispatchIosTaken(s: Sys, k: nat)
    requires k <= |s.ios|
    ensures Loop(DispatchToIo, s, k).wait == s.wait[Min(IdleCount(s.ios[..k]), |s.wait|)..]
  {
    if k > 0 {
      DispatchIosTaken(s, k - 1);
      assert s.ios[..k][..k - 1] == s.ios[..k - 1];
      DispatchIoUntouched(s, k - 1);
      TakenStep(Loop(DispatchToIo, s, k - 1).wait, s.wait, IdleCount(s.ios[..k - 1]),
                s.ios[k - 1].None?, Loop(DispatchToIo, s, k).wait);
    } else {
      assert s.wait[0..] == s.wait;
    }
  }

  /** What CPU j holds once the CPU dispatch loop has passed it. */
  lemma DispatchCpuSlot(s: Sys, j: nat, k: nat)
    requires j < k <= |s.cpus|
    ensures |Loop(DispatchToCpu, s, k).cpus| == |s.cpus|
    ensures Loop(DispatchToCpu, s, k).cpus[j]
            == if s.cpus[j].None? && IdleCount(s.cpus[..j]) < |s.ready|
               then Some(s.ready[IdleCount(s.cpus[..j])].(state := Running))
               else s.cpus[j]
  {
    DispatchFrame();
    LoopCpuKeep(DispatchToCpu, s, j, k);
    var prev := Loop(DispatchToCpu, s, j);
    LoopCpuFrame(DispatchToCpu, s, j, j);
    DispatchCpusTaken(s, j);
    DispatchToCpuAt(prev, j);
    var n := IdleCount(s.cpus[..j]);
    if s.cpus[j].None? && n < |s.ready| {
      assert prev.ready[0] == s.ready[n];
    }
  }

  /** What device j holds once the device dispatch loop has passed it. */
  lemma DispatchIoSlot(s: Sys, j: nat, k: nat)
    requires j < k <= |s.ios|
    ensures |Loop(DispatchToIo, s, k).ios| == |s.ios|
    ensures Loop(DispatchToIo, s, k).ios[j]
            == if s.ios[j].None? && IdleCount(s.ios[..j]) < |s.wait|
               then Some(s.wait[IdleCount(s.ios[..j])])
               else s.ios[j]
  {
    DispatchFrame();
    LoopIoKeep(DispatchToIo, s, j, k);
    var prev := Loop(DispatchToIo, s, j);
    LoopIoFrame(DispatchToIo, s, j, j);
    DispatchIosTaken(s, j);
    DispatchToIoAt(prev, j);
    var n := IdleCount(s.ios[..j]);
    if s.ios[j].None? && n < |s.wait| {
      assert prev.wait[0] == s.wait[n];
    }
  }

  /**
   * CPU dispatch is first-come first-served in CPU order: the idle CPUs, in
   * list order, take the heads of the ready queue (marked running) for as
   * long as it lasts; busy CPUs keep their process; the ready queue loses
   * exactly the processes taken.
   */
  lemma DispatchCpusFifo(s: Sys)
    ensures var r := DispatchCpus(s);
            |r.cpus| == |s.cpus|
            && r.ready == s.ready[Min(IdleCount(s.cpus), |s.ready|)..]
            && forall j :: 0 <= j < |s.cpus| ==>
                 r.cpus[j] == if s.cpus[j].None? && IdleCount(s.cpus[..j]) < |s.ready|
                              then Some(s.ready[IdleCount(s.cpus[..j])].(state := Running))
                              else s.cpus[j]
  {
    DispatchCpusLength(s, |s.cpus|);
    DispatchCpusTaken(s, |s.cpus|);
    assert s.cpus[..|s.cpus|] == s.cpus;
    forall j | 0 <= j < |s.cpus|
      ensures DispatchCpus(s).cpus[j]
              == if s.cpus[j].None? && IdleCount(s.cpus[..j]) < |s.ready|
                 then Some(s.ready[IdleCount(s.cpus[..j])].(state := Running))
                 else s.cpus[j]
    {
      DispatchCpuSlot(s, j, |s.cpus|);
    }
  }

  /**
   * Device dispatch is first-come first-served in device order: the idle
   * devices, in list order, take the heads of the wait queue unchanged for as
   * long as it lasts; the wait queue loses exactly the processes taken.
   */
  lemma DispatchIosFifo(s: Sys)
    ensures var r := DispatchIos(s);
            |r.ios| == |s.ios|
            && r.wait == s.wait[Min(IdleCount(s.ios), |s.wait|)..]
            && forall j :: 0 <= j < |s.ios| ==>
                 r.ios[j] == if s.ios[j].None? && IdleCount(s.ios[..j]) < |s.wait|
                             then Some(s.wait[IdleCount(s.ios[..j])])
                             else s.ios[j]
  {
    DispatchIosLength(s, |s.ios|);
    DispatchIosTaken(s, |s.ios|);
    assert s.ios[..|s.ios|] == s.ios;
    forall j | 0 <= j < |s.ios|
      ensures DispatchIos(s).ios[j]
              == if s.ios[j].None? && IdleCount(s.ios[..j]) < |s.wait|
                 then Some(s.wait[IdleCount(s.ios[..j])])
                 else s.ios[j]
    {
      DispatchIoSlot(s, j, |s.ios|);
    }
  }
}
