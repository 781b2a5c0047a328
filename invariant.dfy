/** What stays true from one tick of the Round-Robin loop to the next, and the
    lemmas that each phase of a tick keeps it. */
module Invariant {
  import opened Schedule

  // ---------------------------------------------------------------------------
  // Sums

  /** Changing one row changes the outstanding work by the change in that row. */
  lemma {:induction false} OutstandingUpdate(t: seq<Proc>, i: nat, p: Proc, h: int)
    requires i < |t|
    ensures Outstanding(t[i := p], h) == Outstanding(t, h) - Owed(t[i], h) + Owed(p, h)
    decreases |t|
  {
    var u := t[i := p];
    assert u[..|u| - 1] == if i == |t| - 1 then t[..|t| - 1] else t[..|t| - 1][i := p];
    if i < |t| - 1 {
      OutstandingUpdate(t[..|t| - 1], i, p, h);
    }
  }

  /** Two tables that owe the same per row owe the same in all. */
  lemma {:induction false} OutstandingPointwise(t: seq<Proc>, h: int, u: seq<Proc>, g: int)
    requires |t| == |u|
    requires forall i :: 0 <= i < |t| ==> Owed(t[i], h) == Owed(u[i], g)
    ensures Outstanding(t, h) == Outstanding(u, g)
    decreases |t|
  {
    if t != [] {
      OutstandingPointwise(t[..|t| - 1], h, u[..|u| - 1], g);
    }
  }

  /** Work is outstanding only if some row owes some. */
  lemma {:induction false} OutstandingWitness(t: seq<Proc>, h: int) returns (i: nat)
    requires Outstanding(t, h) > 0
    ensures i < |t| && Owed(t[i], h) > 0
    decreases |t|
  {
    if Owed(t[|t| - 1], h) > 0 {
      i := |t| - 1;
    } else {
      i := OutstandingWitness(t[..|t| - 1], h);
    }
  }

  /** When no row owes a negative amount, nothing outstanding means no row owes anything. */
  lemma {:induction false} OutstandingZero(t: seq<Proc>, h: int)
    requires forall i :: 0 <= i < |t| ==> Owed(t[i], h) >= 0
    requires Outstanding(t, h) == 0
    ensures forall i :: 0 <= i < |t| ==> Owed(t[i], h) == 0
    decreases |t|
  {
    if t != [] {
      var front := t[..|t| - 1];
      OutstandingAtLeast(front, h);
      OutstandingZero(front, h);
    }
  }

  lemma {:induction false} OutstandingAtLeast(t: seq<Proc>, h: int)
    requires forall i :: 0 <= i < |t| ==> Owed(t[i], h) >= 0
    ensures Outstanding(t, h) >= 0
    decreases |t|
  {
    if t != [] {
      OutstandingAtLeast(t[..|t| - 1], h);
    }
  }

  /** Nothing owes more than its burst, so the work outstanding is at most the sum of
      the bursts; before anyone is admitted it is exactly that sum. */
  lemma {:induction false} OutstandingAtMost(t: seq<Proc>, h: int)
    requires forall i :: 0 <= i < |t| ==> Owed(t[i], h) <= t[i].burst
    ensures Outstanding(t, h) <= SumBurst(t)
    ensures h <= 0 ==> Outstanding(t, h) == SumBurst(t)
    decreases |t|
  {
    if t != [] {
      OutstandingAtMost(t[..|t| - 1], h);
    }
  }

  lemma {:induction false} SumBurstPointwise(t: seq<Proc>, u: seq<Proc>)
    requires |t| == |u|
    requires forall i :: 0 <= i < |t| ==> t[i].burst == u[i].burst
    ensures SumBurst(t) == SumBurst(u)
    decreases |t|
  {
    if t != [] {
      SumBurstPointwise(t[..|t| - 1], u[..|u| - 1]);
    }
  }

  lemma {:induction false} MaxArrivalPointwise(t: seq<Proc>, u: seq<Proc>)
    requires |t| == |u|
    requires forall i :: 0 <= i < |t| ==> t[i].arrival == u[i].arrival
    ensures MaxArrival(t) == MaxArrival(u)
    decreases |t|
  {
    if t != [] {
      MaxArrivalPointwise(t[..|t| - 1], u[..|u| - 1]);
    }
  }

  // ---------------------------------------------------------------------------
  // Queues without duplicates

  lemma NoDupTail(q: seq<nat>)
    requires NoDup(q) && |q| > 0
    ensures NoDup(q[1..])
    ensures forall x :: x in q[1..] <==> x in q && x != q[0]
  {
    forall x | x in q[1..] ensures x != q[0] {
      var k :| 1 <= k < |q| && q[k] == x;
    }
  }

  lemma NoDupAppend(q: seq<nat>, a: seq<nat>)
    requires NoDup(q) && NoDup(a)
    requires forall x :: x in a ==> x !in q
    ensures NoDup(q + a)
  {
    forall j, k | 0 <= j < k < |q + a| ensures (q + a)[j] != (q + a)[k] {
      if j < |q| && k >= |q| {
        assert (q + a)[k] in a;
      }
    }
  }

  // ---------------------------------------------------------------------------
  // Admission order

  /** `Arrivals` lists, in increasing table order, exactly the rows arriving at `time`. */
  lemma {:induction false} ArrivalsInTableOrder(t: seq<Proc>, time: nat, n: nat)
    requires n <= |t|
    ensures forall x: nat :: x in Arrivals(t, time, n) <==> x < n && t[x].arrival == time
    ensures forall j, k :: 0 <= j < k < |Arrivals(t, time, n)| ==>
              Arrivals(t, time, n)[j] < Arrivals(t, time, n)[k]
  {
    if n > 0 {
      ArrivalsInTableOrder(t, time, n - 1);
    }
  }

  // ---------------------------------------------------------------------------
  // The invariant

  /** What holds of row `i` once every process with arrival before `h` has been
      admitted (h is the time at the loop head, one more after admission). */
  ghost predicate RowOk(s: Sim, i: nat, h: int)
    requires i < |s.table|
  {
    var p := s.table[i];
    p.burst >= 1
    // a process not yet admitted is nowhere in the scheduler and never started
    && (p.arrival >= h ==>
          !p.started && i !in s.queue && s.current != Some(i) && i !in s.finished)
    // an admitted process has done burst - remaining ticks of work since arriving
    && (p.arrival < h ==>
          0 <= p.remaining <= p.burst
          && p.burst - p.remaining <= s.time - p.arrival
          && (p.remaining > 0 ==> i in s.queue || s.current == Some(i))
          && (i in s.finished <==> p.remaining == 0 && s.current != Some(i)))
    && (i in s.queue ==> p.remaining > 0)
    && (s.current == Some(i) ==> p.started)
    && (p.started ==> p.arrival <= p.startExec <= s.time)
    // finalised: both times are set, and the completion tick is not in the future
    && (i in s.finished ==>
          p.started
          && p.response == p.startExec - p.arrival
          && 0 <= p.waiting
          && p.waiting + p.arrival + p.burst <= s.time)
  }

  ghost predicate Inv(s: Sim, quantum: nat, h: int) {
    quantum >= 1
    && Indexed(s)
    && NoDup(s.queue)
    && NoDup(s.finished)
    && (s.current.Some? ==> s.current.value !in s.queue)
    && 0 <= s.qRemaining <= quantum
    && (s.current.None? ==> s.qRemaining == quantum)
    && s.totalBurst == Outstanding(s.table, h)
    && (forall i :: 0 <= i < |s.table| ==> RowOk(s, i, h))
  }

  /** An idle CPU means an empty ready queue: true at the loop head and after the
      dispatch and check phases. */
  ghost predicate IdleOnlyIfEmpty(s: Sim) {
    s.current.None? ==> s.queue == []
  }

  /** The invariant of the `while` loop at rr.c:178. The last conjunct bounds the
      clock: idle ticks only happen before the last arrival. */
  ghost predicate LoopInv(s: Sim, quantum: nat) {
    Inv(s, quantum, s.time)
    && IdleOnlyIfEmpty(s)
    && s.time <= MaxArrival(s.table) + (SumBurst(s.table) - s.totalBurst)
  }

  /** Owed is never negative under the invariant. */
  lemma OwedNonNegative(s: Sim, quantum: nat, h: int)
    requires Inv(s, quantum, h)
    ensures forall i :: 0 <= i < |s.table| ==> 0 <= Owed(s.table[i], h) <= s.table[i].burst
  {
    forall i | 0 <= i < |s.table|
      ensures 0 <= Owed(s.table[i], h) <= s.table[i].burst
    {
      assert RowOk(s, i, h);
    }
  }

  // ---------------------------------------------------------------------------
  // Each phase keeps the invariant

  lemma AdmitKeeps(s: Sim, quantum: nat)
    requires Inv(s, quantum, s.time)
    ensures Inv(Admit(s), quantum, s.time + 1)
  {
    var r := Admit(s);
    var h := s.time + 1;
    var a := Arrivals(s.table, s.time, |s.table|);
    ArrivalsInTableOrder(s.table, s.time, |s.table|);
    forall x | x in a ensures x !in s.queue {
      assert RowOk(s, x, s.time);
    }
    NoDupAppend(s.queue, a);
    if s.current.Some? {
      assert RowOk(s, s.current.value, s.time);
    }
    forall i | 0 <= i < |r.table| ensures RowOk(r, i, h) {
      assert RowOk(s, i, s.time);
      assert r.table[i] == AdmitRow(s.table[i], s.time);
    }
    OutstandingPointwise(s.table, s.time, r.table, s.time + 1);
  }

  /** Taking the head of the queue onto an idle CPU keeps the invariant. */
  lemma DequeueKeeps(s: Sim, quantum: nat)
    requires Inv(s, quantum, s.time + 1) && s.current.None? && |s.queue| > 0
    ensures Inv(Dequeue(s), quantum, s.time + 1)
    ensures Dequeue(s).table[s.queue[0]].remaining > 0
  {
    var r := Dequeue(s);
    var h := s.time + 1;
    var c := s.queue[0];
    NoDupTail(s.queue);
    assert RowOk(s, c, s.time + 1);
    forall i | 0 <= i < |r.table| ensures RowOk(r, i, h) {
      assert RowOk(s, i, s.time + 1);
    }
    OutstandingPointwise(s.table, s.time + 1, r.table, s.time + 1);
  }

  lemma DispatchKeeps(s: Sim, quantum: nat)
    requires Inv(s, quantum, s.time + 1)
    ensures Inv(Dispatch(s), quantum, s.time + 1)
    ensures IdleOnlyIfEmpty(Dispatch(s))
    ensures s.current.None? && Dispatch(s).current.Some? ==>
              Dispatch(s).table[Dispatch(s).current.value].remaining > 0
              && Dispatch(s).qRemaining == quantum
  {
    if s.current.None? && |s.queue| > 0 {
      DequeueKeeps(s, quantum);
    }
  }

  /** Requeueing or finalising the current process keeps the invariant. */
  lemma VacateKeeps(s: Sim, quantum: nat)
    requires Inv(s, quantum, s.time + 1)
    ensures Inv(Vacate(s, quantum), quantum, s.time + 1)
    ensures Vacate(s, quantum).current.None?
  {
    var r := Vacate(s, quantum);
    var h := s.time + 1;
    match s.current
    case None =>
    case Some(c) =>
      assert RowOk(s, c, s.time + 1);
      if s.table[c].remaining != 0 {
        NoDupAppend(s.queue, [c]);
        forall i | 0 <= i < |r.table| ensures RowOk(r, i, h) {
          assert RowOk(s, i, s.time + 1);
        }
      } else {
        NoDupAppend(s.finished, [c]);
        forall i | 0 <= i < |r.table| ensures RowOk(r, i, h) {
          assert RowOk(s, i, s.time + 1);
        }
        OutstandingUpdate(s.table, c, Finalize(s.table[c], s.time), s.time + 1);
      }
  }

  lemma CheckKeeps(s: Sim, quantum: nat)
    requires Inv(s, quantum, s.time + 1) && IdleOnlyIfEmpty(s)
    ensures Inv(Check(s, quantum), quantum, s.time + 1)
    ensures IdleOnlyIfEmpty(Check(s, quantum))
    ensures Check(s, quantum).current.Some? ==>
              Check(s, quantum).table[Check(s, quantum).current.value].remaining > 0
              && Check(s, quantum).qRemaining >= 1
  {
    if s.qRemaining == 0 || (s.current.Some? && s.table[s.current.value].remaining == 0) {
      VacateKeeps(s, quantum);
      DispatchKeeps(Vacate(s, quantum), quantum);
    } else if s.current.Some? {
      assert RowOk(s, s.current.value, s.time + 1);
    }
  }

  lemma AdvanceKeeps(s: Sim, quantum: nat)
    requires Inv(s, quantum, s.time + 1) && IdleOnlyIfEmpty(s)
    requires s.current.Some? ==> s.table[s.current.value].remaining > 0 && s.qRemaining >= 1
    ensures Inv(Advance(s), quantum, s.time + 1)
    ensures IdleOnlyIfEmpty(Advance(s))
  {
    var r := Advance(s);
    var h := s.time + 1;
    match s.current
    case None =>
      forall i | 0 <= i < |r.table| ensures RowOk(r, i, h) {
        assert RowOk(s, i, s.time + 1);
      }
    case Some(c) =>
      assert RowOk(s, c, s.time + 1);
      forall i | 0 <= i < |r.table| ensures RowOk(r, i, h) {
        assert RowOk(s, i, s.time + 1);
      }
      OutstandingUpdate(s.table, c, r.table[c], s.time + 1);
  }

  // ---------------------------------------------------------------------------
  // A whole tick

  /** Two tables that agree on the input columns (pid, arrival, burst). */
  ghost predicate SameInput(t: seq<Proc>, u: seq<Proc>) {
    |t| == |u|
    && forall i :: 0 <= i < |t| ==>
         t[i].pid == u[i].pid && t[i].arrival == u[i].arrival && t[i].burst == u[i].burst
  }

  lemma AdmitKeepsInput(s: Sim)
    requires Indexed(s)
    ensures SameInput(s.table, Admit(s).table)
  {
  }

  lemma DispatchKeepsInput(s: Sim)
    requires Indexed(s)
    ensures SameInput(s.table, Dispatch(s).table)
  {
  }

  lemma CheckKeepsInput(s: Sim, quantum: nat)
    requires Indexed(s)
    ensures SameInput(s.table, Check(s, quantum).table)
  {
    assert SameInput(s.table, Vacate(s, quantum).table);
    DispatchKeepsInput(Vacate(s, quantum));
  }

  lemma AdvanceKeepsInput(s: Sim)
    requires Indexed(s)
    ensures SameInput(s.table, Advance(s).table)
  {
  }

  /** The first three phases never rewrite a row's pid, arrival or burst. */
  lemma ChecksOutKeepsInput(s: Sim, quantum: nat)
    requires Indexed(s)
    ensures SameInput(s.table, Check(Dispatch(Admit(s)), quantum).table)
  {
    AdmitKeepsInput(s);
    DispatchKeepsInput(Admit(s));
    CheckKeepsInput(Dispatch(Admit(s)), quantum);
  }

  /** The simulator never rewrites a row's pid, arrival or burst. */
  lemma StepKeepsInput(s: Sim, quantum: nat)
    requires Indexed(s)
    ensures SameInput(s.table, Step(s, quantum).table)
  {
    ChecksOutKeepsInput(s, quantum);
    AdvanceKeepsInput(Check(Dispatch(Admit(s)), quantum));
  }

  /** When the CPU stays idle after the check although work is outstanding, some
      process has not arrived yet. */
  lemma IdleMeansFutureArrival(s: Sim, quantum: nat) returns (i: nat)
    requires Inv(s, quantum, s.time + 1) && IdleOnlyIfEmpty(s)
    requires s.current.None? && s.totalBurst > 0
    ensures i < |s.table| && s.table[i].arrival > s.time
  {
    i := OutstandingWitness(s.table, s.time + 1);
    assert RowOk(s, i, s.time + 1);
  }

  /** The state after the first three phases of a pass satisfies the invariant, and
      a process on the CPU then has work left and quantum left. */
  lemma ChecksOut(s: Sim, quantum: nat)
    requires Inv(s, quantum, s.time) && IdleOnlyIfEmpty(s)
    ensures Inv(Check(Dispatch(Admit(s)), quantum), quantum, s.time + 1)
    ensures IdleOnlyIfEmpty(Check(Dispatch(Admit(s)), quantum))
    ensures var s3 := Check(Dispatch(Admit(s)), quantum);
            s3.current.Some? ==> s3.table[s3.current.value].remaining > 0 && s3.qRemaining >= 1
    ensures Check(Dispatch(Admit(s)), quantum).time == s.time
    ensures Check(Dispatch(Admit(s)), quantum).totalBurst == s.totalBurst
  {
    AdmitKeeps(s, quantum);
    DispatchKeeps(Admit(s), quantum);
    CheckKeeps(Dispatch(Admit(s)), quantum);
  }

  /** One pass of the loop keeps the invariant with the new clock as horizon. */
  lemma StepKeepsInv(s: Sim, quantum: nat)
    requires Inv(s, quantum, s.time) && IdleOnlyIfEmpty(s)
    ensures Inv(Step(s, quantum), quantum, Step(s, quantum).time)
    ensures IdleOnlyIfEmpty(Step(s, quantum))
  {
    ChecksOut(s, quantum);
    AdvanceKeeps(Check(Dispatch(Admit(s)), quantum), quantum);
  }

  /** If the CPU is still idle after the check while work is outstanding, the tick
      comes before the last arrival. */
  lemma IdleTickBeforeLastArrival(t: seq<Proc>, s3: Sim, quantum: nat)
    requires Inv(s3, quantum, s3.time + 1) && IdleOnlyIfEmpty(s3)
    requires s3.current.None? && s3.totalBurst > 0
    requires SameInput(t, s3.table)
    ensures s3.time + 1 <= MaxArrival(t)
  {
    var i := IdleMeansFutureArrival(s3, quantum);
    assert t[i].arrival == s3.table[i].arrival;
  }

  /** One pass either does a tick of work (the outstanding burst drops by one) or is
      an idle tick that ends no later than the last arrival. */
  lemma StepProgress(s: Sim, quantum: nat)
    requires Inv(s, quantum, s.time) && IdleOnlyIfEmpty(s) && s.totalBurst > 0
    ensures Step(s, quantum).time == s.time + 1
    ensures Step(s, quantum).totalBurst == s.totalBurst - 1
            || (Step(s, quantum).totalBurst == s.totalBurst
                && Step(s, quantum).time <= MaxArrival(s.table))
  {
    var s3 := Check(Dispatch(Admit(s)), quantum);
    ChecksOut(s, quantum);
    if s3.current.None? {
      ChecksOutKeepsInput(s, quantum);
      IdleTickBeforeLastArrival(s.table, s3, quantum);
    }
  }

  /** One pass of the loop keeps the loop invariant and makes progress, so the loop at
      rr.c:178 terminates: the pair (outstanding burst, last arrival - clock)
      decreases lexicographically. */
  lemma StepKeeps(s: Sim, quantum: nat)
    requires LoopInv(s, quantum) && s.totalBurst > 0
    ensures LoopInv(Step(s, quantum), quantum)
    ensures SameInput(s.table, Step(s, quantum).table)
    ensures Step(s, quantum).totalBurst == s.totalBurst - 1
            || (Step(s, quantum).totalBurst == s.totalBurst
                && s.time < Step(s, quantum).time <= MaxArrival(s.table))
  {
    var r := Step(s, quantum);
    StepKeepsInv(s, quantum);
    StepProgress(s, quantum);
    StepKeepsInput(s, quantum);
    SumBurstPointwise(s.table, r.table);
    MaxArrivalPointwise(s.table, r.table);
    OwedNonNegative(s, quantum, s.time);
    OutstandingAtMost(s.table, s.time);
  }

  /** The state of the loop before its first pass (rr.c:168-176), given a table
      whose `started` flags have been cleared. */
  function Start(t: seq<Proc>, quantum: nat): Sim {
    Sim(t, [], None, quantum, 0, SumBurst(t), [])
  }

  /** With quantum at least 1 and every burst at least 1, the loop invariant holds on
      entry. */
  lemma StartEstablishes(t: seq<Proc>, quantum: nat)
    requires quantum >= 1
    requires forall i :: 0 <= i < |t| ==> t[i].burst >= 1 && !t[i].started
    ensures LoopInv(Start(t, quantum), quantum)
  {
    var s := Start(t, quantum);
    forall i | 0 <= i < |t| ensures Owed(t[i], 0) <= t[i].burst {
    }
    OutstandingAtMost(t, 0);
  }

  /** The table at the end of a run: every process finalised exactly once (the
      completion order `finished` is a permutation of the indices), each with
      non-negative waiting and response times computed by the source's formulas. */
  ghost predicate Completed(s: Sim) {
    Indexed(s)
    && NoDup(s.finished)
    && (forall i :: 0 <= i < |s.table| ==> i in s.finished)
    && forall i :: 0 <= i < |s.table| ==>
         var p := s.table[i];
         p.started
         && p.remaining == 0
         && p.arrival <= p.startExec
         && p.response == p.startExec - p.arrival >= 0
         && p.waiting >= 0
         && p.waiting + p.arrival + p.burst <= s.time
  }

  /** When the loop stops (no burst left), finalising the process still on the CPU
      completes the table; the clock has not run past the sum of all bursts plus
      the last arrival. */
  lemma FinishCompletes(s: Sim, quantum: nat)
    requires LoopInv(s, quantum) && s.totalBurst == 0
    ensures Completed(FinishLast(s))
    ensures FinishLast(s).time <= MaxArrival(s.table) + SumBurst(s.table)
  {
    var r := FinishLast(s);
    OwedNonNegative(s, quantum, s.time);
    OutstandingZero(s.table, s.time);
    forall i | 0 <= i < |s.table| ensures s.table[i].arrival < s.time && s.table[i].remaining == 0 {
      assert RowOk(s, i, s.time);
      assert Owed(s.table[i], s.time) == 0;
    }
    if s.current.Some? {
      var c := s.current.value;
      assert RowOk(s, c, s.time);
      NoDupAppend(s.finished, [c]);
    }
    forall i | 0 <= i < |r.table| ensures i in r.finished {
      assert RowOk(s, i, s.time);
    }
    forall i | 0 <= i < |r.table|
      ensures r.table[i].started && r.table[i].remaining == 0
      ensures r.table[i].arrival <= r.table[i].startExec
      ensures r.table[i].response == r.table[i].startExec - r.table[i].arrival >= 0
      ensures r.table[i].waiting >= 0 && r.table[i].waiting + r.table[i].arrival + r.table[i].burst <= r.time
    {
      assert RowOk(s, i, s.time);
    }
  }

  // ---------------------------------------------------------------------------
  // A whole run

  /** The state the `while` loop at rr.c:178-232 stops in when started from `s`:
      passes are repeated until no burst is left. */
  ghost function RunFrom(s: Sim, quantum: nat): (r: Sim)
    requires LoopInv(s, quantum)
    ensures LoopInv(r, quantum) && r.totalBurst == 0
    ensures SameInput(s.table, r.table)
    decreases s.totalBurst, MaxArrival(s.table) - s.time
  {
    if s.totalBurst == 0 then s
    else
      OwedNonNegative(s, quantum, s.time);
      OutstandingAtLeast(s.table, s.time);
      StepKeeps(s, quantum);
      MaxArrivalPointwise(s.table, Step(s, quantum).table);
      RunFrom(Step(s, quantum), quantum)
  }

  /** The table with every `started` flag cleared (rr.c:171). */
  function Cleared(t: seq<Proc>): seq<Proc> {
    seq(|t|, i requires 0 <= i < |t| => t[i].(started := false))
  }

  lemma ClearedKeepsInput(t: seq<Proc>)
    ensures SameInput(t, Cleared(t))
    ensures forall i :: 0 <= i < |t| ==> !Cleared(t)[i].started
  {
  }

  lemma FinishLastKeepsInput(s: Sim)
    requires Indexed(s)
    ensures SameInput(s.table, FinishLast(s).table)
  {
  }

  /** What rr.c:168-237 leaves behind for the table `t`: clear the flags, run the
      loop from the start state, finalise the process still on the CPU. */
  ghost function Simulation(t: seq<Proc>, quantum: nat): Sim
    requires quantum >= 1
    requires forall i :: 0 <= i < |t| ==> t[i].burst >= 1
  {
    StartEstablishes(Cleared(t), quantum);
    FinishLast(RunFrom(Start(Cleared(t), quantum), quantum))
  }

  /** A whole run finalises every process exactly once with non-negative times,
      never rewrites the input columns, and stops by the last arrival plus the sum
      of the bursts. */
  lemma SimulationCompletes(t: seq<Proc>, quantum: nat)
    requires quantum >= 1
    requires forall i :: 0 <= i < |t| ==> t[i].burst >= 1
    ensures Completed(Simulation(t, quantum))
    ensures SameInput(t, Simulation(t, quantum).table)
    ensures Simulation(t, quantum).time <= MaxArrival(t) + SumBurst(t)
    ensures MaxArrival(Simulation(t, quantum).table) == MaxArrival(t)
    ensures SumBurst(Simulation(t, quantum).table) == SumBurst(t)
  {
    var c := Cleared(t);
    StartEstablishes(c, quantum);
    var s := RunFrom(Start(c, quantum), quantum);
    FinishCompletes(s, quantum);
    ClearedKeepsInput(t);
    FinishLastKeepsInput(s);
    SumBurstPointwise(t, s.table);
    MaxArrivalPointwise(t, s.table);
    SumBurstPointwise(t, FinishLast(s).table);
    MaxArrivalPointwise(t, FinishLast(s).table);
  }
}
