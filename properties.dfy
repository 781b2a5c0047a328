/** What one pass of the Round-Robin loop does to the ready queue and the process
    table: admission order, rotation on quantum expiry, completion before
    preemption, and the once-only recording of the first dispatch. */
module Properties {
  import opened Schedule
  import opened Invariant

  /** Admission (rr.c:179-186) appends, in table order, exactly the processes that
      arrive at the current tick, and gives each its whole burst as remaining work;
      nothing else in the table changes. */
  lemma AdmissionOrder(s: Sim)
    requires Indexed(s)
    ensures var r := Admit(s);
      |r.queue| >= |s.queue| && r.queue[..|s.queue|] == s.queue
      && (forall x: nat :: x in r.queue[|s.queue|..] <==> x < |s.table| && s.table[x].arrival == s.time)
      && (forall j, k :: |s.queue| <= j < k < |r.queue| ==> r.queue[j] < r.queue[k])
      && |r.table| == |s.table|
      && (forall i :: 0 <= i < |s.table| ==>
            r.table[i] == if s.table[i].arrival == s.time
                          then s.table[i].(remaining := s.table[i].burst)
                          else s.table[i])
  {
    var a := Arrivals(s.table, s.time, |s.table|);
    ArrivalsInTableOrder(s.table, s.time, |s.table|);
    assert Admit(s).queue[|s.queue|..] == a;
  }

  /** A process that used up its quantum with work left goes to the tail of the
      queue, behind the processes that arrived in the same tick (admission runs
      before the check), and the head of the queue takes the CPU with a fresh
      quantum, of which it uses one tick. */
  lemma PreemptedGoesBehindArrivals(s: Sim, quantum: nat)
    requires LoopInv(s, quantum) && s.current.Some?
    requires s.table[s.current.value].remaining > 0 && s.qRemaining == 0
    ensures var r := Step(s, quantum);
      r.current.Some?
      && [r.current.value] + r.queue == s.queue + Arrivals(s.table, s.time, |s.table|) + [s.current.value]
      && r.qRemaining == quantum - 1
  {
    var c := s.current.value;
    assert RowOk(s, c, s.time);
    var s1 := Admit(s);
    assert s1.table[c] == s.table[c];
    var v := Vacate(s1, quantum);
    assert v.queue == s.queue + Arrivals(s.table, s.time, |s.table|) + [c];
  }

  /** A process whose work ran out in the last tick is finalised and leaves the CPU
      for good, even when its quantum ran out in the same tick: it is not requeued.
      Its waiting time is the completion tick minus arrival and burst, and is not
      negative; its response time is its first dispatch minus its arrival. */
  lemma CompletionBeatsPreemption(s: Sim, quantum: nat)
    requires LoopInv(s, quantum) && s.current.Some?
    requires s.table[s.current.value].remaining == 0
    ensures var c := s.current.value;
      var r := Step(s, quantum);
      var p := s.table[c];
      r.finished == s.finished + [c]
      && c !in r.queue
      && r.current != Some(c)
      && r.table[c].waiting == s.time - p.arrival - p.burst >= 0
      && r.table[c].response == p.startExec - p.arrival >= 0
  {
    var c := s.current.value;
    assert RowOk(s, c, s.time);
    var s1 := Admit(s);
    ArrivalsInTableOrder(s.table, s.time, |s.table|);
    assert s1.table[c] == s.table[c];
    assert c !in s1.queue;
    var v := Vacate(s1, quantum);
    assert v.finished == s.finished + [c];
    assert c !in v.queue;
    assert |v.queue| > 0 ==> c !in v.queue[1..] && c != v.queue[0];
  }

  /** A process with work left and quantum left keeps the CPU for the next tick and
      spends one tick of each; the ready queue only grows by the arrivals. */
  lemma QuantumTick(s: Sim, quantum: nat)
    requires LoopInv(s, quantum) && s.current.Some?
    requires s.table[s.current.value].remaining > 0 && s.qRemaining > 0
    ensures var c := s.current.value;
      var r := Step(s, quantum);
      r.current == Some(c)
      && r.qRemaining == s.qRemaining - 1
      && r.table[c].remaining == s.table[c].remaining - 1
      && r.totalBurst == s.totalBurst - 1
      && r.queue == s.queue + Arrivals(s.table, s.time, |s.table|)
  {
    var c := s.current.value;
    assert RowOk(s, c, s.time);
    assert Admit(s).table[c] == s.table[c];
  }

  /** The two tables agree on `started` and `startExec` row by row. */
  ghost predicate SameStarts(t: seq<Proc>, u: seq<Proc>) {
    |u| == |t|
    && forall i :: 0 <= i < |t| ==> u[i].started == t[i].started && u[i].startExec == t[i].startExec
  }

  /** `u` keeps every start recorded in `t`, and a row that starts between the two
      started at `time` and is the one on the CPU, `cur`. */
  ghost predicate StartsFrom(t: seq<Proc>, u: seq<Proc>, time: nat, cur: Option<nat>) {
    |u| == |t|
    && forall i :: 0 <= i < |t| ==>
         (t[i].started ==> u[i].started && u[i].startExec == t[i].startExec)
         && (!t[i].started && u[i].started ==> u[i].startExec == time && cur == Some(i))
  }

  lemma StartsAfterSame(t: seq<Proc>, u: seq<Proc>, w: seq<Proc>, time: nat, cur: Option<nat>)
    requires SameStarts(t, u) && StartsFrom(u, w, time, cur)
    ensures StartsFrom(t, w, time, cur)
  {
  }

  /** Taking the head of the queue puts it on the CPU marked started; its start is
      recorded now if this is its first dispatch, and no other start changes. */
  lemma DequeueStarts(s: Sim)
    requires Indexed(s) && |s.queue| > 0
    ensures Dequeue(s).current == Some(s.queue[0])
    ensures Dequeue(s).table[s.queue[0]].started
    ensures !s.table[s.queue[0]].started ==> Dequeue(s).table[s.queue[0]].startExec == s.time
    ensures StartsFrom(s.table, Dequeue(s).table, s.time, Dequeue(s).current)
  {
  }

  /** The dispatch and check phases take at most one process onto the CPU: a process
      just dispatched onto an idle CPU has work and quantum left, so the check
      leaves it there. */
  lemma DispatchCheckStarts(s: Sim, quantum: nat)
    requires Inv(s, quantum, s.time + 1)
    ensures var r := Check(Dispatch(s), quantum);
      StartsFrom(s.table, r.table, s.time, r.current)
  {
    DispatchKeeps(s, quantum);
    if s.current.None? && |s.queue| > 0 {
      DequeueStarts(s);
    } else if s.qRemaining == 0 || (s.current.Some? && s.table[s.current.value].remaining == 0) {
      var v := Vacate(s, quantum);
      assert SameStarts(s.table, v.table);
      if |v.queue| > 0 {
        DequeueStarts(v);
        StartsAfterSame(s.table, v.table, Dequeue(v).table, s.time, Dequeue(v).current);
      }
    }
  }

  /** `start_exec_time` is written once: a started process keeps its start time, and
      a process that starts during a pass is the one on the CPU at the end of it,
      started at the tick the pass began with. */
  lemma StartRecordedOnce(s: Sim, quantum: nat)
    requires LoopInv(s, quantum)
    ensures var r := Step(s, quantum);
      |r.table| == |s.table|
      && forall i :: 0 <= i < |s.table| ==>
           (s.table[i].started ==> r.table[i].started && r.table[i].startExec == s.table[i].startExec)
           && (!s.table[i].started && r.table[i].started ==>
                 r.table[i].startExec == s.time && r.current == Some(i))
  {
    var s1 := Admit(s);
    var s3 := Check(Dispatch(s1), quantum);
    AdmitKeeps(s, quantum);
    assert SameStarts(s.table, s1.table);
    DispatchCheckStarts(s1, quantum);
    StartsAfterSame(s.table, s1.table, s3.table, s.time, s3.current);
    assert SameStarts(s3.table, Advance(s3).table);
  }
}
