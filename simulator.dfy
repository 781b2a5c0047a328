/** The scheduling section of `main` (rr.c:161-247) as imperative code: the process
    table is an array whose rows are rewritten in place, and the loop variables are
    fields of a `Scheduler`. Each method is proved to compute the function of the
    same name in module Schedule, so everything proved there holds of this code. */
module Simulator {
  import opened U32
  import opened Schedule
  import opened Invariant

  class Scheduler {
    /** The process table, owned by the caller and updated in place. */
    const procs: array<Proc>
    const quantum: nat
    /** The ready queue (rr.c:161-162), head first. */
    var queue: seq<nat>
    var current: Option<nat>
    var qRemaining: int
    var time: nat
    var totalBurst: int
    /** Completion order; kept only to state the model's results. */
    ghost var finished: seq<nat>

    /** The abstract state the methods are specified against. */
    ghost function State(): Sim
      reads this, procs
    {
      Sim(procs[..], queue, current, qRemaining, time, totalBurst, finished)
    }

    /** rr.c:161-165: an empty queue over the given table. */
    constructor (procs: array<Proc>, quantum: nat)
      ensures this.procs == procs && this.quantum == quantum
      ensures queue == [] && current == None && finished == []
    {
      this.procs := procs;
      this.quantum := quantum;
      queue := [];
      current := None;
      qRemaining := quantum;
      time := 0;
      totalBurst := 0;
      finished := [];
    }

    /** Phase 1 (rr.c:179-186): scan the table in order, queue each process that
        arrives now and give it its whole burst as remaining time. */
    method Admit()
      requires Indexed(State())
      modifies this`queue, procs
      ensures State() == Schedule.Admit(old(State()))
    {
      ghost var t := procs[..];
      var i := 0;
      while i < procs.Length
        invariant 0 <= i <= procs.Length
        invariant queue == old(queue) + Arrivals(t, time, i)
        invariant forall j :: 0 <= j < i ==> procs[j] == AdmitRow(t[j], time)
        invariant forall j :: i <= j < procs.Length ==> procs[j] == t[j]
      {
        if procs[i].arrival == time {
          queue := queue + [i];
          procs[i] := procs[i].(remaining := procs[i].burst);
        }
        i := i + 1;
      }
      assert procs[..] == AdmitTable(t, time);
    }

    /** Take the head of the queue onto the CPU; the first dispatch of a process
        records its start (rr.c:189-195, 210-216). */
    method TakeHead()
      requires Indexed(State()) && |queue| > 0
      modifies this`queue, this`current, procs
      ensures State() == Schedule.Dequeue(old(State()))
    {
      var head := queue[0];
      queue := queue[1..];
      current := Some(head);
      if !procs[head].started {
        procs[head] := procs[head].(started := true, startExec := time);
      }
    }

    /** Phase 2 (rr.c:188-196). */
    method Dispatch()
      requires Indexed(State())
      modifies this`queue, this`current, procs
      ensures State() == Schedule.Dispatch(old(State()))
    {
      if current.None? && |queue| > 0 {
        TakeHead();
      }
    }

    /** Phase 3 (rr.c:198-223). */
    method Check()
      requires Indexed(State())
      modifies this`queue, this`current, this`qRemaining, this`finished, procs
      ensures State() == Schedule.Check(old(State()), quantum)
    {
      if qRemaining == 0 || (current.Some? && procs[current.value].remaining == 0) {
        if current.Some? && procs[current.value].remaining != 0 {
          queue := queue + [current.value];
        } else if current.Some? {
          Retire();
        }
        current := None;
        qRemaining := quantum;
        if |queue| > 0 {
          TakeHead();
        }
      }
    }

    /** Finalise the process on the CPU (rr.c:205-206, 235-236). */
    method Retire()
      requires Indexed(State()) && current.Some?
      modifies this`finished, procs
      ensures State() == Schedule.Retire(old(State()))
    {
      var c := current.value;
      procs[c] := procs[c].(waiting := time - procs[c].arrival - procs[c].burst,
                            response := procs[c].startExec - procs[c].arrival);
      finished := finished + [c];
    }

    /** Phase 4 (rr.c:225-230). */
    method Advance()
      requires Indexed(State())
      modifies this`time, this`totalBurst, this`qRemaining, procs
      ensures State() == Schedule.Advance(old(State()))
    {
      time := time + 1;
      if current.Some? {
        var c := current.value;
        procs[c] := procs[c].(remaining := procs[c].remaining - 1);
        totalBurst := totalBurst - 1;
        qRemaining := qRemaining - 1;
      }
    }

    /** One pass of the loop body (rr.c:179-230). */
    method Step()
      requires Indexed(State())
      modifies this, procs
      ensures State() == Schedule.Step(old(State()), quantum)
    {
      Admit();
      Dispatch();
      Check();
      Advance();
    }

    /** rr.c:168-176: sum the bursts, clear every `started` flag, start the clock
        at 0 with the full quantum; the loop invariant then holds. */
    method Reset()
      requires queue == [] && current == None && finished == []
      requires quantum >= 1
      requires forall i :: 0 <= i < procs.Length ==> procs[i].burst >= 1
      modifies this, procs
      ensures procs[..] == Cleared(old(procs[..]))
      ensures State() == Start(procs[..], quantum)
      ensures SameInput(old(procs[..]), procs[..])
      ensures forall i :: 0 <= i < procs.Length ==> !procs[i].started
      ensures LoopInv(State(), quantum)
    {
      ghost var input := procs[..];
      totalBurst := 0;
      var i := 0;
      while i < procs.Length
        invariant 0 <= i <= procs.Length
        invariant totalBurst == SumBurst(procs[..i])
        invariant forall j :: 0 <= j < i ==> procs[j] == input[j].(started := false)
        invariant forall j :: i <= j < procs.Length ==> procs[j] == input[j]
        invariant queue == [] && finished == []
      {
        assert procs[..i + 1][..i] == procs[..i];
        totalBurst := totalBurst + procs[i].burst;
        procs[i] := procs[i].(started := false);
        i := i + 1;
      }
      assert procs[..i] == procs[..];
      assert procs[..] == Cleared(input);
      time := 0;
      current := None;
      qRemaining := quantum;
      StartEstablishes(procs[..], quantum);
    }

    /** The `while` loop of rr.c:178-232: step until no burst is left, reaching the
        state `RunFrom` assigns to the loop head. */
    method Loop()
      requires LoopInv(State(), quantum)
      modifies this, procs
      ensures State() == RunFrom(old(State()), quantum)
      ensures LoopInv(State(), quantum) && totalBurst == 0
      ensures SameInput(old(procs[..]), procs[..])
    {
      ghost var start := State();
      while totalBurst != 0
        invariant LoopInv(State(), quantum)
        invariant RunFrom(State(), quantum) == RunFrom(start, quantum)
        invariant SameInput(start.table, procs[..])
        decreases totalBurst, MaxArrival(procs[..]) - time
      {
        OwedNonNegative(State(), quantum, time);
        OutstandingAtLeast(procs[..], time);
        StepKeeps(State(), quantum);
        ghost var before := State();
        Step();
        MaxArrivalPointwise(before.table, procs[..]);
        assert RunFrom(before, quantum) == RunFrom(State(), quantum);
      }
    }

    /** rr.c:234-237: after the loop, finalise the process still on the CPU. */
    method Finish()
      requires Indexed(State())
      modifies this`finished, procs
      ensures State() == FinishLast(old(State()))
    {
      if current.Some? {
        Retire();
      }
    }

    /** rr.c:168-237: initialise, run the loop, then finalise the process still on
        the CPU, reaching the state `Simulation` assigns to the input table. So every
        process has been finalised exactly once, with non-negative waiting and
        response times, and the clock is within the sum of the bursts plus the last
        arrival. The clock and the counters stay below 2^32 when that bound does. */
    method Run()
      requires queue == [] && current == None && finished == []
      requires quantum >= 1
      requires forall i :: 0 <= i < procs.Length ==> procs[i].burst >= 1
      requires MaxArrival(procs[..]) + SumBurst(procs[..]) < MODULUS
      modifies this, procs
      ensures State() == Simulation(old(procs[..]), quantum)
      ensures Completed(State())
      ensures SameInput(old(procs[..]), procs[..])
      ensures time <= MaxArrival(procs[..]) + SumBurst(procs[..]) < MODULUS
    {
      ghost var input := procs[..];
      Reset();
      Loop();
      Finish();
      SimulationCompletes(input, quantum);
    }

    /** The totals of rr.c:239-247: the u32 sums of the waiting and response
        times, both zero for an empty table. */
    method Totals() returns (totalWaiting: nat, totalResponse: nat)
      ensures totalWaiting == Wrap(SumWaiting(procs[..]))
      ensures totalResponse == Wrap(SumResponse(procs[..]))
      ensures procs.Length == 0 ==> totalWaiting == 0 && totalResponse == 0
    {
      totalWaiting, totalResponse := 0, 0;
      var i := 0;
      while i < procs.Length
        invariant 0 <= i <= procs.Length
        invariant totalWaiting == Wrap(SumWaiting(procs[..i]))
        invariant totalResponse == Wrap(SumResponse(procs[..i]))
      {
        assert procs[..i + 1][..i] == procs[..i];
        WrapAdd(SumWaiting(procs[..i]), procs[i].waiting);
        WrapAdd(SumResponse(procs[..i]), procs[i].response);
        totalWaiting := Wrap(totalWaiting + procs[i].waiting);
        totalResponse := Wrap(totalResponse + procs[i].response);
        i := i + 1;
      }
      assert procs[..i] == procs[..];
      if procs.Length == 0 {
        totalWaiting, totalResponse := 0, 0;
      }
    }
  }

  /** The scheduling part of `main` (rr.c:161-247) on a loaded table: simulate, then
      total the waiting and response times. The source needs a quantum and bursts of
      at least 1 (with 0 its u32 counters wrap), and its u32 clock must not wrap
      before the last process completes. */
  method Simulate(procs: array<Proc>, quantum: nat) returns (totalWaiting: nat, totalResponse: nat)
    requires quantum >= 1
    requires forall i :: 0 <= i < procs.Length ==> procs[i].burst >= 1
    requires MaxArrival(procs[..]) + SumBurst(procs[..]) < MODULUS
    modifies procs
    ensures procs[..] == Simulation(old(procs[..]), quantum).table
    ensures SameInput(old(procs[..]), procs[..])
    ensures forall i :: 0 <= i < procs.Length ==>
              procs[i].waiting >= 0 && procs[i].response >= 0
              && procs[i].response == procs[i].startExec - procs[i].arrival
    ensures totalWaiting == Wrap(SumWaiting(procs[..]))
    ensures totalResponse == Wrap(SumResponse(procs[..]))
  {
    var s := new Scheduler(procs, quantum);
    s.Run();
    totalWaiting, totalResponse := s.Totals();
  }
}
