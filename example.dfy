/** A worked run of the simulator: two processes that both arrive at tick 0 with a
    burst of 2, under a quantum of 1. They alternate on the CPU; the first completes
    at tick 3 and the second at tick 4. */
module Example {
  import opened Schedule
  import opened Invariant

  const Input: seq<Proc> := [Proc(0, 0, 2, false, 0, 0, 0, 0), Proc(1, 0, 2, false, 0, 0, 0, 0)]

  /** The loop head at ticks 0 to 4. */
  const S0: Sim := Sim(Input, [], None, 1, 0, 4, [])
  const S1: Sim := Sim([Proc(0, 0, 2, true, 1, 0, 0, 0), Proc(1, 0, 2, false, 2, 0, 0, 0)],
                       [1], Some(0), 0, 1, 3, [])
  const S2: Sim := Sim([Proc(0, 0, 2, true, 1, 0, 0, 0), Proc(1, 0, 2, true, 1, 1, 0, 0)],
                       [0], Some(1), 0, 2, 2, [])
  const S3: Sim := Sim([Proc(0, 0, 2, true, 0, 0, 0, 0), Proc(1, 0, 2, true, 1, 1, 0, 0)],
                       [1], Some(0), 0, 3, 1, [])
  const S4: Sim := Sim([Proc(0, 0, 2, true, 0, 0, 1, 0), Proc(1, 0, 2, true, 0, 1, 0, 0)],
                       [], Some(1), 0, 4, 0, [0])

  /** Tick 0: both arrive, the first is dispatched and runs. */
  lemma Tick0()
    ensures Step(S0, 1) == S1
  {
    assert Admit(S0).queue == [0, 1];
  }

  /** Tick 1: the quantum ran out; the first goes behind the second, which starts. */
  lemma Tick1()
    ensures Step(S1, 1) == S2
  {
    assert Check(S1, 1).queue == [0];
  }

  /** Tick 2: the quantum ran out again; the first resumes. */
  lemma Tick2()
    ensures Step(S2, 1) == S3
  {
    assert Check(S2, 1).queue == [1];
  }

  /** Tick 3, admission and dispatch: nobody arrives and the CPU is busy. */
  lemma Admit3()
    ensures Admit(S3) == S3 && Dispatch(S3) == S3
  {
    var t3 := [Proc(0, 0, 2, true, 0, 0, 0, 0), Proc(1, 0, 2, true, 1, 1, 0, 0)];
    assert S3 == Sim(t3, [1], Some(0), 0, 3, 1, []);
    assert Arrivals(t3, 3, 2) == [] && AdmitTable(t3, 3) == t3;
  }

  /** Tick 3 after the first half of the check, and after the second resumes. */
  const V3: Sim := Sim([Proc(0, 0, 2, true, 0, 0, 1, 0), Proc(1, 0, 2, true, 1, 1, 0, 0)],
                       [1], None, 1, 3, 1, [0])
  const D3: Sim := Sim([Proc(0, 0, 2, true, 0, 0, 1, 0), Proc(1, 0, 2, true, 1, 1, 0, 0)],
                       [], Some(1), 1, 3, 1, [0])

  /** Tick 3, the check: the first completed and is finalised with waiting time 1. */
  lemma Vacate3()
    ensures Vacate(S3, 1) == V3
  {
    var t3 := [Proc(0, 0, 2, true, 0, 0, 0, 0), Proc(1, 0, 2, true, 1, 1, 0, 0)];
    assert S3 == Sim(t3, [1], Some(0), 0, 3, 1, []);
    var tv := [Proc(0, 0, 2, true, 0, 0, 1, 0), Proc(1, 0, 2, true, 1, 1, 0, 0)];
    assert t3[0 := Finalize(t3[0], 3)] == tv;
    assert Retire(S3) == Sim(tv, [1], Some(0), 0, 3, 1, [0]);
  }

  /** Tick 3, the check: the second resumes, keeping its start time. */
  lemma Resume3()
    ensures Dispatch(V3) == D3
  {
    var tv := [Proc(0, 0, 2, true, 0, 0, 1, 0), Proc(1, 0, 2, true, 1, 1, 0, 0)];
    assert V3 == Sim(tv, [1], None, 1, 3, 1, [0]);
    assert MarkStarted(tv, 1, 3) == tv;
  }

  /** Tick 3, the clock tick: the second runs its last unit. */
  lemma Advance3()
    ensures Advance(D3) == S4
  {
    var tv := [Proc(0, 0, 2, true, 0, 0, 1, 0), Proc(1, 0, 2, true, 1, 1, 0, 0)];
    assert D3 == Sim(tv, [], Some(1), 1, 3, 1, [0]);
    assert tv[1 := tv[1].(remaining := 0)] == S4.table;
  }

  /** Tick 3: the first completes and the second resumes, leaving no burst. */
  lemma Tick3()
    ensures Step(S3, 1) == S4
  {
    Admit3();
    Vacate3();
    Resume3();
    Advance3();
    assert S3.qRemaining == 0;
  }

  /** The state after the run: the second is finalised after the loop. */
  const Final: Sim := Sim([Proc(0, 0, 2, true, 0, 0, 1, 0), Proc(1, 0, 2, true, 0, 1, 2, 1)],
                          [], Some(1), 0, 4, 0, [0, 1])

  /** rr.c:168-176 on the example: nothing to clear, four units of work. */
  lemma Started()
    ensures Start(Cleared(Input), 1) == S0
    ensures LoopInv(S0, 1)
  {
    assert Cleared(Input) == Input;
    assert SumBurst(Input[..1]) == 2;
    assert Input[..2] == Input;
    StartEstablishes(Input, 1);
  }

  lemma Inv1()
    ensures LoopInv(S1, 1)
  {
    Started();
    StepKeeps(S0, 1);
    Tick0();
  }

  lemma Inv2()
    ensures LoopInv(S2, 1)
  {
    Inv1();
    StepKeeps(S1, 1);
    Tick1();
  }

  lemma Inv3()
    ensures LoopInv(S3, 1)
  {
    Inv2();
    StepKeeps(S2, 1);
    Tick2();
  }

  /** The loop stops at tick 4, when no burst is left. */
  lemma Runs3()
    ensures LoopInv(S3, 1) && RunFrom(S3, 1) == S4
  {
    Inv3();
    StepKeeps(S3, 1);
    Tick3();
  }

  lemma Runs2()
    ensures LoopInv(S2, 1) && RunFrom(S2, 1) == S4
  {
    Inv2();
    Runs3();
    Tick2();
  }

  lemma Runs1()
    ensures LoopInv(S1, 1) && RunFrom(S1, 1) == S4
  {
    Inv1();
    Runs2();
    Tick1();
  }

  lemma Runs0()
    ensures LoopInv(S0, 1) && RunFrom(S0, 1) == S4
  {
    Started();
    Runs1();
    Tick0();
  }

  /** rr.c:234-237: the second process, still on the CPU, is finalised at tick 4. */
  lemma Finished()
    ensures FinishLast(S4) == Final
  {
    var t := [Proc(0, 0, 2, true, 0, 0, 1, 0), Proc(1, 0, 2, true, 0, 1, 0, 0)];
    assert S4 == Sim(t, [], Some(1), 0, 4, 0, [0]);
    var u := t[1 := Finalize(t[1], 4)];
    assert Final == Sim(u, [], Some(1), 0, 4, 0, [0, 1]);
  }

  /** The whole run: waiting times 1 and 2, response times 0 and 1, completion
      order first then second, and the clock stops at 4. */
  lemma TwoProcesses()
    ensures Simulation(Input, 1) == Final
  {
    Started();
    Runs0();
    Finished();
  }
}
