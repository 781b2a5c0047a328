/** The Round-Robin simulator of rr.c (lines 168-247) as a function on states: one
    call of `Step` is one pass of the `while` loop at rr.c:178-232. The imperative
    class in simulator.dfy is proved to compute exactly these functions; the
    properties of the schedule are proved here, once, about them. */
module Schedule {

  datatype Option<T> = None | Some(value: T)

  /** One row of the process table (`struct process`, rr.c:15-30). The u32 fields
      the simulator computes are `int` here, so that an underflow would show up as a
      negative number; the invariant below proves that none occurs. */
  datatype Proc = Proc(
    pid: nat,
    arrival: nat,
    burst: nat,
    started: bool,
    remaining: int,
    startExec: int,
    waiting: int,
    response: int)

  /** The simulator's state between statements of the loop. The ready queue holds
      table indices, head first, in place of the intrusive TAILQ. `finished` is not
      in the source: it records the indices in the order they were finalised, so that
      "each process is finalised exactly once" can be stated. */
  datatype Sim = Sim(
    table: seq<Proc>,
    queue: seq<nat>,
    current: Option<nat>,
    qRemaining: int,
    time: nat,
    totalBurst: int,
    finished: seq<nat>)

  /** Every index the state holds points into the table. */
  predicate Indexed(s: Sim) {
    (forall k :: 0 <= k < |s.queue| ==> s.queue[k] < |s.table|)
    && (s.current.Some? ==> s.current.value < |s.table|)
    && (forall k :: 0 <= k < |s.finished| ==> s.finished[k] < |s.table|)
  }

  predicate NoDup(q: seq<nat>) {
    forall j, k :: 0 <= j < k < |q| ==> q[j] != q[k]
  }

  // ---------------------------------------------------------------------------
  // The four phases of one tick

  /** The indices of the first `n` rows that arrive at `time`, in table order. */
  function Arrivals(t: seq<Proc>, time: nat, n: nat): (a: seq<nat>)
    requires n <= |t|
    ensures forall k :: 0 <= k < |a| ==> a[k] < n
  {
    if n == 0 then []
    else Arrivals(t, time, n - 1) + (if t[n - 1].arrival == time then [n - 1] else [])
  }

  /** A row after admission at `time`: its remaining work is its whole burst. */
  function AdmitRow(p: Proc, time: nat): Proc {
    if p.arrival == time then p.(remaining := p.burst) else p
  }

  function AdmitTable(t: seq<Proc>, time: nat): (u: seq<Proc>)
    ensures |u| == |t|
  {
    seq(|t|, j requires 0 <= j < |t| => AdmitRow(t[j], time))
  }

  /** Phase 1, admission (rr.c:179-186). */
  function Admit(s: Sim): (r: Sim)
    requires Indexed(s)
    ensures Indexed(r)
  {
    s.(table := AdmitTable(s.table, s.time),
       queue := s.queue + Arrivals(s.table, s.time, |s.table|))
  }

  /** Record the first dispatch of row `i` at `time`, guarded by `started`. */
  function MarkStarted(t: seq<Proc>, i: nat, time: nat): (u: seq<Proc>)
    requires i < |t|
    ensures |u| == |t|
  {
    if t[i].started then t else t[i := t[i].(started := true, startExec := time)]
  }

  /** Take the head of the ready queue onto the CPU (rr.c:189-195 and 210-216). */
  function Dequeue(s: Sim): (r: Sim)
    requires Indexed(s) && |s.queue| > 0
    ensures Indexed(r)
  {
    s.(table := MarkStarted(s.table, s.queue[0], s.time),
       queue := s.queue[1..],
       current := Some(s.queue[0]))
  }

  /** Phase 2, dispatch onto an idle CPU (rr.c:188-196). */
  function Dispatch(s: Sim): (r: Sim)
    requires Indexed(s)
    ensures Indexed(r)
  {
    if s.current.None? && |s.queue| > 0 then Dequeue(s) else s
  }

  /** The waiting and response times of a process that completes at `time`. */
  function Finalize(p: Proc, time: nat): Proc {
    p.(waiting := time - p.arrival - p.burst, response := p.startExec - p.arrival)
  }

  /** Finalise the process on the CPU (rr.c:204-207 and 234-237). */
  function Retire(s: Sim): (r: Sim)
    requires Indexed(s) && s.current.Some?
    ensures Indexed(r)
  {
    var c := s.current.value;
    s.(table := s.table[c := Finalize(s.table[c], s.time)], finished := s.finished + [c])
  }

  /** The first half of the check branch (rr.c:199-207): requeue the current process
      if it has work left, otherwise finalise it; either way the CPU is given up and
      the quantum reset, as both arms of rr.c:209-222 do. */
  function Vacate(s: Sim, quantum: nat): (r: Sim)
    requires Indexed(s)
    ensures Indexed(r)
  {
    var s1 :=
      if s.current.None? then s
      else if s.table[s.current.value].remaining != 0 then s.(queue := s.queue + [s.current.value])
      else Retire(s);
    s1.(current := None, qRemaining := quantum)
  }

  /** Phase 3, the quantum/completion check (rr.c:198-223). Selecting the next
      process (rr.c:209-222) is a dispatch onto the vacated CPU. */
  function Check(s: Sim, quantum: nat): (r: Sim)
    requires Indexed(s)
    ensures Indexed(r)
  {
    if s.qRemaining == 0 || (s.current.Some? && s.table[s.current.value].remaining == 0)
    then Dispatch(Vacate(s, quantum))
    else s
  }

  /** Phase 4, one tick of time (rr.c:225-230). */
  function Advance(s: Sim): (r: Sim)
    requires Indexed(s)
    ensures Indexed(r)
  {
    match s.current
    case None => s.(time := s.time + 1)
    case Some(c) =>
      s.(time := s.time + 1,
         table := s.table[c := s.table[c].(remaining := s.table[c].remaining - 1)],
         totalBurst := s.totalBurst - 1,
         qRemaining := s.qRemaining - 1)
  }

  /** One pass of the loop body (rr.c:179-230). */
  function Step(s: Sim, quantum: nat): (r: Sim)
    requires Indexed(s)
    ensures Indexed(r)
  {
    Advance(Check(Dispatch(Admit(s)), quantum))
  }

  /** The finalisation after the loop (rr.c:234-237). */
  function FinishLast(s: Sim): (r: Sim)
    requires Indexed(s)
    ensures Indexed(r)
  {
    if s.current.Some? then Retire(s) else s
  }

  // ---------------------------------------------------------------------------
  // Sums over the table

  function SumBurst(t: seq<Proc>): nat {
    if t == [] then 0 else SumBurst(t[..|t| - 1]) + t[|t| - 1].burst
  }

  function SumWaiting(t: seq<Proc>): int {
    if t == [] then 0 else SumWaiting(t[..|t| - 1]) + t[|t| - 1].waiting
  }

  function SumResponse(t: seq<Proc>): int {
    if t == [] then 0 else SumResponse(t[..|t| - 1]) + t[|t| - 1].response
  }

  function MaxArrival(t: seq<Proc>): (m: nat)
    ensures forall i :: 0 <= i < |t| ==> t[i].arrival <= m
  {
    if t == [] then 0
    else var m := MaxArrival(t[..|t| - 1]);
      if t[|t| - 1].arrival > m then t[|t| - 1].arrival else m
  }

  /** The CPU time row `p` still needs once every process with arrival before `h`
      has been admitted: its remaining time if admitted, its whole burst if not. */
  function Owed(p: Proc, h: int): int {
    if p.arrival < h then p.remaining else p.burst
  }

  function Outstanding(t: seq<Proc>, h: int): int {
    if t == [] then 0 else Outstanding(t[..|t| - 1], h) + Owed(t[|t| - 1], h)
  }
}
