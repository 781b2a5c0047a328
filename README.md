# Round-Robin scheduling simulator, modelled in Dafny

`rr.c` reads a process table from a file (a count, then one `pid arrival burst`
triple per process), reads the quantum length from the command line, and simulates
a single CPU under Round-Robin scheduling one time unit at a time, computing each
process's waiting and response time and their totals.

This project models:

- the two decimal scanners, `next_int` and `next_int_from_c_str`
  (`scanner.dfy`): loops over the input that accumulate digits into a u32, so the
  value read is the decimal value modulo 2^32 (`u32.dfy`); where the source calls
  `exit(EINVAL)`, the model returns an `Err`;
- the triple-reading loop of `init_processes` (`loader.dfy`): a method that fills a
  fresh array row by row, proved equal to a parsing function, together with a
  writer of the input format and the round trip between the two;
- the scheduling part of `main` (`schedule.dfy`, `simulator.dfy`): a class
  `Scheduler` whose fields are the loop variables and whose `procs` array is the
  process table, rewritten in place. The phase methods are each proved to compute
  a function on an abstract state `Sim` (admission, dispatch, the quantum/completion
  check, the clock tick, one pass of the loop, the finalisation after the loop).
  The `while` loop is proved to reach `Invariant.RunFrom` of its entry state,
  the state obtained by repeating the pass until no burst is left. The whole run
  is proved to reach `Invariant.Simulation` of the input table: clear, loop, then
  finalise;
- a worked run (`example.dfy`): two processes arriving together with bursts of 2,
  under a quantum of 1, computed tick by tick down to their waiting and response
  times;
- what the loop guarantees (`invariant.dfy`, `properties.dfy`):
  - the loop invariant and its preservation;
  - termination with a bound on the clock;
  - every process finalised exactly once, with non-negative waiting and response
    times;
  - admission order, rotation on preemption, completion before preemption, and
    the start time being recorded once.

The ready queue, an intrusive `TAILQ` in the source, is a sequence of table
indices, head first. The state carries one field the source does not have:
`finished`, the indices in the order they were finalised. It is only used to state
that each process is finalised exactly once.

The input is a count followed by that many `pid arrival burst` triples; the numbers
may be separated by any characters that are not digits, and a non-digit must follow
the last number. That last requirement is easy to miss: a file holding every triple
its count announces is still rejected when its last burst runs up to the end of the
file, with no newline after it, because `next_int` only returns when it sees the
character after a number. The model follows the code; see
`Loader.FinalNewlineRequired`.

## Model

| member | source | states |
|---|---|---|
| U32.Wrap | rr.c:12 | the u32 reduction: the result is below 2^32 and leaves values already in range unchanged |
| U32.WrapShiftAdd | rr.c:58-59 | reducing after every `current *= 10; current += d` gives the same u32 as reducing once at the end |
| U32.WrapAdd | rr.c:241-242 | adding into a u32 running total gives the u32 of the exact sum |
| Scanner.DecimalOfToDecimal | rr.c:53-59 | accumulating the digits of a spelled-out number gives the number back |
| Scanner.SkipNonDigits | rr.c:38-48 | the cursor after skipping is the first digit at or after the start (or the end), and only non-digits are skipped |
| Scanner.DigitRunEnd | rr.c:38-61 | the digit run ends at the first non-digit (or the end), and everything before it is a digit |
| Scanner.ScanInt | rr.c:34-68 | a successful scan leaves the cursor strictly after the start, on a non-digit inside the data, with a value below 2^32 |
| Scanner.ScanIntFinds | rr.c:34-64 | when the data holds non-digits, a digit run and a non-digit from the cursor on, the scan returns that run's value modulo 2^32 and stops on the non-digit |
| Scanner.ScanIntFails | rr.c:38-67 | the scan fails exactly when no digit run followed by a non-digit remains |
| Scanner.ScanIntUnterminated | rr.c:38-67 | a digit run that reaches the end of the data is an end-of-input error |
| Scanner.ScanIntToDecimal | rr.c:34-64 | a spelled-out number between two non-digits is read back modulo 2^32, with the cursor on the non-digit after it |
| Scanner.NextInt | rr.c:34-68 | the cursor loop returns exactly `ScanInt`: the same value, cursor and error |
| Scanner.CStrLen | rr.c:76 | the length of a C string is the index of its first NUL (or the whole buffer) |
| Scanner.NextIntFromCStr | rr.c:70-94 | fails with `NotADigit` exactly when a character before the NUL is not a digit; otherwise returns the digits' value modulo 2^32, and 0 for the empty string |
| Scanner.CStrOfToDecimal | rr.c:70-94 | a spelled-out number followed by NUL is a C string of exactly its digits, and those digits denote the number, so `NextIntFromCStr` reads it back modulo 2^32 |
| Loader.ParseRow | rr.c:140-142 | a row read successfully leaves the cursor on a non-digit after the start |
| Loader.ParseRows | rr.c:138-143 | `n` rows read successfully are exactly `n`, and the cursor does not move backwards |
| Loader.ParseRowsErrPersists | rr.c:138-143 | once a row cannot be read, reading more rows fails with the same error, as the source exits there |
| Loader.ReadRow | rr.c:140-142 | three `next_int` calls compute `ParseRow` |
| Loader.ReadRows | rr.c:130-143 | the loop fills a fresh array with exactly the rows `ParseRows` reads, and fails with its error when it fails |
| Loader.LoadTable | rr.c:128-143 | reading the count and then that many rows gives `ParseTable`, as a fresh array |
| Loader.ParseRowFormat | rr.c:140-142 | a line `pid arrival burst` after a non-digit reads back as that row, the cursor on its newline |
| Loader.ParseRowsFormat | rr.c:138-143 | formatted lines read back as their rows, every other field zero as `calloc` leaves it |
| Loader.ParseTableFormat | rr.c:128-143 | a file that starts with a formatted table loads as that table; what follows is never read |
| Loader.FormatRoundTrip | rr.c:128-143 | loading a formatted table gives back its rows, for any count and values below 2^32 |
| Loader.FinalNewlineRequired | rr.c:38-67 | a formatted table with its final newline removed is rejected with an end-of-input error, the empty table (a bare count) included |
| Invariant.ArrivalsInTableOrder | rr.c:179-186 | the processes admitted at a tick are exactly those arriving at that tick, in increasing table order |
| Invariant.OutstandingAtMost | rr.c:168-172 | the outstanding work never exceeds the sum of the bursts, and equals it before any admission |
| Invariant.OwedNonNegative | rr.c:225-228 | under the invariant no process owes negative work (no `remaining_time` underflow) |
| Invariant.AdmitKeeps | rr.c:179-186 | admission keeps the invariant and moves its horizon past the current tick |
| Invariant.DequeueKeeps | rr.c:189-195 | taking the head onto an idle CPU keeps the invariant, and the process taken has work left |
| Invariant.DispatchKeeps | rr.c:188-196 | dispatch keeps the invariant, leaves the CPU busy whenever the queue is non-empty, and a fresh dispatch has work and a full quantum |
| Invariant.VacateKeeps | rr.c:198-207 | requeueing or finalising the process on the CPU keeps the invariant and leaves the CPU free |
| Invariant.CheckKeeps | rr.c:198-223 | the check keeps the invariant, and a process left on the CPU has work and quantum left |
| Invariant.AdvanceKeeps | rr.c:225-230 | the clock tick keeps the invariant: no counter underflows and the outstanding work drops with the work done |
| Invariant.AdmitKeepsInput | rr.c:179-186 | admission never rewrites pid, arrival or burst |
| Invariant.CheckKeepsInput | rr.c:198-223 | the check never rewrites pid, arrival or burst |
| Invariant.StepKeepsInput | rr.c:178-232 | a pass never rewrites pid, arrival or burst |
| Invariant.IdleMeansFutureArrival | rr.c:188-223 | if the CPU is idle after the check while work is outstanding, some process has not arrived yet |
| Invariant.ChecksOut | rr.c:179-223 | the first three phases keep the invariant; a process then on the CPU has work and quantum left |
| Invariant.StepKeepsInv | rr.c:178-232 | a pass keeps the invariant: queue and completion list without duplicates, the process on the CPU not queued, quantum within bounds, outstanding work equal to `total_burst_time` |
| Invariant.StepProgress | rr.c:178-232 | a pass advances the clock by one and either does a unit of work or is an idle tick no later than the last arrival |
| Invariant.StepKeeps | rr.c:178-232 | a pass keeps the loop invariant and the input columns, and decreases (outstanding work, last arrival minus clock) lexicographically, so the loop terminates |
| Invariant.StartEstablishes | rr.c:168-176 | with quantum and bursts at least 1 and no process started, the loop invariant holds on entry |
| Invariant.FinishCompletes | rr.c:233-237 | when the loop stops, finalising the process still on the CPU finalises every process exactly once, with non-negative waiting and response times, and the clock is at most the last arrival plus the sum of the bursts |
| Invariant.RunFrom | rr.c:178-232 | repeating the pass from a loop-head state where the invariant holds ends with no burst left, the invariant kept and the input columns unchanged |
| Invariant.ClearedKeepsInput | rr.c:168-176 | clearing the `started` flags leaves pid, arrival and burst alone and no process started |
| Invariant.FinishLastKeepsInput | rr.c:233-237 | the finalisation after the loop leaves pid, arrival and burst alone |
| Invariant.SimulationCompletes | rr.c:168-237 | the simulated table has every process finalised exactly once with non-negative times, the input columns unchanged, and a clock at most the last arrival plus the sum of the bursts |
| Properties.AdmissionOrder | rr.c:179-186 | admission appends, in table order, exactly the processes arriving now, gives each its whole burst as remaining time, and changes nothing else |
| Properties.PreemptedGoesBehindArrivals | rr.c:179-230 | a process whose quantum ran out with work left goes to the tail, behind the processes arriving in the same tick, and the head gets a fresh quantum |
| Properties.CompletionBeatsPreemption | rr.c:198-223 | a process whose work ran out is finalised and leaves for good even when its quantum ran out too, with the source's waiting and response formulas, both non-negative |
| Properties.QuantumTick | rr.c:198-230 | a process with work and quantum left keeps the CPU and spends one unit of each; the queue only gains the arrivals |
| Properties.DequeueStarts | rr.c:189-195 | taking the head onto the CPU puts it there marked started, with the current tick as its start if it had not started before; every other recorded start is kept |
| Properties.DispatchCheckStarts | rr.c:188-218 | the dispatch and the check together record at most one new start: the process on the CPU afterwards, at the current tick |
| Properties.StartRecordedOnce | rr.c:188-218 | `start_exec_time` is written once; a process first started during a pass is on the CPU at its end, started at the pass's tick |
| Simulator.Scheduler.constructor | rr.c:161-165 | an empty queue and an idle CPU over the given table |
| Simulator.Scheduler.Admit | rr.c:179-186 | the in-place admission loop computes `Schedule.Admit` |
| Simulator.Scheduler.TakeHead | rr.c:189-195 | removing the head and recording its first start computes `Schedule.Dequeue` |
| Simulator.Scheduler.Dispatch | rr.c:188-196 | computes `Schedule.Dispatch` |
| Simulator.Scheduler.Check | rr.c:198-223 | computes `Schedule.Check` |
| Simulator.Scheduler.Retire | rr.c:204-207 | writing waiting and response times computes `Schedule.Retire` |
| Simulator.Scheduler.Advance | rr.c:225-230 | computes `Schedule.Advance` |
| Simulator.Scheduler.Step | rr.c:179-230 | one pass computes `Schedule.Step` |
| Simulator.Scheduler.Reset | rr.c:168-176 | sums the bursts, clears every `started`, starts the clock; the loop invariant then holds and the input columns are unchanged |
| Simulator.Scheduler.Loop | rr.c:178-232 | the `while` loop ends in the state `Invariant.RunFrom` gives for its entry state: no burst left, the loop invariant and the input columns kept |
| Simulator.Scheduler.Finish | rr.c:233-237 | finalising the process still on the CPU, if any, computes `Schedule.FinishLast` |
| Simulator.Scheduler.Run | rr.c:168-237 | the run ends in the state `Invariant.Simulation` gives for the input table; so every process is finalised exactly once with non-negative times, the input columns are unchanged, and the clock stays within the last arrival plus the sum of the bursts, below 2^32 |
| Simulator.Scheduler.Totals | rr.c:239-247 | the totals are the u32 sums of the waiting and response times, and 0 for an empty table |
| Simulator.Simulate | rr.c:161-247 | the table after simulation is the one `Invariant.Simulation` gives for the loaded table: every waiting and response time non-negative, the response time being the first dispatch minus the arrival; the results are their u32 totals |
| Example.Tick0 | rr.c:179-230 | at tick 0 both processes are admitted in table order and the first is dispatched and runs one unit |
| Example.Tick1 | rr.c:198-230 | at tick 1 the first's quantum is spent; it goes behind the second, which starts at tick 1 |
| Example.Tick2 | rr.c:198-230 | at tick 2 the second's quantum is spent and the first resumes without a new start time |
| Example.Admit3 | rr.c:179-196 | at tick 3 nobody arrives and the CPU stays busy |
| Example.Vacate3 | rr.c:198-207 | at tick 3 the first has no work left and is finalised with waiting time 1 |
| Example.Resume3 | rr.c:209-222 | at tick 3 the second is dispatched onto the freed CPU and keeps its start time |
| Example.Advance3 | rr.c:225-230 | at tick 3 the second runs its last unit and the clock reaches 4 |
| Example.Tick3 | rr.c:179-230 | the pass at tick 3 ends with no burst left |
| Example.Started | rr.c:168-176 | the run starts with four units of outstanding work and the loop invariant holding |
| Example.Finished | rr.c:233-237 | the second, on the CPU when the loop stops, is finalised at tick 4 |
| Example.TwoProcesses | rr.c:168-237 | the simulation gives waiting times 1 and 2, response times 0 and 1, first-then-second completion and a clock of 4 |

## Left out

- File handling in `init_processes` (rr.c:100-126, 145-146) is not modelled: `open`, `fstat`, `mmap`, `munmap`, `close` and their `perror`/`exit` paths. The loader takes the file's contents as a character sequence, so the truncation of `st_size` to a u32 is not modelled either.
- `calloc` and its failure path (rr.c:130-136) and `free` (rr.c:253) are not modelled. The table is a fresh array whose unread fields are zero, as `calloc` leaves them.
- The argument-count check (rr.c:151-154) is not modelled. The quantum comes from `NextIntFromCStr` applied to the argument's characters.
- The `printf` calls are left out: the message before `exit` (rr.c:66) and the float averages (rr.c:250-251). The averages divide by `size`, which is floating point and, for an empty table, 0/0.
- The intrusive `TAILQ` list is left out. It is replaced by a sequence of table indices, so the list links embedded in `struct process` (rr.c:21) are not modelled.
- Scanner.NextIntFromCStr: the u32 index `i` is not wrapped; strings of 2^32 characters or more are not considered.
- Simulator.Simulate: requires a quantum of at least 1, every burst at least 1, and the last arrival plus the sum of the bursts below 2^32. With a quantum of 0, `q_remaining--` wraps the u32. A burst of 0 wraps `remaining_time--` when such a process is taken onto the CPU by the check branch, and also drives `total_burst_time` to 0 early.
- Simulator.Scheduler.Run: has the same three requirements as `Simulate`.
- Simulator.Scheduler.Reset: has the first two requirements of `Simulate`.
- Simulator.Scheduler.Loop: the scheduler's u32 fields are unbounded integers, and its contract does not model their wrap-around. The invariant proves that none of them goes negative, and `Run` proves that the clock stays within the last arrival plus the sum of the bursts. `Run` and `Simulate` require that bound to be below 2^32, so the clock, `total_burst_time` and every other counter stay below 2^32 and none wraps. Tables beyond that bound are not modelled.
- Simulator.Scheduler.Totals: the total accumulation wraps modulo 2^32 like the source's u32 sums. The loop counter is an `int` compared against a u32 `size` (rr.c:239); that comparison is taken as ordinary.
- The `started` field is a boolean here, where the source uses a u32 holding 0 or 1.
- The completion order `finished` is a model-only field, kept in a ghost variable of the class.
