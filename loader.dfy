/** The table loader of rr.c (`init_processes`, lines 96-147, without the file
    handling): a count, then that many (pid, arrival, burst) triples, each read with
    `next_int`. Running out of input is an error, as the source's `exit(EINVAL)`. */
module Loader {
  import opened U32
  import opened Scanner
  import Schedule

  /** A freshly `calloc`ed row: every field zero. */
  const Zeroed: Schedule.Proc := Schedule.Proc(0, 0, 0, false, 0, 0, 0, 0)

  /** A loaded row: the three fields read from the file, the rest as `calloc` left them. */
  function Loaded(pid: nat, arrival: nat, burst: nat): Schedule.Proc {
    Zeroed.(pid := pid, arrival := arrival, burst := burst)
  }

  /** One iteration of the loop at rr.c:138-143: three integers from `pos`. */
  function ParseRow(data: seq<char>, pos: nat): (r: Result<(Schedule.Proc, nat)>)
    requires pos <= |data|
    ensures r.Ok? ==> pos < r.value.1 < |data| && !IsDigit(data[r.value.1])
  {
    var a := ScanInt(data, pos);
    if a.Err? then Err(a.error)
    else
      var b := ScanInt(data, a.value.next);
      if b.Err? then Err(b.error)
      else
        var c := ScanInt(data, b.value.next);
        if c.Err? then Err(c.error)
        else Ok((Loaded(a.value.value, b.value.value, c.value.value), c.value.next))
  }

  /** The first `n` rows read from `pos`, and the cursor after them. */
  function ParseRows(data: seq<char>, pos: nat, n: nat): (r: Result<(seq<Schedule.Proc>, nat)>)
    requires pos <= |data|
    ensures r.Ok? ==> |r.value.0| == n && pos <= r.value.1 <= |data|
  {
    if n == 0 then Ok(([], pos))
    else
      var prev := ParseRows(data, pos, n - 1);
      if prev.Err? then Err(prev.error)
      else
        var row := ParseRow(data, prev.value.1);
        if row.Err? then Err(row.error)
        else Ok((prev.value.0 + [row.value.0], row.value.1))
  }

  /** What `init_processes` leaves in the table (rr.c:128, 138-143). */
  function ParseTable(data: seq<char>): Result<seq<Schedule.Proc>> {
    var count := ScanInt(data, 0);
    if count.Err? then Err(count.error)
    else
      var rows := ParseRows(data, count.value.next, count.value.value);
      if rows.Err? then Err(rows.error) else Ok(rows.value.0)
  }

  /** Once a row cannot be read, no longer prefix of rows can be either. */
  lemma {:induction false} ParseRowsErrPersists(data: seq<char>, pos: nat, k: nat, n: nat)
    requires pos <= |data| && k <= n
    requires ParseRows(data, pos, k).Err?
    ensures ParseRows(data, pos, n) == Err(ParseRows(data, pos, k).error)
    decreases n
  {
    if k < n {
      var m: nat := n - 1;
      ParseRowsErrPersists(data, pos, k, m);
      ParseRowsNext(data, pos, m, n);
    }
  }

  /** `ParseRows` at `n` in terms of `ParseRows` at `m`, for `n == m + 1`. */
  lemma ParseRowsNext(data: seq<char>, pos: nat, m: nat, n: nat)
    requires pos <= |data| && n == m + 1
    ensures ParseRows(data, pos, m).Err? ==> ParseRows(data, pos, n) == Err(ParseRows(data, pos, m).error)
    ensures ParseRows(data, pos, m).Ok? ==>
      var p := ParseRows(data, pos, m).value;
      ParseRows(data, pos, n)
        == if ParseRow(data, p.1).Err? then Err(ParseRow(data, p.1).error)
           else Ok((p.0 + [ParseRow(data, p.1).value.0], ParseRow(data, p.1).value.1))
  {
  }

  /** The body of the loop at rr.c:138-143: the pid, arrival and burst of one row. */
  method ReadRow(data: seq<char>, pos: nat) returns (r: Result<(Schedule.Proc, nat)>)
    requires pos <= |data|
    ensures r == ParseRow(data, pos)
  {
    var pid := NextInt(data, pos);
    if pid.Err? {
      return Err(pid.error);
    }
    var arrival := NextInt(data, pid.value.next);
    if arrival.Err? {
      return Err(arrival.error);
    }
    var burst := NextInt(data, arrival.value.next);
    if burst.Err? {
      return Err(burst.error);
    }
    return Ok((Loaded(pid.value.value, arrival.value.value, burst.value.value), burst.value.next));
  }

  /** The loop at rr.c:138-143: allocate a zeroed table of `size` rows and fill it
      row by row from `start`. */
  method ReadRows(data: seq<char>, start: nat, size: nat) returns (r: Result<array<Schedule.Proc>>)
    requires start <= |data|
    ensures r.Err? <==> ParseRows(data, start, size).Err?
    ensures r.Err? ==> r.error == ParseRows(data, start, size).error
    ensures r.Ok? ==> fresh(r.value) && r.value[..] == ParseRows(data, start, size).value.0
  {
    var procs := new Schedule.Proc[size](_ => Zeroed);
    var pos := start;
    var i := 0;
    while i < size
      invariant 0 <= i <= size && pos <= |data|
      invariant ParseRows(data, start, i) == Ok((procs[..i], pos))
      invariant forall j :: i <= j < size ==> procs[j] == Zeroed
    {
      var next := i + 1;
      ParseRowsNext(data, start, i, next);
      var row := ReadRow(data, pos);
      if row.Err? {
        ParseRowsErrPersists(data, start, next, size);
        return Err(row.error);
      }
      var p := row.value.0;
      procs[i] := procs[i].(pid := p.pid, arrival := p.arrival, burst := p.burst);
      assert procs[i] == p;
      assert procs[..next] == procs[..i] + [procs[i]];
      pos := row.value.1;
      i := next;
    }
    assert procs[..i] == procs[..];
    return Ok(procs);
  }

  /** `init_processes` (rr.c:96-147) without the file handling: the count, then
      the table. */
  method LoadTable(data: seq<char>) returns (r: Result<array<Schedule.Proc>>)
    ensures r.Err? <==> ParseTable(data).Err?
    ensures r.Err? ==> r.error == ParseTable(data).error
    ensures r.Ok? ==> fresh(r.value) && r.value[..] == ParseTable(data).value
  {
    var count := NextInt(data, 0);
    if count.Err? {
      return Err(count.error);
    }
    r := ReadRows(data, count.value.next, count.value.value);
  }

  // ---------------------------------------------------------------------------
  // Round trip with a writer of the input format

  datatype Triple = Triple(pid: nat, arrival: nat, burst: nat)

  predicate Fits(t: Triple) {
    t.pid < MODULUS && t.arrival < MODULUS && t.burst < MODULUS
  }

  /** The three numbers of a row, separated by spaces. */
  function Fields(t: Triple): seq<char> {
    ToDecimal(t.pid) + [' '] + ToDecimal(t.arrival) + [' '] + ToDecimal(t.burst)
  }

  /** One line of the input file: `pid arrival burst` and a newline. */
  function FormatRow(t: Triple): (s: seq<char>)
    ensures |s| >= 6 && s[|s| - 1] == '\n'
  {
    Fields(t) + ['\n']
  }

  function FormatRows(rows: seq<Triple>): (s: seq<char>)
    ensures rows != [] ==> |s| > 0 && s[|s| - 1] == '\n'
  {
    if rows == [] then [] else FormatRows(rows[..|rows| - 1]) + FormatRow(rows[|rows| - 1])
  }

  /** An input file holding `rows`: the count on its own line, then one line per row. */
  function Format(rows: seq<Triple>): seq<char> {
    ToDecimal(|rows|) + ['\n'] + FormatRows(rows)
  }

  function AsTable(rows: seq<Triple>): (t: seq<Schedule.Proc>)
    ensures |t| == |rows|
  {
    seq(|rows|, j requires 0 <= j < |rows| => Loaded(rows[j].pid, rows[j].arrival, rows[j].burst))
  }

  /** `w` is spelled out in `data` from index `at` on. */
  predicate Occurs(data: seq<char>, at: nat, w: seq<char>) {
    at + |w| <= |data| && data[at..at + |w|] == w
  }

  lemma OccursAt(data: seq<char>, at: nat, w: seq<char>, k: nat, idx: nat)
    requires Occurs(data, at, w) && k < |w| && idx == at + k
    ensures data[idx] == w[k]
  {
    assert data[at..at + |w|][k] == data[idx];
  }

  lemma OccursSplit(data: seq<char>, at: nat, u: seq<char>, v: seq<char>, mid: nat)
    requires Occurs(data, at, u + v) && mid == at + |u|
    ensures Occurs(data, at, u) && Occurs(data, mid, v)
  {
    forall k | 0 <= k < |u| ensures data[at..at + |u|][k] == u[k] {
      OccursAt(data, at, u + v, k, at + k);
    }
    forall k | 0 <= k < |v| ensures data[mid..mid + |v|][k] == v[k] {
      OccursAt(data, at, u + v, |u| + k, mid + k);
    }
  }

  lemma OccursSlice(data: seq<char>, at: nat, w: seq<char>, end: nat)
    requires Occurs(data, at, w) && end == at + |w|
    ensures data[at..end] == w
  {
  }

  lemma OccursChar(data: seq<char>, at: nat, c: char, v: seq<char>, next: nat)
    requires Occurs(data, at, [c] + v) && next == at + 1
    ensures data[at] == c && Occurs(data, next, v)
  {
    OccursSplit(data, at, [c], v, next);
    OccursAt(data, at, [c], 0, at);
  }

  lemma AsTableSnoc(rows: seq<Triple>)
    requires rows != []
    ensures var last := rows[|rows| - 1];
      AsTable(rows[..|rows| - 1]) + [Loaded(last.pid, last.arrival, last.burst)] == AsTable(rows)
  {
  }

  /** `ParseRow` from the three scans it is made of. */
  lemma ParseRowOfScans(data: seq<char>, q: nat, e1: nat, e2: nat, e3: nat, v1: nat, v2: nat, v3: nat)
    requires q <= |data|
    requires ScanInt(data, q) == Ok(Scan(v1, e1))
    requires ScanInt(data, e1) == Ok(Scan(v2, e2))
    requires ScanInt(data, e2) == Ok(Scan(v3, e3))
    ensures ParseRow(data, q) == Ok((Loaded(v1, v2, v3), e3))
  {
  }

  /** `ParseRow` fails when its third scan does. */
  lemma ParseRowOfScansErr(data: seq<char>, q: nat, e1: nat, e2: nat, v1: nat, v2: nat)
    requires q <= |data|
    requires ScanInt(data, q) == Ok(Scan(v1, e1))
    requires ScanInt(data, e1) == Ok(Scan(v2, e2))
    requires ScanInt(data, e2).Err?
    ensures ParseRow(data, q) == Err(ScanInt(data, e2).error)
  {
  }

  /** A number spelled out at `a`, then `sep`, then `rest`. */
  lemma NumberThen(data: seq<char>, a: nat, n: nat, sep: char, rest: seq<char>, e: nat, next: nat)
    requires Occurs(data, a, ToDecimal(n) + ([sep] + rest))
    requires e == a + |ToDecimal(n)| && next == e + 1
    ensures data[a..e] == ToDecimal(n) && data[e] == sep && Occurs(data, next, rest)
  {
    OccursSplit(data, a, ToDecimal(n), [sep] + rest, e);
    OccursChar(data, e, sep, rest, next);
    OccursSlice(data, a, ToDecimal(n), e);
  }

  /** After a non-digit at `q`, the three numbers of `t` end at `e1`, `e2` and `end`,
      with a space after each of the first two. */
  predicate FieldsAt(data: seq<char>, q: nat, t: Triple, e1: nat, e2: nat, end: nat) {
    q < |data| && !IsDigit(data[q])
    && e1 == q + 1 + |ToDecimal(t.pid)|
    && e2 == e1 + 1 + |ToDecimal(t.arrival)|
    && end == e2 + 1 + |ToDecimal(t.burst)| && end <= |data|
    && data[q + 1..e1] == ToDecimal(t.pid) && data[e1] == ' '
    && data[e1 + 1..e2] == ToDecimal(t.arrival) && data[e2] == ' '
    && data[e2 + 1..end] == ToDecimal(t.burst)
  }

  /** Where the three numbers and the spaces between them lie when `Fields(t)` is
      written after a non-digit at `q`. */
  lemma FieldsLayout(data: seq<char>, q: nat, t: Triple, e1: nat, e2: nat, end: nat)
    requires q < |data| && !IsDigit(data[q]) && Occurs(data, q + 1, Fields(t))
    requires e1 == q + 1 + |ToDecimal(t.pid)|
    requires e2 == e1 + 1 + |ToDecimal(t.arrival)|
    requires end == e2 + 1 + |ToDecimal(t.burst)|
    ensures FieldsAt(data, q, t, e1, e2, end)
  {
    var x, y, z := ToDecimal(t.pid), ToDecimal(t.arrival), ToDecimal(t.burst);
    assert Fields(t) == x + ([' '] + (y + ([' '] + z)));
    NumberThen(data, q + 1, t.pid, ' ', y + ([' '] + z), e1, e1 + 1);
    NumberThen(data, e1 + 1, t.arrival, ' ', z, e2, e2 + 1);
    OccursSlice(data, e2 + 1, z, end);
  }

  /** Three numbers laid out as `FieldsAt` says, and a non-digit after them, read
      back as a row (modulo 2^32), with the cursor on that non-digit. */
  lemma ScanRow(data: seq<char>, q: nat, t: Triple, e1: nat, e2: nat, end: nat)
    requires FieldsAt(data, q, t, e1, e2, end)
    requires end < |data| && !IsDigit(data[end])
    ensures ParseRow(data, q) == Ok((Loaded(Wrap(t.pid), Wrap(t.arrival), Wrap(t.burst)), end))
  {
    ScanIntToDecimal(data, q, q + 1, e1, t.pid);
    ScanIntToDecimal(data, e1, e1 + 1, e2, t.arrival);
    ScanIntToDecimal(data, e2, e2 + 1, end, t.burst);
    ParseRowOfScans(data, q, e1, e2, end, Wrap(t.pid), Wrap(t.arrival), Wrap(t.burst));
  }

  /** The same numbers ending the data: the third scan runs off the end. */
  lemma ScanRowUnterminated(data: seq<char>, q: nat, t: Triple, e1: nat, e2: nat)
    requires FieldsAt(data, q, t, e1, e2, |data|)
    ensures ParseRow(data, q) == Err(EndOfInput)
  {
    assert data[e2 + 1..] == data[e2 + 1..|data|];
    ScanIntToDecimal(data, q, q + 1, e1, t.pid);
    ScanIntToDecimal(data, e1, e1 + 1, e2, t.arrival);
    ScanIntUnterminated(data, e2, e2 + 1);
    ParseRowOfScansErr(data, q, e1, e2, Wrap(t.pid), Wrap(t.arrival));
  }

  /** A line written by `FormatRow` after a non-digit at `q` reads back as its row,
      leaving the cursor on the line's newline at `end`. */
  lemma ParseRowFormat(data: seq<char>, q: nat, t: Triple, end: nat)
    requires Fits(t)
    requires q < |data| && !IsDigit(data[q])
    requires Occurs(data, q + 1, FormatRow(t)) && end == q + |FormatRow(t)|
    ensures ParseRow(data, q) == Ok((Loaded(t.pid, t.arrival, t.burst), end))
  {
    var e1 := q + 1 + |ToDecimal(t.pid)|;
    var e2 := e1 + 1 + |ToDecimal(t.arrival)|;
    OccursSplit(data, q + 1, Fields(t), ['\n'], end);
    OccursAt(data, end, ['\n'], 0, end);
    FieldsLayout(data, q, t, e1, e2, end);
    ScanRow(data, q, t, e1, e2, end);
  }

  /** The first line of a file: the count `n` and a newline, followed by `rest`. */
  lemma CountLine(data: seq<char>, n: nat, rest: seq<char>, d: nat)
    requires n < MODULUS && d == |ToDecimal(n)|
    requires Occurs(data, 0, ToDecimal(n) + (['\n'] + rest))
    ensures ScanInt(data, 0) == Ok(Scan(n, d)) && data[d] == '\n' && Occurs(data, d + 1, rest)
  {
    NumberThen(data, 0, n, '\n', rest, d, d + 1);
    ScanIntToDecimal(data, 0, 0, d, n);
  }

  /** Lines written by `FormatRows` after a non-digit at `pos` read back as their
      rows, leaving the cursor on the last newline at `end`. */
  lemma {:induction false} ParseRowsFormat(data: seq<char>, pos: nat, rows: seq<Triple>, end: nat)
    requires forall k :: 0 <= k < |rows| ==> Fits(rows[k])
    requires pos < |data| && !IsDigit(data[pos])
    requires Occurs(data, pos + 1, FormatRows(rows)) && end == pos + |FormatRows(rows)|
    ensures ParseRows(data, pos, |rows|) == Ok((AsTable(rows), end))
    ensures end < |data| && !IsDigit(data[end])
    decreases |rows|
  {
    if rows != [] {
      var init, last := rows[..|rows| - 1], rows[|rows| - 1];
      var f, g := FormatRows(init), FormatRow(last);
      var mid := pos + |f|;
      assert FormatRows(rows) == f + g;
      OccursSplit(data, pos + 1, f, g, mid + 1);
      ParseRowsFormat(data, pos, init, mid);
      ParseRowFormat(data, mid, last, end);
      ParseRowsNext(data, pos, |init|, |rows|);
      AsTableSnoc(rows);
    }
  }

  /** A file that starts with what `Format` writes loads as the rows; what follows
      the last newline is never read. */
  lemma {:induction false} ParseTableFormat(data: seq<char>, rows: seq<Triple>)
    requires |rows| < MODULUS
    requires forall k :: 0 <= k < |rows| ==> Fits(rows[k])
    requires Occurs(data, 0, Format(rows))
    ensures ParseTable(data) == Ok(AsTable(rows))
  {
    var d := |ToDecimal(|rows|)|;
    assert Format(rows) == ToDecimal(|rows|) + (['\n'] + FormatRows(rows));
    CountLine(data, |rows|, FormatRows(rows), d);
    ParseRowsFormat(data, d, rows, d + |FormatRows(rows)|);
  }

  /** Loading a file written by `Format` (the count on its own line, then one
      `pid arrival burst` line per row, each ending in a newline) gives back its
      rows, every other field zero. */
  lemma FormatRoundTrip(rows: seq<Triple>)
    requires |rows| < MODULUS
    requires forall k :: 0 <= k < |rows| ==> Fits(rows[k])
    ensures ParseTable(Format(rows)) == Ok(AsTable(rows))
  {
    var data := Format(rows);
    assert Occurs(data, 0, data) by {
      forall k | 0 <= k < |data| ensures data[0 + k] == data[k] { }
    }
    ParseTableFormat(data, rows);
  }

  /** A row whose burst runs up to the end of the data cannot be read. */
  lemma ParseRowUnterminated(data: seq<char>, q: nat, t: Triple)
    requires q < |data| && !IsDigit(data[q])
    requires Occurs(data, q + 1, Fields(t)) && |data| == q + 1 + |Fields(t)|
    ensures ParseRow(data, q) == Err(EndOfInput)
  {
    var e1 := q + 1 + |ToDecimal(t.pid)|;
    var e2 := e1 + 1 + |ToDecimal(t.arrival)|;
    FieldsLayout(data, q, t, e1, e2, |data|);
    ScanRowUnterminated(data, q, t, e1, e2);
  }

  /** Complete rows, then the fields of one more row with no newline after them:
      the complete rows read back, the last one does not. */
  lemma LastRowUnterminated(data: seq<char>, pos: nat, init: seq<Triple>, t: Triple, mid: nat)
    requires forall k :: 0 <= k < |init| ==> Fits(init[k])
    requires pos < |data| && !IsDigit(data[pos])
    requires Occurs(data, pos + 1, FormatRows(init) + Fields(t))
    requires mid == pos + |FormatRows(init)| && |data| == mid + 1 + |Fields(t)|
    ensures ParseRows(data, pos, |init|) == Ok((AsTable(init), mid))
    ensures ParseRow(data, mid) == Err(EndOfInput)
  {
    OccursSplit(data, pos + 1, FormatRows(init), Fields(t), mid + 1);
    ParseRowsFormat(data, pos, init, mid);
    ParseRowUnterminated(data, mid, t);
  }

  lemma ParseRowsUnterminated(data: seq<char>, pos: nat, init: seq<Triple>, t: Triple, mid: nat, n: nat)
    requires n == |init| + 1
    requires forall k :: 0 <= k < |init| ==> Fits(init[k])
    requires pos < |data| && !IsDigit(data[pos])
    requires Occurs(data, pos + 1, FormatRows(init) + Fields(t))
    requires mid == pos + |FormatRows(init)| && |data| == mid + 1 + |Fields(t)|
    ensures ParseRows(data, pos, n) == Err(EndOfInput)
  {
    LastRowUnterminated(data, pos, init, t, mid);
    ParseRowsNext(data, pos, |init|, n);
  }

  /** `data` holds what `Format` writes for the rows `init + [t]`, without the
      final newline. */
  lemma ParseTableUnterminated(data: seq<char>, init: seq<Triple>, t: Triple, n: nat)
    requires n == |init| + 1 && n < MODULUS
    requires forall k :: 0 <= k < |init| ==> Fits(init[k])
    requires Occurs(data, 0, ToDecimal(n) + (['\n'] + (FormatRows(init) + Fields(t))))
    requires |data| == |ToDecimal(n)| + 1 + |FormatRows(init)| + |Fields(t)|
    ensures ParseTable(data) == Err(EndOfInput)
  {
    var d := |ToDecimal(n)|;
    CountLine(data, n, FormatRows(init) + Fields(t), d);
    ParseRowsUnterminated(data, d, init, t, d + |FormatRows(init)|, n);
  }

  lemma FormatLast(rows: seq<Triple>)
    requires rows != []
    ensures var init, t := rows[..|rows| - 1], rows[|rows| - 1];
      Format(rows) == ToDecimal(|rows|) + (['\n'] + (FormatRows(init) + Fields(t))) + ['\n']
  {
    var init, t := rows[..|rows| - 1], rows[|rows| - 1];
    assert FormatRows(rows) == FormatRows(init) + (Fields(t) + ['\n']);
    Regroup(ToDecimal(|rows|), FormatRows(init), Fields(t));
  }

  lemma Regroup(c: seq<char>, f: seq<char>, x: seq<char>)
    ensures c + ['\n'] + (f + (x + ['\n'])) == c + (['\n'] + (f + x)) + ['\n']
  {
  }

  /** `next_int` only returns on the non-digit after a number, so a file written by
      `Format` but missing its final newline is rejected although it holds every
      triple its count announces: the last burst, or for an empty table the count,
      runs up to the end of the file. */
  lemma FinalNewlineRequired(rows: seq<Triple>)
    requires |rows| < MODULUS
    requires forall k :: 0 <= k < |rows| ==> Fits(rows[k])
    ensures var full := Format(rows); ParseTable(full[..|full| - 1]) == Err(EndOfInput)
  {
    if rows == [] {
      // The count itself runs up to the end: "0" without its newline.
      assert Format(rows) == ['0', '\n'];
      ScanIntUnterminated(['0'], 0, 0);
      return;
    }
    var full := Format(rows);
    var init, t := rows[..|rows| - 1], rows[|rows| - 1];
    var w := ToDecimal(|rows|) + (['\n'] + (FormatRows(init) + Fields(t)));
    FormatLast(rows);
    var data := full[..|full| - 1];
    assert data == w;
    assert Occurs(data, 0, w) by {
      forall k | 0 <= k < |w| ensures data[0 + k] == w[k] { }
    }
    ParseTableUnterminated(data, init, t, |rows|);
  }
}
