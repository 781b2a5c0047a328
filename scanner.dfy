/** The two decimal scanners of rr.c: `next_int`, which pulls the next run of
    ASCII digits out of the mapped input file, and `next_int_from_c_str`, which
    reads the quantum from a command-line argument. Both accumulate into a u32,
    so the value they produce is the decimal value modulo 2^32. Where the source
    calls `exit(EINVAL)` the model returns an `Err`. */
module Scanner {
  import opened U32

  datatype Error =
    | EndOfInput   // next_int ran off the end of the buffer (rr.c:66-67)
    | NotADigit    // next_int_from_c_str met a non-digit (rr.c:78-81)

  datatype Result<T> = Ok(value: T) | Err(error: Error)

  /** What `next_int` hands back: the integer and the new cursor position. */
  datatype Scan = Scan(value: nat, next: nat)

  /** The test `c < 0x30 || c > 0x39` negated. */
  predicate IsDigit(c: char) {
    '0' <= c <= '9'
  }

  function DigitValue(c: char): (d: nat)
    requires IsDigit(c)
    ensures d < 10
  {
    c as nat - '0' as nat
  }

  predicate AllDigits(s: seq<char>) {
    forall k :: 0 <= k < |s| ==> IsDigit(s[k])
  }

  /** The number a string of decimal digits denotes, most significant digit first. */
  function Decimal(s: seq<char>): nat
    requires AllDigits(s)
  {
    if s == [] then 0 else Decimal(s[..|s| - 1]) * 10 + DigitValue(s[|s| - 1])
  }

  function DigitChar(d: nat): (c: char)
    requires d < 10
    ensures IsDigit(c) && DigitValue(c) == d
  {
    ('0' as int + d) as char
  }

  /** The shortest decimal spelling of `n`: the inverse of `Decimal`. */
  function ToDecimal(n: nat): (s: seq<char>)
    ensures |s| >= 1 && AllDigits(s)
    ensures n >= 10 ==> |s| >= 2
  {
    if n < 10 then [DigitChar(n)] else ToDecimal(n / 10) + [DigitChar(n % 10)]
  }

  /** Reading back a spelled-out number gives the number. */
  lemma {:induction false} DecimalOfToDecimal(n: nat)
    ensures Decimal(ToDecimal(n)) == n
  {
    var s := ToDecimal(n);
    if n >= 10 {
      assert s[..|s| - 1] == ToDecimal(n / 10);
      DecimalOfToDecimal(n / 10);
    }
  }

  /** Where the first digit at or after `pos` is (or the end of the data). */
  function SkipNonDigits(data: seq<char>, pos: nat): (i: nat)
    requires pos <= |data|
    ensures pos <= i <= |data|
    ensures forall m :: pos <= m < i ==> !IsDigit(data[m])
    ensures i < |data| ==> IsDigit(data[i])
    decreases |data| - pos
  {
    if pos == |data| || IsDigit(data[pos]) then pos else SkipNonDigits(data, pos + 1)
  }

  /** Where the digit run starting at `i` stops: the first non-digit at or after `i`
      (or the end of the data). */
  function DigitRunEnd(data: seq<char>, i: nat): (j: nat)
    requires i <= |data|
    ensures i <= j <= |data|
    ensures forall m :: i <= m < j ==> IsDigit(data[m])
    ensures j < |data| ==> !IsDigit(data[j])
    decreases |data| - i
  {
    if i == |data| || !IsDigit(data[i]) then i else DigitRunEnd(data, i + 1)
  }

  /** The result `next_int` computes from cursor `pos`: skip non-digits, read the
      maximal digit run, and stop on the non-digit that ends it. A run that reaches
      the end of the data (or no run at all) is an error, because the source only
      returns when it sees the terminating non-digit. */
  function ScanInt(data: seq<char>, pos: nat): (r: Result<Scan>)
    requires pos <= |data|
    ensures r.Ok? ==> pos < r.value.next < |data| && !IsDigit(data[r.value.next])
    ensures r.Ok? ==> r.value.value < MODULUS
  {
    var i := SkipNonDigits(data, pos);
    var j := DigitRunEnd(data, i);
    if j == |data| then Err(EndOfInput) else Ok(Scan(Wrap(Decimal(data[i..j])), j))
  }

  /** `data[pos..next]` is some non-digits, then a non-empty run of digits starting
      at `i`, and `data[next]` is the non-digit that ends the run. */
  ghost predicate IntAt(data: seq<char>, pos: nat, i: nat, next: nat) {
    pos <= i < next < |data|
    && (forall m :: pos <= m < i ==> !IsDigit(data[m]))
    && (forall m :: i <= m < next ==> IsDigit(data[m]))
    && !IsDigit(data[next])
  }

  /** Whenever the data holds an integer at `pos`, `ScanInt` reads exactly that
      one: its (wrapped) value, with the cursor left on the terminator. */
  lemma ScanIntFinds(data: seq<char>, pos: nat, i: nat, next: nat)
    requires IntAt(data, pos, i, next)
    ensures ScanInt(data, pos) == Ok(Scan(Wrap(Decimal(data[i..next])), next))
  {
    var i0 := SkipNonDigits(data, pos);
    assert IsDigit(data[i]);
    assert i0 == i;
    var j0 := DigitRunEnd(data, i);
    assert j0 == next;
  }

  /** `ScanInt` fails exactly when no integer followed by a terminator is left. */
  lemma ScanIntFails(data: seq<char>, pos: nat)
    requires pos <= |data|
    ensures ScanInt(data, pos).Err? <==> forall i, next :: !IntAt(data, pos, i, next)
  {
    var i := SkipNonDigits(data, pos);
    var j := DigitRunEnd(data, i);
    if j < |data| {
      assert IntAt(data, pos, i, j);
    } else {
      forall i', next | IntAt(data, pos, i', next) ensures false {
        ScanIntFinds(data, pos, i', next);
      }
    }
  }

  /** A digit run that reaches the end of the data is not a number to `ScanInt`:
      the terminator it waits for never comes. */
  lemma ScanIntUnterminated(data: seq<char>, pos: nat, i: nat)
    requires pos <= i < |data|
    requires forall m :: pos <= m < i ==> !IsDigit(data[m])
    requires AllDigits(data[i..])
    ensures ScanInt(data, pos) == Err(EndOfInput)
  {
    var i0 := SkipNonDigits(data, pos);
    assert IsDigit(data[i]) by {
      assert data[i..][0] == data[i];
    }
    assert i0 == i;
  }

  /** Scanning a spelled-out number that occupies `data[i..next]`, preceded by
      separators and followed by one, gives that number back, modulo 2^32, with
      the cursor on the separator after it. */
  lemma ScanIntToDecimal(data: seq<char>, pos: nat, i: nat, next: nat, n: nat)
    requires pos <= i && next == i + |ToDecimal(n)| && next < |data|
    requires forall m :: pos <= m < i ==> !IsDigit(data[m])
    requires data[i..next] == ToDecimal(n)
    requires !IsDigit(data[next])
    ensures ScanInt(data, pos) == Ok(Scan(Wrap(n), next))
  {
    assert IntAt(data, pos, i, next) by {
      forall m | i <= m < next ensures IsDigit(data[m]) {
        assert data[m] == ToDecimal(n)[m - i];
      }
    }
    ScanIntFinds(data, pos, i, next);
    DecimalOfToDecimal(n);
  }

  /** `next_int` (rr.c:34-68): the loop that walks the cursor over the data. */
  method NextInt(data: seq<char>, pos: nat) returns (r: Result<Scan>)
    requires pos <= |data|
    ensures r == ScanInt(data, pos)
  {
    var current: nat := 0;
    var started := false;
    var k := pos;
    ghost var start := pos;
    while k != |data|
      invariant pos <= k <= |data|
      invariant !started ==> current == 0 && forall m :: pos <= m < k ==> !IsDigit(data[m])
      invariant started ==> start == SkipNonDigits(data, pos) && start < k
      invariant started ==> forall m :: start <= m < k ==> IsDigit(data[m])
      invariant started ==> current == Wrap(Decimal(data[start..k]))
    {
      var c := data[k];
      if !IsDigit(c) {
        if started {
          assert DigitRunEnd(data, start) == k;
          return Ok(Scan(current, k));
        }
      } else {
        if !started {
          current := DigitValue(c);
          started := true;
          start := k;
          assert data[start..k + 1] == [c];
        } else {
          assert data[start..k + 1][..k - start] == data[start..k];
          WrapShiftAdd(Decimal(data[start..k]), DigitValue(c));
          current := Wrap(current * 10 + DigitValue(c));
        }
      }
      k := k + 1;
    }
    return Err(EndOfInput);
  }

  /** The length of a C string stored in `s`: the index of the first NUL, or all
      of `s` when it holds none. */
  function CStrLen(s: seq<char>): (n: nat)
    ensures n <= |s|
    ensures forall k :: 0 <= k < n ==> s[k] != '\0'
    ensures n < |s| ==> s[n] == '\0'
  {
    if s == [] || s[0] == '\0' then 0 else 1 + CStrLen(s[1..])
  }

  /** `next_int_from_c_str` (rr.c:70-94): every character before the terminator
      must be a digit; the empty string reads as 0. */
  method NextIntFromCStr(s: seq<char>) returns (r: Result<nat>)
    ensures r.Err? <==> exists k :: 0 <= k < CStrLen(s) && !IsDigit(s[k])
    ensures r.Err? ==> r.error == NotADigit
    ensures r.Ok? ==> AllDigits(s[..CStrLen(s)]) && r.value == Wrap(Decimal(s[..CStrLen(s)]))
  {
    var i := 0;
    var current: nat := 0;
    var started := false;
    while i < |s| && s[i] != '\0'
      invariant i <= CStrLen(s)
      invariant AllDigits(s[..i])
      invariant started <==> i > 0
      invariant current == Wrap(Decimal(s[..i]))
    {
      var c := s[i];
      if !IsDigit(c) {
        return Err(NotADigit);
      }
      assert s[..i + 1][..i] == s[..i];
      if !started {
        current := DigitValue(c);
        started := true;
      } else {
        WrapShiftAdd(Decimal(s[..i]), DigitValue(c));
        current := Wrap(current * 10 + DigitValue(c));
      }
      i := i + 1;
    }
    return Ok(current);
  }

  /** The argument the source expects, a spelled-out number followed by NUL, is a
      C string of exactly those digits, which denote the number; so, by the contract
      of `NextIntFromCStr`, it is read back as that number modulo 2^32, whatever
      follows the NUL. */
  lemma CStrOfToDecimal(n: nat, rest: seq<char>)
    ensures CStrLen(ToDecimal(n) + ['\0'] + rest) == |ToDecimal(n)|
    ensures (ToDecimal(n) + ['\0'] + rest)[..|ToDecimal(n)|] == ToDecimal(n)
    ensures Decimal(ToDecimal(n)) == n
  {
    var s := ToDecimal(n) + ['\0'] + rest;
    assert s[|ToDecimal(n)|] == '\0';
    assert forall k :: 0 <= k < |ToDecimal(n)| ==> s[k] == ToDecimal(n)[k] && IsDigit(s[k]);
    assert s[..|ToDecimal(n)|] == ToDecimal(n);
    DecimalOfToDecimal(n);
  }
}
