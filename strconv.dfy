/** Go's `strconv.Atoi` and `strconv.ParseInt(s, 10, 64)` (the same function
    on a 64-bit platform), with the error result discarded as main.go does,
    and `strconv.FormatInt(n, 10)`, the decimal form git prints for `%at`. */
module GoStrconv {
  import opened Wrappers
  import opened GoInt

  const MaxUint64: int := Modulus - 1

  predicate IsDigit(c: char) {
    '0' <= c <= '9'
  }

  predicate AllDigits(s: string) {
    forall i :: 0 <= i < |s| ==> IsDigit(s[i])
  }

  /** The value of a string of decimal digits, most significant first. */
  function DigitsValue(s: string): nat
    requires AllDigits(s)
  {
    if |s| == 0 then 0 else DigitsValue(s[..|s| - 1]) * 10 + (s[|s| - 1] - '0') as int
  }

  /** Where strconv.ParseUint's left-to-right scan stands: the value read so
      far, a range error (the scan stops as soon as the value passes
      2^64 - 1, without looking at the characters after it), or a syntax
      error at a character that is not a decimal digit. */
  datatype ScanState = Running(value: nat) | OutOfRange | BadDigit

  function Scan(s: string): (r: ScanState)
    ensures r.Running? ==> r.value <= MaxUint64
  {
    if |s| == 0 then Running(0)
    else
      match Scan(s[..|s| - 1])
      case Running(n) =>
        var c := s[|s| - 1];
        if !IsDigit(c) then BadDigit
        else if n * 10 + (c - '0') as int > MaxUint64 then OutOfRange
        else Running(n * 10 + (c - '0') as int)
      case OutOfRange => OutOfRange
      case BadDigit => BadDigit
  }

  /** The scan runs on exactly while the digits read fit in a uint64, and
      then holds their value. */
  lemma {:induction false} ScanValue(s: string)
    ensures Scan(s).Running? <==> AllDigits(s) && DigitsValue(s) <= MaxUint64
    ensures Scan(s).Running? ==> AllDigits(s) && Scan(s).value == DigitsValue(s)
  {
    if |s| > 0 {
      var p := s[..|s| - 1];
      ScanValue(p);
      if AllDigits(s) {
        assert AllDigits(p);
      }
      if AllDigits(p) && IsDigit(s[|s| - 1]) {
        assert AllDigits(s) by {
          forall i | 0 <= i < |s| ensures IsDigit(s[i]) {
            if i < |s| - 1 { assert s[i] == p[i]; }
          }
        }
      }
    }
  }

  /** A string of digits never stops the scan with a syntax error. */
  lemma {:induction false} ScanOfDigits(s: string)
    requires AllDigits(s)
    ensures Scan(s) != BadDigit
  {
    if |s| > 0 {
      var p := s[..|s| - 1];
      assert AllDigits(p);
      ScanOfDigits(p);
    }
  }

  /** Once the scan has stopped, the characters after it change nothing. */
  lemma {:induction false} ScanStopped(s: string, rest: string)
    requires !Scan(s).Running?
    ensures Scan(s + rest) == Scan(s)
  {
    if |rest| > 0 {
      var r := rest[..|rest| - 1];
      ScanStopped(s, r);
      assert (s + rest)[..|s + rest| - 1] == s + r;
    } else {
      assert s + rest == s;
    }
  }

  /** `n, _ := strconv.ParseUint(s, 10, 64)` as ParseInt calls it: None on
      a syntax error (an empty string or a bad character before any
      overflow), 2^64 - 1 on a range error. */
  function ParseUint(s: string): (r: Option<nat>)
    ensures r.Some? ==> r.value <= MaxUint64
  {
    if |s| == 0 then None
    else
      match Scan(s)
      case Running(n) => Some(n)
      case OutOfRange => Some(MaxUint64)
      case BadDigit => None
  }

  function Clamp(x: int): (r: int)
    ensures InInt64(r)
    ensures InInt64(x) ==> r == x
  {
    if x < MinInt64 then MinInt64 else if x > MaxInt64 then MaxInt64 else x
  }

  /** `n, _ := strconv.Atoi(s)`: an optional sign, then the unsigned scan;
      a syntax error gives 0, and a value out of the int64 range (including
      a range error of the scan) the nearest int64. */
  function Atoi(s: string): (r: int)
    ensures InInt64(r)
  {
    var digits := if |s| > 0 && (s[0] == '-' || s[0] == '+') then s[1..] else s;
    match ParseUint(digits)
      case None => 0
      case Some(v) => if |s| > 0 && s[0] == '-' then Clamp(0 - v) else Clamp(v)
  }

  /** A string that does not start with a digit or a sign is no number. */
  lemma AtoiNotNumeric(s: string)
    requires |s| == 0 || !(IsDigit(s[0]) || s[0] == '-' || s[0] == '+')
    ensures Atoi(s) == 0
  {
    if |s| > 0 {
      assert s[..1][..0] == [];
      assert Scan(s[..1]) == BadDigit;
      ScanStopped(s[..1], s[1..]);
      assert s[..1] + s[1..] == s;
    }
  }

  /** A lone sign is no number either. */
  lemma AtoiLoneSign(s: string)
    requires s == "-" || s == "+"
    ensures Atoi(s) == 0
  {
    assert s[1..] == [];
  }

  /** A digit string reads as its value, clamped to the int64 range. */
  lemma AtoiDigits(s: string)
    requires |s| > 0 && AllDigits(s)
    ensures Atoi(s) == Clamp(DigitsValue(s))
  {
    ScanValue(s);
    ScanOfDigits(s);
    assert IsDigit(s[0]);
  }

  /** Digits that pass 2^64 - 1 saturate the result whatever follows
      them: the scan stops with a range error before it reaches a bad
      character. */
  lemma AtoiOverflow(p: string, rest: string)
    requires |p| > 0 && AllDigits(p) && DigitsValue(p) > MaxUint64
    ensures Atoi(p + rest) == MaxInt64
    ensures Atoi("-" + p + rest) == MinInt64
  {
    ScanValue(p);
    ScanOfDigits(p);
    ScanStopped(p, rest);
    assert IsDigit(p[0]) && (p + rest)[0] == p[0];
    var neg := "-" + p + rest;
    assert neg[0] == '-' && neg[1..] == p + rest;
  }

  /** The decimal digits of `n`, without leading zeros. */
  function Digits(n: nat): (r: string)
    ensures |r| > 0 && AllDigits(r)
  {
    if n < 10 then [('0' as int + n) as char]
    else Digits(n / 10) + [('0' as int + n % 10) as char]
  }

  /** strconv.FormatInt(n, 10). */
  function FormatInt(n: int): (r: string)
    ensures |r| > 0 && IsDigit(r[|r| - 1])
    ensures forall i :: 0 <= i < |r| ==> IsDigit(r[i]) || (i == 0 && r[i] == '-')
  {
    if n < 0 then "-" + Digits(-n) else Digits(n)
  }

  lemma {:induction false} DigitsValueOfDigits(n: nat)
    ensures DigitsValue(Digits(n)) == n
  {
    if n >= 10 {
      DigitsValueOfDigits(n / 10);
      var s := Digits(n);
      assert s[..|s| - 1] == Digits(n / 10);
    }
  }

  /** Atoi reads back what FormatInt writes, for every int64. */
  lemma AtoiFormatInt(n: int)
    requires InInt64(n)
    ensures Atoi(FormatInt(n)) == n
  {
    if n < 0 {
      var d := Digits(-n);
      DigitsValueOfDigits(-n);
      ScanValue(d);
      var s := "-" + d;
      assert s[0] == '-' && s[1..] == d;
      assert Atoi(s) == Clamp(0 - (-n));
    } else {
      var d := Digits(n);
      DigitsValueOfDigits(n);
      ScanValue(d);
      assert IsDigit(d[0]);
      assert Atoi(d) == Clamp(n);
    }
  }
}
