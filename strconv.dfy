/** Go's `strconv.Atoi` on a 64-bit platform, as the handlers use it: the error is discarded, so
    what matters is the value returned in every case — 0 on a syntax error and the nearest int64
    bound when the number is out of range. */
module Strconv {

  const MaxInt64: int := 0x7FFF_FFFF_FFFF_FFFF
  const MinInt64: int := -0x8000_0000_0000_0000
  const MaxUint64: int := 0xFFFF_FFFF_FFFF_FFFF

  predicate IsDigit(c: char) { '0' <= c <= '9' }

  function Digit(c: char): nat
    requires IsDigit(c)
  {
    (c as int - '0' as int) as nat
  }

  function DigitChar(d: nat): (c: char)
    requires d < 10
    ensures IsDigit(c) && Digit(c) == d
  {
    ('0' as int + d) as char
  }

  /** How the unsigned scan of ParseUint ends. */
  datatype UintScan = SyntaxError | RangeError | Value(n: nat)

  /** ParseUint's loop: a non-digit is a syntax error, and a value past the uint64 range is a range
      error reported at once, before any later character is looked at. */
  function Scan(s: string, acc: nat): UintScan
    decreases |s|
  {
    if |s| == 0 then Value(acc)
    else if !IsDigit(s[0]) then SyntaxError
    else
      var n := acc * 10 + Digit(s[0]);
      if n > MaxUint64 then RangeError else Scan(s[1..], n)
  }

  /** strconv.Atoi(s) with its error ignored. */
  function Atoi(s: string): (r: int)
    ensures MinInt64 <= r <= MaxInt64
    ensures |s| == 0 ==> r == 0
  {
    if |s| == 0 then 0
    else
      var neg := s[0] == '-';
      var body := if s[0] == '+' || s[0] == '-' then s[1..] else s;
      if |body| == 0 then 0
      else
        match Scan(body, 0)
        case SyntaxError => 0
        case RangeError => if neg then MinInt64 else MaxInt64
        case Value(v) =>
          if neg then (if v > -MinInt64 then MinInt64 else -(v as int))
          else (if v > MaxInt64 then MaxInt64 else v)
  }

  /** The decimal digits of a natural number, most significant first, without leading zeros. */
  function Decimal(n: nat): (r: string)
    ensures |r| >= 1 && IsDigit(r[0])
    ensures forall i :: 0 <= i < |r| ==> IsDigit(r[i])
  {
    (if n >= 10 then Decimal(n / 10) else "") + [DigitChar(n % 10)]
  }

  /** fmt's %d: a minus sign for negative numbers, then the decimal digits. */
  function FormatInt(n: int): (r: string)
    ensures |r| >= 1
  {
    if n < 0 then "-" + Decimal(-n) else Decimal(n)
  }

  /** Scanning the digits of `n` and then `rest` continues from `n`, as long as `n` fits in uint64. */
  lemma {:induction false} ScanDecimal(n: nat, rest: string)
    requires n <= MaxUint64
    ensures Scan(Decimal(n) + rest, 0) == Scan(rest, n)
  {
    var c := DigitChar(n % 10);
    if n >= 10 {
      assert Decimal(n) + rest == Decimal(n / 10) + ([c] + rest);
      ScanDecimal(n / 10, [c] + rest);
      assert ([c] + rest)[1..] == rest;
      assert (n / 10) * 10 + n % 10 == n;
    } else {
      assert Decimal(n) + rest == [c] + rest;
      assert ([c] + rest)[1..] == rest;
    }
  }

  /** Atoi reads back every int64 written in decimal, with or without a sign. */
  lemma AtoiDecimal(n: int)
    requires MinInt64 <= n <= MaxInt64
    ensures n >= 0 ==> Atoi(Decimal(n)) == n
    ensures n >= 0 ==> Atoi("+" + Decimal(n)) == n
    ensures n <= 0 ==> Atoi("-" + Decimal(-n)) == n
  {
    if n >= 0 {
      ScanDecimal(n, "");
      assert Decimal(n) + "" == Decimal(n);
      assert ("+" + Decimal(n))[1..] == Decimal(n);
    }
    if n <= 0 {
      ScanDecimal(-n, "");
      assert Decimal(-n) + "" == Decimal(-n);
      assert ("-" + Decimal(-n))[1..] == Decimal(-n);
    }
  }

  /** Every int64 formatted by %d reads back unchanged. */
  lemma FormatIntRoundTrip(n: int)
    requires MinInt64 <= n <= MaxInt64
    ensures Atoi(FormatInt(n)) == n
  {
    AtoiDecimal(n);
  }

  /** A value that does not start with a sign or a digit, or is a bare sign, reads as 0. */
  lemma AtoiNonNumeric(s: string)
    requires |s| > 0 && !IsDigit(s[0])
    requires s[0] == '+' || s[0] == '-' ==> |s| == 1 || !IsDigit(s[1])
    ensures Atoi(s) == 0
  {
  }
}
