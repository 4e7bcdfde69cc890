/** Go's 64-bit `int` as used by the template engine: the truncating
    remainder operator, wrap-around subtraction, the decimal form `%v`
    prints, and `strconv.Atoi` with its error discarded. */
module GoInts {

  const MinInt64: int := -0x8000_0000_0000_0000
  const MaxInt64: int := 0x7fff_ffff_ffff_ffff
  const Modulus: int := 0x1_0000_0000_0000_0000

  type Int64 = x: int | MinInt64 <= x <= MaxInt64

  /** Go's `a % b` for a positive divisor: the result takes the sign of `a`
      (truncated division), unlike Dafny's Euclidean `%`. */
  function Rem(a: int, b: int): (r: int)
    requires b > 0
    ensures a >= 0 ==> 0 <= r < b
    ensures a < 0 ==> -b < r <= 0
    ensures (a - r) % b == 0
  {
    if a >= 0 then
      DivModUnique(a - a % b, b, a / b, 0);
      a % b
    else
      DivModUnique(a + (-a) % b, b, -((-a) / b), 0);
      -((-a) % b)
  }

  /** Euclidean quotient and remainder are the only pair satisfying the division equation. */
  lemma DivModUnique(x: int, b: int, q: int, m: int)
    requires b > 0 && 0 <= m < b && x == b * q + m
    ensures x / b == q && x % b == m
  {
    var d := q - x / b;
    assert b * d == x % b - m;
    SmallMultiple(b, d);
  }

  lemma SmallMultiple(b: int, d: int)
    requires b > 0 && -b < b * d < b
    ensures d == 0
  {
    if d > 0 {
      MulAtLeast(b, d);
    } else if d < 0 {
      MulAtLeast(b, -d);
    }
  }

  lemma MulAtLeast(b: int, d: int)
    requires b > 0 && d >= 1
    ensures b * d >= b
  {
  }

  /** Reduces an unbounded integer to the 64-bit two's-complement value with
      the same residue, as Go's integer arithmetic does on overflow. */
  function Wrap(x: int): (r: Int64)
    ensures (r - x) % Modulus == 0
    ensures MinInt64 <= x <= MaxInt64 ==> r == x
  {
    var m := x % Modulus;
    if m <= MaxInt64 then m else m - Modulus
  }

  /** Go's `a - b` on `int`. */
  function Sub(a: Int64, b: Int64): (r: Int64)
    ensures MinInt64 <= a - b <= MaxInt64 ==> r == a - b
    ensures (r - (a - b)) % Modulus == 0
  {
    Wrap(a - b)
  }

  /** Saturation applied by `strconv.ParseInt` when the digits are out of range. */
  function Clamp(x: int): (r: Int64)
    ensures x < MinInt64 ==> r == MinInt64
    ensures x > MaxInt64 ==> r == MaxInt64
    ensures MinInt64 <= x <= MaxInt64 ==> r == x
  {
    if x < MinInt64 then MinInt64 else if x > MaxInt64 then MaxInt64 else x
  }

  predicate IsDigitChar(c: char) {
    '0' <= c <= '9'
  }

  predicate AllDigits(s: string) {
    forall i :: 0 <= i < |s| ==> IsDigitChar(s[i])
  }

  function DigitChar(d: nat): (c: char)
    requires d < 10
    ensures IsDigitChar(c) && (c as int) - ('0' as int) == d
  {
    ['0', '1', '2', '3', '4', '5', '6', '7', '8', '9'][d]
  }

  /** The number a run of decimal digits denotes. */
  function DigitsValue(s: string): nat
    requires AllDigits(s)
  {
    if |s| == 0 then 0
    else 10 * DigitsValue(s[..|s| - 1]) + ((s[|s| - 1] as int) - ('0' as int))
  }

  /** Decimal digits of a natural number without leading zeros. */
  function Digits(n: nat): (s: string)
    ensures |s| > 0 && AllDigits(s)
    ensures |s| > 1 ==> s[0] != '0'
  {
    if n < 10 then [DigitChar(n)] else Digits(n / 10) + [DigitChar(n % 10)]
  }

  /** The text `fmt.Sprint` produces for a Go `int`. */
  function Decimal(i: int): (s: string)
    ensures |s| > 0
    ensures i < 0 <==> s[0] == '-'
    ensures i >= 0 ==> AllDigits(s)
    ensures i < 0 ==> AllDigits(s[1..])
  {
    if i < 0 then "-" + Digits(-i) else Digits(i)
  }

  const MaxUint64: int := 0xffff_ffff_ffff_ffff

  /** Outcome of `strconv.ParseUint(s, 10, 0)`: a syntax error, a range
      error (which also returns the largest uint64), or a value. */
  datatype UintScan = Bad | Saturated | Parsed(n: nat)

  /** The text after an optional leading sign. */
  function Unsigned(s: string): string {
    if |s| > 0 && (s[0] == '+' || s[0] == '-') then s[1..] else s
  }

  /** Length of the run of decimal digits that starts the text. */
  function DigitRun(s: string): (k: nat)
    ensures k <= |s| && AllDigits(s[..k])
    ensures k < |s| ==> !IsDigitChar(s[k])
  {
    if |s| > 0 && IsDigitChar(s[0]) then
      var k := 1 + DigitRun(s[1..]);
      assert forall i :: 1 <= i < k ==> s[..k][i] == s[1..][..k - 1][i - 1];
      k
    else 0
  }

  /** `ParseUint`'s loop from index `i` with `n` read so far: a non-digit is
      a syntax error, and a digit that takes the value past the largest
      uint64 stops the scan with a range error. */
  function ScanFrom(s: string, i: nat, n: nat): UintScan
    requires i <= |s| && n <= MaxUint64
    decreases |s| - i
  {
    if i == |s| then Parsed(n)
    else if !IsDigitChar(s[i]) then Bad
    else
      var n' := 10 * n + ((s[i] as int) - ('0' as int));
      if n' > MaxUint64 then Saturated else ScanFrom(s, i + 1, n')
  }

  /** `strconv.Atoi(s)` with the error ignored, as in `last.offset, _ = strconv.Atoi(..)`.
      An empty string, a lone sign or a syntax error give 0. A range error
      saturates to the int64 bound of the sign, and `ParseInt` clamps a value
      above it the same way. Atoi's fast path for short strings gives the
      same results, because fewer than 19 digits cannot overflow. */
  function Atoi(s: string): (r: Int64)
    ensures AllDigits(s) && |s| > 0 ==> r == Clamp(DigitsValue(s))
    ensures |s| > 1 && s[0] == '-' && AllDigits(s[1..]) ==> r == Clamp(-(DigitsValue(s[1..]) as int))
    ensures |s| > 1 && s[0] == '+' && AllDigits(s[1..]) ==> r == Clamp(DigitsValue(s[1..]))
    ensures |Unsigned(s)| == 0 ==> r == 0
    ensures var b := Unsigned(s); var k := DigitRun(b);
              k < |b| && DigitsValue(b[..k]) <= MaxUint64 ==> r == 0
    ensures var b := Unsigned(s); var k := DigitRun(b);
              DigitsValue(b[..k]) > MaxUint64 ==> r == (if s[0] == '-' then MinInt64 else MaxInt64)
  {
    if |s| == 0 then 0
    else
      var b := Unsigned(s);
      var u := if |b| == 0 then Bad else ScanFrom(b, 0, 0);
      ScanMatchesDigitRun(b, 0);
      assert b[..DigitRun(b)] == b ==> AllDigits(b);
      match u
      case Bad => 0
      case Saturated => if s[0] == '-' then MinInt64 else MaxInt64
      case Parsed(n) => if s[0] == '-' then Clamp(-(n as int)) else Clamp(n)
  }

  /** The left-to-right scan agrees with the value of the leading digit run:
      it saturates exactly when that value exceeds the largest uint64, and
      otherwise stops at the first non-digit or yields the value. */
  lemma {:induction false} ScanMatchesDigitRun(b: string, i: nat)
    requires i <= DigitRun(b)
    requires DigitsValue(b[..i]) <= MaxUint64
    ensures var k := DigitRun(b);
              ScanFrom(b, i, DigitsValue(b[..i])) ==
                if DigitsValue(b[..k]) > MaxUint64 then Saturated
                else if k < |b| then Bad
                else Parsed(DigitsValue(b[..k]))
    decreases |b| - i
  {
    var k := DigitRun(b);
    if i < k {
      assert b[..i + 1][..i] == b[..i];
      var n' := DigitsValue(b[..i + 1]);
      if n' > MaxUint64 {
        DigitPrefixGrows(b, i + 1, k);
      } else {
        ScanMatchesDigitRun(b, i + 1);
      }
    }
  }

  /** Digits past the uint64 range saturate even when junk follows them. */
  lemma AtoiOverflowBeforeJunk(nines: string, b: string)
    requires nines == "99999999999999999999" && b == nines + "x"
    ensures Atoi(b) == MaxInt64
    ensures Atoi("-" + b) == MinInt64
  {
    NinesValue(nines);
    TwentyNines();
    assert b[..20] == nines;
    assert !IsDigitChar(b[20]);
    assert DigitRun(b) == 20;
    assert Unsigned(b) == b;
    assert Unsigned("-" + b) == b;
  }

  /** Junk before any overflow is a syntax error, so it gives 0. */
  lemma AtoiJunk()
    ensures Atoi("12x") == 0
  {
    var b := "12x";
    assert b[..2] == "12";
    assert DigitRun(b) == 2;
  }

  lemma TwentyNines()
    ensures DigitsValue("99999999999999999999") > MaxUint64
  {
    NinesValue("99999999999999999999");
    assert Pow10(5) == 100000;
    assert Pow10(10) == 10000000000;
    assert Pow10(15) == 1000000000000000;
    assert Pow10(20) == 100000000000000000000;
  }

  function Pow10(n: nat): nat {
    if n == 0 then 1 else 10 * Pow10(n - 1)
  }

  /** A run of nines is one less than the next power of ten. */
  lemma {:induction false} NinesValue(s: string)
    requires forall i :: 0 <= i < |s| ==> s[i] == '9'
    ensures AllDigits(s) && DigitsValue(s) + 1 == Pow10(|s|)
  {
    if |s| > 0 {
      NinesValue(s[..|s| - 1]);
    }
  }

  /** Extending a run of digits never lowers its value. */
  lemma {:induction false} DigitPrefixGrows(b: string, i: nat, j: nat)
    requires i <= j <= |b| && AllDigits(b[..j])
    ensures DigitsValue(b[..i]) <= DigitsValue(b[..j])
    decreases j - i
  {
    if i < j {
      assert b[..j][..j - 1] == b[..j - 1];
      DigitPrefixGrows(b, i, j - 1);
    }
  }

  lemma {:induction false} DigitsValueOfDigits(n: nat)
    ensures DigitsValue(Digits(n)) == n
  {
    if n >= 10 {
      var s := Digits(n);
      var front := Digits(n / 10);
      assert s == front + [DigitChar(n % 10)];
      assert s[..|s| - 1] == front;
      DigitsValueOfDigits(n / 10);
    }
  }

  /** Parsing what `%v` prints for an int gives the int back. */
  lemma AtoiDecimal(i: Int64)
    ensures Atoi(Decimal(i)) == i
  {
    var s := Decimal(i);
    if i < 0 {
      var n: nat := -(i as int);
      assert s[1..] == Digits(n);
      DigitsValueOfDigits(n);
      assert |s| > 1 && s[0] == '-' && AllDigits(s[1..]) && DigitsValue(s[1..]) == n;
    } else {
      DigitsValueOfDigits(i);
      assert AllDigits(s) && |s| > 0 && DigitsValue(s) == i;
    }
  }
}
