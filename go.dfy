/** The parts of Go's semantics the model depends on: integer division that
    truncates toward zero, `%d` formatting, and durations counted in
    nanoseconds as `time.Duration` counts them. */
module Go {

  /** A value that may be nil, or an error that may be absent. */
  datatype Option<T> = None | Some(value: T)

  /** One second and one minute of `time.Duration`, in nanoseconds. */
  const SECOND: int := 1_000_000_000
  const MINUTE: int := 60 * SECOND

  function Abs(x: int): nat {
    if x < 0 then -x else x
  }

  /** Go's `a / b` on signed integers: the quotient truncated toward zero
      (Dafny's own `/` is Euclidean and differs for negative operands). */
  function Quot(a: int, b: int): (q: int)
    requires b != 0
    ensures Abs(q) == Abs(a) / Abs(b)
    ensures q > 0 ==> (a > 0) == (b > 0)
    ensures q < 0 ==> (a > 0) != (b > 0)
    ensures a >= 0 && b > 0 ==> q == a / b
  {
    var m := Abs(a) / Abs(b);
    NonNegativeQuotient(Abs(a), Abs(b));
    if (a >= 0) == (b > 0) then m else -m
  }

  /** The quotient of naturals is a natural, and 0 when the dividend is 0. */
  lemma NonNegativeQuotient(n: nat, d: nat)
    requires d > 0
    ensures n / d >= 0
    ensures n == 0 ==> n / d == 0
  {
  }

  function DigitChar(d: nat): char
    requires d < 10
  {
    ('0' as int + d) as char
  }

  function DigitValue(c: char): nat {
    if '0' <= c <= '9' then (c as int - '0' as int) as nat else 0
  }

  /** The decimal digits of `n`, most significant first, as `%d` prints them. */
  function Digits(n: nat): (s: string)
    ensures |s| > 0
    ensures forall i :: 0 <= i < |s| ==> '0' <= s[i] <= '9'
  {
    if n < 10 then [DigitChar(n)] else Digits(n / 10) + [DigitChar(n % 10)]
  }

  /** The number a string of decimal digits denotes. */
  function Value(s: string): nat {
    if s == [] then 0 else 10 * Value(s[..|s| - 1]) + DigitValue(s[|s| - 1])
  }

  /** `fmt.Sprintf("%d", i)`. */
  function Itoa(i: int): (s: string)
    ensures |s| > 0
    ensures (s[0] == '-') <==> i < 0
  {
    if i < 0 then "-" + Digits(-i) else Digits(i)
  }

  /** Reading the printed digits back gives the number: `%d` loses nothing. */
  lemma {:induction false} DigitsRoundTrip(n: nat)
    ensures Value(Digits(n)) == n
  {
    var s := Digits(n);
    var last := s[|s| - 1];
    if n < 10 {
      DigitRoundTrip(n);
      assert s[..|s| - 1] == [];
      assert Value(s) == DigitValue(last);
    } else {
      var high, low := n / 10, n % 10;
      assert s == Digits(high) + [DigitChar(low)];
      assert s[..|s| - 1] == Digits(high);
      DigitsRoundTrip(high);
      DigitRoundTrip(low);
      assert Value(s) == 10 * high + low;
    }
  }

  lemma DigitRoundTrip(d: nat)
    requires d < 10
    ensures DigitValue(DigitChar(d)) == d
  {
  }

  /** The number `Itoa` printed, read back from its text. */
  function Parse(s: string): int {
    if |s| > 0 && s[0] == '-' then 0 - Value(s[1..]) else Value(s)
  }

  /** `Parse` inverts `Itoa`, so distinct integers print differently and a
      message built with `%d` identifies the number in it. */
  lemma {:induction false} ItoaRoundTrip(i: int)
    ensures Parse(Itoa(i)) == i
  {
    if i < 0 {
      NegativeRoundTrip(i);
    } else {
      NonNegativeRoundTrip(i);
    }
  }

  lemma {:induction false} NegativeRoundTrip(i: int)
    requires i < 0
    ensures Parse(Itoa(i)) == i
  {
    var s := Itoa(i);
    var d := Digits(-i);
    assert s == "-" + d;
    assert s[0] == '-' && s[1..] == d;
    DigitsRoundTrip(-i);
    assert Parse(s) == 0 - Value(d);
  }

  lemma {:induction false} NonNegativeRoundTrip(i: int)
    requires i >= 0
    ensures Parse(Itoa(i)) == i
  {
    ParseNonNegative(i);
    DigitsRoundTrip(i);
  }

  lemma {:induction false} ParseNonNegative(i: int)
    requires i >= 0
    ensures Parse(Itoa(i)) == Value(Digits(i))
  {
    var d := Digits(i);
    assert Itoa(i) == d && '0' <= d[0] <= '9';
  }
}
