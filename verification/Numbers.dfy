/** Unsigned decimal numbers as text. */
module Numbers {
  import opened Options

  predicate IsDigit(ch: char) {
    '0' <= ch <= '9'
  }

  predicate AllDigits(s: string) {
    forall k | 0 <= k < |s| :: IsDigit(s[k])
  }

  function DigitChar(d: nat): (ch: char)
    requires d < 10
    ensures IsDigit(ch) && ch as int - '0' as int == d
  {
    (d + '0' as int) as char
  }

  function Decimal(n: nat): (s: string)
    ensures s != "" && AllDigits(s)
  {
    if n < 10 then [DigitChar(n)] else Decimal(n / 10) + [DigitChar(n % 10)]
  }

  function Value(s: string): nat
    requires AllDigits(s)
  {
    if s == "" then 0 else 10 * Value(s[..|s| - 1]) + (s[|s| - 1] as int - '0' as int)
  }

  lemma {:induction false} DecimalHasValue(n: nat)
    ensures Value(Decimal(n)) == n
  {
    var s := Decimal(n);
    if n >= 10 {
      DecimalHasValue(n / 10);
      assert s[..|s| - 1] == Decimal(n / 10);
    } else {
      assert s[..|s| - 1] == "";
    }
  }

  /** Unsigned parsing: digits, behind an optional '+', of a number no greater than `max`. */
  function ParseUnsigned(s: string, max: nat): Option<nat> {
    var digits := if s != "" && s[0] == '+' then s[1..] else s;
    if digits == "" || !AllDigits(digits) || Value(digits) > max then None else Some(Value(digits))
  }

  lemma ParseDecimal(n: nat, max: nat)
    requires n <= max
    ensures ParseUnsigned(Decimal(n), max) == Some(n)
  {
    DecimalHasValue(n);
    assert IsDigit(Decimal(n)[0]);
  }

  // ----- zero padding -----

  function Zeros(count: nat): (s: string)
    ensures |s| == count && AllDigits(s)
    ensures forall k | 0 <= k < count :: s[k] == '0'
  {
    seq(count, _ => '0')
  }

  /** At least three digits. */
  function Padded(n: nat): (s: string)
    ensures |s| >= 3 && AllDigits(s)
  {
    var s := Decimal(n);
    if |s| < 3 then Zeros(3 - |s|) + s else s
  }

  lemma {:induction false} ValueOfPadded(zeros: nat, s: string)
    requires AllDigits(s)
    ensures AllDigits(Zeros(zeros) + s) && Value(Zeros(zeros) + s) == Value(s)
    decreases |s|, zeros
  {
    var t := Zeros(zeros) + s;
    if s != "" {
      ValueOfPadded(zeros, s[..|s| - 1]);
      assert t[..|t| - 1] == Zeros(zeros) + s[..|s| - 1];
    } else if zeros > 0 {
      ValueOfPadded(zeros - 1, s);
      assert t[..|t| - 1] == Zeros(zeros - 1) + s;
    }
  }

  /** Padded text has its number's value, and three digits unless the number has more. */
  lemma PaddedHasValue(n: nat)
    ensures Value(Padded(n)) == n && |Padded(n)| == if |Decimal(n)| < 3 then 3 else |Decimal(n)|
  {
    DecimalHasValue(n);
    if |Decimal(n)| < 3 {
      ValueOfPadded(3 - |Decimal(n)|, Decimal(n));
    }
  }

  /** Padding loses nothing: different numbers are written differently. */
  lemma PaddedIsInjective(m: nat, n: nat)
    requires Padded(m) == Padded(n)
    ensures m == n
  {
    PaddedHasValue(m);
    PaddedHasValue(n);
  }
}
