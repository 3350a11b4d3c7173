/** Decimal column numbers: the tool's `parse_number`, which is
    `str::parse::<usize>` on a 64-bit target, and the decimal rendering that
    it inverts. */
module Numbers {
  import opened Outcomes

  /** The largest `usize` of a 64-bit target. */
  const USIZE_MAX: nat := 0xFFFF_FFFF_FFFF_FFFF

  predicate IsDigit(c: char) { '0' <= c <= '9' }

  predicate AllDigits(s: string) { forall i :: 0 <= i < |s| ==> IsDigit(s[i]) }

  function DigitValue(c: char): nat
    requires IsDigit(c)
  {
    c as int - '0' as int
  }

  /** The value of a string of decimal digits, most significant first. */
  function DigitsValue(d: string): nat
    requires AllDigits(d)
  {
    if |d| == 0 then 0 else 10 * DigitsValue(d[..|d| - 1]) + DigitValue(d[|d| - 1])
  }

  /** `parse_number`: an optional '+', then one or more ASCII digits whose
      value fits in a `usize`; anything else is the "Invalid number" panic. */
  function ParseNumber(s: string): (r: Result<nat>)
    ensures r.Ok? ==> r.value <= USIZE_MAX
    ensures r.Ok? ==> |s| > 0 && (IsDigit(s[0]) || s[0] == '+')
                      && exists i :: 0 <= i < |s| && IsDigit(s[i])
    ensures r.Ok? ==> forall i :: 0 < i < |s| ==> IsDigit(s[i])
    ensures r.Err? ==> r.error == InvalidNumber(s)
  {
    var digits := if |s| > 0 && s[0] == '+' then s[1..] else s;
    if |digits| == 0 || !AllDigits(digits) then Err(InvalidNumber(s))
    else
      assert IsDigit(digits[0]);
      var v := DigitsValue(digits);
      if v > USIZE_MAX then Err(InvalidNumber(s)) else Ok(v)
  }

  function Digit(d: nat): (c: char)
    requires d < 10
    ensures IsDigit(c) && DigitValue(c) == d
  {
    ('0' as int + d) as char
  }

  /** The shortest decimal rendering of `n`. */
  function Numeral(n: nat): (s: string)
    ensures |s| > 0 && AllDigits(s)
  {
    if n < 10 then [Digit(n)] else Numeral(n / 10) + [Digit(n % 10)]
  }

  lemma {:induction false} NumeralValue(n: nat)
    ensures DigitsValue(Numeral(n)) == n
  {
    if n >= 10 {
      NumeralValue(n / 10);
      var s := Numeral(n);
      assert s[..|s| - 1] == Numeral(n / 10);
    }
  }

  /** A numeral parses back to its value exactly when the value fits in a
      `usize`, with or without a leading '+'. */
  lemma ParseNumeral(n: nat)
    ensures ParseNumber(Numeral(n)) == if n <= USIZE_MAX then Ok(n) else Err(InvalidNumber(Numeral(n)))
    ensures ParseNumber(['+'] + Numeral(n))
            == if n <= USIZE_MAX then Ok(n) else Err(InvalidNumber(['+'] + Numeral(n)))
  {
    NumeralValue(n);
    var s := Numeral(n);
    assert IsDigit(s[0]);
    assert (['+'] + s)[1..] == s;
  }

  /** Leading zeros do not change the value. */
  lemma {:induction false} LeadingZero(d: string)
    requires AllDigits(d)
    ensures AllDigits(['0'] + d) && DigitsValue(['0'] + d) == DigitsValue(d)
    decreases |d|
  {
    if |d| > 0 {
      LeadingZero(d[..|d| - 1]);
      assert (['0'] + d)[..|d|] == ['0'] + d[..|d| - 1];
    } else {
      assert (['0'] + d)[..0] == [];
    }
  }

  /** Separators and signs never occur in a numeral. */
  lemma NumeralHasNoPunctuation(n: nat)
    ensures ',' !in Numeral(n) && '-' !in Numeral(n) && '+' !in Numeral(n)
  {
  }
}
