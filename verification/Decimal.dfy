/** Decimal numerals: what `to_string` prints and what the decoders read back. */
module Decimal {
  import opened ByteStrings
  import opened Wrappers

  const ZERO: byte := 0x30
  const MINUS: byte := 0x2D
  const PLUS: byte := 0x2B

  predicate IsDigit(b: byte) {
    0x30 <= b <= 0x39
  }

  predicate AllDigits(s: Bytes) {
    forall i :: 0 <= i < |s| ==> IsDigit(s[i])
  }

  /** The canonical numeral of n. */
  function Numeral(n: nat): (s: Bytes)
    ensures |s| > 0 && AllDigits(s)
    ensures |s| > 1 ==> s[0] != ZERO
  {
    if n < 10 then [ZERO + n] else Numeral(n / 10) + [ZERO + n % 10]
  }

  function SignedNumeral(n: int): Bytes {
    if n < 0 then [MINUS] + Numeral(-n) else Numeral(n)
  }

  function NumeralValue(s: Bytes): nat
    requires AllDigits(s)
  {
    if s == [] then 0 else 10 * NumeralValue(s[..|s| - 1]) + (s[|s| - 1] - ZERO)
  }

  lemma {:induction false} NumeralRoundTrip(n: nat)
    ensures NumeralValue(Numeral(n)) == n
  {
    if n >= 10 {
      NumeralRoundTrip(n / 10);
      assert Numeral(n)[..|Numeral(n)| - 1] == Numeral(n / 10);
    } else {
      assert [ZERO + n][..0] == [];
    }
  }

  /** No digit string of the same value is shorter than the canonical numeral. */
  lemma {:induction false} NumeralShortest(s: Bytes)
    requires AllDigits(s) && s != []
    ensures |Numeral(NumeralValue(s))| <= |s|
  {
    if |s| > 1 {
      NumeralShortest(s[..|s| - 1]);
      var v := NumeralValue(s);
      assert v / 10 == NumeralValue(s[..|s| - 1]);
    } else {
      assert s[..0] == [];
      assert NumeralValue(s) == s[0] - ZERO;
    }
  }


  /** The standard library's `i64::from_str`: an optional sign, at least one digit, in range. */
  function ParseI64(s: Bytes): Option<i64> {
    if s == [] then None
    else
      var digits := if s[0] == MINUS || s[0] == PLUS then s[1..] else s;
      if digits == [] || !AllDigits(digits) then None
      else
        var magnitude: int := NumeralValue(digits);
        var v: int := if s[0] == MINUS then -magnitude else magnitude;
        if I64_MIN <= v <= I64_MAX then Some(v) else None
  }

  lemma {:induction false} SignedRoundTrip(n: i64)
    ensures ParseI64(SignedNumeral(n)) == Some(n)
  {
    if n < 0 {
      var m: nat := -(n as int);
      NumeralRoundTrip(m);
      assert SignedNumeral(n) == [MINUS] + Numeral(m);
    } else {
      NumeralRoundTrip(n);
      assert IsDigit(Numeral(n)[0]);
    }
  }

  lemma {:induction false} SignedShortest(s: Bytes)
    requires ParseI64(s).Some?
    ensures |SignedNumeral(ParseI64(s).value)| <= |s|
  {
    var digits := if s[0] == MINUS || s[0] == PLUS then s[1..] else s;
    NumeralShortest(digits);
  }
}
