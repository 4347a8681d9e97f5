/** Decimal text. */
module Digits {

  datatype Option<+T> = None | Some(value: T)

  predicate IsDigit(c: char) {
    '0' <= c <= '9'
  }

  function DigitChar(d: nat): char
    requires d < 10
  {
    '0' + d as char
  }

  function DigitValue(c: char): nat
    requires IsDigit(c)
  {
    (c - '0') as nat
  }

  /** Decimal value of a string of digits, most significant first. */
  function Decimal(s: string): Option<nat>
    decreases |s|
  {
    if s == [] then Some(0)
    else
      match Decimal(s[..|s| - 1])
      case None => None
      case Some(v) => if IsDigit(s[|s| - 1]) then Some(10 * v + DigitValue(s[|s| - 1])) else None
  }

  lemma DecimalAppend(s: string, d: nat)
    requires d < 10 && Decimal(s).Some?
    ensures Decimal(s + [DigitChar(d)]) == Some(10 * Decimal(s).value + d)
  {
    assert (s + [DigitChar(d)])[..|s|] == s;
    assert DigitValue(DigitChar(d)) == d;
  }
}
