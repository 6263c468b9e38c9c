/**
 * Decimal text of integers: the value of a run of digits (what `std::stoi`
 * computes for the digit runs the scanner collects) and the text
 * `std::to_string` produces, with their round trips.
 */
module Decimal {

  datatype Option<T> = None | Some(value: T)

  /** The scanner's DIGITS table. */
  const Digits: set<char> := {'0', '1', '2', '3', '4', '5', '6', '7', '8', '9'}

  predicate AllDigits(s: seq<char>) {
    forall k :: 0 <= k < |s| ==> s[k] in Digits
  }

  function DigitValue(c: char): (d: nat)
    requires c in Digits
    ensures d < 10
  {
    (c as int) - ('0' as int)
  }

  function DigitChar(d: nat): (c: char)
    requires d < 10
    ensures c in Digits && DigitValue(c) == d
  {
    (('0' as int) + d) as char
  }

  /** The number a run of decimal digits denotes (leading zeros allowed). */
  function Value(s: seq<char>): nat
    requires AllDigits(s)
    decreases |s|
  {
    if s == [] then 0 else 10 * Value(s[..|s| - 1]) + DigitValue(s[|s| - 1])
  }

  /** Decimal text of a natural number, without leading zeros. */
  function NatToString(n: nat): (s: string)
    ensures |s| > 0 && AllDigits(s)
    ensures |s| > 1 ==> s[0] != '0'
  {
    if n < 10 then [DigitChar(n)] else NatToString(n / 10) + [DigitChar(n % 10)]
  }

  /** `std::to_string` on an int: a minus sign, then the digits of the magnitude. */
  function IntToString(i: int): string {
    if i < 0 then "-" + NatToString(-i) else NatToString(i)
  }

  /** Reads back the text `IntToString` writes; anything else is rejected. */
  function ParseInt(s: string): Option<int> {
    if |s| > 1 && s[0] == '-' && AllDigits(s[1..]) then
      var magnitude: int := Value(s[1..]);
      Some(-magnitude)
    else if |s| > 0 && AllDigits(s) then Some(Value(s))
    else None
  }

  lemma {:induction false} ValueOfNatToString(n: nat)
    ensures Value(NatToString(n)) == n
  {
    if n >= 10 {
      ValueOfNatToString(n / 10);
      var s := NatToString(n);
      assert s[..|s| - 1] == NatToString(n / 10);
    }
  }

  lemma ParseIntToString(i: int)
    ensures ParseInt(IntToString(i)) == Some(i)
  {
    var s := IntToString(i);
    if i < 0 {
      var m := NatToString(-i);
      assert s == "-" + m && s[1..] == m;
      ValueOfNatToString(-i);
    } else {
      ValueOfNatToString(i);
      assert s[0] in Digits;
    }
  }

  lemma NatToStringInjective(a: nat, b: nat)
    requires NatToString(a) == NatToString(b)
    ensures a == b
  {
    ValueOfNatToString(a);
    ValueOfNatToString(b);
  }
}
