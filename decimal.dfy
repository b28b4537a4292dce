/** Decimal digit strings: the rendering `strconv.Itoa` performs for
    `ObjectIdentifier.String`, and the left-to-right accumulation
    `sid = sid*10 + digit` that `ParseObjectIdentifier` performs on a run of
    digits. Characters are ASCII. */
module Decimal {

  predicate IsDigit(c: char) {
    '0' <= c <= '9'
  }

  predicate AllDigits(d: string) {
    forall i | 0 <= i < |d| :: IsDigit(d[i])
  }

  function DigitValue(c: char): (v: nat)
    requires IsDigit(c)
    ensures v < 10
  {
    c as int - '0' as int
  }

  function DigitChar(v: nat): (c: char)
    requires v < 10
    ensures IsDigit(c) && DigitValue(c) == v
  {
    ('0' as int + v) as char
  }

  /** The value of a run of digits, accumulated from the left as value*10 + digit. */
  function DecValue(d: string): nat
    requires AllDigits(d)
  {
    if d == [] then 0 else DecValue(d[..|d| - 1]) * 10 + DigitValue(d[|d| - 1])
  }

  /** The canonical decimal digits of n: never empty, and without a leading
      zero except for zero itself, which is "0". */
  function NatDigits(n: nat): (d: string)
    ensures |d| >= 1 && AllDigits(d)
    ensures (d[0] == '0') == (n == 0)
    ensures n == 0 ==> d == "0"
  {
    if n < 10 then [DigitChar(n)] else NatDigits(n / 10) + [DigitChar(n % 10)]
  }

  /** Reading back the canonical digits of n gives n. */
  lemma {:induction false} DecValueOfNatDigits(n: nat)
    ensures DecValue(NatDigits(n)) == n
  {
    var d := NatDigits(n);
    if n < 10 {
      assert d[..0] == [];
    } else {
      assert d[..|d| - 1] == NatDigits(n / 10);
      DecValueOfNatDigits(n / 10);
    }
  }

  /** `strconv.Itoa`: decimal text of an int, with a leading '-' when negative. */
  function Itoa(v: int): (r: string)
    ensures |r| >= 1
    ensures forall i | 0 <= i < |r| :: r[i] != '.'
    ensures IsDigit(r[0]) <==> v >= 0
    ensures v >= 0 ==> AllDigits(r) && DecValue(r) == v
    ensures v < 0 ==> r[0] == '-' && AllDigits(r[1..]) && DecValue(r[1..]) == -v
  {
    if v < 0 then
      DecValueOfNatDigits(-v);
      assert ("-" + NatDigits(-v))[1..] == NatDigits(-v);
      "-" + NatDigits(-v)
    else
      DecValueOfNatDigits(v);
      NatDigits(v)
  }
}
