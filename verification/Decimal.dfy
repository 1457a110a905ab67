/** `strconv.FormatInt` and `strconv.ParseInt` in base 10 with 64 bits. */
module Decimal {
  import opened Options

  const MaxInt64 := 0x7FFF_FFFF_FFFF_FFFF

  predicate IsDigit(c: char) {
    '0' <= c <= '9'
  }

  function Digit(d: nat): (c: char)
    requires d < 10
    ensures IsDigit(c)
  {
    '0' + d as char
  }

  function Format(n: nat): (s: string)
    ensures |s| > 0 && forall i | 0 <= i < |s| :: IsDigit(s[i])
  {
    if n < 10 then [Digit(n)] else Format(n / 10) + [Digit(n % 10)]
  }

  function FormatInt(n: int): string {
    if n < 0 then "-" + Format(-n) else Format(n)
  }

  /** Value of a digit string; None if it is empty or holds anything but digits. */
  function Digits(s: string): Option<nat>
    decreases |s|
  {
    if s == [] || !IsDigit(s[|s| - 1]) then None
    else
      var d := s[|s| - 1] as int - '0' as int;
      if |s| == 1 then Some(d)
      else match Digits(s[..|s| - 1])
        case None => None
        case Some(v) => Some(10 * v + d)
  }

  function ParseInt(s: string): Option<int> {
    var signed := s != [] && (s[0] == '-' || s[0] == '+');
    match Digits(if signed then s[1..] else s)
    case None => None
    case Some(magnitude) =>
      var v: int := magnitude;
      if signed && s[0] == '-' then (if v <= MaxInt64 + 1 then Some(-v) else None)
      else if v <= MaxInt64 then Some(v) else None
  }

  lemma {:induction false} DigitsOfFormat(n: nat)
    ensures Digits(Format(n)) == Some(n)
  {
    if n >= 10 {
      DigitsOfFormat(n / 10);
      assert Format(n)[..|Format(n)| - 1] == Format(n / 10);
    }
  }

  /** Parsing inverts formatting on every int64. */
  lemma ParseOfFormat(n: int)
    requires -MaxInt64 - 1 <= n <= MaxInt64
    ensures ParseInt(FormatInt(n)) == Some(n)
  {
    if n < 0 {
      DigitsOfFormat(-n);
      assert FormatInt(n)[1..] == Format(-n);
    } else {
      DigitsOfFormat(n);
      assert IsDigit(Format(n)[0]);
    }
  }
}
