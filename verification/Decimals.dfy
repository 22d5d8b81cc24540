/** Numbers as decimal text: how they are written, and how a 64-bit one is read back. */
module Decimals {

  import opened Results

  const INT64_LIMIT := 0x8000_0000_0000_0000

  function Digit(n: nat): char
    requires n < 10
  {
    '0' + n as char
  }

  function Decimal(n: nat): (r: string)
    ensures r != []
  {
    if n < 10 then [Digit(n)] else Decimal(n / 10) + [Digit(n % 10)]
  }

  predicate IsDigit(c: char) {
    '0' <= c <= '9'
  }

  /** A run of digits, and nothing else. */
  function ParseDigits(s: string): Option<nat> {
    if s == [] || !IsDigit(s[|s| - 1]) then None
    else
      var last := s[|s| - 1] as int - '0' as int;
      if |s| == 1 then Some(last)
      else
        match ParseDigits(s[..|s| - 1])
        case None => None
        case Some(n) => Some(10 * n + last)
  }

  /** A 64-bit number: digits after at most one sign, within its range. */
  function ParseInt(s: string): Option<int> {
    if s == [] then None
    else
      match ParseDigits(if s[0] == '+' || s[0] == '-' then s[1..] else s)
      case None => None
      case Some(n) =>
        var v: int := if s[0] == '-' then -(n as int) else n;
        if -INT64_LIMIT <= v < INT64_LIMIT then Some(v) else None
  }

  /** A number that is written is read back. */
  lemma {:induction false} DigitsAreRead(n: nat)
    ensures ParseDigits(Decimal(n)) == Some(n)
    ensures forall i :: 0 <= i < |Decimal(n)| ==> IsDigit(Decimal(n)[i])
  {
    var r := Decimal(n);
    assert r[|r| - 1] == Digit(n % 10);
    if n >= 10 {
      DigitsAreRead(n / 10);
      assert r[..|r| - 1] == Decimal(n / 10);
    }
  }

  /** Every 64-bit number from zero up that is written in decimal is read back. */
  lemma DecimalIsRead(n: nat)
    ensures ParseInt(Decimal(n)) == if n < INT64_LIMIT then Some(n) else None
  {
    DigitsAreRead(n);
    assert IsDigit(Decimal(n)[0]);
  }

  /** Different numbers are written differently. */
  lemma DecimalIsInjective(m: nat, n: nat)
    requires Decimal(m) == Decimal(n)
    ensures m == n
  {
    DigitsAreRead(m);
    DigitsAreRead(n);
  }
}
