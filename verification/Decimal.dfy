/** Decimal printing and parsing as `strconv` does it. */
module Decimal {
  import opened Wrappers

  const MAX_UINT64 := 0xFFFF_FFFF_FFFF_FFFF
  const MAX_INT64 := 0x7FFF_FFFF_FFFF_FFFF
  const MIN_INT64 := -0x8000_0000_0000_0000

  predicate IsDigit(c: char) {
    '0' <= c <= '9'
  }

  function Digit(d: nat): (c: char)
    requires d < 10
    ensures IsDigit(c) && DigitValue(c) == d
  {
    '0' + d as char
  }

  function DigitValue(c: char): (d: nat)
    requires IsDigit(c)
    ensures d < 10
  {
    (c - '0') as nat
  }

  predicate AllDigits(s: string) {
    forall i | 0 <= i < |s| :: IsDigit(s[i])
  }

  function PrintNat(n: nat): (s: string)
    ensures s != "" && AllDigits(s)
  {
    if n < 10 then [Digit(n)] else PrintNat(n / 10) + [Digit(n % 10)]
  }

  function ValueOf(s: string): nat
    requires AllDigits(s)
  {
    if s == "" then 0 else 10 * ValueOf(s[..|s| - 1]) + DigitValue(s[|s| - 1])
  }

  lemma {:induction false} PrintedValue(n: nat)
    ensures ValueOf(PrintNat(n)) == n
  {
    var s := PrintNat(n);
    if n < 10 {
      assert s[..|s| - 1] == "";
    } else {
      assert s[..|s| - 1] == PrintNat(n / 10);
      PrintedValue(n / 10);
    }
  }

  function Itoa(n: int): (s: string)
    ensures s != ""
  {
    if n < 0 then "-" + PrintNat(-n) else PrintNat(n)
  }

  /** The value an ignored error leaves behind: zero for a malformed text, the nearest bound for one out of range. */
  function AtoiValue(s: string): (n: int)
    ensures MIN_INT64 <= n <= MAX_INT64
  {
    var signed := s != "" && (s[0] == '-' || s[0] == '+');
    var digits := if signed then s[1..] else s;
    if digits == "" || !AllDigits(digits) then 0
    else
      var n: int := if signed && s[0] == '-' then 0 - ValueOf(digits) else ValueOf(digits);
      if n > MAX_INT64 then MAX_INT64 else if n < MIN_INT64 then MIN_INT64 else n
  }

  lemma ItoaAtoi(n: int)
    requires MIN_INT64 <= n <= MAX_INT64
    ensures AtoiValue(Itoa(n)) == n
  {
    var s := Itoa(n);
    if n < 0 {
      assert s[1..] == PrintNat(-n);
      PrintedValue(-n);
    } else {
      assert IsDigit(s[0]);
      PrintedValue(n);
    }
  }

  function ParseUint64(s: string): (r: Option<nat>)
    ensures r.Some? ==> r.value <= MAX_UINT64
  {
    if s == "" || !AllDigits(s) || ValueOf(s) > MAX_UINT64 then None else Some(ValueOf(s))
  }

  lemma PrintParseUint64(n: nat)
    requires n <= MAX_UINT64
    ensures ParseUint64(PrintNat(n)) == Some(n)
  {
    PrintedValue(n);
  }
}
