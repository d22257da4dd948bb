/** Decimal integers as Go prints them with %d and reads them with strconv.ParseInt(s, 10, 64). */
module Decimals {
  import opened Seqs

  const MIN_INT64: int := -0x8000_0000_0000_0000
  const MAX_INT64: int := 0x7fff_ffff_ffff_ffff

  predicate IsInt64(n: int) {
    MIN_INT64 <= n <= MAX_INT64
  }

  predicate IsDigit(c: char) {
    '0' <= c <= '9'
  }

  function DigitChar(d: nat): (c: char)
    requires d < 10
    ensures IsDigit(c) && DigitValue(c) == d
  {
    '0' + d as char
  }

  function DigitValue(c: char): nat
    requires IsDigit(c)
  {
    c as int - '0' as int
  }

  function FormatNat(n: nat): (s: string)
    ensures s != [] && forall i :: 0 <= i < |s| ==> IsDigit(s[i])
  {
    if n < 10 then [DigitChar(n)] else FormatNat(n / 10) + [DigitChar(n % 10)]
  }

  function FormatInt(n: int): (s: string)
    ensures s != []
  {
    if n < 0 then "-" + FormatNat(-n) else FormatNat(n)
  }

  /** The value of a run of digits; None when some character is not a digit. */
  function DigitsValue(s: string): Option<nat> {
    if s == [] then Some(0)
    else if !IsDigit(Last(s)) then None
    else
      match DigitsValue(Init(s))
      case None => None
      case Some(v) => Some(10 * v + DigitValue(Last(s)))
  }

  /** An optional sign and at least one digit, within 64 bits. */
  function ParseInt64(s: string): Option<int> {
    var signed := s != [] && (s[0] == '-' || s[0] == '+');
    var digits := if signed then s[1..] else s;
    if digits == [] then None
    else
      match DigitsValue(digits)
      case None => None
      case Some(v) =>
        var magnitude: int := v;
        var n := if signed && s[0] == '-' then -magnitude else magnitude;
        if IsInt64(n) then Some(n) else None
  }

  lemma {:induction false} DigitsRoundTrip(n: nat)
    ensures DigitsValue(FormatNat(n)) == Some(n)
  {
    if n >= 10 {
      var front := FormatNat(n / 10);
      DigitsRoundTrip(n / 10);
      InitLast(front, [DigitChar(n % 10)]);
      assert front + Init([DigitChar(n % 10)]) == front;
    } else {
      assert Init([DigitChar(n)]) == [];
    }
  }

  /** Any printed integer is read back if it has 64 bits, and is refused otherwise. */
  lemma ReadsExactly(n: int)
    ensures ParseInt64(FormatInt(n)) ==
      if -9223372036854775808 <= n <= 9223372036854775807 then Some(n) else None
  {
    if n < 0 {
      DigitsRoundTrip(-n);
      assert FormatInt(n)[1..] == FormatNat(-n);
    } else {
      DigitsRoundTrip(n);
      assert IsDigit(FormatNat(n)[0]);
    }
  }

  /** Reading a printed 64-bit integer gives it back. */
  lemma Int64RoundTrip(n: int)
    requires IsInt64(n)
    ensures ParseInt64(FormatInt(n)) == Some(n)
  {
    hide ParseInt64, FormatInt;
    ReadsExactly(n);
  }

  function Pow10(k: nat): nat {
    if k == 0 then 1 else 10 * Pow10(k - 1)
  }

  lemma {:induction false} FormatNatLength(n: nat, k: nat)
    requires k > 0 && n < Pow10(k)
    ensures |FormatNat(n)| <= k
  {
    if n >= 10 {
      FormatNatLength(n / 10, k - 1);
    }
  }

  /** A printed integer consists of digits and possibly a leading minus sign. */
  lemma FormatIntChars(n: int)
    ensures forall i :: 0 <= i < |FormatInt(n)| ==> IsDigit(FormatInt(n)[i]) || FormatInt(n)[i] == '-'
  {
  }

  lemma Int64Length(n: int)
    requires IsInt64(n)
    ensures |FormatInt(n)| <= 20
  {
    var m := if n < 0 then -n else n;
    assert Pow10(19) == 10_000_000_000_000_000_000 by {
      assert Pow10(4) == 10_000;
      assert Pow10(8) == 100_000_000;
      assert Pow10(12) == 1_000_000_000_000;
      assert Pow10(16) == 10_000_000_000_000_000;
    }
    FormatNatLength(m, 19);
  }
}
