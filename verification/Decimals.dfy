/** Numbers as text, the way Go's strconv writes and reads them. */
module Decimals {
  import opened Events

  predicate IsDigit(c: char) {
    '0' <= c <= '9'
  }

  function DigitOf(d: nat): (c: char)
    requires d < 10
    ensures IsDigit(c) && ValueOf(c) == d
  {
    ('0' as int + d) as char
  }

  function ValueOf(c: char): (d: nat)
    requires IsDigit(c)
    ensures d < 10
  {
    c as int - '0' as int
  }

  predicate AllDigits(s: string) {
    forall i :: 0 <= i < |s| ==> IsDigit(s[i])
  }

  function FormatNat(n: nat): (s: string)
    ensures s != "" && AllDigits(s)
  {
    if n < 10 then [DigitOf(n)] else FormatNat(n / 10) + [DigitOf(n % 10)]
  }

  /** At least one digit and nothing else. */
  function ParseNat(s: string): (n: Option<nat>)
    ensures n.Some? <==> s != "" && AllDigits(s)
  {
    if s == "" || !IsDigit(s[|s| - 1]) then None
    else if |s| == 1 then Some(ValueOf(s[0]))
    else
      assert s == s[..|s| - 1] + [s[|s| - 1]];
      match ParseNat(s[..|s| - 1])
      case None => None
      case Some(n) => Some(10 * n + ValueOf(s[|s| - 1]))
  }

  lemma {:induction false} NatRoundTrip(n: nat)
    ensures ParseNat(FormatNat(n)) == Some(n)
  {
    if n >= 10 {
      NatRoundTrip(n / 10);
      assert FormatNat(n)[..|FormatNat(n)| - 1] == FormatNat(n / 10);
    }
  }

  function FormatInt(i: int): string {
    if i < 0 then "-" + FormatNat(-i) else FormatNat(i)
  }

  predicate Fits(i: int, bits: nat) {
    -Power2(bits - 1) <= i < Power2(bits - 1)
  }

  function Power2(n: int): (p: int)
    ensures p >= 1
  {
    if n <= 0 then 1 else 2 * Power2(n - 1)
  }

  lemma {:induction false} PowersMultiply(a: nat, b: nat)
    ensures Power2(a + b) == Power2(a) * Power2(b)
  {
    if a > 0 {
      PowersMultiply(a - 1, b);
    }
  }

  lemma {:induction false} WidthPowers()
    ensures Power2(31) == 2_147_483_648 && Power2(63) == 9_223_372_036_854_775_808
  {
    assert Power2(1) == 2 && Power2(3) == 8 && Power2(7) == 128;
    hide Power2;
    PowersMultiply(7, 7);
    PowersMultiply(14, 14);
    PowersMultiply(28, 3);
    PowersMultiply(31, 31);
    PowersMultiply(62, 1);
  }

  /** INTEGER and BIGINT. */
  lemma {:induction false} FitsExactly(i: int)
    ensures Fits(i, 32) <==> -2_147_483_648 <= i <= 2_147_483_647
    ensures Fits(i, 64) <==> -9_223_372_036_854_775_808 <= i <= 9_223_372_036_854_775_807
  {
    WidthPowers();
    hide Power2;
  }

  /** Base 10: an optional sign, then digits; the value must fit the signed width. */
  function ParseInt(s: string, bits: nat): Option<int> {
    var negative := s != "" && s[0] == '-';
    var digits := if s != "" && (s[0] == '-' || s[0] == '+') then s[1..] else s;
    match ParseNat(digits)
    case None => None
    case Some(n) =>
      var i := if negative then -(n as int) else n as int;
      if Fits(i, bits) then Some(i) else None
  }

  /** Reading back what was written succeeds exactly within the width. */
  lemma {:induction false} IntRoundTrip(i: int, bits: nat)
    ensures ParseInt(FormatInt(i), bits) == if Fits(i, bits) then Some(i) else None
  {
    hide Fits, FormatNat, ParseNat;
    if i < 0 {
      NatRoundTrip(-i);
      assert FormatInt(i)[1..] == FormatNat(-i);
    } else {
      NatRoundTrip(i);
      assert IsDigit(FormatNat(i)[0]);
    }
  }

  // ------------------------------------------------ amounts of cents

  /** The shortest decimal form: 12, 12.5 or 12.34. */
  function FormatCents(c: nat): string {
    var units, rest := FormatNat(c / 100), c % 100;
    if rest == 0 then units
    else if rest % 10 == 0 then units + "." + [DigitOf(rest / 10)]
    else units + "." + [DigitOf(rest / 10), DigitOf(rest % 10)]
  }

  function FormatPrice(cents: int): string {
    if cents < 0 then "-" + FormatCents(-cents) else FormatCents(cents)
  }

  /** Digits, and at most two more behind a point. */
  function ParseCents(s: string): Option<nat> {
    var n := |s|;
    if n >= 3 && s[n - 3] == '.' && IsDigit(s[n - 2]) && IsDigit(s[n - 1]) && ParseNat(s[..n - 3]).Some? then
      Some(100 * ParseNat(s[..n - 3]).value + 10 * ValueOf(s[n - 2]) + ValueOf(s[n - 1]))
    else if n >= 2 && s[n - 2] == '.' && IsDigit(s[n - 1]) && ParseNat(s[..n - 2]).Some? then
      Some(100 * ParseNat(s[..n - 2]).value + 10 * ValueOf(s[n - 1]))
    else
      match ParseNat(s)
      case None => None
      case Some(units) => Some(100 * units)
  }

  function ParsePrice(s: string): Option<int> {
    var negative := s != "" && s[0] == '-';
    match ParseCents(if negative then s[1..] else s)
    case None => None
    case Some(c) =>
      var cents := if negative then -(c as int) else c as int;
      Some(cents)
  }

  lemma {:induction false} CentsRoundTrip(c: nat)
    ensures ParseCents(FormatCents(c)) == Some(c) && FormatCents(c) != "" && FormatCents(c)[0] != '-'
  {
    hide FormatNat, ParseNat;
    var units, rest := FormatNat(c / 100), c % 100;
    var s, n := FormatCents(c), |FormatCents(c)|;
    NatRoundTrip(c / 100);
    assert IsDigit(units[0]) && s[0] == units[0];
    if rest == 0 {
      assert AllDigits(s);
    } else if rest % 10 == 0 {
      assert s[..n - 2] == units;
      assert s[n - 2] == '.';
    } else {
      assert s[..n - 3] == units;
    }
  }

  lemma {:induction false} PriceRoundTrip(cents: int)
    ensures ParsePrice(FormatPrice(cents)) == Some(cents)
  {
    hide FormatCents, ParseCents;
    if cents < 0 {
      CentsRoundTrip(-cents);
      assert FormatPrice(cents)[1..] == FormatCents(-cents);
    } else {
      CentsRoundTrip(cents);
    }
  }

  lemma {:induction false} ShortestNat(s: string)
    requires ParseNat(s).Some?
    ensures |FormatNat(ParseNat(s).value)| <= |s|
  {
    if |s| > 1 {
      ShortestNat(s[..|s| - 1]);
    }
  }

  lemma {:induction false} ShortestCents(s: string)
    requires ParseCents(s).Some?
    ensures |FormatCents(ParseCents(s).value)| <= |s|
  {
    hide FormatNat, ParseNat;
    var n := |s|;
    forall k | 0 <= k <= n && ParseNat(s[..k]).Some? ensures |FormatNat(ParseNat(s[..k]).value)| <= k {
      ShortestNat(s[..k]);
    }
    assert s[..n] == s;
  }

  /** No other text that reads as the amount is shorter than the one written. */
  lemma {:induction false} ShortestPrice(s: string)
    requires ParsePrice(s).Some?
    ensures |FormatPrice(ParsePrice(s).value)| <= |s|
  {
    hide FormatCents, ParseCents;
    ShortestCents(if s != "" && s[0] == '-' then s[1..] else s);
    NothingWritten();
  }

  lemma {:induction false} NothingWritten()
    ensures FormatCents(0) == "0"
  {
  }
}
