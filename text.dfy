/** Text helpers used by the bridge: substring search and decimal rendering of integers. */
module Text {

  import opened Common

  /** `t` occurs in `s` starting at position `i`. */
  predicate OccursAt(s: string, t: string, i: int)
  {
    0 <= i && i + |t| <= |s| && s[i..i + |t|] == t
  }

  /** Substring search, as `str::contains`: scans `s` left to right for an occurrence of `t`. */
  predicate Contains(s: string, t: string)
    ensures Contains(s, t) ==> |t| <= |s|
    ensures |t| == 0 ==> Contains(s, t)
    decreases |s|
  {
    if |t| <= |s| && s[..|t|] == t then true
    else if |s| == 0 then false
    else Contains(s[1..], t)
  }

  /** `Contains` holds exactly when `t` occurs at some position of `s`. */
  lemma {:induction false} ContainsIffOccurs(s: string, t: string)
    ensures Contains(s, t) <==> exists i :: OccursAt(s, t, i)
    decreases |s|
  {
    if |t| <= |s| && s[..|t|] == t {
      assert OccursAt(s, t, 0);
    } else if |s| == 0 {
    } else {
      ContainsIffOccurs(s[1..], t);
      if exists i :: OccursAt(s[1..], t, i) {
        var i :| OccursAt(s[1..], t, i);
        assert s[i + 1..i + 1 + |t|] == s[1..][i..i + |t|];
        assert OccursAt(s, t, i + 1);
      }
      if exists i :: OccursAt(s, t, i) {
        var i :| OccursAt(s, t, i);
        assert s[1..][i - 1..i - 1 + |t|] == s[i..i + |t|];
        assert OccursAt(s[1..], t, i - 1);
      }
    }
  }

  /** The decimal digit character for `d`. */
  function DigitChar(d: nat): (c: char)
    requires d < 10
    ensures '0' <= c <= '9' && c as int - '0' as int == d
  {
    (d + '0' as int) as char
  }

  predicate IsDigit(c: char)
  {
    '0' <= c <= '9'
  }

  /** Decimal rendering of a natural number, without leading zeros. */
  function NatToDecimal(n: nat): (s: string)
    ensures |s| >= 1
    ensures forall k :: 0 <= k < |s| ==> IsDigit(s[k])
    ensures |s| > 1 ==> s[0] != '0'
    decreases n
  {
    if n < 10 then [DigitChar(n)] else NatToDecimal(n / 10) + [DigitChar(n % 10)]
  }

  /** Decimal rendering of an integer as `{}` formats an `i32`: a minus sign then the digits. */
  function IntToDecimal(i: int): (s: string)
    ensures |s| >= 1
    ensures s[0] == '-' || IsDigit(s[0])
  {
    if i < 0 then "-" + NatToDecimal(-i) else NatToDecimal(i)
  }

  /** Reads a non-empty string of decimal digits back as a number. */
  function DecimalToNat(s: string): nat
    requires |s| >= 1
    requires forall k :: 0 <= k < |s| ==> IsDigit(s[k])
  {
    assert IsDigit(s[|s| - 1]);
    var d := s[|s| - 1] as int - '0' as int;
    if |s| == 1 then d else 10 * DecimalToNat(s[..|s| - 1]) + d
  }

  /** Reads a string produced by `IntToDecimal` back as an integer. */
  function DecimalToInt(s: string): Option<int>
  {
    if |s| >= 2 && s[0] == '-' && (forall k :: 1 <= k < |s| ==> IsDigit(s[k])) then
      var n: int := DecimalToNat(s[1..]);
      Some(-n)
    else if |s| >= 1 && (forall k :: 0 <= k < |s| ==> IsDigit(s[k])) then
      Some(DecimalToNat(s))
    else
      None
  }

  /** Reading back the decimal rendering of `n` gives `n`. */
  lemma {:induction false} NatDecimalRoundTrip(n: nat)
    ensures DecimalToNat(NatToDecimal(n)) == n
    decreases n
  {
    if n >= 10 {
      var s := NatToDecimal(n);
      assert s[..|s| - 1] == NatToDecimal(n / 10);
      NatDecimalRoundTrip(n / 10);
    }
  }

  /** A negative number reads back from its rendering: the minus sign, then the digits of its magnitude. */
  lemma NegativeDecimalRoundTrip(n: nat)
    requires n > 0
    ensures DecimalToInt(IntToDecimal(-(n as int))) == Some(-(n as int))
  {
    var digits := NatToDecimal(n);
    var s := "-" + digits;
    assert IntToDecimal(-(n as int)) == s;
    assert s[1..] == digits;
    assert forall k :: 1 <= k < |s| ==> s[k] == digits[k - 1];
    NatDecimalRoundTrip(n);
  }

  /** A number that is not negative reads back from its digits. */
  lemma NonNegativeDecimalRoundTrip(n: nat)
    ensures DecimalToInt(IntToDecimal(n)) == Some(n)
  {
    var digits := NatToDecimal(n);
    assert IntToDecimal(n) == digits;
    assert digits[0] != '-';
    NatDecimalRoundTrip(n);
  }

  /** Reading back the decimal rendering of `i` gives `i`, for negative numbers too. */
  lemma IntDecimalRoundTrip(i: int)
    ensures DecimalToInt(IntToDecimal(i)) == Some(i)
  {
    if i < 0 {
      NegativeDecimalRoundTrip(-i);
    } else {
      NonNegativeDecimalRoundTrip(i);
    }
  }
}
