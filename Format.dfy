/**
 * How an amount of drops is written in a tweet: the shortest decimal XRP numeral,
 * as JavaScript prints `drops / 1000000` (no exponent, no trailing zeros, no
 * decimal point for whole XRP). `ParseXrp` reads such a numeral back, and
 * `XrpTextRoundTrip` shows that no amount is misreported.
 */
module Format {
  import opened Config
  import opened Wrappers

  predicate IsDigit(c: char)
  {
    '0' <= c <= '9'
  }

  predicate AllDigits(s: string)
  {
    forall i :: 0 <= i < |s| ==> IsDigit(s[i])
  }

  function Digit(d: nat): (c: char)
    requires d < 10
    ensures IsDigit(c)
  {
    (48 + d) as char
  }

  function DigitValue(c: char): (d: nat)
    requires IsDigit(c)
    ensures d < 10
  {
    c as int - 48
  }

  function Pow10(k: nat): (p: nat)
    ensures p >= 1
  {
    if k == 0 then 1 else 10 * Pow10(k - 1)
  }

  /** The value of a string of decimal digits (0 for the empty string). */
  function NumeralValue(s: string): nat
    requires AllDigits(s)
  {
    if s == [] then 0 else NumeralValue(s[..|s| - 1]) * 10 + DigitValue(s[|s| - 1])
  }

  /** The decimal numeral of `n`, without leading zeros. */
  function NatText(n: nat): (s: string)
    ensures |s| >= 1 && AllDigits(s)
  {
    if n < 10 then [Digit(n)] else NatText(n / 10) + [Digit(n % 10)]
  }

  /** The last `k` decimal digits of `n`, with leading zeros. */
  function Padded(n: nat, k: nat): (s: string)
    ensures |s| == k && AllDigits(s)
  {
    if k == 0 then [] else Padded(n / 10, k - 1) + [Digit(n % 10)]
  }

  /** `s` without its trailing zeros. */
  function TrimZeros(s: string): (t: string)
    ensures |t| <= |s| && t == s[..|t|]
    ensures forall i :: |t| <= i < |s| ==> s[i] == '0'
    ensures t != [] ==> t[|t| - 1] != '0'
  {
    if s != [] && s[|s| - 1] == '0' then TrimZeros(s[..|s| - 1]) else s
  }

  /** `n` zeros. */
  function Zeros(n: nat): (s: string)
    ensures |s| == n && forall i :: 0 <= i < n ==> s[i] == '0'
  {
    if n == 0 then [] else Zeros(n - 1) + ['0']
  }

  /** The amount `drops` written in XRP. */
  function XrpText(drops: nat): string
  {
    var whole, frac := drops / Drops, drops % Drops;
    NatText(whole) + (if frac == 0 then "" else "." + TrimZeros(Padded(frac, 6)))
  }

  /** Splits at the first '.', the second part is None when there is no '.'. */
  function SplitAtDot(s: string): (string, Option<string>)
  {
    if s == [] then ([], None)
    else if s[0] == '.' then ([], Some(s[1..]))
    else var r := SplitAtDot(s[1..]); ([s[0]] + r.0, r.1)
  }

  /** Reads an XRP numeral (digits, optionally a '.' and at most six digits) as drops. */
  function ParseXrp(s: string): Option<nat>
  {
    var (whole, frac) := SplitAtDot(s);
    if whole == [] || !AllDigits(whole) then None
    else if frac.None? then Some(NumeralValue(whole) * Drops)
    else if !AllDigits(frac.value) || |frac.value| > 6 then None
    else Some(NumeralValue(whole) * Drops + NumeralValue(frac.value + Zeros(6 - |frac.value|)))
  }

  /** What `XrpText` writes is read back by `ParseXrp` as the same amount. */
  lemma XrpTextRoundTrip(drops: nat)
    ensures ParseXrp(XrpText(drops)) == Some(drops)
  {
    var whole, frac := drops / Drops, drops % Drops;
    assert drops == whole * Drops + frac;
    if frac == 0 {
      assert XrpText(drops) == NatText(whole) + [];
      ParseWhole(whole);
    } else {
      var t := TrimZeros(Padded(frac, 6));
      FractionValue(frac);
      ParseWithFraction(whole, t);
    }
  }

  /** A numeral without a fraction reads as whole XRP. */
  lemma ParseWhole(whole: nat)
    ensures ParseXrp(NatText(whole) + []) == Some(whole * Drops)
  {
    var w := NatText(whole);
    NatTextValue(whole);
    SplitDotFree(w, []);
    assert SplitAtDot([]) == ([], None);
    assert w + [] == w;
  }

  /** A numeral with a fraction of at most six digits reads as whole XRP plus the padded fraction. */
  lemma ParseWithFraction(whole: nat, t: string)
    requires AllDigits(t) && |t| <= 6
    ensures ParseXrp(NatText(whole) + ("." + t)) == Some(whole * Drops + NumeralValue(t + Zeros(6 - |t|)))
  {
    var w := NatText(whole);
    NatTextValue(whole);
    SplitDotFree(w, "." + t);
    assert SplitAtDot("." + t) == ([], Some(t));
    assert w + [] == w;
  }

  /** The written fraction of a whole number of drops is at most six digits and reads back as it. */
  lemma FractionValue(frac: nat)
    requires frac < Drops
    ensures var t := TrimZeros(Padded(frac, 6));
      AllDigits(t) && |t| <= 6 && NumeralValue(t + Zeros(6 - |t|)) == frac
  {
    var p := Padded(frac, 6);
    var t := TrimZeros(p);
    assert forall i :: 0 <= i < |t| ==> t[i] == p[i];
    assert t + Zeros(6 - |t|) == p;
    assert Pow10(6) == Drops;
    PaddedValue(frac, 6);
  }

  /** A decimal numeral reads back as its number. */
  lemma {:induction false} NatTextValue(n: nat)
    ensures NumeralValue(NatText(n)) == n
  {
    if n >= 10 {
      NatTextValue(n / 10);
      var s := NatText(n);
      assert s[..|s| - 1] == NatText(n / 10);
    }
  }

  /** Padding keeps the value of a number that fits. */
  lemma {:induction false} PaddedValue(n: nat, k: nat)
    requires n < Pow10(k)
    ensures NumeralValue(Padded(n, k)) == n
  {
    if k > 0 {
      PaddedValue(n / 10, k - 1);
      var s := Padded(n, k);
      assert s[..|s| - 1] == Padded(n / 10, k - 1);
    }
  }

  /** A prefix without '.' ends up whole in the first part. */
  lemma {:induction false} SplitDotFree(a: string, rest: string)
    requires AllDigits(a)
    ensures SplitAtDot(a + rest).0 == a + SplitAtDot(rest).0
    ensures SplitAtDot(a + rest).1 == SplitAtDot(rest).1
  {
    if a != [] {
      var s := a + rest;
      assert s[0] == a[0] && IsDigit(a[0]) && s[0] != '.';
      assert s[1..] == a[1..] + rest;
      SplitDotFree(a[1..], rest);
      assert SplitAtDot(s) == ([s[0]] + SplitAtDot(s[1..]).0, SplitAtDot(s[1..]).1);
      assert [a[0]] + (a[1..] + SplitAtDot(rest).0) == a + SplitAtDot(rest).0;
    } else {
      assert a + rest == rest;
    }
  }

  /** 2,625,000 drops are written "2.625". */
  lemma XrpTextOfTwoPointSixTwoFive()
    ensures XrpText(2625000) == "2.625"
  {
    assert Digit(0) == '0' && Digit(2) == '2' && Digit(5) == '5' && Digit(6) == '6';
    assert Padded(6, 1) == "6";
    assert Padded(62, 2) == "62";
    assert Padded(625, 3) == "625";
    assert Padded(6250, 4) == "6250";
    assert Padded(62500, 5) == "62500";
    assert Padded(625000, 6) == "625000";
    assert TrimZeros("625") == "625";
    assert TrimZeros("6250") == "625";
    assert TrimZeros("62500") == "625";
    assert TrimZeros("625000") == "625";
    assert NatText(2) == "2";
  }
}
