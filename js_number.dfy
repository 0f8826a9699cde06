/**
 * Integer text conversions as JavaScript performs them: `String(n)` for the
 * integers the pipeline prints, and the global `parseInt(s)` called without a
 * radix, which the IDOR rule relies on.
 */
module JsNumber {

  import opened Wrappers
  import opened Text

  function DigitChar(d: nat): char
    requires d < 10
  {
    ('0' as int + d) as char
  }

  /** `String(n)` for a non-negative integer: its decimal digits, without leading zeros. */
  function DecimalString(n: nat): (r: string)
    ensures |r| >= 1
    ensures forall k :: 0 <= k < |r| ==> '0' <= r[k] <= '9'
    ensures r[0] == '0' ==> n == 0
    decreases n
  {
    if n < 10 then [DigitChar(n)] else DecimalString(n / 10) + [DigitChar(n % 10)]
  }

  /** `String(i)` for any integer. */
  function IntString(i: int): (r: string)
    ensures |r| >= 1
  {
    if i < 0 then "-" + DecimalString(-i) else DecimalString(i)
  }

  /** The value of `c` as a digit in base `radix` (letters count from ten, in either case). */
  function DigitValue(c: char, radix: nat): (r: Option<nat>)
    ensures r.Some? ==> r.value < radix
    ensures radix == 10 ==> (r.Some? <==> '0' <= c <= '9')
  {
    var v :=
      if '0' <= c <= '9' then c as int - '0' as int
      else if 'a' <= c <= 'z' then c as int - 'a' as int + 10
      else if 'A' <= c <= 'Z' then c as int - 'A' as int + 10
      else 36;
    if v < radix then Some(v) else None
  }

  predicate AllDigits(s: string, radix: nat) {
    forall k :: 0 <= k < |s| ==> DigitValue(s[k], radix).Some?
  }

  /** The longest prefix of `s` made only of base-`radix` digits. */
  function DigitPrefix(s: string, radix: nat): (r: string)
    ensures |r| <= |s| && r == s[..|r|]
    ensures AllDigits(r, radix)
    ensures |r| < |s| ==> DigitValue(s[|r|], radix).None?
    decreases |s|
  {
    if s != [] && DigitValue(s[0], radix).Some? then [s[0]] + DigitPrefix(s[1..], radix) else []
  }

  /** The number that a string of base-`radix` digits denotes. */
  function DigitsValue(ds: string, radix: nat): nat
    requires AllDigits(ds, radix)
    decreases |ds|
  {
    if ds == [] then 0
    else DigitsValue(ds[..|ds| - 1], radix) * radix + DigitValue(ds[|ds| - 1], radix).value
  }

  /**
   * The number at the start of `u`, after any sign: base 16 after a `0x`/`0X`
   * prefix and base 10 otherwise, up to the first character that is not a
   * digit; `None` when there is no digit at all.
   */
  function ParseMagnitude(u: string): (r: Option<nat>)
    ensures r.Some? ==> exists k :: 0 <= k < |u| && DigitValue(u[k], 16).Some?
  {
    var hex := |u| >= 2 && u[0] == '0' && (u[1] == 'x' || u[1] == 'X');
    var radix := if hex then 16 else 10;
    var body := if hex then u[2..] else u;
    var digits := DigitPrefix(body, radix);
    if digits == [] then None
    else
      assert DigitValue(u[|u| - |body|], 16).Some? by {
        assert body[0] == digits[0] && u[|u| - |body|..] == body;
      }
      Some(DigitsValue(digits, radix))
  }

  /** An optional `-` or `+`, then the magnitude. */
  function ParseSigned(t: string): (r: Option<int>)
    ensures r.Some? ==> exists k :: 0 <= k < |t| && DigitValue(t[k], 16).Some?
  {
    var negative := t != [] && t[0] == '-';
    var unsigned := if t != [] && (t[0] == '-' || t[0] == '+') then t[1..] else t;
    match ParseMagnitude(unsigned)
    case None => None
    case Some(v) =>
      assert unsigned == t[|t| - |unsigned|..];
      var value: int := if negative then -(v as int) else v;
      Some(value)
  }

  /**
   * `parseInt(s)` with no radix: skip leading white space, then read a signed
   * number; `None` stands for `NaN`.
   */
  function ParseInt(s: string): (r: Option<int>)
    ensures r.Some? ==> exists k :: 0 <= k < |s| && DigitValue(s[k], 16).Some?
  {
    ParseSigned(TrimStart(s))
  }

  /** The digits of `String(n)` denote `n`. */
  lemma {:induction false} DecimalStringValue(n: nat)
    ensures AllDigits(DecimalString(n), 10)
    ensures DigitsValue(DecimalString(n), 10) == n
    decreases n
  {
    var ds := DecimalString(n);
    if n >= 10 {
      DecimalStringValue(n / 10);
      assert ds[..|ds| - 1] == DecimalString(n / 10);
    }
  }

  function Pow(b: nat, e: nat): nat
    decreases e
  {
    if e == 0 then 1 else b * Pow(b, e - 1)
  }

  /** `d` digits in base `radix` denote less than `radix` to the power `d`. */
  lemma {:induction false} DigitsValueBelow(ds: string, radix: nat)
    requires AllDigits(ds, radix)
    ensures DigitsValue(ds, radix) < Pow(radix, |ds|)
    decreases |ds|
  {
    if ds != [] {
      var init := ds[..|ds| - 1];
      assert AllDigits(init, radix) by {
        forall k | 0 <= k < |init|
          ensures DigitValue(init[k], radix).Some?
        {
          assert init[k] == ds[k];
        }
      }
      DigitsValueBelow(init, radix);
      var d := DigitValue(ds[|ds| - 1], radix).value;
      ShiftBelow(DigitsValue(init, radix), d, radix, Pow(radix, |init|));
    }
  }

  /** Appending a digit to a number below `p` gives a number below `p * radix`. */
  lemma {:induction false} ShiftBelow(v: nat, d: nat, radix: nat, p: nat)
    requires v < p && d < radix
    ensures v * radix + d < radix * p
  {
    assert (v + 1) * radix <= p * radix by {
      MulMonotonic(v + 1, p, radix);
    }
    assert (v + 1) * radix == v * radix + radix;
  }

  lemma {:induction false} MulMonotonic(a: nat, b: nat, c: nat)
    requires a <= b
    ensures a * c <= b * c
  {
  }

  /** At most three characters hold no number above 999, in base 10 or, after `0x`, in base 16. */
  lemma {:induction false} MagnitudeOfShort(u: string)
    ensures |u| <= 3 && ParseMagnitude(u).Some? ==> ParseMagnitude(u).value < 1000
  {
    var hex := |u| >= 2 && u[0] == '0' && (u[1] == 'x' || u[1] == 'X');
    var radix := if hex then 16 else 10;
    var body := if hex then u[2..] else u;
    var digits := DigitPrefix(body, radix);
    if |u| <= 3 && digits != [] {
      DigitsValueBelow(digits, radix);
      if hex {
        assert |digits| == 1 && Pow(16, 1) == 16;
      } else {
        assert Pow(10, 1) == 10 && Pow(10, 2) == 100 && Pow(10, 3) == 1000;
      }
    }
  }

  /** `parseInt` of a text of at most three characters is `NaN` or below 1000. */
  lemma {:induction false} ParseIntOfShort(s: string)
    ensures |s| <= 3 && ParseInt(s).Some? ==> ParseInt(s).value < 1000
  {
    var t := TrimStart(s);
    var unsigned := if t != [] && (t[0] == '-' || t[0] == '+') then t[1..] else t;
    MagnitudeOfShort(unsigned);
  }

  /**
   * `parseInt` reads back what `String` wrote, and ignores anything after the
   * digits unless it would continue the number (a digit) or turn a lone `0` into
   * a hexadecimal prefix.
   */
  lemma {:induction false} ParseIntOfDecimal(n: nat, rest: string)
    requires rest == [] || (!('0' <= rest[0] <= '9') && (n != 0 || (rest[0] != 'x' && rest[0] != 'X')))
    ensures ParseInt(DecimalString(n) + rest) == Some(n)
  {
    var ds := DecimalString(n);
    var s := ds + rest;
    assert s[0] == ds[0];
    assert !(|s| >= 2 && s[0] == '0' && (s[1] == 'x' || s[1] == 'X')) by {
      if |s| >= 2 && s[0] == '0' {
        assert n == 0 && |ds| == 1;
        assert s[1] == rest[0];
      }
    }
    ParseIntPlainDecimal(s);
    DigitPrefixStopsAt(ds, rest);
    DecimalStringValue(n);
  }

  /** A string that starts with a decimal digit and no `0x` prefix is read in base 10 from its first character. */
  lemma {:induction false} ParseIntPlainDecimal(s: string)
    requires s != [] && '0' <= s[0] <= '9'
    requires !(|s| >= 2 && s[0] == '0' && (s[1] == 'x' || s[1] == 'X'))
    ensures ParseInt(s) == Some(DigitsValue(DigitPrefix(s, 10), 10))
  {
    TrimStartNoSpace(s);
    UnsignedMagnitude(s);
    DecimalMagnitude(s);
  }

  lemma {:induction false} TrimStartNoSpace(s: string)
    requires s != [] && '0' <= s[0] <= '9'
    ensures TrimStart(s) == s
  {
    assert !IsJsSpace(s[0]);
  }

  lemma {:induction false} UnsignedMagnitude(s: string)
    requires s != [] && s[0] != '-' && s[0] != '+'
    ensures ParseSigned(s) == if ParseMagnitude(s).Some? then Some(ParseMagnitude(s).value as int) else None
  {
  }

  lemma {:induction false} DecimalMagnitude(s: string)
    requires s != [] && '0' <= s[0] <= '9'
    requires !(|s| >= 2 && s[0] == '0' && (s[1] == 'x' || s[1] == 'X'))
    ensures ParseMagnitude(s) == Some(DigitsValue(DigitPrefix(s, 10), 10))
  {
    assert DigitPrefix(s, 10) != [];
  }

  lemma {:induction false} DigitPrefixStopsAt(ds: string, rest: string)
    requires AllDigits(ds, 10)
    requires rest == [] || !('0' <= rest[0] <= '9')
    ensures DigitPrefix(ds + rest, 10) == ds
    decreases |ds|
  {
    if ds == [] {
      assert ds + rest == rest;
    } else {
      assert (ds + rest)[1..] == ds[1..] + rest;
      DigitPrefixStopsAt(ds[1..], rest);
    }
  }
}
