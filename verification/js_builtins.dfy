/**
 * The handful of JavaScript built-ins the modelled code leans on, stated over
 * unbounded integers, exact reals and `seq<char>` strings:
 *   - `Math.round` (halves round towards +infinity),
 *   - the `%` operator on integers (the remainder takes the sign of the dividend),
 *   - `parseInt` on decimal text and the conversion of an integer to its decimal text,
 *   - `String.prototype.split('/')` for the first two fields,
 *   - `toUpperCase` / `toLowerCase` on ASCII letters.
 * JavaScript's NaN is `None` wherever it can arise in the modelled code.
 */
module JsBuiltins {

  datatype Option<+T> = None | Some(value: T)

  /** `Math.round(x)`: the nearest integer, halves rounding up. */
  function JsRound(x: real): (n: int)
    ensures n as real - 0.5 <= x < n as real + 0.5
  {
    (x + 0.5).Floor
  }

  /** `Math.round` never decreases. */
  lemma JsRoundMonotone(x: real, y: real)
    requires x <= y
    ensures JsRound(x) <= JsRound(y)
  {
  }

  /** `Math.abs` on reals. */
  function Abs(x: real): (a: real)
    ensures a >= 0.0 && (a == x || a == -x)
  {
    if x < 0.0 then -x else x
  }

  /** `a % m` in JavaScript for a positive divisor: truncating division, so the
      remainder has the sign of `a`. */
  function TruncRem(a: int, m: int): (r: int)
    requires m > 0
    ensures -m < r < m
    ensures a >= 0 ==> r == a % m
    ensures a < 0 ==> r <= 0
    ensures (a - r) % m == 0
  {
    if a >= 0 then
      assert a - a % m == (a / m) * m;
      MultipleRem(a / m, m);
      a % m
    else
      var q := (-a) / m;
      assert a + (-a) % m == (-q) * m by {
        assert -a == q * m + (-a) % m;
        assert (-q) * m == -(q * m);
      }
      MultipleRem(-q, m);
      -((-a) % m)
  }

  /** A multiple of `m` leaves no remainder. */
  lemma MultipleRem(q: int, m: int)
    requires m > 0
    ensures (q * m) % m == 0
  {
    var x := q * m;
    var d := q - x / m;
    assert x % m == d * m by {
      assert x == (x / m) * m + x % m;
      assert d * m == q * m - (x / m) * m;
    }
  }

  predicate IsDigit(c: char) { '0' <= c <= '9' }

  function DigitValue(c: char): (d: nat)
    requires IsDigit(c)
    ensures d < 10
  {
    (c as int) - ('0' as int)
  }

  function DigitChar(d: nat): (c: char)
    requires d < 10
    ensures IsDigit(c) && DigitValue(c) == d
  {
    (('0' as int) + d) as char
  }

  /** Decimal text of a natural number, without leading zeros. */
  function NatToString(n: nat): (s: string)
    ensures |s| >= 1
    ensures forall i :: 0 <= i < |s| ==> IsDigit(s[i])
    decreases n
  {
    if n < 10 then [DigitChar(n)] else NatToString(n / 10) + [DigitChar(n % 10)]
  }

  /** `String(i)` for an integer `i`. */
  function IntToString(i: int): (s: string)
    ensures |s| >= 1
    ensures s[0] == '-' || IsDigit(s[0])
  {
    if i < 0 then "-" + NatToString(-i) else NatToString(i)
  }

  /** `String(x)` for a number `x` that is an integer or NaN (`None`). */
  function NumberText(x: Option<int>): (s: string)
    ensures '/' !in s
  {
    if x.Some? then IntToString(x.value) else "NaN"
  }

  /** Value of a string of decimal digits (most significant first). */
  function DigitsValue(s: string): (v: nat)
    requires forall i :: 0 <= i < |s| ==> IsDigit(s[i])
    decreases |s|
  {
    if s == [] then 0 else 10 * DigitsValue(s[..|s| - 1]) + DigitValue(s[|s| - 1])
  }

  /** The longest prefix of `s` made of decimal digits. */
  function DigitPrefix(s: string): (p: string)
    ensures |p| <= |s| && p == s[..|p|]
    ensures forall i :: 0 <= i < |p| ==> IsDigit(s[i])
    ensures |p| < |s| ==> !IsDigit(s[|p|])
    decreases |s|
  {
    if s == [] || !IsDigit(s[0]) then [] else [s[0]] + DigitPrefix(s[1..])
  }

  /** `parseInt(s)` on text that starts with an optional sign and decimal
      digits: the value of the longest such prefix, NaN (`None`) when there
      is no digit. */
  function ParseInt(s: string): (r: Option<int>)
    ensures r.Some? ==> exists k :: 0 <= k < |s| && IsDigit(s[k])
  {
    var neg := |s| > 0 && s[0] == '-';
    var body := if |s| > 0 && (s[0] == '-' || s[0] == '+') then s[1..] else s;
    var digits := DigitPrefix(body);
    if digits == [] then None
    else
      assert IsDigit(body[0]) && (body == s || body[0] == s[1]);
      Some(if neg then -(DigitsValue(digits) as int) else DigitsValue(digits) as int)
  }

  lemma {:induction false} NatToStringValue(n: nat)
    ensures DigitsValue(NatToString(n)) == n
    decreases n
  {
    if n >= 10 {
      var s := NatToString(n);
      NatToStringValue(n / 10);
      assert s[..|s| - 1] == NatToString(n / 10);
    }
  }

  lemma {:induction false} DigitPrefixOfDigits(s: string)
    requires forall i :: 0 <= i < |s| ==> IsDigit(s[i])
    ensures DigitPrefix(s) == s
    decreases |s|
  {
    if s != [] {
      DigitPrefixOfDigits(s[1..]);
    }
  }

  /** `parseInt(String(i)) === i`: the decimal text of an integer reads back as that integer. */
  lemma {:induction false} ParseIntOfIntToString(i: int)
    ensures ParseInt(IntToString(i)) == Some(i)
  {
    var s := IntToString(i);
    if i < 0 {
      var n := NatToString(-i);
      assert s == "-" + n && s[1..] == n;
      DigitPrefixOfDigits(n);
      NatToStringValue(-i);
      assert ParseInt(s) == Some(-(DigitsValue(n) as int));
    } else {
      assert s == NatToString(i);
      assert IsDigit(s[0]);
      DigitPrefixOfDigits(s);
      NatToStringValue(i);
      assert ParseInt(s) == Some(DigitsValue(s) as int);
    }
  }

  /** Distinct integers have distinct decimal texts. */
  lemma IntToStringInjective(a: int, b: int)
    requires IntToString(a) == IntToString(b)
    ensures a == b
  {
    ParseIntOfIntToString(a);
    ParseIntOfIntToString(b);
  }

  /** Index of the first `c` in `s`, or `|s|` when there is none. */
  function IndexOfChar(s: string, c: char): (k: nat)
    ensures k <= |s|
    ensures forall j :: 0 <= j < k ==> s[j] != c
    ensures k < |s| ==> s[k] == c
    decreases |s|
  {
    if s == [] then 0 else if s[0] == c then 0 else 1 + IndexOfChar(s[1..], c)
  }

  /** `s.split('/')[0]`. */
  function SlashField0(s: string): (f: string)
    ensures f == s[..IndexOfChar(s, '/')]
    ensures '/' !in f
  {
    s[..IndexOfChar(s, '/')]
  }

  /** `s.split('/')[1]`, `undefined` (`None`) when `s` has no slash. */
  function SlashField1(s: string): (f: Option<string>)
    ensures f.None? <==> '/' !in s
    ensures f.Some? ==> '/' !in f.value
  {
    var k := IndexOfChar(s, '/');
    if k == |s| then None else Some(SlashField0(s[k + 1..]))
  }

  /** Splitting `a + "/" + b` gives back `a` and `b` when neither holds a slash. */
  lemma SplitJoined(a: string, b: string)
    requires '/' !in a && '/' !in b
    ensures SlashField0(a + "/" + b) == a
    ensures SlashField1(a + "/" + b) == Some(b)
  {
    var s := a + "/" + b;
    assert s[|a|] == '/';
    var k := IndexOfChar(s, '/');
    assert forall j :: 0 <= j < |a| ==> s[j] == a[j];
    assert k == |a|;
    assert s[k + 1..] == b;
    assert IndexOfChar(b, '/') == |b|;
    assert b[..|b|] == b;
  }

  function UpperChar(c: char): char
  {
    if 'a' <= c <= 'z' then ((c as int) - 32) as char else c
  }

  function LowerChar(c: char): char
  {
    if 'A' <= c <= 'Z' then ((c as int) + 32) as char else c
  }

  /** `s.toUpperCase()` on ASCII letters. */
  function ToUpper(s: string): (u: string)
    ensures |u| == |s|
    ensures forall i :: 0 <= i < |s| ==> u[i] == UpperChar(s[i])
  {
    seq(|s|, i requires 0 <= i < |s| => UpperChar(s[i]))
  }

  /** `s.toLowerCase()` on ASCII letters. */
  function ToLower(s: string): (l: string)
    ensures |l| == |s|
    ensures forall i :: 0 <= i < |s| ==> l[i] == LowerChar(s[i])
  {
    seq(|s|, i requires 0 <= i < |s| => LowerChar(s[i]))
  }
}
