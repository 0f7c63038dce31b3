/**
 * The fragment of JavaScript's built-in behaviour that the card and page
 * helpers rely on: `parseInt`, the truncating `%` operator, `substring`,
 * `padStart`, `trim`, `toLowerCase`, integer-to-string conversion and
 * `toString(16)`. Everything the helpers compute goes through these, so
 * their edge cases (NaN, a sign, a `0x` prefix, clamped indices) are the
 * edge cases of the model.
 */
module JsRuntime {

  /** A JavaScript number as these helpers see it: an integer, or NaN.
      Negative zero is identified with zero: every consumer here (`switch`,
      `===`, template strings) treats the two alike. */
  datatype JsInt = NaN | Val(v: int)

  /** The radix argument of `parseInt`: omitted, or 16. */
  datatype Radix = Unspecified | Base16

  function BaseOf(radix: Radix): nat {
    if radix == Base16 then 16 else 10
  }

  // ---------------------------------------------------------------------
  // Characters

  /** The WhiteSpace and LineTerminator code points of ECMAScript: what
      `trim` removes and what `parseInt` skips before the number. */
  predicate IsWhitespace(c: char) {
    c == '\t' || c == '\n' || c == '\U{000B}' || c == '\U{000C}' || c == '\r'
    || c == ' ' || c == '\U{00A0}' || c == '\U{1680}'
    || ('\U{2000}' <= c <= '\U{200A}')
    || c == '\U{2028}' || c == '\U{2029}' || c == '\U{202F}' || c == '\U{205F}'
    || c == '\U{3000}' || c == '\U{FEFF}'
  }

  /** The value of `c` as a digit in bases up to 36; 36 for a non-digit. */
  function DigitValue(c: char): (d: nat)
    ensures d <= 36
  {
    if '0' <= c <= '9' then (c as int) - ('0' as int)
    else if 'a' <= c <= 'z' then (c as int) - ('a' as int) + 10
    else if 'A' <= c <= 'Z' then (c as int) - ('A' as int) + 10
    else 36
  }

  predicate IsDigit(c: char, base: nat) {
    DigitValue(c) < base
  }

  /** The lower-case digit character for `d`, as `Number.prototype.toString`
      and `BigInt.prototype.toString` write it. */
  function DigitChar(d: nat): (c: char)
    requires d < 16
    ensures DigitValue(c) == d
    ensures !IsWhitespace(c) && c != '-' && c != '+' && c != 'x' && c != 'X'
  {
    if d < 10 then ('0' as int + d) as char else ('a' as int + d - 10) as char
  }

  function LowerChar(c: char): char {
    if 'A' <= c <= 'Z' then ((c as int) + 32) as char else c
  }

  /** `toLowerCase` on the ASCII letters; every other character is kept. */
  function ToLower(s: string): (r: string)
    ensures |r| == |s|
    ensures forall i :: 0 <= i < |s| ==> r[i] == LowerChar(s[i])
  {
    seq(|s|, i requires 0 <= i < |s| => LowerChar(s[i]))
  }

  lemma ToLowerIdempotent(s: string)
    ensures ToLower(ToLower(s)) == ToLower(s)
  {
    assert forall i :: 0 <= i < |s| ==> ToLower(ToLower(s))[i] == ToLower(s)[i];
  }

  // ---------------------------------------------------------------------
  // Strings

  /** The number of leading whitespace characters of `s`. */
  function LeadingWhitespace(s: string): (k: nat)
    ensures k <= |s|
    ensures forall i :: 0 <= i < k ==> IsWhitespace(s[i])
    ensures k == |s| || !IsWhitespace(s[k])
  {
    if |s| > 0 && IsWhitespace(s[0]) then 1 + LeadingWhitespace(s[1..]) else 0
  }

  /** The number of trailing whitespace characters of `s`. */
  function TrailingWhitespace(s: string): (k: nat)
    ensures k <= |s|
    ensures forall i :: |s| - k <= i < |s| ==> IsWhitespace(s[i])
    ensures k == |s| || !IsWhitespace(s[|s| - 1 - k])
  {
    if |s| > 0 && IsWhitespace(s[|s| - 1]) then 1 + TrailingWhitespace(s[..|s| - 1]) else 0
  }

  function TrimStart(s: string): string {
    s[LeadingWhitespace(s)..]
  }

  /** `String.prototype.trim`. */
  function Trim(s: string): string {
    var t := TrimStart(s);
    t[..|t| - TrailingWhitespace(t)]
  }

  /** A string is blank (its `trim()` is falsy) exactly when every
      character of it is whitespace. */
  lemma TrimEmptyIff(s: string)
    ensures Trim(s) == [] <==> forall i :: 0 <= i < |s| ==> IsWhitespace(s[i])
  {
    var k := LeadingWhitespace(s);
    var t := s[k..];
    if Trim(s) == [] {
      assert TrailingWhitespace(t) == |t|;
      assert k == |s|;
    }
  }

  function Min(a: int, b: int): int { if a <= b then a else b }
  function Max(a: int, b: int): int { if a <= b then b else a }
  function Clamp(x: int, n: nat): (r: nat)
    ensures r <= n
  {
    if x < 0 then 0 else if x > n then n else x
  }

  /** `s.substring(start, end)`: both indices are clamped to [0, |s|] and
      swapped when out of order. */
  function Substring(s: string, start: int, end: int): (r: string)
    ensures |r| <= |s|
  {
    var a, b := Clamp(start, |s|), Clamp(end, |s|);
    s[Min(a, b)..Max(a, b)]
  }

  /** `s.substring(start)`. */
  function SubstringFrom(s: string, start: int): string {
    Substring(s, start, |s|)
  }

  function Repeat(c: char, n: nat): (r: string)
    ensures |r| == n && forall i :: 0 <= i < n ==> r[i] == c
  {
    if n == 0 then [] else Repeat(c, n - 1) + [c]
  }

  /** `s.padStart(width, c)` for a one-character pad string. */
  function PadStart(s: string, width: nat, c: char): (r: string)
  {
    if |s| >= width then s else Repeat(c, width - |s|) + s
  }

  lemma PadStartShape(s: string, width: nat, c: char)
    ensures |PadStart(s, width, c)| == Max(|s|, width)
    ensures exists k: nat :: PadStart(s, width, c) == Repeat(c, k) + s
  {
    if |s| >= width { assert s == Repeat(c, 0) + s; }
  }

  // ---------------------------------------------------------------------
  // Integers

  function Pow(b: nat, e: nat): (r: nat)
    ensures b >= 1 ==> r >= 1
  {
    if e == 0 then 1 else b * Pow(b, e - 1)
  }

  lemma {:induction false} PowMonotone(b: nat, e1: nat, e2: nat)
    requires b >= 1 && e1 <= e2
    ensures Pow(b, e1) <= Pow(b, e2)
  {
    if e1 < e2 {
      PowMonotone(b, e1, e2 - 1);
      assert Pow(b, e2) == b * Pow(b, e2 - 1);
    }
  }

  /** JavaScript's `a % b` for a positive divisor: the remainder takes the
      sign of the dividend (truncating division), unlike Dafny's `%`. */
  function Rem(a: int, b: int): (r: int)
    requires b > 0
    ensures a >= 0 ==> 0 <= r < b
    ensures a < 0 ==> -b < r <= 0
  {
    if a >= 0 then a % b else -((-a) % b)
  }

  /** `x % b` lifted to NaN. */
  function RemJs(x: JsInt, b: int): (r: JsInt)
    requires b > 0
    ensures r.NaN? <==> x.NaN?
  {
    if x.NaN? then NaN else Val(Rem(x.v, b))
  }

  /** The JavaScript comparisons `x > k` and `x <= k`: both false for NaN. */
  predicate Greater(x: JsInt, k: int) { x.Val? && x.v > k }
  predicate AtMost(x: JsInt, k: int) { x.Val? && x.v <= k }

  // ---------------------------------------------------------------------
  // Digit strings

  predicate AllDigits(z: string, base: nat) {
    forall i :: 0 <= i < |z| ==> IsDigit(z[i], base)
  }

  /** The value of a digit string, read most significant digit first. */
  function DigitsValue(z: string, base: nat): nat
    requires AllDigits(z, base)
  {
    if z == [] then 0
    else
      var init := z[..|z| - 1];
      assert AllDigits(init, base) by {
        forall i | 0 <= i < |init| ensures IsDigit(init[i], base) { assert init[i] == z[i]; }
      }
      DigitsValue(init, base) * base + DigitValue(z[|z| - 1])
  }

  /** The longest prefix of `s` made of digits of `base`. */
  function LeadingDigits(s: string, base: nat): (z: string)
    ensures |z| <= |s| && z == s[..|z|]
    ensures AllDigits(z, base)
    ensures |z| == |s| || !IsDigit(s[|z|], base)
  {
    if |s| > 0 && IsDigit(s[0], base) then [s[0]] + LeadingDigits(s[1..], base) else []
  }

  lemma {:induction false} DigitsValueBound(z: string, base: nat)
    requires AllDigits(z, base)
    ensures DigitsValue(z, base) < Pow(base, |z|)
  {
    if z != [] {
      var init := z[..|z| - 1];
      assert AllDigits(init, base) by {
        forall i | 0 <= i < |init| ensures IsDigit(init[i], base) { assert init[i] == z[i]; }
      }
      DigitsValueBound(init, base);
      MulStep(DigitsValue(init, base), Pow(base, |init|), DigitValue(z[|z| - 1]), base);
    }
  }

  lemma MulStep(v: nat, p: nat, d: nat, base: nat)
    requires v < p && d < base
    ensures v * base + d < base * p
  {
    assert v * base + d < (v + 1) * base;
    assert (v + 1) * base <= p * base;
  }

  /** The facts about `n / base` and `n % base` that writing digits needs. */
  lemma DivModFacts(n: nat, base: nat)
    requires 2 <= base && n >= base
    ensures 1 <= n / base < n && n % base < base
    ensures n == (n / base) * base + n % base
  {
  }

  lemma {:induction false} LeadingDigitsOfDigits(z: string, rest: string, base: nat)
    requires AllDigits(z, base)
    requires rest == [] || !IsDigit(rest[0], base)
    ensures LeadingDigits(z + rest, base) == z
  {
    if z != [] {
      assert (z + rest)[1..] == z[1..] + rest;
      assert AllDigits(z[1..], base) by {
        forall i | 0 <= i < |z| - 1 ensures IsDigit(z[1..][i], base) { assert z[1..][i] == z[i + 1]; }
      }
      LeadingDigitsOfDigits(z[1..], rest, base);
    } else {
      assert z + rest == rest;
    }
  }

  lemma {:induction false} DigitsValueLeadingZeros(k: nat, z: string, base: nat)
    requires base >= 1 && AllDigits(z, base)
    ensures AllDigits(Repeat('0', k) + z, base)
    ensures DigitsValue(Repeat('0', k) + z, base) == DigitsValue(z, base)
  {
    var w := Repeat('0', k) + z;
    assert AllDigits(w, base) by {
      forall i | 0 <= i < |w| ensures IsDigit(w[i], base) {
        if i < k { assert w[i] == '0'; } else { assert w[i] == z[i - k]; }
      }
    }
    if z == [] {
      assert w == Repeat('0', k);
      if k > 0 {
        assert w[..|w| - 1] == Repeat('0', k - 1) + [];
        DigitsValueLeadingZeros(k - 1, [], base);
      }
    } else {
      var init := z[..|z| - 1];
      assert AllDigits(init, base) by {
        forall i | 0 <= i < |init| ensures IsDigit(init[i], base) { assert init[i] == z[i]; }
      }
      assert w[..|w| - 1] == Repeat('0', k) + init;
      assert w[|w| - 1] == z[|z| - 1];
      DigitsValueLeadingZeros(k, init, base);
    }
  }

  /** `n.toString(base)` for a non-negative integer: lower-case digits, no
      leading zero. */
  function ToBase(n: nat, base: nat): (z: string)
    requires 2 <= base <= 16
    ensures |z| >= 1 && AllDigits(z, base)
    ensures |z| > 1 ==> z[0] != '0'
    decreases n
  {
    if n < base then [DigitChar(n)]
    else
      DivModFacts(n, base);
      ToBase(n / base, base) + [DigitChar(n % base)]
  }

  /** Reading back what `ToBase` wrote gives the number again. */
  lemma {:induction false} ToBaseRoundTrip(n: nat, base: nat)
    requires 2 <= base <= 16
    ensures DigitsValue(ToBase(n, base), base) == n
    decreases n
  {
    if n >= base {
      DivModFacts(n, base);
      var q, r := n / base, n % base;
      var init := ToBase(q, base);
      var z := ToBase(n, base);
      assert z == init + [DigitChar(r)];
      assert z[..|z| - 1] == init;
      ToBaseRoundTrip(q, base);
      assert DigitsValue(z, base) == DigitsValue(init, base) * base + r;
    }
  }

  lemma MulLe(x: nat, y: nat, k: nat)
    requires x <= y
    ensures k * x <= k * y
  {
  }

  /** `ToBase(n)` has as many digits as `n` needs, and no more. */
  lemma {:induction false} ToBaseLength(n: nat, base: nat)
    requires 2 <= base <= 16
    ensures n < Pow(base, |ToBase(n, base)|)
    ensures |ToBase(n, base)| > 1 ==> Pow(base, |ToBase(n, base)| - 1) <= n
    decreases n
  {
    if n < base {
      assert Pow(base, 1) == base * Pow(base, 0);
    } else {
      DivModFacts(n, base);
      var q, r := n / base, n % base;
      ToBaseLength(q, base);
      var m := |ToBase(q, base)|;
      assert |ToBase(n, base)| == m + 1;
      var p := Pow(base, m);
      assert Pow(base, m + 1) == base * p;
      MulStep(q, p, r, base);
      var p1 := Pow(base, m - 1);
      assert p == base * p1;
      LowerStep(q, r, base, if m > 1 then p1 else 1);
    }
  }

  lemma LowerStep(q: nat, r: nat, base: nat, p1: nat)
    requires p1 <= q
    ensures base * p1 <= q * base + r
  {
    MulLe(p1, q, base);
  }

  /** `ToBase(n)` fits in `width` characters exactly when `n < base^width`. */
  lemma ToBaseFits(n: nat, base: nat, width: nat)
    requires 2 <= base <= 16 && width >= 1
    ensures |ToBase(n, base)| <= width <==> n < Pow(base, width)
  {
    var m := |ToBase(n, base)|;
    ToBaseLength(n, base);
    if m <= width {
      PowMonotone(base, m, width);
    } else {
      PowMonotone(base, width, m - 1);
    }
  }

  function ToDecimal(n: nat): (z: string)
    ensures |z| >= 1 && AllDigits(z, 10)
  {
    ToBase(n, 10)
  }

  /** An integer as a template literal `${n}` writes it. */
  function IntToString(n: int): string {
    if n < 0 then "-" + ToDecimal(-n) else ToDecimal(n)
  }

  /** The text of an integer starts with a minus sign exactly when it is
      negative, and with a decimal digit otherwise. */
  lemma IntToStringStart(n: int)
    ensures |IntToString(n)| > 0
    ensures IntToString(n)[0] == '-' <==> n < 0
    ensures n >= 0 ==> IsDigit(IntToString(n)[0], 10)
  {
  }

  /** A number as a template literal writes it, NaN included. */
  function NumberText(x: JsInt): string {
    if x.NaN? then "NaN" else IntToString(x.v)
  }

  // ---------------------------------------------------------------------
  // parseInt

  /** `parseInt` after the sign has been removed: an optional `0x` prefix,
      then the longest run of digits; NaN when that run is empty. */
  function ParseMagnitude(u: string, radix: Radix): (r: JsInt)
    ensures r.Val? ==> r.v >= 0
  {
    var hexPrefix := |u| >= 2 && u[0] == '0' && (u[1] == 'x' || u[1] == 'X');
    var base := if hexPrefix then 16 else BaseOf(radix);
    var z := LeadingDigits(if hexPrefix then u[2..] else u, base);
    if z == [] then NaN else Val(DigitsValue(z, base))
  }

  /** `parseInt(s)` (radix omitted) or `parseInt(s, 16)`, following
      section 19.2.5 of ECMA-262: skip leading whitespace, take one sign,
      strip a `0x`/`0X` prefix (which also switches an omitted radix to 16),
      then read the longest run of digits; NaN when that run is empty. */
  function ParseInt(s: string, radix: Radix): JsInt {
    var t := TrimStart(s);
    var negative := |t| > 0 && t[0] == '-';
    var u := if |t| > 0 && (t[0] == '+' || t[0] == '-') then t[1..] else t;
    var m := ParseMagnitude(u, radix);
    if m.Val? && negative then Val(-m.v) else m
  }

  /** A blank string, the value of an emptied number input among them,
      parses to NaN. */
  lemma ParseBlank(s: string, radix: Radix)
    requires forall i :: 0 <= i < |s| ==> IsWhitespace(s[i])
    ensures ParseInt(s, radix).NaN?
  {
    assert TrimStart(s) == [];
  }

  predicate HexPrefix(u: string) {
    |u| >= 2 && u[0] == '0' && (u[1] == 'x' || u[1] == 'X')
  }

  /** A string that starts with a digit of the radix parses to a
      non-negative number below `16^|s|`; it fails to parse only when it is
      a `0x` prefix with no hexadecimal digit after it. */
  lemma ParseStartingWithDigit(s: string, radix: Radix)
    requires |s| > 0 && IsDigit(s[0], BaseOf(radix))
    ensures ParseInt(s, radix).Val? <==> !(HexPrefix(s) && (|s| == 2 || !IsDigit(s[2], 16)))
    ensures ParseInt(s, radix).Val? ==> 0 <= ParseInt(s, radix).v < Pow(16, |s|)
  {
    ParseUnsigned(s, radix);
    var base := if HexPrefix(s) then 16 else BaseOf(radix);
    var body := if HexPrefix(s) then s[2..] else s;
    var z := LeadingDigits(body, base);
    if z != [] {
      MagnitudeBound(z, base, |s|);
    }
  }

  lemma MagnitudeBound(z: string, base: nat, len: nat)
    requires 2 <= base <= 16 && |z| <= len && AllDigits(z, base)
    ensures DigitsValue(z, base) < Pow(16, len)
  {
    DigitsValueBound(z, base);
    PowMonotone(base, |z|, len);
    PowBase(base, 16, len);
  }

  lemma {:induction false} PowBase(b1: nat, b2: nat, e: nat)
    requires 1 <= b1 <= b2
    ensures Pow(b1, e) <= Pow(b2, e)
  {
    if e > 0 {
      PowBase(b1, b2, e - 1);
      MulLe(Pow(b1, e - 1), Pow(b2, e - 1), b1);
      assert b1 * Pow(b2, e - 1) <= b2 * Pow(b2, e - 1);
    }
  }

  /** A digit string followed by anything that cannot continue it: its
      magnitude is the digit string's value. */
  lemma MagnitudeOfDigits(z: string, rest: string, radix: Radix)
    requires |z| > 0 && AllDigits(z, BaseOf(radix))
    requires rest == [] || (!IsDigit(rest[0], BaseOf(radix)) && rest[0] != 'x' && rest[0] != 'X')
    ensures ParseMagnitude(z + rest, radix) == Val(DigitsValue(z, BaseOf(radix)))
  {
    var s := z + rest;
    assert !HexPrefix(s) by {
      if |z| >= 2 { assert s[1] == z[1]; } else if |s| >= 2 { assert s[1] == rest[0]; }
    }
    LeadingDigitsOfDigits(z, rest, BaseOf(radix));
  }

  /** A string that starts with something other than whitespace or a sign
      is parsed by `ParseMagnitude` alone. */
  lemma ParseUnsigned(u: string, radix: Radix)
    requires |u| > 0 && !IsWhitespace(u[0]) && u[0] != '-' && u[0] != '+'
    ensures ParseInt(u, radix) == ParseMagnitude(u, radix)
  {
    assert LeadingWhitespace(u) == 0;
  }

  /** A leading minus sign negates the magnitude. */
  lemma ParseNegated(u: string, radix: Radix)
    ensures ParseInt("-" + u, radix) == (var m := ParseMagnitude(u, radix); if m.Val? then Val(-m.v) else NaN)
  {
    var s := "-" + u;
    assert LeadingWhitespace(s) == 0;
    assert s[1..] == u;
  }

  /** A digit string followed by anything that cannot continue it parses
      back to the digit string's value. */
  lemma ParseDigits(z: string, rest: string, radix: Radix)
    requires |z| > 0 && AllDigits(z, BaseOf(radix))
    requires rest == [] || (!IsDigit(rest[0], BaseOf(radix)) && rest[0] != 'x' && rest[0] != 'X')
    ensures ParseInt(z + rest, radix) == Val(DigitsValue(z, BaseOf(radix)))
  {
    assert (z + rest)[0] == z[0];
    ParseUnsigned(z + rest, radix);
    MagnitudeOfDigits(z, rest, radix);
  }

  /** Writing an integer and parsing it back is the identity, even with a
      non-numeric suffix such as " hours" after it. */
  lemma ParseIntToString(n: int, rest: string)
    requires rest == [] || (!IsDigit(rest[0], 10) && rest[0] != 'x' && rest[0] != 'X')
    ensures ParseInt(IntToString(n) + rest, Unspecified) == Val(n)
  {
    var m: nat := if n < 0 then -n else n;
    ToBaseRoundTrip(m, 10);
    var z := ToDecimal(m);
    if n >= 0 {
      ParseDigits(z, rest, Unspecified);
    } else {
      assert IntToString(n) + rest == "-" + (z + rest);
      ParseNegated(z + rest, Unspecified);
      MagnitudeOfDigits(z, rest, Unspecified);
    }
  }
}
