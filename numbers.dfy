/**
 * Decimal text for integers: the `{n}` and `{n:0000}` formats, `int.TryParse` with the default
 * integer number style, and 32-bit two's-complement wrap-around of unchecked `int` arithmetic.
 */
module Numbers {
  import opened Wrappers
  import Text

  const Int32Min: int := -0x8000_0000
  const Int32Max: int := 0x7FFF_FFFF

  /** Unchecked 32-bit arithmetic: reduce an exact result into the `int` range. */
  function Wrap32(x: int): (r: int)
    ensures Int32Min <= r <= Int32Max
    ensures (r - x) % 0x1_0000_0000 == 0
    ensures Int32Min <= x <= Int32Max ==> r == x
  {
    (x - Int32Min) % 0x1_0000_0000 + Int32Min
  }

  /** Incrementing an `int` wraps only at `int.MaxValue`. */
  lemma Wrap32Successor(v: int)
    requires Int32Min <= v <= Int32Max
    ensures Wrap32(v + 1) == if v == Int32Max then Int32Min else v + 1
  {
  }

  predicate IsDigit(c: char) {
    '0' <= c <= '9'
  }

  predicate AllDigits(s: string) {
    forall i :: 0 <= i < |s| ==> IsDigit(s[i])
  }

  function DigitChar(d: nat): char
    requires d < 10
  {
    ('0' as int + d) as char
  }

  /** The value of a run of decimal digits, leading zeros allowed. */
  function DigitsValue(s: string): nat
    requires AllDigits(s)
  {
    if s == [] then 0 else DigitsValue(s[..|s| - 1]) * 10 + (s[|s| - 1] as int - '0' as int)
  }

  /** The shortest decimal representation of `n` (`n.ToString()` for `n >= 0`). */
  function Digits(n: nat): (r: string)
    ensures |r| >= 1 && AllDigits(r)
    ensures DigitsValue(r) == n
    ensures r[0] == '0' ==> n == 0
    ensures |r| > 1 ==> r[0] != '0'
  {
    if n < 10 then [DigitChar(n)]
    else
      var r := Digits(n / 10) + [DigitChar(n % 10)];
      assert r[..|r| - 1] == Digits(n / 10);
      r
  }

  /** A multiple of ten prints as the digits of its tenth followed by `0`. */
  lemma DigitsStep(n: nat, d: string)
    requires n >= 10 && n % 10 == 0 && Digits(n / 10) == d
    ensures Digits(n) == d + "0"
  {
  }

  /** `n.ToString()` for any integer: a minus sign before the digits of a negative value. */
  function IntToString(n: int): string {
    if n < 0 then "-" + Digits(-n) else Digits(n)
  }

  /** `n.ToString("0000")` for `n >= 0`: the digits of `n`, left-padded with zeros to `width`. */
  function Padded(n: nat, width: nat): (r: string)
    ensures |r| == if |Digits(n)| < width then width else |Digits(n)|
    ensures AllDigits(r) && DigitsValue(r) == n
  {
    var d := Digits(n);
    var z := seq(if |d| < width then width - |d| else 0, _ => '0');
    ZerosPrefix(z, d);
    z + d
  }

  lemma {:induction false} ZerosPrefix(z: string, d: string)
    requires forall i :: 0 <= i < |z| ==> z[i] == '0'
    requires AllDigits(d)
    ensures AllDigits(z + d) && DigitsValue(z + d) == DigitsValue(d)
  {
    if d == [] {
      assert z + d == z;
      AllZero(z);
    } else {
      assert (z + d)[..|z + d| - 1] == z + d[..|d| - 1];
      ZerosPrefix(z, d[..|d| - 1]);
    }
  }

  lemma {:induction false} AllZero(z: string)
    requires forall i :: 0 <= i < |z| ==> z[i] == '0'
    ensures AllDigits(z) && DigitsValue(z) == 0
  {
    if z != [] { AllZero(z[..|z| - 1]); }
  }

  /** A digit run's value is below 10 to the power of its length. */
  lemma {:induction false} DigitsValueBound(s: string)
    requires AllDigits(s)
    ensures DigitsValue(s) < Pow10(|s|)
  {
    if s != [] { DigitsValueBound(s[..|s| - 1]); }
  }

  function Pow10(k: nat): (r: nat)
    ensures r >= 1
  {
    if k == 0 then 1 else 10 * Pow10(k - 1)
  }

  /** Among digit runs of one length, string order is numeric order. */
  lemma {:induction false} SameLengthOrder(a: string, b: string)
    requires AllDigits(a) && AllDigits(b) && |a| == |b|
    ensures Text.LexLe(a, b) <==> DigitsValue(a) <= DigitsValue(b)
  {
    if a != [] {
      var a', b' := a[1..], b[1..];
      SameLengthOrder(a', b');
      HeadValue(a);
      HeadValue(b);
      DigitsValueBound(a');
      DigitsValueBound(b');
      var da, db := a[0] as int - '0' as int, b[0] as int - '0' as int;
      PlaceValueOrder(da, db, Pow10(|a'|), DigitsValue(a'), DigitsValue(b'));
      PlaceValueOrder(db, da, Pow10(|a'|), DigitsValue(b'), DigitsValue(a'));
    }
  }

  lemma PlaceValueOrder(dx: nat, dy: nat, p: nat, ra: nat, rb: nat)
    requires ra < p && rb < p
    ensures dx < dy ==> dx * p + ra < dy * p + rb
  {
    if dx < dy {
      assert dx * p + ra < (dx + 1) * p;
      assert (dx + 1) * p <= dy * p;
    }
  }

  lemma {:induction false} DigitSpan(s: string)
    requires AllDigits(s)
    ensures SpanLength(s, IsDigit) == |s|
  {
    if s != [] { DigitSpan(s[1..]); }
  }

  /** A non-empty digit run is its first digit's place value plus the rest. */
  lemma {:induction false} HeadValue(s: string)
    requires AllDigits(s) && s != []
    ensures DigitsValue(s) == (s[0] as int - '0' as int) * Pow10(|s| - 1) + DigitsValue(s[1..])
  {
    if |s| > 1 {
      var t := s[..|s| - 1];
      var d0, last := s[0] as int - '0' as int, s[|s| - 1] as int - '0' as int;
      HeadValue(t);
      assert t[1..] == s[1..][..|s| - 2];
      var p, v := Pow10(|t| - 1), DigitsValue(t[1..]);
      assert DigitsValue(t) == d0 * p + v;
      assert DigitsValue(s) == DigitsValue(t) * 10 + last;
      assert DigitsValue(s[1..]) == v * 10 + last;
      assert Pow10(|s| - 1) == 10 * p;
      PlaceShift(d0, p, v, last);
    } else {
      assert s[1..] == [];
      assert s[..0] == [];
    }
  }

  lemma PlaceShift(d: int, p: int, v: int, last: int)
    ensures (d * p + v) * 10 + last == d * (10 * p) + (v * 10 + last)
  {
  }

  /** The white space `NumberStyles.Integer` allows around a number. */
  predicate IsNumberWhite(c: char) {
    ('\t' <= c <= '\r') || c == ' '
  }

  /** The length of the longest prefix of `s` whose characters satisfy `p`. */
  function SpanLength(s: string, p: char -> bool): (k: nat)
    ensures k <= |s|
    ensures forall i :: 0 <= i < k ==> p(s[i])
    ensures k < |s| ==> !p(s[k])
  {
    if s != [] && p(s[0]) then 1 + SpanLength(s[1..], p) else 0
  }

  /**
   * `int.TryParse(s, out v)`: optional leading white space, an optional `+` or `-`, one or more ASCII
   * digits, optional trailing white space and then optional NUL characters; the value must fit in 32 bits.
   */
  function ParseInt32(s: string): (r: Option<int>)
    ensures r.Some? ==> Int32Min <= r.value <= Int32Max
  {
    var lead := SpanLength(s, IsNumberWhite);
    var t := s[lead..];
    var negative := t != [] && t[0] == '-';
    var signLen := if t != [] && (t[0] == '-' || t[0] == '+') then 1 else 0;
    var body := t[signLen..];
    var nd := SpanLength(body, IsDigit);
    var digits := body[..nd];
    var rest := body[nd..];
    var rest' := rest[SpanLength(rest, IsNumberWhite)..];
    var tailOk := forall i :: 0 <= i < |rest'| ==> rest'[i] == '\0';
    if nd == 0 || !tailOk then None
    else
      var m: int := DigitsValue(digits);
      var v := if negative then 0 - m else m;
      if Int32Min <= v <= Int32Max then Some(v) else None
  }

  /** A run of digits whose value fits in 32 bits parses to that value. */
  lemma ParseDigits(s: string)
    requires s != [] && AllDigits(s) && DigitsValue(s) <= Int32Max
    ensures ParseInt32(s) == Some(DigitsValue(s))
  {
    assert IsDigit(s[0]);
    assert !IsNumberWhite(s[0]) && s[0] != '-' && s[0] != '+';
    assert SpanLength(s, IsNumberWhite) == 0;
    assert s[0..] == s;
    DigitSpan(s);
    assert s[..|s|] == s;
    assert s[|s|..] == [];
    assert SpanLength([], IsNumberWhite) == 0;
  }

  /** A zero-padded non-negative `int` parses back to itself. */
  lemma PaddedRoundTrip(n: nat, width: nat)
    requires n <= Int32Max
    ensures ParseInt32(Padded(n, width)) == Some(n)
  {
    ParseDigits(Padded(n, width));
  }

  /** `int.TryParse` accepts a sign, so a suffix such as "-5" parses to a negative value. */
  lemma ParseNegative()
    ensures ParseInt32("-5") == Some(-5)
  {
    var s := "-5";
    assert SpanLength(s, IsNumberWhite) == 0;
    assert s[0..][1..] == "5";
    assert SpanLength("5", IsDigit) == 1;
    assert "5"[..1] == "5" && "5"[1..] == "";
  }
}
