/**
 * Numbers as text: the decimal rendering a template literal gives a
 * non-negative integer (`${n}`), and JavaScript's `parseInt(text)` without a
 * radix argument, as section 19.2.5 of ECMA-262 defines it. The questionnaire
 * reads its numeric fields with `parseInt(...) || 0`; the roadmap interpolates
 * the pilot count with a template literal.
 */
module NumberText {
  import opened Wrappers

  predicate IsDecimalDigit(c: char) {
    '0' <= c <= '9'
  }

  /** The value of `c` as a digit of `radix` (10 or 16; letters in either case), if it is one. */
  function DigitIn(c: char, radix: nat): (r: Option<nat>)
    ensures r.Some? ==> r.value < radix
    ensures radix == 10 ==> (r.Some? <==> IsDecimalDigit(c))
  {
    var v: int :=
      if '0' <= c <= '9' then c as int - '0' as int
      else if 'a' <= c <= 'z' then c as int - 'a' as int + 10
      else if 'A' <= c <= 'Z' then c as int - 'A' as int + 10
      else radix;
    if 0 <= v < radix then Some(v) else None
  }

  function DigitChar(d: nat): (c: char)
    requires d < 10
    ensures IsDecimalDigit(c)
    ensures DigitIn(c, 10) == Some(d)
  {
    ('0' as int + d) as char
  }

  /** The decimal rendering of a non-negative integer: no sign, no leading zero. */
  function ShowNat(n: nat): (s: string)
    ensures |s| >= 1
    ensures forall i :: 0 <= i < |s| ==> IsDecimalDigit(s[i])
    ensures s[0] == '0' ==> s == "0" && n == 0
  {
    if n < 10 then [DigitChar(n)] else ShowNat(n / 10) + [DigitChar(n % 10)]
  }

  /** The decimal rendering of any integer, with a leading `-` when negative. */
  function ShowInt(i: int): (s: string)
    ensures |s| >= 1
    ensures s[0] == '-' <==> i < 0
  {
    if i < 0 then "-" + ShowNat(-i) else ShowNat(i)
  }

  /** True when every character of `s` is a digit of `radix`. */
  predicate AllDigits(s: string, radix: nat) {
    forall i :: 0 <= i < |s| ==> DigitIn(s[i], radix).Some?
  }

  /** The number a string of `radix` digits denotes, most significant digit first. */
  function DigitsValue(s: string, radix: nat): nat {
    if |s| == 0 then 0
    else DigitsValue(s[..|s| - 1], radix) * radix + DigitIn(s[|s| - 1], radix).GetOr(0)
  }

  /** The length of the longest prefix of `s` made of `radix` digits. */
  function DigitRun(s: string, radix: nat): (k: nat)
    ensures k <= |s|
    ensures k < |s| ==> DigitIn(s[k], radix).None?
  {
    if |s| == 0 || DigitIn(s[0], radix).None? then 0 else 1 + DigitRun(s[1..], radix)
  }

  /** The characters ECMA-262 calls StrWhiteSpaceChar: white space and line terminators. */
  predicate IsJsWhiteSpace(c: char) {
    || ('\U{9}' <= c <= '\U{D}') || c == ' ' || c == '\U{A0}' || c == '\U{1680}'
    || ('\U{2000}' <= c <= '\U{200A}') || c == '\U{2028}' || c == '\U{2029}'
    || c == '\U{202F}' || c == '\U{205F}' || c == '\U{3000}' || c == '\U{FEFF}'
  }

  /** `s` without its leading white space. */
  function TrimStart(s: string): (t: string)
    ensures |t| <= |s| && t == s[|s| - |t|..]
    ensures |t| > 0 ==> !IsJsWhiteSpace(t[0])
    ensures forall i :: 0 <= i < |s| - |t| ==> IsJsWhiteSpace(s[i])
  {
    if |s| > 0 && IsJsWhiteSpace(s[0]) then TrimStart(s[1..]) else s
  }

  /** The value of the longest run of `radix` digits at the start of `w`; `None` when that run is empty. */
  function DigitPrefixValue(w: string, radix: nat): (r: Option<nat>)
    ensures r.None? <==> DigitRun(w, radix) == 0
  {
    var k := DigitRun(w, radix);
    if k == 0 then None else Some(DigitsValue(w[..k], radix))
  }

  /**
   * The magnitude part of `parseInt`: radix 16 after a `0x`/`0X` prefix,
   * otherwise radix 10, then the longest run of digits; `None` when that run
   * is empty.
   */
  function ParseMagnitude(u: string): Option<nat> {
    if |u| >= 2 && u[0] == '0' && (u[1] == 'x' || u[1] == 'X') then DigitPrefixValue(u[2..], 16)
    else DigitPrefixValue(u, 10)
  }

  /**
   * `parseInt(s)`: skip leading white space, read an optional sign, then the
   * magnitude. `None` stands for `NaN` (no digit at all).
   */
  function ParseInt(s: string): Option<int> {
    var t := TrimStart(s);
    if |t| > 0 && t[0] == '-' then
      match ParseMagnitude(t[1..])
      case None => None
      case Some(m) => Some(-(m as int))
    else if |t| > 0 && t[0] == '+' then
      match ParseMagnitude(t[1..])
      case None => None
      case Some(m) => Some(m)
    else
      match ParseMagnitude(t)
      case None => None
      case Some(m) => Some(m)
  }

  /** `parseInt(s) || 0`: `NaN` (and zero) become 0. */
  function ParseIntOrZero(s: string): int {
    ParseInt(s).GetOr(0)
  }

  lemma {:induction false} ShowNatValue(n: nat)
    ensures AllDigits(ShowNat(n), 10)
    ensures DigitsValue(ShowNat(n), 10) == n
  {
    var s := ShowNat(n);
    if n >= 10 {
      ShowNatValue(n / 10);
      assert s[..|s| - 1] == ShowNat(n / 10);
    }
  }

  /** The digit prefix of `s + rest` is `s` itself when `rest` does not continue it. */
  lemma {:induction false} DigitRunStopsAt(s: string, rest: string, radix: nat)
    requires AllDigits(s, radix)
    requires |rest| == 0 || DigitIn(rest[0], radix).None?
    ensures DigitRun(s + rest, radix) == |s|
    decreases |s|
  {
    if |s| > 0 {
      assert AllDigits(s[1..], radix) by {
        forall i | 0 <= i < |s[1..]| ensures DigitIn(s[1..][i], radix).Some? {
          assert s[1..][i] == s[i + 1];
        }
      }
      DigitRunStopsAt(s[1..], rest, radix);
      assert (s + rest)[0] == s[0];
      assert (s + rest)[1..] == s[1..] + rest;
    } else {
      assert s + rest == rest;
    }
  }

  /** A rendered natural number followed by text that does not continue it has that magnitude. */
  lemma {:induction false} MagnitudeOfShowNat(n: nat, rest: string)
    requires |rest| == 0 || !IsDecimalDigit(rest[0])
    requires n == 0 && |rest| > 0 ==> rest[0] != 'x' && rest[0] != 'X'
    ensures ParseMagnitude(ShowNat(n) + rest) == Some(n)
  {
    var w := ShowNat(n);
    var u := w + rest;
    assert u[0] == w[0];
    assert !(|u| >= 2 && u[0] == '0' && (u[1] == 'x' || u[1] == 'X')) by {
      if |u| >= 2 && u[0] == '0' {
        assert w == "0";
        assert u[1] == rest[0];
      }
    }
    ShowNatValue(n);
    DigitRunStopsAt(w, rest, 10);
    assert u[..|w|] == w;
  }

  /**
   * Reading back a rendered natural number gives the number, even when other
   * text follows it ("12 PCs", "2.5", "1e3"), as long as that text does not
   * start with a digit, and does not turn a lone "0" into a `0x` prefix.
   */
  lemma {:induction false} ParseShowNat(n: nat, rest: string)
    requires |rest| == 0 || !IsDecimalDigit(rest[0])
    requires n == 0 && |rest| > 0 ==> rest[0] != 'x' && rest[0] != 'X'
    ensures ParseInt(ShowNat(n) + rest) == Some(n)
    ensures ParseIntOrZero(ShowNat(n) + rest) == n
  {
    var s := ShowNat(n) + rest;
    assert s[0] == ShowNat(n)[0];
    assert IsDecimalDigit(s[0]);
    assert !IsJsWhiteSpace(s[0]);
    assert TrimStart(s) == s;
    MagnitudeOfShowNat(n, rest);
    assert ParseInt(s) == Some(n);
  }

  /** Text that starts with a minus sign reads as the negated magnitude of what follows it. */
  lemma ParseAfterMinus(rest: string, m: nat)
    requires ParseMagnitude(rest) == Some(m)
    ensures ParseInt("-" + rest) == Some(-(m as int))
  {
    var s := "-" + rest;
    assert s[0] == '-' && !IsJsWhiteSpace(s[0]);
    assert TrimStart(s) == s;
    assert s[1..] == rest;
  }

  /** A minus sign followed by a rendered natural number reads back as its negation. */
  lemma ParseShowNegative(n: nat)
    ensures ParseInt("-" + ShowNat(n)) == Some(-(n as int))
  {
    var w := ShowNat(n);
    MagnitudeOfShowNat(n, "");
    assert w + "" == w;
    ParseAfterMinus(w, n);
  }

  /** The same for any integer, negative ones written with their minus sign. */
  lemma {:induction false} ParseShowInt(i: int)
    ensures ParseInt(ShowInt(i)) == Some(i)
    ensures ParseIntOrZero(ShowInt(i)) == i
  {
    if i < 0 {
      ParseShowNegative(-i);
      assert ShowInt(i) == "-" + ShowNat(-i);
    } else {
      ParseShowNat(i, "");
      assert ShowNat(i) + "" == ShowNat(i);
    }
  }

  /** Text whose first non-blank character is neither a sign nor a digit reads as 0. */
  lemma NonNumericIsZero(s: string)
    requires var t := TrimStart(s); |t| > 0 && t[0] != '-' && t[0] != '+' && !IsDecimalDigit(t[0])
    ensures ParseInt(s) == None
    ensures ParseIntOrZero(s) == 0
  {
  }
}
