/**
 The few JavaScript string operations the OptimizelyX client relies on:
 lower-casing (ASCII only), `startsWith`, `indexOf`, `replace` with a string
 pattern (which replaces the FIRST occurrence only) and `Number.parseInt`
 with no radix.
 */
module JsText {

  predicate IsUpper(c: char) {
    'A' <= c <= 'Z'
  }

  function LowerChar(c: char): char {
    if IsUpper(c) then (c as int + 32) as char else c
  }

  /** `toLowerCase` / `toLocaleLowerCase`, restricted to the ASCII letters. */
  function Lower(s: string): (r: string)
    ensures |r| == |s|
    ensures forall i :: 0 <= i < |r| ==> !IsUpper(r[i])
    ensures forall i :: 0 <= i < |s| && !IsUpper(s[i]) ==> r[i] == s[i]
    ensures forall i :: 0 <= i < |s| && IsUpper(s[i]) ==> r[i] as int == s[i] as int + 32
  {
    seq(|s|, i requires 0 <= i < |s| => LowerChar(s[i]))
  }

  /** A string that contains no upper-case letter. */
  predicate IsLowerCase(s: string) {
    forall i :: 0 <= i < |s| ==> !IsUpper(s[i])
  }

  predicate StartsWith(s: string, prefix: string) {
    |prefix| <= |s| && s[..|prefix|] == prefix
  }

  predicate OccursAt(s: string, pat: string, i: int) {
    0 <= i && i + |pat| <= |s| && s[i..i + |pat|] == pat
  }

  /** `s.indexOf(pat, from)`: the first position at or after `from` where
      `pat` occurs, or -1. */
  function IndexOfFrom(s: string, pat: string, from: nat): (r: int)
    requires from <= |s|
    ensures r == -1 || (from <= r && OccursAt(s, pat, r))
    ensures r == -1 ==> forall i :: from <= i ==> !OccursAt(s, pat, i)
    ensures r != -1 ==> forall i :: from <= i < r ==> !OccursAt(s, pat, i)
    decreases |s| - from
  {
    if from + |pat| > |s| then -1
    else if s[from..from + |pat|] == pat then from
    else IndexOfFrom(s, pat, from + 1)
  }

  function IndexOf(s: string, pat: string): int {
    IndexOfFrom(s, pat, 0)
  }

  /** `s.replace(pat, rep)` with a string `pat`: only the first occurrence is
      replaced. JavaScript expands `$` patterns in `rep`; the model takes `rep`
      literally and so admits only replacements without a `$`. */
  function ReplaceFirst(s: string, pat: string, rep: string): (r: string)
    requires '$' !in rep
    ensures StartsWith(s, pat) ==> r == rep + s[|pat|..]
    ensures (forall i :: 0 <= i ==> !OccursAt(s, pat, i)) ==> r == s
  {
    var k := IndexOf(s, pat);
    if k == -1 then s
    else
      assert StartsWith(s, pat) ==> OccursAt(s, pat, 0);
      s[..k] + rep + s[k + |pat|..]
  }

  /** The value `parseInt` gives a character as a digit: 0-9, then the
      letters a-z (either case) as 10-35; anything else is no digit at all. */
  function DigitValue(c: char): nat {
    if '0' <= c <= '9' then c as int - '0' as int
    else if 'a' <= c <= 'z' then c as int - 'a' as int + 10
    else if 'A' <= c <= 'Z' then c as int - 'A' as int + 10
    else 36
  }

  predicate IsDigit(c: char, radix: nat) {
    DigitValue(c) < radix
  }

  predicate AllDigits(s: string, radix: nat) {
    forall i :: 0 <= i < |s| ==> IsDigit(s[i], radix)
  }

  /** Length of the longest prefix of `s` made of digits of `radix`. */
  function LeadingDigits(s: string, radix: nat): (n: nat)
    ensures n <= |s|
    ensures AllDigits(s[..n], radix)
    ensures n < |s| ==> !IsDigit(s[n], radix)
  {
    if |s| == 0 || !IsDigit(s[0], radix) then 0
    else
      var m := LeadingDigits(s[1..], radix);
      assert s[..1 + m] == [s[0]] + s[1..][..m];
      1 + m
  }

  function DigitsValue(ds: string, radix: nat): nat
    requires AllDigits(ds, radix)
  {
    if |ds| == 0 then 0
    else
      assert AllDigits(ds[..|ds| - 1], radix);
      radix * DigitsValue(ds[..|ds| - 1], radix) + DigitValue(ds[|ds| - 1])
  }

  /** The value `Number.parseInt` produces: an integer or NaN. */
  datatype JsNumber = Int(value: nat) | NaN

  /** The digits of `radix` at the head of `s`, NaN when there are none. */
  function ParseDigits(s: string, radix: nat): JsNumber {
    var n := LeadingDigits(s, radix);
    if n == 0 then NaN else Int(DigitsValue(s[..n], radix))
  }

  predicate HasHexPrefix(s: string) {
    StartsWith(s, "0x") || StartsWith(s, "0X")
  }

  /** `Number.parseInt(s)` with no radix: after a "0x" or "0X" prefix the
      text is read in base 16, otherwise in base 10. The digits at the head
      are read and the rest is ignored; with no digit there the result is NaN. */
  function ParseInt(s: string): (r: JsNumber)
    ensures HasHexPrefix(s) ==> (r.NaN? <==> |s| == 2 || !IsDigit(s[2], 16))
    ensures !HasHexPrefix(s) ==> (r.NaN? <==> |s| == 0 || !IsDigit(s[0], 10))
  {
    if HasHexPrefix(s) then ParseDigits(s[2..], 16) else ParseDigits(s, 10)
  }

  function DigitChar(d: nat): (c: char)
    requires d < 10
    ensures '0' <= c <= '9' && DigitValue(c) == d
  {
    ('0' as int + d) as char
  }

  /** The decimal rendering of a natural number: no sign, and no leading
      zero except in "0" itself. */
  function Decimal(n: nat): (s: string)
    ensures |s| >= 1 && AllDigits(s, 10)
    ensures s[0] == '0' <==> n == 0
    ensures n == 0 ==> s == "0"
  {
    if n < 10 then [DigitChar(n)] else Decimal(n / 10) + [DigitChar(n % 10)]
  }

  lemma {:induction false} DigitsValueOfDecimal(n: nat)
    ensures DigitsValue(Decimal(n), 10) == n
  {
    if n >= 10 {
      var d := Decimal(n);
      assert d[..|d| - 1] == Decimal(n / 10);
      DigitsValueOfDecimal(n / 10);
    }
  }

  lemma {:induction false} LeadingDigitsStopAtText(ds: string, rest: string, radix: nat)
    requires AllDigits(ds, radix)
    requires |rest| == 0 || !IsDigit(rest[0], radix)
    ensures LeadingDigits(ds + rest, radix) == |ds|
  {
    if |ds| > 0 {
      assert (ds + rest)[1..] == ds[1..] + rest;
      LeadingDigitsStopAtText(ds[1..], rest, radix);
    }
  }

  /** Reading back a rendered id: `parseInt` recovers `n` from its decimal
      text, also when text that is no decimal digit follows it, unless that
      text turns a rendered 0 into a "0x" hex prefix. */
  lemma ParseIntOfDecimal(n: nat, rest: string)
    requires |rest| == 0 || !IsDigit(rest[0], 10)
    requires n == 0 ==> |rest| == 0 || (rest[0] != 'x' && rest[0] != 'X')
    ensures ParseInt(Decimal(n) + rest) == Int(n)
  {
    var d := Decimal(n);
    var s := d + rest;
    assert s[0] == d[0];
    if n == 0 && |rest| > 0 {
      assert s[1] == rest[0];
    }
    assert !HasHexPrefix(s);
    LeadingDigitsStopAtText(d, rest, 10);
    assert s[..|d|] == d;
    DigitsValueOfDecimal(n);
  }

  /** With no radix, a "0x" prefix switches `parseInt` to base 16. */
  lemma ParseIntHexExamples()
    ensures ParseInt("0x1A") == Int(26)
    ensures ParseInt("0x") == NaN
    ensures ParseInt("x42") == NaN
  {
    assert HasHexPrefix("0x1A") && "0x1A"[2..] == "1A";
    assert LeadingDigits("1A", 16) == 2 by {
      LeadingDigitsStopAtText("1A", "", 16);
      assert "1A" + "" == "1A";
    }
    assert "1A"[..2] == "1A" && "1A"[..1] == "1" && "1"[..0] == "";
    assert DigitsValue("1", 16) == 1;
    assert DigitsValue("1A", 16) == 26;
    assert HasHexPrefix("0x");
    assert !HasHexPrefix("x42") by {
      assert "x42"[..2][0] != "0x"[0];
    }
  }
}
