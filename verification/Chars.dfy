/** The string operations of Rust's standard library that the program uses. */
module Chars {
  /** `char::is_whitespace`: the Unicode White_Space property. */
  predicate IsWhitespace(c: char) {
    var n := c as int;
    || 0x09 <= n <= 0x0D || n == 0x20 || n == 0x85 || n == 0xA0 || n == 0x1680
    || 0x2000 <= n <= 0x200A || n == 0x2028 || n == 0x2029 || n == 0x202F || n == 0x205F || n == 0x3000
  }

  function TrimStart(s: string): string {
    if s != "" && IsWhitespace(s[0]) then TrimStart(s[1..]) else s
  }

  function TrimEnd(s: string): string {
    if s != "" && IsWhitespace(s[|s| - 1]) then TrimEnd(s[..|s| - 1]) else s
  }

  function Trim(s: string): string {
    TrimEnd(TrimStart(s))
  }

  lemma {:induction false} TrimStartCuts(s: string) returns (i: nat)
    ensures i <= |s| && TrimStart(s) == s[i..]
    ensures forall k | 0 <= k < i :: IsWhitespace(s[k])
    ensures i < |s| ==> !IsWhitespace(s[i])
    decreases |s|
  {
    if s != "" && IsWhitespace(s[0]) {
      var j := TrimStartCuts(s[1..]);
      i := j + 1;
    } else {
      i := 0;
    }
  }

  lemma {:induction false} TrimEndCuts(s: string) returns (j: nat)
    ensures j <= |s| && TrimEnd(s) == s[..j]
    ensures forall k | j <= k < |s| :: IsWhitespace(s[k])
    ensures j > 0 ==> !IsWhitespace(s[j - 1])
    decreases |s|
  {
    if s != "" && IsWhitespace(s[|s| - 1]) {
      j := TrimEndCuts(s[..|s| - 1]);
    } else {
      j := |s|;
    }
  }

  /** Trimming cuts off the whitespace at both ends and nothing else. */
  lemma TrimCuts(s: string) returns (i: nat, j: nat)
    ensures i <= j <= |s| && Trim(s) == s[i..j]
    ensures forall k | 0 <= k < i || j <= k < |s| :: IsWhitespace(s[k])
    ensures i < j ==> !IsWhitespace(s[i]) && !IsWhitespace(s[j - 1])
  {
    i := TrimStartCuts(s);
    var n := TrimEndCuts(s[i..]);
    j := i + n;
    assert s[i..][..n] == s[i..j];
    assert forall k | n <= k < |s[i..]| :: s[i..][k] == s[i + k];
    if n > 0 {
      assert s[i..][n - 1] == s[j - 1];
    }
  }

  predicate IsLower(c: char) { 'a' <= c <= 'z' }
  predicate IsUpper(c: char) { 'A' <= c <= 'Z' }
  predicate IsDigit(c: char) { '0' <= c <= '9' }
  predicate IsAlphanumeric(c: char) { IsLower(c) || IsUpper(c) || IsDigit(c) }

  function UpperChar(c: char): char {
    if IsLower(c) then c - 'a' + 'A' else c
  }

  function LowerChar(c: char): char {
    if IsUpper(c) then c - 'A' + 'a' else c
  }

  function ToUpper(s: string): (r: string)
    ensures |r| == |s| && forall i | 0 <= i < |s| :: r[i] == UpperChar(s[i])
  {
    if s == "" then "" else [UpperChar(s[0])] + ToUpper(s[1..])
  }

  function ToLower(s: string): (r: string)
    ensures |r| == |s| && forall i | 0 <= i < |s| :: r[i] == LowerChar(s[i])
  {
    if s == "" then "" else [LowerChar(s[0])] + ToLower(s[1..])
  }

  predicate EqIgnoreAsciiCase(a: string, b: string) {
    ToLower(a) == ToLower(b)
  }

  /** The same character, or an ASCII letter and its other case. */
  predicate SameLetter(c: char, d: char) {
    || c == d
    || (IsUpper(c) && IsLower(d) && d as int - c as int == 0x20)
    || (IsLower(c) && IsUpper(d) && c as int - d as int == 0x20)
  }

  /** Texts that differ in the case of ASCII letters, and in nothing else. */
  lemma EqualButForCase(a: string, b: string)
    ensures EqIgnoreAsciiCase(a, b) <==> |a| == |b| && forall i | 0 <= i < |a| :: SameLetter(a[i], b[i])
  {
    if |a| == |b| {
      forall i | 0 <= i < |a| ensures ToLower(a)[i] == ToLower(b)[i] <==> SameLetter(a[i], b[i]) {
        assert ToLower(a)[i] == LowerChar(a[i]) && ToLower(b)[i] == LowerChar(b[i]);
      }
    }
  }

  function Digit(n: nat): char
    requires n < 10
  {
    '0' + n as char
  }

  /** The decimal digits of `n`, padded with zeros to at least `width`: `{:0width}`. */
  function Padded(n: nat, width: nat): string
    decreases n + width
  {
    if n < 10 && width <= 1 then [Digit(n)]
    else Padded(n / 10, if width == 0 then 0 else width - 1) + [Digit(n % 10)]
  }

  function Decimal(n: nat): string {
    Padded(n, 1)
  }

  predicate AllDigits(s: string) {
    forall i | 0 <= i < |s| :: IsDigit(s[i])
  }

  /** The number that decimal digits stand for. */
  function NumberOf(digits: string): nat
    requires AllDigits(digits)
  {
    if digits == "" then 0
    else NumberOf(digits[..|digits| - 1]) * 10 + (digits[|digits| - 1] as int - '0' as int)
  }

  /** Padding writes the number that it is given. */
  lemma {:induction false} PaddedReads(n: nat, width: nat)
    ensures AllDigits(Padded(n, width)) && NumberOf(Padded(n, width)) == n
    decreases n + width
  {
    var s := Padded(n, width);
    if n < 10 && width <= 1 {
      assert s[..0] == "" && s[0] == Digit(n);
    } else {
      PaddedReads(n / 10, if width == 0 then 0 else width - 1);
      var front := Padded(n / 10, if width == 0 then 0 else width - 1);
      assert s == front + [Digit(n % 10)] && s[..|s| - 1] == front && s[|s| - 1] == Digit(n % 10);
    }
  }

  function Pow10(n: nat): nat {
    if n == 0 then 1 else 10 * Pow10(n - 1)
  }
}
