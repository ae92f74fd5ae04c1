/** The parts of .NET's string handling that the core relies on, on `seq<char>`. */
module Text {
  import opened Wrappers
  import opened Int32

  /** `char.IsWhiteSpace`: the Unicode separator characters and the control characters it accepts. */
  predicate IsWhiteSpace(c: char) {
    c == ' ' || ('\t' <= c <= '\r') || c == '\U{0085}' || c == '\U{00A0}' || c == '\U{1680}'
    || ('\U{2000}' <= c <= '\U{200A}') || c == '\U{2028}' || c == '\U{2029}' || c == '\U{202F}'
    || c == '\U{205F}' || c == '\U{3000}'
  }

  /** `string.IsNullOrEmpty` */
  predicate IsNullOrEmpty(s: Option<string>) {
    s.None? || s.value == ""
  }

  /** `string.IsNullOrWhiteSpace` */
  predicate IsNullOrWhiteSpace(s: Option<string>) {
    s.None? || forall i | 0 <= i < |s.value| :: IsWhiteSpace(s.value[i])
  }

  predicate IsBlank(s: string) {
    IsNullOrWhiteSpace(Some(s))
  }

  predicate IsUpper(c: char) { 'A' <= c <= 'Z' }

  /** Lower-casing of one character (ASCII letters only). */
  function LowerChar(c: char): char {
    if IsUpper(c) then (c as int + 32) as char else c
  }

  /** `s.ToLower()` */
  function ToLower(s: string): (r: string)
    ensures |r| == |s|
    ensures forall i | 0 <= i < |s| :: r[i] == LowerChar(s[i])
  {
    if s == [] then [] else [LowerChar(s[0])] + ToLower(s[1..])
  }

  /** A string with no upper-case letters. */
  predicate IsLowerCase(w: string) {
    forall i | 0 <= i < |w| :: !IsUpper(w[i])
  }

  /** Independent reading of "s equals the lower-case word w, ignoring case":
      every character is w's, or w's letter in upper case. */
  predicate MatchesIgnoringCase(s: string, w: string) {
    |s| == |w| &&
    forall i | 0 <= i < |s| :: s[i] == w[i] || ('a' <= w[i] <= 'z' && s[i] as int == w[i] as int - 32)
  }

  lemma ToLowerMatches(s: string, w: string)
    requires IsLowerCase(w)
    ensures ToLower(s) == w <==> MatchesIgnoringCase(s, w)
  {
    if MatchesIgnoringCase(s, w) {
      assert forall i | 0 <= i < |s| :: ToLower(s)[i] == w[i];
    }
  }

  /** `t` occurs in `s` as a contiguous substring (`s.Contains(t)`, ordinal). */
  predicate Contains(s: string, t: string) {
    t <= s || (|s| > 0 && Contains(s[1..], t))
  }

  /** `t` sits in `s` at position `i`. */
  predicate OccursAt(s: string, t: string, i: int) {
    0 <= i && i + |t| <= |s| && s[i..i + |t|] == t
  }

  /** Where `Contains` finds `t`. */
  lemma {:induction false} ContainsWitness(s: string, t: string) returns (i: nat)
    requires Contains(s, t)
    ensures OccursAt(s, t, i)
  {
    if t <= s {
      i := 0;
    } else {
      var j := ContainsWitness(s[1..], t);
      i := j + 1;
      assert s[1..][j..j + |t|] == s[i..i + |t|];
    }
  }

  /** An occurrence anywhere is found by `Contains`. */
  lemma {:induction false} OccursContains(s: string, t: string, i: int)
    requires OccursAt(s, t, i)
    ensures Contains(s, t)
    decreases i
  {
    if i > 0 {
      assert s[1..][i - 1..i - 1 + |t|] == s[i..i + |t|];
      OccursContains(s[1..], t, i - 1);
    }
  }

  /** The recursive `Contains` agrees with the positional reading. */
  lemma ContainsAt(s: string, t: string)
    ensures Contains(s, t) <==> exists i :: OccursAt(s, t, i)
  {
    if Contains(s, t) {
      var i := ContainsWitness(s, t);
    }
    if exists i :: OccursAt(s, t, i) {
      var i :| OccursAt(s, t, i);
      OccursContains(s, t, i);
    }
  }

  /** `s.Contains(t, StringComparison.OrdinalIgnoreCase)` */
  predicate ContainsIgnoreCase(s: string, t: string) {
    Contains(ToLower(s), ToLower(t))
  }

  /** `s.StartsWith(p, StringComparison.OrdinalIgnoreCase)`: the first |p| characters agree up to case. */
  predicate StartsWithIgnoreCase(s: string, p: string) {
    |p| <= |s| && forall i | 0 <= i < |p| :: LowerChar(s[i]) == LowerChar(p[i])
  }

  /** `s.TrimStart()` */
  function TrimStart(s: string): (r: string)
    ensures |r| <= |s|
    ensures r == s[|s| - |r|..]
    ensures r == [] || !IsWhiteSpace(r[0])
    ensures forall i | 0 <= i < |s| - |r| :: IsWhiteSpace(s[i])
  {
    if s != [] && IsWhiteSpace(s[0]) then TrimStart(s[1..]) else s
  }

  /** `s.TrimEnd()` */
  function TrimEnd(s: string): (r: string)
    ensures |r| <= |s| && r == s[..|r|]
    ensures r == [] || !IsWhiteSpace(r[|r| - 1])
    ensures forall i | |r| <= i < |s| :: IsWhiteSpace(s[i])
  {
    if s != [] && IsWhiteSpace(s[|s| - 1]) then TrimEnd(s[..|s| - 1]) else s
  }

  /** `s.Trim()` */
  function Trim(s: string): string {
    TrimEnd(TrimStart(s))
  }

  /** `s.Trim(c)`: drops every leading and trailing `c`. */
  function TrimChar(s: string, c: char): (r: string)
    ensures |r| <= |s|
    ensures r == [] || (r[0] != c && r[|r| - 1] != c)
    ensures c !in s ==> r == s
  {
    if s != [] && s[0] == c then TrimChar(s[1..], c)
    else if s != [] && s[|s| - 1] == c then TrimChar(s[..|s| - 1], c)
    else s
  }

  // ---------------------------------------------------------------------------
  // Number parsing: `int.TryParse` and `double.TryParse` with the invariant culture.

  /** The white space that .NET's number parser skips around a number. */
  predicate IsNumberWhite(c: char) {
    c == ' ' || ('\t' <= c <= '\r')
  }

  function TrimNumberWhite(s: string): (r: string)
    ensures |r| <= |s|
    ensures s != [] && !IsNumberWhite(s[0]) && !IsNumberWhite(s[|s| - 1]) ==> r == s
  {
    if s != [] && IsNumberWhite(s[0]) then TrimNumberWhite(s[1..])
    else if s != [] && IsNumberWhite(s[|s| - 1]) then TrimNumberWhite(s[..|s| - 1])
    else s
  }

  predicate IsDigit(c: char) { '0' <= c <= '9' }

  predicate AllDigits(s: string) {
    forall i | 0 <= i < |s| :: IsDigit(s[i])
  }

  function DigitValue(c: char): nat
    requires IsDigit(c)
  {
    c as int - '0' as int
  }

  /** The value of a decimal digit string, most significant digit first. */
  function DigitsValue(s: string): nat
    requires AllDigits(s)
  {
    if s == [] then 0 else DigitsValue(s[..|s| - 1]) * 10 + DigitValue(s[|s| - 1])
  }

  function Pow10(k: nat): (r: nat)
    ensures r >= 1
  {
    if k == 0 then 1 else 10 * Pow10(k - 1)
  }

  /** Splits an optional leading sign off: (negative, rest). */
  function SplitSign(t: string): (bool, string) {
    if t != [] && t[0] == '-' then (true, t[1..])
    else if t != [] && t[0] == '+' then (false, t[1..])
    else (false, t)
  }

  /** `int.TryParse(s, out v)`: Some(v) on success. A value out of the int range fails. */
  function ParseInt32(s: Option<string>): (r: Option<int32>)
    ensures r.Some? ==> s.Some?
  {
    if s.None? then None
    else
      var (neg, body) := SplitSign(TrimNumberWhite(s.value));
      if body == [] || !AllDigits(body) then None
      else
        var v := if neg then -(DigitsValue(body) as int) else DigitsValue(body) as int;
        if MinInt32 <= v <= MaxInt32 then Some(v as int32) else None
  }

  /** `double.TryParse(s, out v)` for plain decimal notation (digits, optionally one '.');
      the value is the exact decimal, before rounding to a double. */
  function ParseReal(s: Option<string>): (r: Option<real>)
    ensures r.Some? ==> s.Some?
  {
    if s.None? then None
    else
      var (neg, body) := SplitSign(TrimNumberWhite(s.value));
      var intPart := TakeUntilDot(body);
      var rest := body[|intPart|..];
      var frac := if rest == [] then [] else rest[1..];
      if (intPart == [] && frac == []) || !AllDigits(intPart) || !AllDigits(frac) then None
      else
        var m := DigitsValue(intPart) as real + DigitsValue(frac) as real / Pow10(|frac|) as real;
        Some(if neg then -m else m)
  }

  function TakeUntilDot(s: string): (r: string)
    ensures r <= s
    ensures '.' !in r
    ensures |r| < |s| ==> s[|r|] == '.'
  {
    if s == [] || s[0] == '.' then [] else [s[0]] + TakeUntilDot(s[1..])
  }

  /** `n.ToString()` for a non-negative value. */
  function NatDigits(n: nat): (r: string)
    ensures r != [] && AllDigits(r)
  {
    if n < 10 then [('0' as int + n) as char] else NatDigits(n / 10) + [('0' as int + n % 10) as char]
  }

  /** `n.ToString()` for an `int`. */
  function FormatInt32(n: int32): string {
    if n < 0 then "-" + NatDigits(-(n as int)) else NatDigits(n as int)
  }

  lemma {:induction false} NatDigitsValue(n: nat)
    ensures DigitsValue(NatDigits(n)) == n
  {
    if n >= 10 {
      NatDigitsValue(n / 10);
      var s := NatDigits(n);
      assert s[..|s| - 1] == NatDigits(n / 10);
    }
  }

  /** `int.TryParse` reads back exactly what `ToString` writes. */
  lemma FormatParseRoundTrip(n: int32)
    ensures ParseInt32(Some(FormatInt32(n))) == Some(n)
  {
    var m := if n < 0 then -(n as int) else n as int;
    NatDigitsValue(m);
    var s := FormatInt32(n);
    var d := NatDigits(m);
    assert !IsNumberWhite(s[0]) && !IsNumberWhite(s[|s| - 1]);
    if n < 0 {
      assert s[1..] == d;
    }
  }

  /** Text that `int.TryParse` accepts, `double.TryParse` accepts too, with the same value. */
  lemma ParseIntThenReal(s: Option<string>)
    requires ParseInt32(s).Some?
    ensures ParseReal(s) == Some(ParseInt32(s).value as real)
  {
    var (neg, body) := SplitSign(TrimNumberWhite(s.value));
    TakeAllDigits(body);
  }

  lemma {:induction false} TakeAllDigits(s: string)
    requires AllDigits(s)
    ensures TakeUntilDot(s) == s
  {
    if s != [] {
      TakeAllDigits(s[1..]);
    }
  }
}
