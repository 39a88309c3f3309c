/** The JavaScript string operations the application relies on, over
    `seq<char>`: `replace(/\D/g, '')`, `trim`, `toLowerCase`, `includes`,
    `endsWith`, `padStart`, `slice(0, n)` and the decimal rendering of a
    number inside a template literal. */
module Text {

  // ---------------------------------------------------------------- digits

  /** The class `[0-9]`; `\D` in a regular expression is its complement. */
  predicate IsDigit(c: char) {
    '0' <= c <= '9'
  }

  predicate AllDigits(s: string) {
    forall i :: 0 <= i < |s| ==> IsDigit(s[i])
  }

  /** `s.replace(/\D/g, '')`: the digits of `s`, in order. */
  function Digits(s: string): (r: string)
    ensures AllDigits(r)
    ensures |r| <= |s|
    ensures AllDigits(s) ==> r == s
  {
    if s == [] then []
    else
      var rest := Digits(s[1..]);
      assert s == [s[0]] + s[1..];
      if IsDigit(s[0]) then [s[0]] + rest else rest
  }

  lemma {:induction false} DigitsAppend(a: string, b: string)
    ensures Digits(a + b) == Digits(a) + Digits(b)
  {
    if a == [] {
      assert a + b == b;
    } else {
      assert (a + b)[1..] == a[1..] + b;
      DigitsAppend(a[1..], b);
    }
  }

  /** A character that is not a digit contributes nothing. */
  lemma DigitsSkip(a: string, c: char, b: string)
    requires !IsDigit(c)
    ensures Digits(a + [c] + b) == Digits(a) + Digits(b)
  {
    DigitsAppend(a + [c], b);
    DigitsAppend(a, [c]);
    assert Digits([c]) == [] by {
      assert [c][1..] == [];
    }
    assert Digits(a) + [] == Digits(a);
  }

  /** Stripping non-digits twice is stripping them once. */
  lemma DigitsIdempotent(s: string)
    ensures Digits(Digits(s)) == Digits(s)
  {
  }

  // ------------------------------------------------------------ whitespace

  /** The characters `String.prototype.trim` removes: ECMAScript's
      WhiteSpace and LineTerminator productions. */
  predicate IsSpace(c: char) {
    ('\t' <= c <= '\r') || c == ' ' || c == '\U{00A0}' || c == '\U{1680}' ||
    ('\U{2000}' <= c <= '\U{200A}') || c == '\U{2028}' || c == '\U{2029}' ||
    c == '\U{202F}' || c == '\U{205F}' || c == '\U{3000}' || c == '\U{FEFF}'
  }

  predicate AllSpace(s: string) {
    forall i :: 0 <= i < |s| ==> IsSpace(s[i])
  }

  /** `s.trimStart()`: the suffix left after dropping leading white space. */
  function TrimStart(s: string): (r: string)
    ensures |r| <= |s| && r == s[|s| - |r|..]
    ensures AllSpace(s[..|s| - |r|])
    ensures r == [] || !IsSpace(r[0])
  {
    if s == [] || !IsSpace(s[0]) then s
    else
      var r := TrimStart(s[1..]);
      TrimStartStep(s, s[1..], r);
      r
  }

  /** One leading white space character in front of `t`, whose trimmed
      suffix is `r`, leaves `r` the trimmed suffix of `s`. */
  lemma {:induction false} TrimStartStep(s: string, t: string, r: string)
    requires s != [] && IsSpace(s[0]) && t == s[1..]
    requires |r| <= |t| && r == t[|t| - |r|..] && AllSpace(t[..|t| - |r|])
    ensures |r| <= |s| && r == s[|s| - |r|..]
    ensures AllSpace(s[..|s| - |r|])
  {
    var k := |s| - |r|;
    assert forall i :: 0 < i < k ==> s[..k][i] == t[..k - 1][i - 1];
  }

  /** `s.trimEnd()`: the prefix left after dropping trailing white space. */
  function TrimEnd(s: string): (r: string)
    ensures |r| <= |s| && r == s[..|r|]
    ensures AllSpace(s[|r|..])
    ensures r == [] || !IsSpace(r[|r| - 1])
  {
    if s == [] || !IsSpace(s[|s| - 1]) then s
    else
      var r := TrimEnd(s[..|s| - 1]);
      TrimEndStep(s, s[..|s| - 1], r);
      r
  }

  /** One trailing white space character after `t`, whose trimmed
      prefix is `r`, leaves `r` the trimmed prefix of `s`. */
  lemma {:induction false} TrimEndStep(s: string, t: string, r: string)
    requires s != [] && IsSpace(s[|s| - 1]) && t == s[..|s| - 1]
    requires |r| <= |t| && r == t[..|r|] && AllSpace(t[|r|..])
    ensures |r| <= |s| && r == s[..|r|]
    ensures AllSpace(s[|r|..])
  {
    assert t[|r|..] + [s[|s| - 1]] == s[|r|..];
  }

  /** `r` is `s[i..j]`, and `s` holds only white space before `i` and
      from `j` on. */
  predicate SpaceBordered(s: string, r: string, i: int, j: int) {
    0 <= i <= j <= |s| && r == s[i..j] && AllSpace(s[..i]) && AllSpace(s[j..])
  }

  /** A suffix `a` of `s` after white space, and a prefix `r` of `a`
      before white space: `r` is a slice of `s` bordered by white space. */
  lemma {:induction false} SpaceBorderedOfParts(s: string, a: string, r: string)
    requires |a| <= |s| && a == s[|s| - |a|..] && AllSpace(s[..|s| - |a|])
    requires |r| <= |a| && r == a[..|r|] && AllSpace(a[|r|..])
    ensures SpaceBordered(s, r, |s| - |a|, |s| - |a| + |r|)
  {
    var i := |s| - |a|;
    var j := i + |r|;
    assert s[j..] == a[|r|..];
  }

  /** The facts about `s.trim()`, for any suffix `a` of `s` after white
      space that does not start with white space, and any prefix `r` of
      `a` before white space that does not end with white space. */
  lemma {:induction false} TrimOfParts(s: string, a: string, r: string)
    requires |a| <= |s| && a == s[|s| - |a|..] && AllSpace(s[..|s| - |a|])
    requires a == [] || !IsSpace(a[0])
    requires |r| <= |a| && r == a[..|r|] && AllSpace(a[|r|..])
    requires r == [] || !IsSpace(r[|r| - 1])
    ensures r == [] <==> AllSpace(s)
    ensures r == [] || (!IsSpace(r[0]) && !IsSpace(r[|r| - 1]))
    ensures s == [] || (!IsSpace(s[0]) && !IsSpace(s[|s| - 1])) ==> r == s
    ensures SpaceBordered(s, r, |s| - |a|, |s| - |a| + |r|)
  {
    var i := |s| - |a|;
    SpaceBorderedOfParts(s, a, r);
    if r == [] {
      // then `a` is all white space, so it is empty, and `s` is its prefix
      assert a[|r|..] == a;
      assert a == [];
      assert s[..i] == s;
    } else {
      assert r[0] == a[0];
      assert r[|r| - 1] == s[i + |r| - 1];
    }
    if s != [] && !IsSpace(s[0]) && !IsSpace(s[|s| - 1]) {
      assert a == s;
    }
  }

  /** No upper-case ASCII letter occurs in `s`. */
  predicate NoCapitals(s: string) {
    forall k :: 0 <= k < |s| ==> !('A' <= s[k] <= 'Z')
  }

  /** A slice of a string without upper-case ASCII letters has none. */
  lemma NoCapitalsInSlice(s: string, r: string, i: int, j: int)
    requires SpaceBordered(s, r, i, j)
    requires NoCapitals(s)
    ensures NoCapitals(r)
  {
    assert forall k :: 0 <= k < |r| ==> r[k] == s[i + k];
  }

  /** Trimming a string without upper-case ASCII letters leaves none. */
  lemma TrimKeepsNoCapitals(s: string)
    requires NoCapitals(s)
    ensures NoCapitals(Trim(s))
  {
    var r := Trim(s);
    var i, j :| SpaceBordered(s, r, i, j);
    NoCapitalsInSlice(s, r, i, j);
  }

  /** `s.trim()`: `s` without leading or trailing white space. */
  function Trim(s: string): (r: string)
    ensures r == [] <==> AllSpace(s)
    ensures r == [] || (!IsSpace(r[0]) && !IsSpace(r[|r| - 1]))
    ensures s == [] || (!IsSpace(s[0]) && !IsSpace(s[|s| - 1])) ==> r == s
    // what is left is a slice of `s` with only white space on either side
    ensures exists i, j :: SpaceBordered(s, r, i, j)
  {
    var a := TrimStart(s);
    var r := TrimEnd(a);
    TrimOfParts(s, a, r);
    r
  }

  lemma TrimIdempotent(s: string)
    ensures Trim(Trim(s)) == Trim(s)
  {
    var t := Trim(s);
    if t != [] {
      assert TrimStart(t) == t;
      assert TrimEnd(t) == t;
    }
  }

  // ------------------------------------------------------------------ case

  /** `toLowerCase` on one character, for the Basic Latin and Latin-1
      ranges: `A-Z` and `À-Þ` (except `×`) map 32 code points up. */
  function LowerChar(c: char): (r: char)
    ensures IsSpace(r) <==> IsSpace(c)
    ensures IsDigit(r) <==> IsDigit(c)
    ensures !('A' <= r <= 'Z')
    ensures r != c ==> 'a' <= r <= 'z' || 'à' <= r <= 'þ'
  {
    if 'A' <= c <= 'Z' || ('À' <= c <= 'Þ' && c != '×')
    then (c as int + 32) as char
    else c
  }

  function Lower(s: string): (r: string)
    ensures |r| == |s|
    ensures forall i :: 0 <= i < |s| ==> r[i] == LowerChar(s[i])
  {
    seq(|s|, i requires 0 <= i < |s| => LowerChar(s[i]))
  }

  /** Lower-casing leaves no upper-case ASCII letter. */
  lemma LowerHasNoCapitals(s: string)
    ensures NoCapitals(Lower(s))
  {
  }

  lemma LowerIdempotent(s: string)
    ensures Lower(Lower(s)) == Lower(s)
  {
  }

  /** Lower-casing keeps exactly the white space, so it cannot turn a blank
      query into a non-blank one or back. */
  lemma LowerKeepsBlank(s: string)
    ensures AllSpace(Lower(s)) <==> AllSpace(s)
  {
  }

  // ------------------------------------------------------------ substrings

  ghost predicate OccursAt(sub: string, s: string, i: int) {
    0 <= i && i + |sub| <= |s| && s[i..i + |sub|] == sub
  }

  /** The first position, at or after `from`, where `sub` occurs in `s`;
      -1 when there is none. */
  function IndexOfFrom(s: string, sub: string, from: nat): (r: int)
    requires from <= |s|
    ensures r == -1 || (from <= r && OccursAt(sub, s, r))
    ensures r == -1 ==> forall i :: from <= i <= |s| ==> !OccursAt(sub, s, i)
    ensures r != -1 ==> forall i :: from <= i < r ==> !OccursAt(sub, s, i)
    decreases |s| - from
  {
    if from + |sub| > |s| then -1
    else if s[from..from + |sub|] == sub then from
    else if from == |s| then -1
    else IndexOfFrom(s, sub, from + 1)
  }

  /** `s.includes(sub)`. */
  predicate Contains(s: string, sub: string)
    ensures Contains(s, sub) <==> exists i :: OccursAt(sub, s, i)
  {
    var r := IndexOfFrom(s, sub, 0);
    assert r != -1 ==> OccursAt(sub, s, r);
    r != -1
  }

  /** `s.endsWith(suffix)`. */
  predicate EndsWith(s: string, suffix: string) {
    |suffix| <= |s| && s[|s| - |suffix|..] == suffix
  }

  /** `s.slice(0, n)`: the first `n` characters, or all of them. */
  function Take<T>(s: seq<T>, n: nat): (r: seq<T>)
    ensures |r| == if |s| <= n then |s| else n
    ensures r == s[..|r|]
  {
    if |s| <= n then s else s[..n]
  }

  /** `s.padStart(n, c)`: `s` made at least `n` long by repeating `c` on
      the left. */
  function PadStart(s: string, n: nat, c: char): (r: string)
    ensures |r| == if |s| < n then n else |s|
    ensures EndsWith(r, s)
    ensures forall i :: 0 <= i < |r| - |s| ==> r[i] == c
  {
    if |s| >= n then s
    else
      var pad := seq(n - |s|, _ => c);
      assert (pad + s)[n - |s|..] == s;
      pad + s
  }

  // ---------------------------------------------------------------- numbers

  function DigitChar(d: nat): (c: char)
    requires d < 10
    ensures IsDigit(c)
  {
    ('0' as int + d) as char
  }

  /** A non-negative integer in decimal, as a template literal renders it. */
  function NatToString(n: nat): (r: string)
    ensures r != [] && AllDigits(r)
  {
    if n < 10 then [DigitChar(n)] else NatToString(n / 10) + [DigitChar(n % 10)]
  }

  /** Reads a string of decimal digits back as a number. */
  function ParseDigits(s: string): nat
    requires AllDigits(s)
  {
    if s == [] then 0
    else ParseDigits(s[..|s| - 1]) * 10 + (s[|s| - 1] as int - '0' as int)
  }

  /** Rendering is faithful: the digits read back as the number. */
  lemma {:induction false} NatToStringRoundTrip(n: nat)
    ensures ParseDigits(NatToString(n)) == n
  {
    if n >= 10 {
      var s := NatToString(n);
      assert s[..|s| - 1] == NatToString(n / 10);
      NatToStringRoundTrip(n / 10);
    }
  }
}
