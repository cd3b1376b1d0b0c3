/**
 * Character and string helpers shared by the backend services and the
 * frontend screens: ASCII lower-casing, whitespace stripping, decimal
 * numerals and case-insensitive search.
 */
module Text {
  import opened Wrappers

  predicate IsDigit(c: char) { '0' <= c <= '9' }
  predicate IsAsciiLower(c: char) { 'a' <= c <= 'z' }
  predicate IsAsciiUpper(c: char) { 'A' <= c <= 'Z' }
  predicate AllDigits(s: string) { forall i :: 0 <= i < |s| ==> IsDigit(s[i]) }

  /** Lower-cases ASCII letters; every other character is kept. */
  function LowerChar(c: char): (r: char)
    ensures !IsAsciiUpper(r)
    ensures IsAsciiUpper(c) || r == c
  {
    if IsAsciiUpper(c) then (c as int - 'A' as int + 'a' as int) as char else c
  }

  function Lower(s: string): (r: string)
    ensures |r| == |s|
    ensures forall i :: 0 <= i < |s| ==> r[i] == LowerChar(s[i])
  {
    if s == [] then [] else [LowerChar(s[0])] + Lower(s[1..])
  }

  lemma {:induction false} LowerIdempotent(s: string)
    ensures Lower(Lower(s)) == Lower(s)
  {
    if s != [] {
      LowerIdempotent(s[1..]);
      assert Lower(s)[1..] == Lower(s[1..]);
    }
  }

  /** The characters Python's `str.strip()` removes: those for which `str.isspace()` holds. */
  predicate IsSpace(c: char)
  {
    c == ' ' || c == '\t' || c == '\n' || c == '\r' || c == '\U{0B}' || c == '\U{0C}'
    || ('\U{1C}' <= c <= '\U{1F}') || c == '\U{85}' || c == '\U{A0}' || c == '\U{1680}'
    || ('\U{2000}' <= c <= '\U{200A}') || c == '\U{2028}' || c == '\U{2029}'
    || c == '\U{202F}' || c == '\U{205F}' || c == '\U{3000}'
  }

  function StripLeft(s: string): (r: string)
    ensures |r| <= |s| && r == s[|s| - |r|..]
    ensures r == [] || !IsSpace(r[0])
    ensures forall i :: 0 <= i < |s| - |r| ==> IsSpace(s[i])
  {
    if s != [] && IsSpace(s[0]) then StripLeft(s[1..]) else s
  }

  function StripRight(s: string): (r: string)
    ensures |r| <= |s| && r == s[..|r|]
    ensures r == [] || !IsSpace(r[|r| - 1])
    ensures forall i :: |r| <= i < |s| ==> IsSpace(s[i])
  {
    if s != [] && IsSpace(s[|s| - 1]) then StripRight(s[..|s| - 1]) else s
  }

  /** Python's `s.strip()`. */
  function Strip(s: string): string
  {
    StripLeft(StripRight(s))
  }

  lemma StripShape(s: string)
    ensures Strip(s) == [] || (!IsSpace(Strip(s)[0]) && !IsSpace(Strip(s)[|Strip(s)| - 1]))
  {
    var r := StripRight(s);
    var t := StripLeft(r);
    if t != [] {
      assert t == r[|r| - |t|..];
      assert t[|t| - 1] == r[|r| - 1];
    }
  }

  // ---- decimal numerals ----

  function DigitValue(c: char): nat
    requires IsDigit(c)
  {
    c as int - '0' as int
  }

  /** The value of a run of decimal digits, most significant first. */
  function DigitsValue(s: string): nat
    requires AllDigits(s)
  {
    if s == [] then 0 else 10 * DigitsValue(s[..|s| - 1]) + DigitValue(s[|s| - 1])
  }

  function Pow10(n: nat): (r: nat)
    ensures r >= 1
  {
    if n == 0 then 1 else 10 * Pow10(n - 1)
  }

  predicate StartsWith(s: string, prefix: string)
  {
    |prefix| <= |s| && s[..|prefix|] == prefix
  }

  predicate EndsWith(s: string, suffix: string)
  {
    |suffix| <= |s| && s[|s| - |suffix|..] == suffix
  }

  function IndexOfChar(s: string, c: char): (r: Option<nat>)
    ensures r.Some? ==> r.value < |s| && s[r.value] == c && c !in s[..r.value]
    ensures r.None? ==> c !in s
  {
    if s == [] then None
    else if s[0] == c then Some(0)
    else match IndexOfChar(s[1..], c)
      case Some(i) => (assert s[..i + 1] == [s[0]] + s[1..][..i]; Some(i + 1))
      case None => None
  }

  /** The first occurrence is where the character stands with none before it. */
  lemma {:induction false} IndexOfCharAt(s: string, c: char, k: nat)
    requires k < |s| && s[k] == c && c !in s[..k]
    ensures IndexOfChar(s, c) == Some(k)
  {
    if k > 0 {
      assert s[..k][0] == s[0];
      assert s[1..][..k - 1] == s[..k][1..];
      IndexOfCharAt(s[1..], c, k - 1);
    }
  }

  /**
   * An unsigned decimal numeral: digits, optionally followed by a point and
   * more digits, with at least one digit in all (`7`, `7.`, `7.25`, `.25`).
   */
  function ParseUnsigned(s: string): Option<real>
  {
    match IndexOfChar(s, '.')
    case None =>
      if s != [] && AllDigits(s) then Some(DigitsValue(s) as real) else None
    case Some(i) =>
      var whole, frac := s[..i], s[i + 1..];
      if AllDigits(whole) && AllDigits(frac) && |whole| + |frac| >= 1 then
        Some(DigitsValue(whole) as real + DigitsValue(frac) as real / Pow10(|frac|) as real)
      else None
  }

  /**
   * The decimal numerals a number parser accepts: an optional sign before an
   * unsigned numeral. This one grammar stands for JavaScript's `Number()` and
   * `parseFloat()` and for Python's `float()` on such text.
   */
  function ParseDecimal(s: string): Option<real>
  {
    if s != [] && (s[0] == '-' || s[0] == '+') then
      match ParseUnsigned(s[1..])
      case Some(v) => Some(if s[0] == '-' then -v else v)
      case None => None
    else ParseUnsigned(s)
  }

  lemma DigitsParse(s: string)
    requires s != [] && AllDigits(s)
    ensures ParseDecimal(s) == Some(DigitsValue(s) as real)
  {
    assert !IsDigit('.');
  }

  // ---- case-insensitive search ----

  /** `pat` occurs at `i` of `text` when both are lower-cased. */
  predicate MatchesAt(text: string, pat: string, i: nat)
  {
    i + |pat| <= |text| && Lower(text[i..i + |pat|]) == Lower(pat)
  }

  /** The first position at or after `from` where `pat` occurs, ignoring ASCII case. */
  function FindFrom(text: string, pat: string, from: nat): (r: Option<nat>)
    decreases |text| - from
    ensures r.Some? ==> from <= r.value && MatchesAt(text, pat, r.value)
    ensures r.Some? ==> forall j :: from <= j < r.value ==> !MatchesAt(text, pat, j)
    ensures r.None? ==> forall j :: from <= j ==> !MatchesAt(text, pat, j)
  {
    if from + |pat| > |text| then None
    else if MatchesAt(text, pat, from) then Some(from)
    else FindFrom(text, pat, from + 1)
  }

  /** `re.search(re.escape(pat), text, re.IGNORECASE)`: the first occurrence. */
  function FindIgnoringCase(text: string, pat: string): Option<nat>
  {
    FindFrom(text, pat, 0)
  }

  // ---- name keys and character replacement ----

  predicate IsKeyChar(c: char) { IsAsciiLower(c) || IsDigit(c) }

  /**
   * `re.sub(r'[^a-z0-9]', '', s.lower())`: the lower-cased string with every
   * character other than an ASCII lower-case letter or digit removed.
   */
  function LowerAlnum(s: string): (r: string)
    ensures |r| <= |s|
    ensures forall i :: 0 <= i < |r| ==> IsKeyChar(r[i])
  {
    if s == [] then []
    else (if IsKeyChar(LowerChar(s[0])) then [LowerChar(s[0])] else []) + LowerAlnum(s[1..])
  }

  /** A string made only of key characters is its own key. */
  lemma {:induction false} LowerAlnumKeeps(s: string)
    requires forall i :: 0 <= i < |s| ==> IsKeyChar(s[i])
    ensures LowerAlnum(s) == s
  {
    if s != [] {
      var tail := s[1..];
      forall i | 0 <= i < |tail| ensures IsKeyChar(tail[i]) {
        assert tail[i] == s[i + 1];
      }
      LowerAlnumKeeps(tail);
      assert IsKeyChar(s[0]) && !IsAsciiUpper(s[0]);
      assert LowerChar(s[0]) == s[0];
      assert s == [s[0]] + tail;
    }
  }

  /** Normalising a name twice is normalising it once. */
  lemma LowerAlnumIdempotent(s: string)
    ensures LowerAlnum(LowerAlnum(s)) == LowerAlnum(s)
  {
    LowerAlnumKeeps(LowerAlnum(s));
  }

  /** `s.replace(c, d)` for single characters. */
  function ReplaceChar(s: string, c: char, d: char): (r: string)
    ensures |r| == |s|
    ensures forall i :: 0 <= i < |s| ==> r[i] == (if s[i] == c then d else s[i])
    ensures c !in s ==> r == s
  {
    if s == [] then [] else [if s[0] == c then d else s[0]] + ReplaceChar(s[1..], c, d)
  }

  /** `s.replace(c, "")`: every occurrence of `c` removed, the rest in order. */
  function RemoveChar(s: string, c: char): (r: string)
    ensures |r| <= |s|
    ensures c !in r
    ensures forall x :: x in r ==> x in s
    ensures c !in s ==> r == s
  {
    if s == [] then [] else (if s[0] == c then [] else [s[0]]) + RemoveChar(s[1..], c)
  }
}
