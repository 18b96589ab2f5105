/** The handful of Python string operations the game relies on. */
module Text {

  /** Python's `str.isspace`: the characters `str.strip()` removes. */
  predicate IsSpace(c: char) {
    c in {'\t', '\n', '\U{0B}', '\U{0C}', '\r', '\U{1C}', '\U{1D}', '\U{1E}', '\U{1F}', ' ',
          '\U{85}', '\U{A0}', '\U{1680}', '\U{2028}', '\U{2029}', '\U{202F}', '\U{205F}', '\U{3000}'}
    || '\U{2000}' <= c <= '\U{200A}'
  }

  /** Every character is whitespace. */
  predicate AllSpace(p: string) {
    forall i :: 0 <= i < |p| ==> IsSpace(p[i])
  }

  /** How many whitespace characters `s` starts with. */
  function LeadingSpaces(s: string): (n: nat)
    ensures n <= |s| && AllSpace(s[..n]) && (n == |s| || !IsSpace(s[n]))
  {
    if s != [] && IsSpace(s[0]) then
      var n := 1 + LeadingSpaces(s[1..]);
      assert s[..n] == [s[0]] + s[1..][..n - 1];
      n
    else 0
  }

  /** How many whitespace characters `s` ends with. */
  function TrailingSpaces(s: string): (n: nat)
    ensures n <= |s| && AllSpace(s[|s| - n..]) && (n == |s| || !IsSpace(s[|s| - n - 1]))
  {
    if s != [] && IsSpace(s[|s| - 1]) then
      var front := s[..|s| - 1];
      var n := 1 + TrailingSpaces(front);
      assert s[|s| - n..] == front[|front| - (n - 1)..] + [s[|s| - 1]];
      n
    else 0
  }

  /** `s` without its leading whitespace. */
  function TrimStart(s: string): string {
    s[LeadingSpaces(s)..]
  }

  /** `s` without its trailing whitespace. */
  function TrimEnd(s: string): string {
    s[..|s| - TrailingSpaces(s)]
  }

  /** Python's `str.strip()`. */
  function Strip(s: string): string {
    TrimEnd(TrimStart(s))
  }

  /**
   * `Strip` removes whitespace from both ends and nothing else: what is left
   * is a slice of `s` with only whitespace around it, and it neither starts
   * nor ends with whitespace.
   */
  lemma StripShape(s: string)
    ensures var i := LeadingSpaces(s);
            var r := Strip(s);
            && i + |r| <= |s| && r == s[i..i + |r|]
            && AllSpace(s[..i]) && AllSpace(s[i + |r|..])
            && (r != [] ==> !IsSpace(r[0]) && !IsSpace(r[|r| - 1]))
  {
    var i := LeadingSpaces(s);
    var t := s[i..];
    var n := TrailingSpaces(t);
    var r := t[..|t| - n];
    assert Strip(s) == r;
    assert |r| == |s| - i - n;
    assert r == s[i..i + |r|];
    assert AllSpace(t[|t| - n..]);
    assert s[i + |r|..] == t[|t| - n..];
    if r != [] {
      assert i < |s| && n < |t|;
      assert r[0] == s[i];
      assert r[|r| - 1] == t[|t| - n - 1];
    }
  }

  /** Python's `s.endswith(w)`. */
  predicate EndsWith(s: string, w: string) {
    |w| <= |s| && s[|s| - |w|..] == w
  }

  /** `w` occurs in `s` as a contiguous substring (Python's `w in s`). */
  predicate Contains(s: string, w: string)
    decreases |s|
  {
    w <= s || (s != [] && Contains(s[1..], w))
  }

  /** ASCII lower-casing (the only part of `str.lower` that can matter for ASCII targets). */
  function AsciiLower(s: string): (r: string)
    ensures |r| == |s|
    ensures forall i :: 0 <= i < |s| ==> r[i] == if 'A' <= s[i] <= 'Z' then (s[i] as int + 32) as char else s[i]
  {
    if s == [] then []
    else
      var c := s[0];
      [if 'A' <= c <= 'Z' then (c as int + 32) as char else c] + AsciiLower(s[1..])
  }

  /** Python's `sep.join(xs)`. */
  function Join(xs: seq<string>, sep: string): string
    decreases |xs|
  {
    if xs == [] then ""
    else if |xs| == 1 then xs[0]
    else xs[0] + sep + Join(xs[1..], sep)
  }

  /** The number a string of decimal digits denotes, read most significant digit first. */
  function DigitsValue(r: string): int
    decreases |r|
  {
    if r == [] then 0 else 10 * DigitsValue(r[..|r| - 1]) + (r[|r| - 1] as int - '0' as int)
  }

  /** The decimal digits of `n`, most significant first, without leading zeros. */
  function ShowNat(n: nat): (r: string)
    ensures r != []
    ensures forall i :: 0 <= i < |r| ==> '0' <= r[i] <= '9'
    ensures DigitsValue(r) == n
    ensures r[0] != '0' || r == "0"
  {
    var d := ['0' + (n % 10) as char];
    if n < 10 then d
    else
      var p := ShowNat(n / 10);
      assert (p + d)[..|p + d| - 1] == p;
      p + d
  }

  /** Python's `str(i)` for an integer. */
  function ShowInt(i: int): (r: string)
    ensures r != []
    ensures i >= 0 ==> DigitsValue(r) == i && forall k :: 0 <= k < |r| ==> '0' <= r[k] <= '9'
    ensures i < 0 ==> r[0] == '-' && DigitsValue(r[1..]) == -i && forall k :: 1 <= k < |r| ==> '0' <= r[k] <= '9'
    ensures r[0] == '-' || r[0] != '0' || r == "0"
    ensures |r| > 1 && r[0] == '-' ==> r[1] != '0'
  {
    if i < 0 then
      var m := ShowNat(-i);
      assert ("-" + m)[1..] == m;
      "-" + m
    else ShowNat(i)
  }
}
