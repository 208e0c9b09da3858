/** Character and string helpers with JavaScript's meaning: the regular
    expression class `\d`, the whitespace `String.prototype.trim` removes,
    ASCII case folding, and the decimal rendering of a non-negative number. */
module Text {

  /** `\d` in a regular expression without the `u` flag: an ASCII decimal digit. */
  predicate IsDigit(c: char) {
    '0' <= c <= '9'
  }

  /** ECMAScript's WhiteSpace and LineTerminator code points, the set that
      `trim` removes and `parseInt` skips. */
  predicate IsJsWhitespace(c: char) {
    var n := c as int;
    (9 <= n <= 13) || n == 0x20 || n == 0xA0 || n == 0x1680
    || (0x2000 <= n <= 0x200A) || n == 0x2028 || n == 0x2029
    || n == 0x202F || n == 0x205F || n == 0x3000 || n == 0xFEFF
  }

  // ---------------------------------------------------------------- trim

  /** `trimStart`: what is left after the leading whitespace. */
  function TrimStart(s: string): (r: string)
    ensures |r| <= |s| && r == s[|s| - |r|..]
    ensures forall k :: 0 <= k < |s| - |r| ==> IsJsWhitespace(s[k])
    ensures r == [] || !IsJsWhitespace(r[0])
  {
    if s == [] || !IsJsWhitespace(s[0]) then s else TrimStart(s[1..])
  }

  /** `trimEnd`: what is left after the trailing whitespace. */
  function TrimEnd(s: string): (r: string)
    ensures |r| <= |s| && r == s[..|r|]
    ensures forall k :: |r| <= k < |s| ==> IsJsWhitespace(s[k])
    ensures r == [] || !IsJsWhitespace(r[|r| - 1])
  {
    if s == [] || !IsJsWhitespace(s[|s| - 1]) then s else TrimEnd(s[..|s| - 1])
  }

  /** `r` is the part of `s` from position `i` on, and everything of `s`
      before and after it is whitespace. */
  ghost predicate CutAt(s: string, r: string, i: int) {
    && 0 <= i <= |s| - |r|
    && r == s[i..i + |r|]
    && (forall k :: 0 <= k < i ==> IsJsWhitespace(s[k]))
    && (forall k :: i + |r| <= k < |s| ==> IsJsWhitespace(s[k]))
  }

  /** `trim`: a contiguous part of `s`, cut only at whitespace, neither
      starting nor ending with whitespace. */
  function Trim(s: string): (r: string)
    ensures |r| <= |s|
    ensures r == [] || (!IsJsWhitespace(r[0]) && !IsJsWhitespace(r[|r| - 1]))
    ensures exists i :: CutAt(s, r, i)
  {
    var t := TrimStart(s);
    var r := TrimEnd(t);
    assert r == s[|s| - |t|..|s| - |t| + |r|];
    assert CutAt(s, r, |s| - |t|);
    r
  }

  /** Trimming twice is trimming once. */
  lemma TrimIdempotent(s: string)
    ensures Trim(Trim(s)) == Trim(s)
  {
    var r := Trim(s);
    assert TrimStart(r) == r;
    assert TrimEnd(r) == r;
  }

  // ---------------------------------------------------------------- case

  /** ASCII upper case to lower case; every other character is kept. */
  function Lower(c: char): (r: char)
    ensures 'A' <= c <= 'Z' ==> r as int == c as int + 32
    ensures !('A' <= c <= 'Z') ==> r == c
  {
    if 'A' <= c <= 'Z' then (c as int + 32) as char else c
  }

  function LowerAll(s: string): (r: string)
    ensures |r| == |s|
    ensures forall k :: 0 <= k < |s| ==> r[k] == Lower(s[k])
  {
    seq(|s|, k requires 0 <= k < |s| => Lower(s[k]))
  }

  /** `needle` occurs in `hay` at position `i`, ignoring ASCII case. */
  ghost predicate MatchAt(hay: string, needle: string, i: int) {
    0 <= i <= |hay| - |needle| && LowerAll(hay[i..i + |needle|]) == LowerAll(needle)
  }

  function StartsWithIgnoreCase(s: string, prefix: string): bool {
    |prefix| <= |s| && LowerAll(s[..|prefix|]) == LowerAll(prefix)
  }

  /** A slice of the tail is the slice one place further along. */
  lemma TailSlice(s: string, i: int, j: int)
    requires 0 <= i <= j <= |s| - 1
    ensures s[1..][i..j] == s[i + 1..j + 1]
  {
  }

  /** Case-insensitive substring test, as `ilike '%needle%'` with no wildcard
      characters inside `needle`. */
  function ContainsIgnoreCase(hay: string, needle: string): (r: bool)
    ensures r <==> exists i :: MatchAt(hay, needle, i)
    decreases |hay|
  {
    if StartsWithIgnoreCase(hay, needle) then
      assert MatchAt(hay, needle, 0);
      true
    else if hay == [] then
      false
    else
      var r := ContainsIgnoreCase(hay[1..], needle);
      assert forall j :: MatchAt(hay[1..], needle, j) ==> MatchAt(hay, needle, j + 1) by {
        forall j | MatchAt(hay[1..], needle, j) ensures MatchAt(hay, needle, j + 1) {
          TailSlice(hay, j, j + |needle|);
        }
      }
      assert forall i :: MatchAt(hay, needle, i) ==> MatchAt(hay[1..], needle, i - 1) by {
        forall i | MatchAt(hay, needle, i) ensures MatchAt(hay[1..], needle, i - 1) {
          assert i != 0 by { assert hay[..|needle|] == hay[0..0 + |needle|]; }
          TailSlice(hay, i - 1, i - 1 + |needle|);
        }
      }
      r
  }

  /** The empty search text occurs in every title. */
  lemma EmptyNeedleAlwaysMatches(hay: string)
    ensures ContainsIgnoreCase(hay, "")
  {
    assert MatchAt(hay, "", 0);
  }

  // ---------------------------------------------------------------- numbers

  function DigitChar(d: nat): (c: char)
    requires d < 10
    ensures IsDigit(c) && c as int - '0' as int == d
  {
    ('0' as int + d) as char
  }

  /** `String(n)` for a non-negative integer: its decimal digits, most
      significant first, with no leading zero. */
  function Decimal(n: nat): (r: string)
    ensures |r| >= 1
    ensures forall k :: 0 <= k < |r| ==> IsDigit(r[k])
    ensures r[0] == '0' ==> n == 0 && r == "0"
  {
    if n < 10 then [DigitChar(n)] else Decimal(n / 10) + [DigitChar(n % 10)]
  }

  /** Different numbers are written differently. */
  lemma {:induction false} DecimalInjective(a: nat, b: nat)
    ensures Decimal(a) == Decimal(b) ==> a == b
  {
    if Decimal(a) == Decimal(b) && a >= 10 && b >= 10 {
      var d := Decimal(a);
      assert d[..|d| - 1] == Decimal(a / 10) && d[..|d| - 1] == Decimal(b / 10);
      DecimalInjective(a / 10, b / 10);
      assert DigitChar(a % 10) == d[|d| - 1] == DigitChar(b % 10);
    }
  }
}
