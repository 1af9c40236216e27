/**
 * The few Python `str` operations the inventory code relies on:
 * `strip()`, `upper()`, `lower()`, `replace(" ", "_")`, the `in` substring
 * test, `str()` of an integer and `int()` of a string.
 * `lower()` folds ASCII letters only (see README, "Left out").
 */
module Text {
  import opened Wrappers

  /** Whitespace as Python's `str.isspace()` decides it for one character. */
  predicate IsSpace(c: char) {
    c == ' ' || ('\t' <= c <= '\r') || ('\U{1c}' <= c <= '\U{1f}')
    || c == '\U{85}' || c == '\U{a0}' || c == '\U{1680}'
    || ('\U{2000}' <= c <= '\U{200a}') || c == '\U{2028}' || c == '\U{2029}'
    || c == '\U{202f}' || c == '\U{205f}' || c == '\U{3000}'
  }

  /**
   * The whitespace Python's `int()` skips around the digits: the space and
   * `\t\n\v\f\r`, and every non-ASCII character `str.isspace()` accepts
   * (it reads those as a space). The separators U+001C..U+001F, which
   * `str.isspace()` accepts, are not skipped.
   */
  predicate IsIntSpace(c: char) {
    IsSpace(c) && !('\U{1c}' <= c <= '\U{1f}')
  }

  /** Every character of `s` is whitespace in the sense of `ws`. */
  predicate AllSpace(s: string, ws: char -> bool) {
    forall i :: 0 <= i < |s| ==> ws(s[i])
  }

  /** Drops the leading `ws` whitespace. */
  function StripLeading(s: string, ws: char -> bool): (r: string)
    ensures |r| <= |s| && r == s[|s| - |r|..]
    ensures AllSpace(s[..|s| - |r|], ws)
    ensures r == [] || !ws(r[0])
  {
    if s != [] && ws(s[0]) then
      var r := StripLeading(s[1..], ws);
      var cut, cut' := s[..|s| - |r|], s[1..][..|s| - 1 - |r|];
      assert forall i :: 1 <= i < |cut| ==> cut[i] == cut'[i - 1];
      r
    else s
  }

  /** Drops the trailing `ws` whitespace. */
  function StripTrailing(s: string, ws: char -> bool): (r: string)
    ensures |r| <= |s| && r == s[..|r|]
    ensures AllSpace(s[|r|..], ws)
    ensures r == [] || !ws(r[|r| - 1])
  {
    if s != [] && ws(s[|s| - 1]) then
      var init := s[..|s| - 1];
      var r := StripTrailing(init, ws);
      assert init[..|r|] == s[..|r|];
      assert s[|r|..] == init[|r|..] + [s[|s| - 1]];
      r
    else s
  }

  /** `r` is the slice of `s` from `i`, and everything cut off on either side is `ws` whitespace. */
  predicate TrimmedAt(s: string, r: string, i: int, ws: char -> bool) {
    && 0 <= i <= i + |r| <= |s|
    && r == s[i..i + |r|]
    && AllSpace(s[..i], ws)
    && AllSpace(s[i + |r|..], ws)
  }

  /**
   * The slice of `s` left once `ws` whitespace is cut from both ends:
   * Python's `s.strip()` with `IsSpace`, and the trimming `int()` does with
   * `IsIntSpace`.
   */
  function Strip(s: string, ws: char -> bool): (r: string)
    ensures exists i :: TrimmedAt(s, r, i, ws)
    ensures r == [] || (!ws(r[0]) && !ws(r[|r| - 1]))
  {
    var t := StripLeading(s, ws);
    var r := StripTrailing(t, ws);
    TrimmedTwice(s, t, r, ws);
    r
  }

  /** Cutting whitespace off the front of `s`, then off the back of what is left, trims `s` at one offset and leaves no whitespace at either end. */
  lemma TrimmedTwice(s: string, t: string, r: string, ws: char -> bool)
    requires |t| <= |s| && t == s[|s| - |t|..] && AllSpace(s[..|s| - |t|], ws)
    requires |r| <= |t| && r == t[..|r|] && AllSpace(t[|r|..], ws)
    requires t == [] || !ws(t[0])
    requires r == [] || !ws(r[|r| - 1])
    ensures TrimmedAt(s, r, |s| - |t|, ws)
    ensures r == [] || (!ws(r[0]) && !ws(r[|r| - 1]))
  {
    assert r != [] ==> r[0] == t[0];
    var i := |s| - |t|;
    assert r == s[i..i + |r|];
    assert s[i + |r|..] == t[|r|..];
  }

  /** A string that starts and ends with something other than whitespace is its own strip. */
  lemma StripTrimmed(s: string, ws: char -> bool)
    requires s == [] || (!ws(s[0]) && !ws(s[|s| - 1]))
    ensures Strip(s, ws) == s
  {
  }

  function UpperChar(c: char): char {
    if 'a' <= c <= 'z' then (c as int - 'a' as int + 'A' as int) as char else c
  }

  function LowerChar(c: char): char {
    if 'A' <= c <= 'Z' then (c as int - 'A' as int + 'a' as int) as char else c
  }

  /**
   * The characters other than `a`..`z` whose upper-case form under Python's
   * full case mapping contains an ASCII letter, with that form.
   */
  const SpecialUpper: map<char, string> := map[
    '\U{df}' := "SS",              // ß
    '\U{17f}' := "S",              // ſ, long s
    '\U{131}' := "I",              // ı, dotless i
    '\U{149}' := "\U{2bc}N",       // ŉ
    '\U{1f0}' := "J\U{30c}",       // ǰ
    '\U{1e96}' := "H\U{331}",      // ẖ
    '\U{1e97}' := "T\U{308}",      // ẗ
    '\U{1e98}' := "W\U{30a}",      // ẘ
    '\U{1e99}' := "Y\U{30a}",      // ẙ
    '\U{1e9a}' := "A\U{2be}",      // ẚ
    '\U{fb00}' := "FF",            // ﬀ
    '\U{fb01}' := "FI",            // ﬁ
    '\U{fb02}' := "FL",            // ﬂ
    '\U{fb03}' := "FFI",           // ﬃ
    '\U{fb04}' := "FFL",           // ﬄ
    '\U{fb05}' := "ST",            // ﬅ
    '\U{fb06}' := "ST"]            // ﬆ

  /**
   * `c.upper()`: the ASCII letters, and the characters of `SpecialUpper`,
   * mapped as Python maps them; any other character is kept as it is.
   */
  function UpperOf(c: char): (u: string)
    ensures |u| >= 1
  {
    if c < '\U{80}' then [UpperChar(c)]
    else if c in SpecialUpper then SpecialUpper[c]
    else [c]
  }

  /** `s.upper()`, character by character; a character may become several. */
  function Upper(s: string): (r: string)
    ensures |r| >= |s|
  {
    if s == [] then [] else UpperOf(s[0]) + Upper(s[1..])
  }

  /** Where no character upper-cases to more than one, `upper()` maps `s` character for character. */
  lemma {:induction false} UpperOneForOne(s: string)
    requires forall i :: 0 <= i < |s| ==> |UpperOf(s[i])| == 1
    ensures |Upper(s)| == |s| && forall i :: 0 <= i < |s| ==> [Upper(s)[i]] == UpperOf(s[i])
  {
    if s != [] {
      UpperOneForOne(s[1..]);
      var r := Upper(s[1..]);
      assert Upper(s) == UpperOf(s[0]) + r;
      forall i | 1 <= i < |s| ensures [Upper(s)[i]] == UpperOf(s[i]) {
        assert Upper(s)[i] == r[i - 1] && s[1..][i - 1] == s[i];
      }
    }
  }

  /** `(a + b).upper() == a.upper() + b.upper()`. */
  lemma {:induction false} UpperAppend(a: string, b: string)
    ensures Upper(a + b) == Upper(a) + Upper(b)
  {
    if a == [] {
      assert a + b == b;
    } else {
      assert (a + b)[0] == a[0] && (a + b)[1..] == a[1..] + b;
      UpperAppend(a[1..], b);
      assert Upper(a + b) == UpperOf(a[0]) + (Upper(a[1..]) + Upper(b));
    }
  }

  /** `s.lower()`, letter by letter. */
  function Lower(s: string): (r: string)
    ensures |r| == |s| && forall i :: 0 <= i < |s| ==> r[i] == LowerChar(s[i])
  {
    if s == [] then [] else [LowerChar(s[0])] + Lower(s[1..])
  }

  /** `s.replace(" ", "_")`. */
  function SpacesToUnderscores(s: string): (r: string)
    ensures |r| == |s|
    ensures forall i :: 0 <= i < |s| ==> r[i] == (if s[i] == ' ' then '_' else s[i])
  {
    if s == [] then [] else [if s[0] == ' ' then '_' else s[0]] + SpacesToUnderscores(s[1..])
  }

  /** `needle` occurs in `hay` starting at offset `i`. */
  predicate OccursAt(hay: string, needle: string, i: int) {
    0 <= i <= |hay| - |needle| && hay[i..i + |needle|] == needle
  }

  /** Python's `needle in hay` on strings: `needle` occurs in `hay` at some offset. */
  function Contains(hay: string, needle: string): (b: bool)
    ensures b <==> exists i :: OccursAt(hay, needle, i)
    decreases |hay|
  {
    if |hay| < |needle| then false
    else if hay[..|needle|] == needle then assert OccursAt(hay, needle, 0); true
    else
      var b := Contains(hay[1..], needle);
      assert b ==> exists i :: OccursAt(hay, needle, i) by {
        if b {
          var i :| OccursAt(hay[1..], needle, i);
          assert hay[i + 1..i + 1 + |needle|] == hay[1..][i..i + |needle|];
          assert OccursAt(hay, needle, i + 1);
        }
      }
      assert (exists i :: OccursAt(hay, needle, i)) ==> b by {
        if i :| OccursAt(hay, needle, i) {
          assert i != 0;
          assert hay[1..][i - 1..i - 1 + |needle|] == hay[i..i + |needle|];
          assert OccursAt(hay[1..], needle, i - 1);
        }
      }
      b
  }

  predicate IsDigit(c: char) {
    '0' <= c <= '9'
  }

  function DigitChar(d: nat): (c: char)
    requires d < 10
    ensures IsDigit(c)
  {
    ('0' as int + d) as char
  }

  function DigitValue(c: char): (d: nat)
    requires IsDigit(c)
    ensures d < 10 && DigitChar(d) == c
  {
    c as int - '0' as int
  }

  /** Decimal digits of `n`, most significant first, with no leading zero. */
  function NatToString(n: nat): (s: string)
    ensures |s| >= 1 && forall i :: 0 <= i < |s| ==> IsDigit(s[i])
    ensures s[0] == '0' ==> n == 0
    decreases n
  {
    if n < 10 then [DigitChar(n)] else NatToString(n / 10) + [DigitChar(n % 10)]
  }

  /** Python's `str(n)` for an integer. */
  function IntToString(n: int): (s: string)
    ensures |s| >= 1 && !IsSpace(s[0]) && !IsSpace(s[|s| - 1])
    ensures (n < 0) == (s[0] == '-')
  {
    if n < 0 then "-" + NatToString(-n) else NatToString(n)
  }

  /**
   * The digit run `int()` accepts after an optional sign: digits, with
   * single underscores allowed between two digits.
   */
  predicate IsDigitRun(t: string) {
    && |t| > 0
    && IsDigit(t[0])
    && IsDigit(t[|t| - 1])
    && (forall i :: 0 <= i < |t| ==> IsDigit(t[i]) || t[i] == '_')
    && (forall i :: 0 <= i < |t| - 1 ==> t[i] == '_' ==> t[i + 1] != '_')
  }

  /** The number the digits of `t` spell, underscores skipped. */
  function DecimalValue(t: string): nat
    decreases |t|
  {
    if t == [] then 0
    else if IsDigit(t[|t| - 1]) then 10 * DecimalValue(t[..|t| - 1]) + DigitValue(t[|t| - 1])
    else DecimalValue(t[..|t| - 1])
  }

  /**
   * Python's `int(s)` for a string, base 10: the `IsIntSpace` whitespace
   * around it is skipped, one sign is allowed; `None` is the `ValueError`
   * it raises.
   */
  function ParseInt(s: string): (r: Option<int>)
    ensures r.Some? ==> exists i :: 0 <= i < |s| && IsDigit(s[i])
  {
    var t := Strip(s, IsIntSpace);
    if t != [] && (t[0] == '+' || t[0] == '-') then
      if IsDigitRun(t[1..]) then
        var n: int := DecimalValue(t[1..]);
        Some(if t[0] == '-' then -n else n)
      else None
    else if IsDigitRun(t) then Some(DecimalValue(t))
    else None
  }

  lemma {:induction false} DecimalValueOfNatToString(n: nat)
    ensures DecimalValue(NatToString(n)) == n
    decreases n
  {
    if n >= 10 {
      var prefix := NatToString(n / 10);
      var s := prefix + [DigitChar(n % 10)];
      assert s[..|s| - 1] == prefix;
      DecimalValueOfNatToString(n / 10);
    }
  }

  /** `int(str(n)) == n`: the rendering of an integer parses back to it. */
  lemma ParseIntOfIntToString(n: int)
    ensures ParseInt(IntToString(n)) == Some(n)
  {
    var s := IntToString(n);
    assert !IsIntSpace(s[0]) && !IsIntSpace(s[|s| - 1]);
    StripTrimmed(s, IsIntSpace);
    var digits := if n < 0 then NatToString(-n) else NatToString(n);
    var m: nat := if n < 0 then -n else n;
    assert n < 0 ==> s[1..] == digits;
    NatToStringDigitRun(m);
    DecimalValueOfNatToString(m);
    assert digits == NatToString(m);
  }

  /** The rendering of a natural number is a run of digits `int()` accepts. */
  lemma NatToStringDigitRun(n: nat)
    ensures IsDigitRun(NatToString(n)) && NatToString(n)[0] != '+' && NatToString(n)[0] != '-'
  {
    var s := NatToString(n);
    assert IsDigit(s[0]) && IsDigit(s[|s| - 1]);
  }

  /** `int()` does not skip the separator U+001C, although `str.isspace()` accepts it. */
  lemma ParseIntKeepsSeparator()
    ensures IsSpace('\U{1c}') && !IsIntSpace('\U{1c}')
    ensures ParseInt("\U{1c}5") == None
  {
    StripTrimmed("\U{1c}5", IsIntSpace);
  }
}
