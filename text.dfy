/**
 * The pieces of Python's `str` behaviour the modem code relies on:
 * `str.strip()`, the substring test `a in b`, and `int(text)`.
 */
module Text {
  import opened Wrappers

  /** Python's `str.isspace()` for one character. */
  predicate IsSpace(c: char)
  {
    c == ' ' || ('\t' <= c <= '\r') || ('\U{1c}' <= c <= '\U{1f}') ||
    c == '\U{85}' || c == '\U{a0}' || c == '\U{1680}' || ('\U{2000}' <= c <= '\U{200a}') ||
    c == '\U{2028}' || c == '\U{2029}' || c == '\U{202f}' || c == '\U{205f}' || c == '\U{3000}'
  }

  /**
   * The whitespace `int()` skips around a number. ASCII text is read as it
   * is, and only tab, line feed, vertical tab, form feed, carriage return and
   * space count; the separators U+001C..U+001F are not skipped although
   * `isspace()` holds for them. Non-ASCII whitespace is turned into spaces
   * first, so it is skipped.
   */
  predicate IsIntSpace(c: char)
  {
    IsSpace(c) && !('\U{1c}' <= c <= '\U{1f}')
  }

  /** The scan from the left: the first index at or after `i` that is not in `space`. */
  function SkipSpaces(s: string, space: char -> bool, i: nat): (j: nat)
    requires i <= |s|
    ensures i <= j <= |s|
    ensures forall k :: i <= k < j ==> space(s[k])
    ensures j < |s| ==> !space(s[j])
    decreases |s| - i
  {
    if i < |s| && space(s[i]) then SkipSpaces(s, space, i + 1) else i
  }

  /**
   * The scan from the right: the end, at or below `j` and not below `lo`, of
   * the text before any trailing run of `space` characters.
   */
  function SkipSpacesBack(s: string, space: char -> bool, lo: nat, j: nat): (e: nat)
    requires lo <= j <= |s|
    ensures lo <= e <= j
    ensures forall k :: e <= k < j ==> space(s[k])
    ensures e > lo ==> !space(s[e - 1])
    decreases j
  {
    if j > lo && space(s[j - 1]) then SkipSpacesBack(s, space, lo, j - 1) else j
  }

  /** `s` without its leading and trailing runs of `space` characters. */
  function Trim(s: string, space: char -> bool): string
  {
    var i := SkipSpaces(s, space, 0);
    s[i..SkipSpacesBack(s, space, i, |s|)]
  }

  /** `s.strip()`. */
  function Strip(s: string): string
  {
    Trim(s, IsSpace)
  }

  /**
   * `strip()` returns a slice of `s` that neither starts nor ends with
   * whitespace, and everything cut off on either side is whitespace.
   */
  lemma {:induction false} StripSpec(s: string)
    ensures var r := Strip(s); r == [] || (!IsSpace(r[0]) && !IsSpace(r[|r| - 1]))
    ensures var r := Strip(s); var i := SkipSpaces(s, IsSpace, 0);
              && i + |r| <= |s| && r == s[i..i + |r|]
              && (forall k :: 0 <= k < i ==> IsSpace(s[k]))
              && (forall k :: i + |r| <= k < |s| ==> IsSpace(s[k]))
  {
  }

  /** A scan from the left stops at the first character not in `space`. */
  lemma {:induction false} SkipSpacesAt(s: string, space: char -> bool, i: nat, m: nat)
    requires i <= m <= |s|
    requires forall k :: i <= k < m ==> space(s[k])
    requires m < |s| ==> !space(s[m])
    ensures SkipSpaces(s, space, i) == m
    decreases m - i
  {
    if i < m {
      SkipSpacesAt(s, space, i + 1, m);
    }
  }

  /** A scan from the right stops after the last character not in `space`. */
  lemma {:induction false} SkipSpacesBackAt(s: string, space: char -> bool, lo: nat, j: nat, m: nat)
    requires lo <= m <= j <= |s|
    requires forall k :: m <= k < j ==> space(s[k])
    requires m > lo ==> !space(s[m - 1])
    ensures SkipSpacesBack(s, space, lo, j) == m
    decreases j - m
  {
    if m < j {
      SkipSpacesBackAt(s, space, lo, j - 1, m);
    }
  }

  /** A string that does not start or end with a `space` character is its own trim. */
  lemma {:induction false} TrimUnpadded(s: string, space: char -> bool)
    requires s == [] || (!space(s[0]) && !space(s[|s| - 1]))
    ensures Trim(s, space) == s
  {
    SkipSpacesAt(s, space, 0, 0);
    SkipSpacesBackAt(s, space, 0, |s|, |s|);
  }

  /**
   * `space` characters around a word that has none at its ends are exactly
   * what trimming removes.
   */
  lemma {:induction false} TrimPadded(lead: string, t: string, trail: string, space: char -> bool)
    requires forall k :: 0 <= k < |lead| ==> space(lead[k])
    requires forall k :: 0 <= k < |trail| ==> space(trail[k])
    requires t == [] || (!space(t[0]) && !space(t[|t| - 1]))
    requires t != [] || (lead == [] && trail == [])
    ensures Trim(lead + t + trail, space) == t
  {
    var s := lead + t + trail;
    var i, e := |lead|, |lead| + |t|;
    assert s[i..e] == t;
    forall k | 0 <= k < i
      ensures space(s[k])
    {
      assert s[k] == lead[k];
    }
    forall k | e <= k < |s|
      ensures space(s[k])
    {
      assert s[k] == trail[k - e];
    }
    SkipSpacesAt(s, space, 0, i);
    SkipSpacesBackAt(s, space, i, |s|, e);
  }

  /**
   * Whitespace around a word that has none at its ends is exactly what
   * `strip()` removes.
   */
  lemma {:induction false} StripPadded(lead: string, t: string, trail: string)
    requires forall k :: 0 <= k < |lead| ==> IsSpace(lead[k])
    requires forall k :: 0 <= k < |trail| ==> IsSpace(trail[k])
    requires t == [] || (!IsSpace(t[0]) && !IsSpace(t[|t| - 1]))
    requires t != [] || (lead == [] && trail == [])
    ensures Strip(lead + t + trail) == t
  {
    TrimPadded(lead, t, trail, IsSpace);
  }

  /** `needle` occurs in `hay` starting at index `i`. */
  predicate OccursAt(hay: string, needle: string, i: nat)
  {
    i + |needle| <= |hay| && hay[i..i + |needle|] == needle
  }

  /**
   * Python's `needle in hay` for strings: `needle` occurs somewhere in `hay`
   * as a contiguous run (the empty string occurs in every string).
   */
  function Contains(hay: string, needle: string): bool
    decreases |hay|
  {
    needle <= hay || (|hay| > 0 && Contains(hay[1..], needle))
  }

  /** The substring test holds exactly when `needle` occurs at some index of `hay`. */
  lemma {:induction false} ContainsSpec(hay: string, needle: string)
    ensures Contains(hay, needle) <==> exists i: nat :: OccursAt(hay, needle, i)
    decreases |hay|
  {
    if needle <= hay {
      assert OccursAt(hay, needle, 0);
    } else if |hay| > 0 {
      ContainsSpec(hay[1..], needle);
      ContainsShift(hay, needle);
    }
  }

  /** An occurrence in `hay[1..]` is an occurrence in `hay` one place further on. */
  lemma {:induction false} ContainsShift(hay: string, needle: string)
    requires |hay| > 0 && !(needle <= hay)
    ensures (exists i: nat :: OccursAt(hay, needle, i)) <==> (exists j: nat :: OccursAt(hay[1..], needle, j))
  {
    var tail := hay[1..];
    if i: nat :| OccursAt(hay, needle, i) {
      assert tail[i - 1..i - 1 + |needle|] == hay[i..i + |needle|];
      assert OccursAt(tail, needle, i - 1);
    }
    if j: nat :| OccursAt(tail, needle, j) {
      assert hay[j + 1..j + 1 + |needle|] == tail[j..j + |needle|];
      assert OccursAt(hay, needle, j + 1);
    }
  }

  predicate IsDigit(c: char)
  {
    '0' <= c <= '9'
  }

  predicate AllDigits(s: string)
  {
    forall k :: 0 <= k < |s| ==> IsDigit(s[k])
  }

  /** The value of a run of ASCII decimal digits, most significant first. */
  function DigitsValue(s: string): nat
    requires AllDigits(s)
  {
    if s == [] then 0 else 10 * DigitsValue(s[..|s| - 1]) + (s[|s| - 1] as int - '0' as int)
  }

  /** The decimal digits of `n` without leading zeros, as Python's `str(n)` writes them. */
  function Digits(n: nat): (s: string)
    ensures s != [] && AllDigits(s)
  {
    var d := ('0' as int + n % 10) as char;
    if n < 10 then [d] else Digits(n / 10) + [d]
  }

  /** Python's `str(n)` for an integer. */
  function FormatInt(n: int): string
  {
    if n < 0 then "-" + Digits(-n) else Digits(n)
  }

  /**
   * Python's `int(text)` on a string: whitespace in the sense of `IsIntSpace`
   * around the number is ignored, then one optional sign and at least one
   * ASCII digit; anything else raises, which is `None` here.
   */
  function ParseInt(text: string): Option<int>
  {
    var t := Trim(text, IsIntSpace);
    if |t| > 0 && (t[0] == '+' || t[0] == '-') then
      var body := t[1..];
      if body != [] && AllDigits(body) then
        var v: int := DigitsValue(body);
        Some(if t[0] == '-' then -v else v)
      else None
    else if t != [] && AllDigits(t) then Some(DigitsValue(t))
    else None
  }

  lemma {:induction false} DigitsRoundTrip(n: nat)
    ensures DigitsValue(Digits(n)) == n
  {
    if n >= 10 {
      DigitsRoundTrip(n / 10);
      var s := Digits(n);
      assert s[..|s| - 1] == Digits(n / 10);
    }
  }

  /** `int(str(n)) == n`: parsing reads back every integer that formatting writes. */
  lemma {:induction false} ParseFormat(n: int)
    ensures ParseInt(FormatInt(n)) == Some(n)
  {
    var s := FormatInt(n);
    if n < 0 {
      DigitsRoundTrip(-n);
      assert s[1..] == Digits(-n);
    } else {
      DigitsRoundTrip(n);
    }
    TrimUnpadded(s, IsIntSpace);
  }

  /** `int()` ignores whitespace in the sense of `IsIntSpace` around the number. */
  lemma {:induction false} ParseIntPadded(lead: string, n: int, trail: string)
    requires forall k :: 0 <= k < |lead| ==> IsIntSpace(lead[k])
    requires forall k :: 0 <= k < |trail| ==> IsIntSpace(trail[k])
    ensures ParseInt(lead + FormatInt(n) + trail) == Some(n)
  {
    var s := FormatInt(n);
    assert s[0] == '-' || IsDigit(s[0]);
    TrimPadded(lead, s, trail, IsIntSpace);
    ParseFormat(n);
    TrimUnpadded(s, IsIntSpace);
  }

  /**
   * The separators U+001C..U+001F count as whitespace for `strip()` but not
   * for `int()`: a text starting with one never parses.
   */
  lemma {:induction false} ParseIntSeparator(c: char, t: string)
    requires '\U{1c}' <= c <= '\U{1f}'
    ensures IsSpace(c) && !IsIntSpace(c)
    ensures ParseInt([c] + t) == None
  {
    var s := [c] + t;
    SkipSpacesAt(s, IsIntSpace, 0, 0);
    var r := Trim(s, IsIntSpace);
    assert r[0] == c;
  }
}
