/**
  The three string operations the classifier relies on, as Python performs
  them: `str.lower()` (restricted to ASCII letters), `str.strip()` (with the
  exact set of characters Python's `str.isspace` accepts) and the substring
  test `keyword in text`.
 */
module Text {

  // ---------------------------------------------------------------------
  // Lower-casing
  // ---------------------------------------------------------------------

  predicate IsUpper(c: char) {
    'A' <= c <= 'Z'
  }

  /** ASCII lower-casing of one character; every other character is kept. */
  function LowerChar(c: char): (d: char)
    ensures !IsUpper(d)
    ensures IsUpper(c) ==> d as int == c as int + ('a' as int - 'A' as int)
    ensures !IsUpper(c) ==> d == c
  {
    if IsUpper(c) then (c as int - 'A' as int + 'a' as int) as char else c
  }

  /** `s.lower()`, character by character. */
  function Lower(s: string): (r: string)
    ensures |r| == |s|
    ensures forall i :: 0 <= i < |s| ==> r[i] == LowerChar(s[i])
  {
    if s == [] then [] else [LowerChar(s[0])] + Lower(s[1..])
  }

  /** A lower-cased text contains no upper-case letter. */
  predicate IsLowered(s: string) {
    forall i :: 0 <= i < |s| ==> !IsUpper(s[i])
  }

  lemma LowerIsLowered(s: string)
    ensures IsLowered(Lower(s))
    ensures IsLowered(s) ==> Lower(s) == s
  {
    if IsLowered(s) {
      assert forall i :: 0 <= i < |s| ==> Lower(s)[i] == s[i];
    }
  }

  /** Lower-casing twice is lower-casing once. */
  lemma LowerIdempotent(s: string)
    ensures Lower(Lower(s)) == Lower(s)
  {
    LowerIsLowered(s);
    LowerIsLowered(Lower(s));
  }

  /** Lower-casing commutes with taking a slice. */
  lemma LowerSlice(s: string, i: nat, j: nat)
    requires i <= j <= |s|
    ensures Lower(s)[i..j] == Lower(s[i..j])
  {
    var a, b := Lower(s)[i..j], Lower(s[i..j]);
    forall k | 0 <= k < |a| ensures a[k] == b[k] {
      assert a[k] == LowerChar(s[i + k]) == LowerChar(s[i..j][k]);
    }
  }

  // ---------------------------------------------------------------------
  // Whitespace and `str.strip()`
  // ---------------------------------------------------------------------

  /** The characters for which Python's `str.isspace()` holds. */
  predicate IsWhitespace(c: char) {
    || ('\t' <= c <= '\r')
    || ('\U{1C}' <= c <= '\U{1F}')
    || c == ' '
    || c == '\U{85}'
    || c == '\U{A0}'
    || c == '\U{1680}'
    || ('\U{2000}' <= c <= '\U{200A}')
    || c == '\U{2028}'
    || c == '\U{2029}'
    || c == '\U{202F}'
    || c == '\U{205F}'
    || c == '\U{3000}'
  }

  predicate AllWhitespace(s: string) {
    forall i :: 0 <= i < |s| ==> IsWhitespace(s[i])
  }

  /** Drops leading whitespace. */
  function TrimStart(s: string): (r: string)
    ensures |r| <= |s| && r == s[|s| - |r|..]
    ensures AllWhitespace(s[..|s| - |r|])
    ensures r == [] || !IsWhitespace(r[0])
  {
    if s != [] && IsWhitespace(s[0]) then
      var r := TrimStart(s[1..]);
      assert s[..|s| - |r|] == [s[0]] + s[1..][..|s[1..]| - |r|];
      r
    else s
  }

  /** Drops trailing whitespace. */
  function TrimEnd(s: string): (r: string)
    ensures |r| <= |s| && r == s[..|r|]
    ensures AllWhitespace(s[|r|..])
    ensures r == [] || !IsWhitespace(r[|r| - 1])
  {
    if s != [] && IsWhitespace(s[|s| - 1]) then
      var r := TrimEnd(s[..|s| - 1]);
      assert s[|r|..] == s[..|s| - 1][|r|..] + [s[|s| - 1]];
      r
    else s
  }

  /** `s.strip()` with no argument: the middle slice of `s` that is left
      once the whitespace at both ends is dropped. */
  function Strip(s: string): (r: string)
    ensures exists i, j | 0 <= i <= j <= |s| ::
              r == s[i..j] && AllWhitespace(s[..i]) && AllWhitespace(s[j..])
    ensures r == [] || (!IsWhitespace(r[0]) && !IsWhitespace(r[|r| - 1]))
  {
    var t := TrimStart(s);
    var r := TrimEnd(t);
    SliceOfSlice(s, |s| - |t|, r);
    r
  }

  /** A prefix `r` of the suffix of `s` from `i`, with whitespace cut on both
      sides, is the slice of `s` between those two cuts. */
  lemma SliceOfSlice(s: string, i: nat, r: string)
    requires i <= |s| && AllWhitespace(s[..i])
    requires |r| <= |s[i..]| && r == s[i..][..|r|] && AllWhitespace(s[i..][|r|..])
    ensures r == s[i..i + |r|] && AllWhitespace(s[..i]) && AllWhitespace(s[i + |r|..])
  {
    assert s[i + |r|..] == s[i..][|r|..];
  }

  /** Stripping leaves nothing exactly when every character is whitespace. */
  lemma StripEmptyIff(s: string)
    ensures Strip(s) == [] <==> AllWhitespace(s)
  {
    var t := TrimStart(s);
    if Strip(s) == [] {
      assert AllWhitespace(t) by { assert t[0..] == t; }
      assert t == [];
      assert s[..|s| - |t|] == s;
    } else if t != [] {
      assert t[0] == s[|s| - |t|];
    }
  }

  /** The guard `not text or not text.strip()` of app.py: it holds exactly
      for the empty and the whitespace-only texts. */
  predicate IsBlank(s: string)
    ensures IsBlank(s) <==> AllWhitespace(s)
  {
    StripEmptyIff(s);
    |s| == 0 || |Strip(s)| == 0
  }

  /** Lower-casing neither creates nor removes whitespace. */
  lemma LowerKeepsBlank(s: string)
    ensures IsBlank(Lower(s)) <==> IsBlank(s)
  {
    forall i | 0 <= i < |s| ensures IsWhitespace(Lower(s)[i]) <==> IsWhitespace(s[i]) {
      LowerCharKeepsWhitespace(s[i]);
    }
  }

  lemma LowerCharKeepsWhitespace(c: char)
    ensures IsWhitespace(LowerChar(c)) <==> IsWhitespace(c)
  {
    if IsUpper(c) {
      assert 'a' <= LowerChar(c) <= 'z';
    }
  }

  // ---------------------------------------------------------------------
  // Substring test `w in text`
  // ---------------------------------------------------------------------

  /** `w` occurs in `text` starting at index `i`. */
  predicate OccursAt(text: string, w: string, i: int) {
    0 <= i && i + |w| <= |text| && text[i..i + |w|] == w
  }

  /** Python's `w in text` for strings: `w` occurs somewhere in `text`.
      The empty word occurs in every text, and no word occurs in a shorter
      text. */
  predicate Contains(text: string, w: string)
    ensures |w| == 0 ==> Contains(text, w)
    ensures Contains(text, w) ==> |w| <= |text|
  {
    assert |w| == 0 ==> OccursAt(text, w, 0);
    exists i | 0 <= i <= |text| - |w| :: OccursAt(text, w, i)
  }

  /** `w in text` holds exactly when `text` is `w` with some text before and
      some text after it. */
  lemma ContainsIffSplit(text: string, w: string)
    ensures Contains(text, w) <==> exists p, q :: text == p + w + q
  {
    if Contains(text, w) {
      var i :| 0 <= i <= |text| - |w| && OccursAt(text, w, i);
      assert text == text[..i] + w + text[i + |w|..];
    }
    if exists p, q :: text == p + w + q {
      var p, q :| text == p + w + q;
      assert OccursAt(text, w, |p|);
    }
  }

  /** An occurrence of `w` becomes an occurrence of its lower-cased form
      once the text is lower-cased: "CONE" in the input is "cone" to the
      classifier. */
  lemma LowerKeepsOccurrence(text: string, w: string)
    requires Contains(text, w)
    ensures Contains(Lower(text), Lower(w))
  {
    var i :| 0 <= i <= |text| - |w| && OccursAt(text, w, i);
    LowerSlice(text, i, i + |w|);
    assert OccursAt(Lower(text), Lower(w), i);
  }

  /** Whitespace-only text contains no word that has a non-whitespace
      character. */
  lemma WhitespaceHasNoWord(text: string, w: string, k: nat)
    requires AllWhitespace(text)
    requires k < |w| && !IsWhitespace(w[k])
    ensures !Contains(text, w)
  {
    forall i | 0 <= i && i + |w| <= |text| ensures !OccursAt(text, w, i) {
      assert text[i..i + |w|][k] == text[i + k];
    }
  }

  /** A text that lacks some character of `w` does not contain `w`. */
  lemma MissingCharRulesOut(text: string, w: string, k: nat)
    requires k < |w| && w[k] !in text
    ensures !Contains(text, w)
  {
    forall i | 0 <= i && i + |w| <= |text| ensures !OccursAt(text, w, i) {
      assert text[i..i + |w|][k] == text[i + k];
    }
  }
}
