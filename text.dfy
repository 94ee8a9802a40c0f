/** String operations the application relies on: `String.prototype.trim`,
    `toLowerCase` (on ASCII letters), `includes`, the first field of
    `split(' - ')`, and the ordering used to sort category names. */
module Text {

  /** The characters `trim` removes: ECMAScript WhiteSpace and LineTerminator. */
  predicate IsSpace(c: char) {
    || c == '\t' || c == '\n' || c == '\U{000B}' || c == '\U{000C}' || c == '\r'
    || c == ' ' || c == '\U{00A0}' || c == '\U{1680}'
    || ('\U{2000}' <= c <= '\U{200A}')
    || c == '\U{2028}' || c == '\U{2029}' || c == '\U{202F}' || c == '\U{205F}'
    || c == '\U{3000}' || c == '\U{FEFF}'
  }

  /** Only whitespace (or nothing): the strings that trim to "". */
  predicate IsBlank(s: string) {
    forall i :: 0 <= i < |s| ==> IsSpace(s[i])
  }

  /** Neither starts nor ends with whitespace. */
  predicate IsTrimmed(s: string) {
    s == [] || (!IsSpace(s[0]) && !IsSpace(s[|s| - 1]))
  }

  /** String.prototype.trim: removes the leading and trailing whitespace and
      nothing else, so the result is empty exactly for blank input and a
      trimmed string is its own trim. */
  function Trim(s: string): (r: string)
    ensures IsTrimmed(r)
    ensures |r| <= |s|
    ensures r == [] <==> IsBlank(s)
    ensures IsTrimmed(s) ==> r == s
  {
    if s != [] && IsSpace(s[0]) then
      assert IsBlank(s) <==> IsBlank(s[1..]);
      Trim(s[1..])
    else if s != [] && IsSpace(s[|s| - 1]) then
      assert IsBlank(s) <==> IsBlank(s[..|s| - 1]);
      Trim(s[..|s| - 1])
    else s
  }

  /** The number of whitespace characters `s` starts with. */
  function LeadingBlanks(s: string): (k: nat)
    ensures k <= |s|
  {
    if s != [] && IsSpace(s[0]) then 1 + LeadingBlanks(s[1..]) else 0
  }

  /** The trim of `s` is the part of `s` after its leading whitespace and
      before a blank suffix: only whitespace at the two ends is removed. */
  lemma {:induction false} TrimIsInfix(s: string)
    ensures var k, r := LeadingBlanks(s), Trim(s);
      && k + |r| <= |s|
      && r == s[k..k + |r|]
      && IsBlank(s[..k]) && IsBlank(s[k + |r|..])
  {
    if s != [] && IsSpace(s[0]) {
      assert Trim(s) == Trim(s[1..]) && LeadingBlanks(s) == 1 + LeadingBlanks(s[1..]);
      TrimIsInfix(s[1..]);
      InfixAfterBlank(s, LeadingBlanks(s[1..]), Trim(s));
    } else if s != [] && IsSpace(s[|s| - 1]) {
      assert Trim(s) == Trim(s[..|s| - 1]) && LeadingBlanks(s) == 0;
      TrimIsInfix(s[..|s| - 1]);
      InfixBeforeBlank(s, Trim(s));
    } else {
      assert Trim(s) == s && LeadingBlanks(s) == 0;
      assert s[0..|s|] == s;
    }
  }

  /** A blank-surrounded infix of `s[1..]` is one of `s` when `s[0]` is blank. */
  lemma InfixAfterBlank(s: string, k: nat, r: string)
    requires s != [] && IsSpace(s[0])
    requires k + |r| <= |s| - 1 && r == s[1..][k..k + |r|]
    requires IsBlank(s[1..][..k]) && IsBlank(s[1..][k + |r|..])
    ensures r == s[k + 1..k + 1 + |r|]
    ensures IsBlank(s[..k + 1]) && IsBlank(s[k + 1 + |r|..])
  {
    assert s[..k + 1] == [s[0]] + s[1..][..k];
    assert s[1..][k + |r|..] == s[k + 1 + |r|..];
  }

  /** A blank-suffixed prefix of `s` without its last character is one of
      `s` when that last character is blank. */
  lemma InfixBeforeBlank(s: string, r: string)
    requires s != [] && IsSpace(s[|s| - 1])
    requires |r| <= |s| - 1 && r == s[..|s| - 1][..|r|]
    requires IsBlank(s[..|s| - 1][|r|..])
    ensures r == s[..|r|]
    ensures IsBlank(s[|r|..])
  {
    assert s[|r|..] == s[..|s| - 1][|r|..] + [s[|s| - 1]];
  }

  /** ASCII lower-casing of one character. */
  function LowerChar(c: char): char {
    if 'A' <= c <= 'Z' then (c as int + 32) as char else c
  }

  predicate IsLower(s: string) {
    forall i :: 0 <= i < |s| ==> !('A' <= s[i] <= 'Z')
  }

  /** String.prototype.toLowerCase, restricted to ASCII letters: the result
      has no upper-case letter, and a lower-case string is unchanged. */
  function ToLower(s: string): (r: string)
    ensures |r| == |s|
    ensures forall i :: 0 <= i < |s| ==> r[i] == LowerChar(s[i])
    ensures IsLower(r)
    ensures IsLower(s) ==> r == s
  {
    if s == [] then [] else [LowerChar(s[0])] + ToLower(s[1..])
  }

  /** Lower-casing works character by character, so it distributes over
      concatenation. */
  lemma ToLowerConcat(a: string, b: string)
    ensures ToLower(a + b) == ToLower(a) + ToLower(b)
  {
    assert forall i :: 0 <= i < |a + b| ==> ToLower(a + b)[i] == (ToLower(a) + ToLower(b))[i];
  }

  predicate StartsWith(s: string, prefix: string) {
    |prefix| <= |s| && s[..|prefix|] == prefix
  }

  /** String.prototype.includes: `needle` occurs at some position of `hay`. */
  predicate Contains(hay: string, needle: string) {
    StartsWith(hay, needle) || (hay != [] && Contains(hay[1..], needle))
  }

  /** Contains holds exactly when `needle` occurs at some index. */
  lemma {:induction false} ContainsAt(hay: string, needle: string, k: nat)
    requires k + |needle| <= |hay| && hay[k..k + |needle|] == needle
    ensures Contains(hay, needle)
  {
    if k > 0 {
      assert hay[1..][k - 1..k - 1 + |needle|] == hay[k..k + |needle|];
      ContainsAt(hay[1..], needle, k - 1);
    }
  }

  /** An occurrence inside a part is an occurrence inside the whole. */
  lemma {:induction false} ContainsInfix(a: string, b: string, c: string, needle: string)
    requires Contains(b, needle)
    ensures Contains(a + b + c, needle)
  {
    var k := OccurrenceIndex(b, needle);
    assert (a + b + c)[|a| + k..|a| + k + |needle|] == b[k..k + |needle|];
    ContainsAt(a + b + c, needle, |a| + k);
  }

  /** An occurrence in a prefix is an occurrence in the whole. */
  lemma {:induction false} ContainsPrefix(a: string, b: string, needle: string)
    requires Contains(a, needle)
    ensures Contains(a + b, needle)
  {
    var k := OccurrenceIndex(a, needle);
    assert (a + b)[k..k + |needle|] == a[k..k + |needle|];
    ContainsAt(a + b, needle, k);
  }

  /** The position of the first occurrence witnessed by Contains. */
  function OccurrenceIndex(hay: string, needle: string): (k: nat)
    requires Contains(hay, needle)
    ensures k + |needle| <= |hay| && hay[k..k + |needle|] == needle
  {
    if StartsWith(hay, needle) then 0
    else
      var k := OccurrenceIndex(hay[1..], needle);
      assert hay[1..][k..k + |needle|] == hay[k + 1..k + 1 + |needle|];
      k + 1
  }

  /** The empty string occurs in every string. */
  lemma ContainsEmpty(hay: string)
    ensures Contains(hay, "")
  {
    assert StartsWith(hay, "");
  }

  /** The area part of a "<Area> - <Subarea>" location: `location.split(' - ')[0]`,
      the text before the first " - ", or the whole string when there is none. */
  function Area(location: string): (r: string)
    ensures StartsWith(location, r)
    ensures r == location || StartsWith(location[|r|..], " - ")
    ensures forall i :: 0 <= i < |r| ==> !StartsWith(location[i..], " - ")
  {
    if StartsWith(location, " - ") || location == [] then []
    else
      var rest := Area(location[1..]);
      assert forall i :: 1 <= i <= |rest| ==> location[i..] == location[1..][i - 1..];
      [location[0]] + rest
  }

  /** Code-point lexicographic order on strings. */
  predicate LexLe(a: string, b: string) {
    a == [] || (b != [] && (a[0] < b[0] || (a[0] == b[0] && LexLe(a[1..], b[1..]))))
  }

  lemma {:induction false} LexLeTotalAt(a: string, b: string)
    ensures LexLe(a, b) || LexLe(b, a)
  {
    if a != [] && b != [] && a[0] == b[0] {
      LexLeTotalAt(a[1..], b[1..]);
    }
  }

  lemma {:induction false} LexLeTransitiveAt(a: string, b: string, c: string)
    requires LexLe(a, b) && LexLe(b, c)
    ensures LexLe(a, c)
  {
    if a != [] && a[0] == b[0] && b[0] == c[0] {
      LexLeTransitiveAt(a[1..], b[1..], c[1..]);
    }
  }

  /** LexLe is a total preorder, so it is a valid sort comparator. */
  lemma LexLeTotalPreorder()
    ensures forall a, b :: LexLe(a, b) || LexLe(b, a)
    ensures forall a, b, c :: LexLe(a, b) && LexLe(b, c) ==> LexLe(a, c)
  {
    forall a, b ensures LexLe(a, b) || LexLe(b, a) {
      LexLeTotalAt(a, b);
    }
    forall a, b, c | LexLe(a, b) && LexLe(b, c) ensures LexLe(a, c) {
      LexLeTransitiveAt(a, b, c);
    }
  }
}
