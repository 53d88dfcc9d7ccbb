/**
 * The few JavaScript string operations the script relies on, with the meaning
 * ECMAScript gives them: `includes`, `trim`, and "the piece after the last
 * slash" (`split('/').pop()`). JavaScript strings are sequences of UTF-16 code
 * units; here they are sequences of Dafny characters.
 */
module Text {

  /** `sub` occurs in `s` starting at index `i`: the reference meaning of `includes`. */
  ghost predicate OccursAt(s: string, sub: string, i: int)
  {
    0 <= i && i + |sub| <= |s| && s[i..i + |sub|] == sub
  }

  /** `s.includes(sub)`, computed by trying every start position from the left. */
  predicate Includes(s: string, sub: string)
    decreases |s|
  {
    |sub| <= |s| && (s[..|sub|] == sub || Includes(s[1..], sub))
  }

  /** Every occurrence is found by the left-to-right scan. */
  lemma {:induction false} IncludesAt(s: string, sub: string, i: int)
    requires OccursAt(s, sub, i)
    ensures Includes(s, sub)
    decreases |s|
  {
    if i > 0 {
      assert s[1..][i - 1..i - 1 + |sub|] == s[i..i + |sub|];
      IncludesAt(s[1..], sub, i - 1);
    } else {
      assert s[..|sub|] == sub;
    }
  }

  /** The scan answers yes only when there is an occurrence, and names one. */
  lemma {:induction false} IncludesWitness(s: string, sub: string) returns (i: int)
    requires Includes(s, sub)
    ensures OccursAt(s, sub, i)
    decreases |s|
  {
    if s[..|sub|] == sub {
      i := 0;
    } else {
      var k := IncludesWitness(s[1..], sub);
      assert s[1..][k..k + |sub|] == s[k + 1..k + 1 + |sub|];
      i := k + 1;
    }
  }

  /** `Includes` is exactly "occurs somewhere". */
  lemma IncludesIff(s: string, sub: string)
    ensures Includes(s, sub) <==> exists i :: OccursAt(s, sub, i)
  {
    if Includes(s, sub) {
      var i := IncludesWitness(s, sub);
    }
    if exists i :: OccursAt(s, sub, i) {
      var i :| OccursAt(s, sub, i);
      IncludesAt(s, sub, i);
    }
  }

  /** A string includes every piece it is glued from. */
  lemma IncludesMiddle(a: string, sub: string, b: string)
    ensures Includes(a + sub + b, sub)
  {
    assert (a + sub + b)[|a|..|a| + |sub|] == sub;
    IncludesAt(a + sub + b, sub, |a|);
  }

  /** With a one-character needle, `includes` is plain membership. */
  lemma IncludesChar(s: string, c: char)
    ensures Includes(s, [c]) <==> c in s
  {
    IncludesIff(s, [c]);
    if c in s {
      var i :| 0 <= i < |s| && s[i] == c;
      assert OccursAt(s, [c], i);
    }
    if Includes(s, [c]) {
      var i :| OccursAt(s, [c], i);
      assert s[i] == s[i..i + 1][0];
    }
  }

  /** The ECMAScript WhiteSpace and LineTerminator code points outside the range U+2000..U+200A. */
  const WhitespaceChars: set<char> := {
    '\t', '\n', '\U{000B}', '\U{000C}', '\r', ' ', '\U{00A0}', '\U{1680}',
    '\U{2028}', '\U{2029}', '\U{202F}', '\U{205F}', '\U{3000}', '\U{FEFF}'
  }

  /** ECMAScript WhiteSpace and LineTerminator code points: what `trim` removes. */
  predicate IsWhitespace(c: char)
  {
    c in WhitespaceChars || '\U{2000}' <= c <= '\U{200A}'
  }

  /** Every character of `s` is white space (the empty string included). */
  predicate IsBlank(s: string)
  {
    forall j :: 0 <= j < |s| ==> IsWhitespace(s[j])
  }

  /** The index of the first visible character of `s` at or after `i`, or `|s|` when there is none. */
  function VisibleFrom(s: string, i: nat): (k: nat)
    requires i <= |s|
    ensures i <= k <= |s|
    ensures forall j :: i <= j < k ==> IsWhitespace(s[j])
    ensures k < |s| ==> !IsWhitespace(s[k])
    decreases |s| - i
  {
    if i < |s| && IsWhitespace(s[i]) then VisibleFrom(s, i + 1) else i
  }

  /**
   * One past the last visible character of `s` before `e`, or `lo` when
   * `s[lo..e]` is all white space.
   */
  function VisibleUntil(s: string, lo: nat, e: nat): (k: nat)
    requires lo <= e <= |s|
    ensures lo <= k <= e
    ensures forall j :: k <= j < e ==> IsWhitespace(s[j])
    ensures k > lo ==> !IsWhitespace(s[k - 1])
    decreases e
  {
    if e > lo && IsWhitespace(s[e - 1]) then VisibleUntil(s, lo, e - 1) else e
  }

  /**
   * `s.trim()`: the slice of `s` left once the white space at both ends is
   * removed; everything outside the slice is white space and the slice itself
   * starts and ends with a visible character.
   */
  function Trim(s: string): (r: string)
    ensures var k := VisibleFrom(s, 0);
      && k + |r| <= |s|
      && r == s[k..k + |r|]
      && (forall j :: 0 <= j < k ==> IsWhitespace(s[j]))
      && (forall j :: k + |r| <= j < |s| ==> IsWhitespace(s[j]))
    ensures r != [] ==> !IsWhitespace(r[0]) && !IsWhitespace(r[|r| - 1])
  {
    var k := VisibleFrom(s, 0);
    s[k..VisibleUntil(s, k, |s|)]
  }

  /** `!s.trim()` holds exactly for the blank strings: the test the contact form applies. */
  lemma TrimEmptyIffBlank(s: string)
    ensures Trim(s) == "" <==> IsBlank(s)
  {
  }

  /** `s.split('/').pop()`: the text after the last slash, or all of `s` when it has none. */
  function LastSegment(s: string): (r: string)
    ensures |r| <= |s| && r == s[|s| - |r|..]
    ensures '/' !in r
    ensures |r| < |s| ==> s[|s| - |r| - 1] == '/'
    decreases |s|
  {
    if |s| == 0 || s[|s| - 1] == '/' then "" else LastSegment(s[..|s| - 1]) + [s[|s| - 1]]
  }

  /** Whatever precedes the last slash, the last segment is what follows it. */
  lemma {:induction false} LastSegmentAfterSlash(a: string, b: string)
    requires '/' !in b
    ensures LastSegment(a + "/" + b) == b
    decreases |b|
  {
    var s := a + "/" + b;
    if b != [] {
      var b' := b[..|b| - 1];
      assert s[..|s| - 1] == a + "/" + b';
      LastSegmentAfterSlash(a, b');
      assert b == b' + [b[|b| - 1]];
    }
  }
}
