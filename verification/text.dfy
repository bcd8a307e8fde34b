/**
  Character and substring primitives the classifier relies on: ASCII digit
  tests, ASCII lower-casing (Python's `str.lower` restricted to ASCII), the
  substring test behind Python's `w in s`, and "any keyword of a list occurs".
 */
module Text {

  predicate IsDigit(c: char) {
    '0' <= c <= '9'
  }

  function DigitValue(c: char): (d: nat)
    requires IsDigit(c)
    ensures d < 10
  {
    c as int - '0' as int
  }

  /** The text holds at least one ASCII digit. */
  predicate HasDigit(s: string) {
    exists i :: 0 <= i < |s| && IsDigit(s[i])
  }

  function LowerChar(c: char): (r: char)
    ensures 'A' <= c <= 'Z' ==> 'a' <= r <= 'z'
    ensures !('A' <= c <= 'Z') ==> r == c
  {
    if 'A' <= c <= 'Z' then (c as int - 'A' as int + 'a' as int) as char else c
  }

  /** ASCII lower-casing, character by character. */
  function Lower(s: string): (r: string)
    ensures |r| == |s|
    ensures forall i :: 0 <= i < |s| ==> r[i] == LowerChar(s[i])
  {
    seq(|s|, i requires 0 <= i < |s| => LowerChar(s[i]))
  }

  /** `w` occurs in `s` starting at index `i`. */
  predicate OccursAt(s: string, w: string, i: int) {
    0 <= i && i + |w| <= |s| && s[i..i + |w|] == w
  }

  /** `w` matches `s` at position `i` from its `j`-th character on. */
  predicate MatchesFrom(s: string, w: string, i: nat, j: nat)
    requires i + |w| <= |s| && j <= |w|
    decreases |w| - j
  {
    j == |w| || (s[i + j] == w[j] && MatchesFrom(s, w, i, j + 1))
  }

  /** `w` occurs in `s` at some position from `i` on. */
  predicate ContainsFrom(s: string, w: string, i: nat)
    decreases |s| - i
  {
    i + |w| <= |s| && (MatchesFrom(s, w, i, 0) || ContainsFrom(s, w, i + 1))
  }

  /** Python's `w in s` on strings: the empty string occurs in every string. */
  predicate Contains(s: string, w: string) {
    ContainsFrom(s, w, 0)
  }

  lemma {:induction false} MatchesFromIff(s: string, w: string, i: nat, j: nat)
    requires i + |w| <= |s| && j <= |w|
    ensures MatchesFrom(s, w, i, j) <==> s[i + j..i + |w|] == w[j..]
    decreases |w| - j
  {
    if j < |w| {
      MatchesFromIff(s, w, i, j + 1);
      assert s[i + j..i + |w|] == [s[i + j]] + s[i + j + 1..i + |w|];
      assert w[j..] == [w[j]] + w[j + 1..];
    }
  }

  lemma {:induction false} ContainsFromIff(s: string, w: string, i: nat)
    ensures ContainsFrom(s, w, i) <==> exists p :: i <= p && OccursAt(s, w, p)
    decreases |s| - i
  {
    if i + |w| <= |s| {
      MatchesFromIff(s, w, i, 0);
      assert w[0..] == w;
      assert MatchesFrom(s, w, i, 0) <==> OccursAt(s, w, i);
      ContainsFromIff(s, w, i + 1);
      if exists p :: i <= p && OccursAt(s, w, p) {
        var p :| i <= p && OccursAt(s, w, p);
        assert p == i || (i + 1 <= p && OccursAt(s, w, p));
      }
    }
  }

  /** The recursive substring test agrees with "there is a position where `w` occurs". */
  lemma ContainsIffOccurs(s: string, w: string)
    ensures Contains(s, w) <==> exists i :: OccursAt(s, w, i)
  {
    ContainsFromIff(s, w, 0);
  }

  /** Some word of the list from index `k` on occurs in `s`. */
  predicate AnyOccursFrom(s: string, words: seq<string>, k: nat)
    decreases |words| - k
  {
    k < |words| && (Contains(s, words[k]) || AnyOccursFrom(s, words, k + 1))
  }

  lemma {:induction false} AnyOccursFromIff(s: string, words: seq<string>, k: nat)
    ensures AnyOccursFrom(s, words, k) <==> exists m :: k <= m < |words| && Contains(s, words[m])
    decreases |words| - k
  {
    if k < |words| {
      AnyOccursFromIff(s, words, k + 1);
    }
  }

  /** Python's `any(w in s for w in words)`, scanning the list in order. */
  predicate AnyOccurs(s: string, words: seq<string>)
    ensures AnyOccurs(s, words) <==> exists k :: 0 <= k < |words| && Contains(s, words[k])
  {
    AnyOccursFromIff(s, words, 0);
    AnyOccursFrom(s, words, 0)
  }

  /** A word holding the character at index `j`, which the text lacks, does not occur. */
  lemma MissingCharBlocks(s: string, w: string, j: int)
    requires 0 <= j < |w| && w[j] !in s
    ensures !Contains(s, w)
  {
    ContainsIffOccurs(s, w);
    forall i
      ensures !OccursAt(s, w, i)
    {
      if OccursAt(s, w, i) {
        OccurrenceHasChar(s, w, i, j);
      }
    }
  }

  /** Each word of a list holding, at the index `at` gives for it, a character the text
      lacks does not occur. */
  lemma MissingCharsBlockEach(s: string, words: seq<string>, at: seq<int>)
    requires |at| == |words|
    requires forall k :: 0 <= k < |words| ==> 0 <= at[k] < |words[k]| && words[k][at[k]] !in s
    ensures forall k :: 0 <= k < |words| ==> !Contains(s, words[k])
  {
    forall k | 0 <= k < |words|
      ensures !Contains(s, words[k])
    {
      MissingCharBlocks(s, words[k], at[k]);
    }
  }

  /** Every character of an occurring word is a character of the text. */
  lemma OccurrenceHasChar(s: string, w: string, i: int, j: int)
    requires OccursAt(s, w, i) && 0 <= j < |w|
    ensures w[j] in s
  {
    assert s[i..i + |w|][j] == s[i + j];
  }
}
