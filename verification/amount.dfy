/**
  Amount extraction: the leftmost match of the pattern `\$?\d+(?:\.\d{2})?`
  in the input text, with the dollar sign dropped, read as integer cents.

  The pattern's language is stated independently (`InPattern`), and the
  hand-written scanner (`Scan`) is proved to return exactly the match a
  backtracking regular-expression search reports: the leftmost start, and at
  that start the longest match.
 */
module Amount {
  import opened Wrappers
  import opened Text

  predicate AllDigits(w: string) {
    forall i :: 0 <= i < |w| ==> IsDigit(w[i])
  }

  /** `\d+(?:\.\d{2})?`: a digit run, optionally followed by a point and exactly two digits. */
  predicate IsNumeral(w: string) {
    || (|w| >= 1 && AllDigits(w))
    || (|w| >= 4 && AllDigits(w[..|w| - 3]) && w[|w| - 3] == '.'
        && IsDigit(w[|w| - 2]) && IsDigit(w[|w| - 1]))
  }

  /** `\$?\d+(?:\.\d{2})?`: a numeral with an optional leading dollar sign. */
  predicate InPattern(w: string) {
    IsNumeral(w) || (|w| >= 2 && w[0] == '$' && IsNumeral(w[1..]))
  }

  /** The pattern matches the slice `s[i..j]`. */
  predicate MatchAt(s: string, i: int, j: int) {
    0 <= i <= j <= |s| && InPattern(s[i..j])
  }

  /** `s[i..j]` is the match a left-to-right search reports: no match starts earlier,
      and none starting at `i` is longer. */
  predicate IsLeftmostLongest(s: string, i: int, j: int) {
    && MatchAt(s, i, j)
    && (forall i', j' :: 0 <= i' < i && i' <= j' <= |s| ==> !MatchAt(s, i', j'))
    && (forall j' :: j < j' <= |s| ==> !MatchAt(s, i, j'))
  }

  /** Index of the first digit at or after `k`. */
  function FirstDigitFrom(s: string, k: nat): (r: Option<nat>)
    requires k <= |s|
    ensures r.Some? ==> k <= r.value < |s| && IsDigit(s[r.value])
    ensures r.Some? ==> forall m :: k <= m < r.value ==> !IsDigit(s[m])
    ensures r.None? ==> forall m :: k <= m < |s| ==> !IsDigit(s[m])
    decreases |s| - k
  {
    if k == |s| then None
    else if IsDigit(s[k]) then Some(k)
    else FirstDigitFrom(s, k + 1)
  }

  /** End of the maximal digit run that starts at `k`. */
  function DigitRunEnd(s: string, k: nat): (e: nat)
    requires k <= |s|
    ensures k <= e <= |s|
    ensures forall m :: k <= m < e ==> IsDigit(s[m])
    ensures e == |s| || !IsDigit(s[e])
    decreases |s| - k
  {
    if k < |s| && IsDigit(s[k]) then DigitRunEnd(s, k + 1) else k
  }

  /** A point and two digits follow position `e`. */
  predicate HasCents(s: string, e: nat) {
    e + 3 <= |s| && s[e] == '.' && IsDigit(s[e + 1]) && IsDigit(s[e + 2])
  }

  /** Every character of an all-digit slice is a digit of the whole text. */
  lemma SliceDigits(s: string, a: int, b: int)
    requires 0 <= a <= b <= |s| && AllDigits(s[a..b])
    ensures forall m :: a <= m < b ==> IsDigit(s[m])
  {
    forall m | a <= m < b
      ensures IsDigit(s[m])
    {
      assert s[a..b][m - a] == s[m];
    }
  }

  /** A numeral starts with a digit. */
  lemma NumeralHead(w: string)
    requires IsNumeral(w)
    ensures IsDigit(w[0])
  {
    if !AllDigits(w) {
      assert w[..|w| - 3][0] == w[0];
    }
  }

  /** A pattern word starts with a digit, or with a dollar sign and then a digit. */
  lemma PatternHead(w: string)
    requires InPattern(w)
    ensures IsDigit(w[0]) || (|w| >= 2 && w[0] == '$' && IsDigit(w[1]))
  {
    if IsNumeral(w) {
      NumeralHead(w);
    } else {
      NumeralHead(w[1..]);
    }
  }

  /** Every character of a pattern word after the first is a digit or a point. */
  lemma PatternTail(w: string, m: int)
    requires InPattern(w) && 0 < m < |w|
    ensures IsDigit(w[m]) || w[m] == '.'
  {
    if !IsNumeral(w) {
      var v := w[1..];
      assert v[m - 1] == w[m];
      if !AllDigits(v) && m - 1 < |v| - 3 {
        assert v[..|v| - 3][m - 1] == w[m];
      }
    } else if !AllDigits(w) && m < |w| - 3 {
      assert w[..|w| - 3][m] == w[m];
    }
  }

  /** A pattern word ends with a digit. */
  lemma PatternLast(w: string)
    requires InPattern(w)
    ensures IsDigit(w[|w| - 1])
  {
    if !IsNumeral(w) {
      assert w[1..][|w| - 2] == w[|w| - 1];
    }
  }

  /** The scanner: skip to the first digit, take a preceding dollar sign, the whole
      digit run, and a two-digit fraction when one follows. */
  function Scan(s: string): (r: Option<(nat, nat)>)
    ensures r.None? <==> !HasDigit(s)
    ensures r.Some? ==> IsLeftmostLongest(s, r.value.0, r.value.1)
  {
    match FirstDigitFrom(s, 0)
    case None => None
    case Some(d) =>
      var start := if d > 0 && s[d - 1] == '$' then d - 1 else d;
      var e := DigitRunEnd(s, d);
      var end := if HasCents(s, e) then e + 3 else e;
      ScanIsLeftmostLongest(s, d, start, e, end);
      Some((start, end))
  }

  /** The facts about one scan that the proofs below share. */
  ghost predicate ScanShape(s: string, d: nat, start: nat, e: nat, end: nat) {
    && d < |s| && IsDigit(s[d]) && (forall m :: 0 <= m < d ==> !IsDigit(s[m]))
    && start == (if d > 0 && s[d - 1] == '$' then d - 1 else d)
    && d < e <= |s| && (forall m :: d <= m < e ==> IsDigit(s[m])) && (e == |s| || !IsDigit(s[e]))
    && end == (if HasCents(s, e) then e + 3 else e)
  }

  lemma ScanMatches(s: string, d: nat, start: nat, e: nat, end: nat)
    requires ScanShape(s, d, start, e, end)
    ensures MatchAt(s, start, end)
  {
    var body := s[d..end];
    assert AllDigits(s[d..e]);
    if HasCents(s, e) {
      assert body[..|body| - 3] == s[d..e];
    } else {
      assert body == s[d..e];
    }
    assert IsNumeral(body);
    if start < d {
      assert s[start..end][1..] == body;
    } else {
      assert s[start..end] == body;
    }
  }

  /** No match starts before the scanner's start. */
  lemma ScanStartsFirst(s: string, d: nat, start: nat, e: nat, end: nat, i: int, j: int)
    requires ScanShape(s, d, start, e, end)
    requires MatchAt(s, i, j)
    ensures start <= i
  {
    var w := s[i..j];
    PatternHead(w);
    assert w[0] == s[i];
    if |w| >= 2 {
      assert w[1] == s[i + 1];
    }
  }

  /** A match that starts where the scanner starts has a numeral from the first digit on. */
  lemma MatchFromFirstDigit(s: string, d: nat, start: nat, e: nat, end: nat, j: int)
    requires ScanShape(s, d, start, e, end)
    requires MatchAt(s, start, j)
    ensures d < j && IsNumeral(s[d..j])
  {
    var w := s[start..j];
    PatternHead(w);
    assert w[0] == s[start];
    if start < d {
      assert !IsDigit(w[0]);
      if IsNumeral(w) {
        NumeralHead(w);
      }
      assert w[1..] == s[d..j];
    } else {
      assert w == s[d..j];
    }
  }

  /** A numeral that starts a maximal digit run ends inside the run, or takes exactly
      the point and two digits that follow it. */
  lemma NumeralWithinRun(s: string, d: nat, e: nat, j: int)
    requires d < e <= |s| && (forall m :: d <= m < e ==> IsDigit(s[m])) && (e == |s| || !IsDigit(s[e]))
    requires d < j <= |s| && IsNumeral(s[d..j])
    ensures j <= e || (HasCents(s, e) && j == e + 3)
  {
    var v := s[d..j];
    if AllDigits(v) {
      SliceDigits(s, d, j);
    } else {
      var p := j - 3;
      assert v[..|v| - 3] == s[d..p];
      assert v[|v| - 3] == s[p] && v[|v| - 2] == s[p + 1] && v[|v| - 1] == s[p + 2];
      SliceDigits(s, d, p);
    }
  }

  /** No match that starts where the scanner starts extends past its end. */
  lemma ScanEndsLast(s: string, d: nat, start: nat, e: nat, end: nat, j: int)
    requires ScanShape(s, d, start, e, end)
    requires MatchAt(s, start, j)
    ensures j <= end
  {
    MatchFromFirstDigit(s, d, start, e, end, j);
    NumeralWithinRun(s, d, e, j);
  }

  lemma ScanIsLeftmostLongest(s: string, d: nat, start: nat, e: nat, end: nat)
    requires ScanShape(s, d, start, e, end)
    ensures IsLeftmostLongest(s, start, end)
  {
    ScanMatches(s, d, start, e, end);
    forall i, j | 0 <= i < start && i <= j <= |s|
      ensures !MatchAt(s, i, j)
    {
      if MatchAt(s, i, j) {
        ScanStartsFirst(s, d, start, e, end, i, j);
      }
    }
    forall j | end < j <= |s|
      ensures !MatchAt(s, start, j)
    {
      if MatchAt(s, start, j) {
        ScanEndsLast(s, d, start, e, end, j);
      }
    }
  }

  /** Decimal value of a digit string, most significant digit first. */
  function NumeralValue(w: string): nat
    requires AllDigits(w)
  {
    if |w| == 0 then 0 else NumeralValue(w[..|w| - 1]) * 10 + DigitValue(w[|w| - 1])
  }

  /** The value in cents of a pattern word: `float(w.replace('$', ''))` times 100. */
  function PatternCents(w: string): nat
    requires InPattern(w)
  {
    var v := if IsNumeral(w) then w else w[1..];
    if AllDigits(v) then NumeralValue(v) * 100
    else NumeralValue(v[..|v| - 3]) * 100 + DigitValue(v[|v| - 2]) * 10 + DigitValue(v[|v| - 1])
  }

  /** The amount magnitude of a text in cents, or `None` when the text holds no number. */
  function ExtractAmount(s: string): (r: Option<nat>)
    ensures r.None? <==> !HasDigit(s)
    ensures r.Some? ==> exists i, j :: IsLeftmostLongest(s, i, j) && r.value == PatternCents(s[i..j])
  {
    match Scan(s)
    case None => None
    case Some((i, j)) => Some(PatternCents(s[i..j]))
  }

  /** There is at most one leftmost-longest match, so the amount is determined by the
      pattern alone and not by how the scanner finds it. */
  lemma LeftmostLongestUnique(s: string, i: int, j: int, i2: int, j2: int)
    requires IsLeftmostLongest(s, i, j) && IsLeftmostLongest(s, i2, j2)
    ensures i == i2 && j == j2
  {
  }

  /** A word holding a character other than a digit or a point after its first
      position is not a pattern word. */
  lemma NotPatternWithForeignTail(w: string, m: int)
    requires 0 < m < |w| && !IsDigit(w[m]) && w[m] != '.'
    ensures !InPattern(w)
  {
    if InPattern(w) {
      PatternTail(w, m);
    }
  }

  /** A match in `p + q` that starts before the last character of `p` stays inside `p` when `p` ends in
      neither a digit nor a point. */
  lemma MatchStaysInPrefix(p: string, q: string, a: int, b: int)
    requires |p| > 0 && !IsDigit(p[|p| - 1]) && p[|p| - 1] != '.'
    requires a < |p| - 1 && MatchAt(p + q, a, b)
    ensures b <= |p| && MatchAt(p, a, b)
  {
    var s := p + q;
    if b > |p| {
      assert s[a..b][|p| - 1 - a] == p[|p| - 1];
      NotPatternWithForeignTail(s[a..b], |p| - 1 - a);
    }
    assert s[a..b] == p[a..b];
  }

  /** Only the first number counts: text appended after a prefix that already holds a
      number, and ends in neither a digit nor a point, cannot change the amount. */
  lemma AmountIgnoresLaterText(p: string, q: string)
    requires HasDigit(p)
    requires !IsDigit(p[|p| - 1]) && p[|p| - 1] != '.'
    ensures ExtractAmount(p + q) == ExtractAmount(p)
  {
    var s := p + q;
    var i := Scan(p).value.0;
    var j := Scan(p).value.1;
    assert IsLeftmostLongest(p, i, j);
    PatternLast(p[i..j]);
    assert p[i..j][j - i - 1] == p[j - 1];
    assert s[i..j] == p[i..j];
    assert MatchAt(s, i, j);
    forall i', j' | 0 <= i' < i && i' <= j' <= |s|
      ensures !MatchAt(s, i', j')
    {
      if MatchAt(s, i', j') {
        MatchStaysInPrefix(p, q, i', j');
      }
    }
    forall j' | j < j' <= |s|
      ensures !MatchAt(s, i, j')
    {
      if MatchAt(s, i, j') {
        MatchStaysInPrefix(p, q, i, j');
      }
    }
    LeftmostLongestUnique(s, i, j, Scan(s).value.0, Scan(s).value.1);
  }

  /** A fraction counts only when a point is followed by two digits: "12.345" reads
      as 12.34. */
  lemma ThreeDecimalsTruncate()
    ensures ExtractAmount("12.345") == Some(1234)
  {
    var t := "12.345";
    assert DigitRunEnd(t, 0) == 2;
    assert HasCents(t, 2);
    assert Scan(t) == Some((0, 5));
    var w := t[0..5];
    assert w == "12.34" && w[..2] == "12" && "12"[..1] == "1";
    assert !AllDigits(w) by { assert !IsDigit(w[2]); }
    assert IsNumeral(w) && w[..|w| - 3] == "12";
    assert NumeralValue("12") == 12;
    assert PatternCents(w) == 1234;
  }

  /** A single decimal digit is not a fraction: "5.5" reads as 5. */
  lemma OneDecimalIgnored()
    ensures ExtractAmount("5.5") == Some(500)
  {
    var u := "5.5";
    assert DigitRunEnd(u, 0) == 1;
    assert Scan(u) == Some((0, 1));
    assert u[0..1] == "5";
    assert PatternCents("5") == 500;
  }

  lemma DollarFortyTwoFifty()
    ensures InPattern("$42.50") && PatternCents("$42.50") == 4250
  {
    var x := "$42.50";
    var y := x[1..];
    assert y == "42.50" && y[..2] == "42" && "42"[..1] == "4";
    assert !IsDigit(x[0]);
    assert !AllDigits(y) by { assert !IsDigit(y[2]); }
    assert IsNumeral(y) && y[..|y| - 3] == "42";
    assert !IsNumeral(x);
    assert NumeralValue("42") == 42;
  }

  /** The dollar sign is part of the match but not of the value. */
  lemma DollarStripped()
    ensures ExtractAmount("$42.50") == Some(4250)
  {
    var x := "$42.50";
    assert FirstDigitFrom(x, 0) == Some(1);
    assert DigitRunEnd(x, 1) == 3;
    assert HasCents(x, 3);
    assert Scan(x) == Some((0, 6));
    assert x[0..6] == x;
    DollarFortyTwoFifty();
  }
}
