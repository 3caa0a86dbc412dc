/** The numeric-triplet pattern of the calculator, `(\d+)\D+(\d+)\D+(\d+)`,
    as Python's `re.search` evaluates it: the leftmost starting position, and
    at that position the first match the backtracking engine reaches, with
    every greedy quantifier trying its longest length first. Digits are the
    ASCII digits. */
module Triplet {
  import opened Wrappers
  import opened Text

  /** Index of the first digit at or after `k`, or `|s|` when there is none. */
  function NextDigit(s: string, k: nat): (j: nat)
    requires k <= |s|
    ensures k <= j <= |s|
    ensures j < |s| ==> IsDigit(s[j])
    ensures forall t :: k <= t < j ==> !IsDigit(s[t])
    decreases |s| - k
  {
    if k == |s| || IsDigit(s[k]) then k else NextDigit(s, k + 1)
  }

  /** Index of the first non-digit at or after `k`, or `|s|` when there is none. */
  function RunEnd(s: string, k: nat): (j: nat)
    requires k <= |s|
    ensures k <= j <= |s|
    ensures j < |s| ==> !IsDigit(s[j])
    ensures forall t :: k <= t < j ==> IsDigit(s[t])
    decreases |s| - k
  {
    if k == |s| || !IsDigit(s[k]) then k else RunEnd(s, k + 1)
  }

  /** A match of the pattern: group 1 is `s[i..a]`, the first separator
      `s[a..b]`, group 2 `s[b..c]`, the second separator `s[c..d]` and
      group 3 `s[d..e]`. */
  datatype Match = Match(i: nat, a: nat, b: nat, c: nat, d: nat, e: nat)

  ghost predicate DigitSpan(s: string, lo: nat, hi: nat) {
    lo < hi <= |s| && forall t :: lo <= t < hi ==> IsDigit(s[t])
  }

  ghost predicate NonDigitSpan(s: string, lo: nat, hi: nat) {
    lo < hi <= |s| && forall t :: lo <= t < hi ==> !IsDigit(s[t])
  }

  ghost predicate IsMatch(s: string, m: Match) {
    && DigitSpan(s, m.i, m.a)
    && NonDigitSpan(s, m.a, m.b)
    && DigitSpan(s, m.b, m.c)
    && NonDigitSpan(s, m.c, m.d)
    && DigitSpan(s, m.d, m.e)
  }

  /** `m` is reached before `m'` by `re.search`: it starts further left, or
      it starts at the same place and its quantifier lengths are
      lexicographically longer. */
  ghost predicate Before(m: Match, m': Match) {
    || m.i < m'.i
    || (m.i == m'.i && m.a > m'.a)
    || (m.i == m'.i && m.a == m'.a && m.b > m'.b)
    || (m.i == m'.i && m.a == m'.a && m.b == m'.b && m.c > m'.c)
    || (m.i == m'.i && m.a == m'.a && m.b == m'.b && m.c == m'.c && m.d > m'.d)
    || (m.i == m'.i && m.a == m'.a && m.b == m'.b && m.c == m'.c && m.d == m'.d && m.e > m'.e)
  }

  /** The match `re.search` reports. */
  ghost predicate IsSearchResult(s: string, m: Match) {
    IsMatch(s, m) && forall m' :: IsMatch(s, m') && m' != m ==> Before(m, m')
  }

  /** Scanner for the pattern: skip to a digit run, to its end, to the next
      run, and so on three times. */
  function Search(s: string): Option<Match> {
    var i := NextDigit(s, 0);
    var a := RunEnd(s, i);
    var b := NextDigit(s, a);
    var c := RunEnd(s, b);
    var d := NextDigit(s, c);
    var e := RunEnd(s, d);
    if d < |s| then Some(Match(i, a, b, c, d, e)) else None
  }

  /** Every match of the pattern lies at or after the scanner's positions,
      and one starting where the scanner's does agrees with it except that
      its last group may stop early. */
  lemma MatchIsPinned(s: string, m': Match)
    requires IsMatch(s, m')
    ensures NextDigit(s, 0) <= m'.i
    ensures NextDigit(s, RunEnd(s, NextDigit(s, RunEnd(s, NextDigit(s, 0))))) <= m'.d < |s|
    ensures m'.i == NextDigit(s, 0) ==>
      var i := NextDigit(s, 0);
      var a := RunEnd(s, i);
      var b := NextDigit(s, a);
      var c := RunEnd(s, b);
      var d := NextDigit(s, c);
      m'.a == a && m'.b == b && m'.c == c && m'.d == d && m'.e <= RunEnd(s, d)
  {
    var i := NextDigit(s, 0);
    var a := RunEnd(s, i);
    var b := NextDigit(s, a);
    var c := RunEnd(s, b);
    var d := NextDigit(s, c);
    assert IsDigit(s[m'.i]);
    assert !IsDigit(s[m'.a]);
    assert a <= m'.a;
    assert IsDigit(s[m'.b]);
    assert b <= m'.b;
    assert !IsDigit(s[m'.c]);
    assert c <= m'.c;
    assert IsDigit(s[m'.d]);
  }

  /** The scanner is exactly `re.search`: when it finds a match, that match
      is a match of the pattern, and `re.search` reports it; when it finds
      none, the pattern matches nowhere. */
  lemma SearchIsLeftmostGreedy(s: string)
    ensures Search(s).Some? ==> IsSearchResult(s, Search(s).value)
    ensures Search(s).None? ==> forall m :: !IsMatch(s, m)
  {
    var i := NextDigit(s, 0);
    var a := RunEnd(s, i);
    var b := NextDigit(s, a);
    var c := RunEnd(s, b);
    var d := NextDigit(s, c);
    var e := RunEnd(s, d);
    forall m' | IsMatch(s, m')
      ensures d < |s|
    {
      MatchIsPinned(s, m');
    }
    if d < |s| {
      var m := Match(i, a, b, c, d, e);
      assert i < |s|;
      assert IsMatch(s, m);
      forall m' | IsMatch(s, m') && m' != m
        ensures Before(m, m')
      {
        MatchIsPinned(s, m');
      }
    }
  }

  /** The three digit groups of the match, as text. */
  datatype Groups = Groups(first: string, second: string, third: string)

  /** The groups of `re.search(r'(\d+)\D+(\d+)\D+(\d+)', s)`, or `None` when
      it does not match. */
  function Triple(s: string): (r: Option<Groups>)
    ensures r.Some? ==> AllDigits(r.value.first) && AllDigits(r.value.second) && AllDigits(r.value.third)
    ensures r.Some? ==> |r.value.first| > 0 && |r.value.second| > 0 && |r.value.third| > 0
  {
    match Search(s)
    case None => None
    case Some(m) =>
      SearchIsLeftmostGreedy(s);
      Some(Groups(s[m.i..m.a], s[m.b..m.c], s[m.d..m.e]))
  }

  /** The groups are the first three maximal digit runs: nothing before the
      first group and nothing between the groups is a digit, and each group
      is followed by a non-digit or the end of the text. Fewer than three
      runs means no match. */
  lemma TripleIsFirstThreeRuns(s: string)
    ensures Triple(s).Some? <==> exists m :: IsMatch(s, m)
    ensures Triple(s).Some? ==>
      exists m :: IsSearchResult(s, m)
        && Triple(s).value == Groups(s[m.i..m.a], s[m.b..m.c], s[m.d..m.e])
        && (forall t :: 0 <= t < m.i ==> !IsDigit(s[t]))
        && (m.e == |s| || !IsDigit(s[m.e]))
  {
    SearchIsLeftmostGreedy(s);
    if Search(s).Some? {
      var m := Search(s).value;
      assert IsMatch(s, m);
    }
  }

  /** Reading by position: when the text splits into non-digits, a digit
      run, non-digits, a digit run, non-digits and a digit run that is not
      followed by a digit, the groups are the three runs. */
  lemma TripleAt(s: string, i: nat, a: nat, b: nat, c: nat, d: nat, e: nat)
    requires i < a < b < c < d < e <= |s|
    requires NoDigits(s[..i]) && AllDigits(s[i..a]) && NoDigits(s[a..b])
    requires AllDigits(s[b..c]) && NoDigits(s[c..d]) && AllDigits(s[d..e])
    requires e == |s| || !IsDigit(s[e])
    ensures Triple(s) == Some(Groups(s[i..a], s[b..c], s[d..e]))
  {
    forall t | 0 <= t < i ensures !IsDigit(s[t]) { assert s[t] == s[..i][t]; }
    forall t | i <= t < a ensures IsDigit(s[t]) { assert s[t] == s[i..a][t - i]; }
    forall t | a <= t < b ensures !IsDigit(s[t]) { assert s[t] == s[a..b][t - a]; }
    forall t | b <= t < c ensures IsDigit(s[t]) { assert s[t] == s[b..c][t - b]; }
    forall t | c <= t < d ensures !IsDigit(s[t]) { assert s[t] == s[c..d][t - c]; }
    forall t | d <= t < e ensures IsDigit(s[t]) { assert s[t] == s[d..e][t - d]; }
    NextDigitSkips(s, 0, i);
    RunEndSkips(s, i, a);
    NextDigitSkips(s, a, b);
    RunEndSkips(s, b, c);
    NextDigitSkips(s, c, d);
    RunEndSkips(s, d, e);
  }

  /** A decimal rate is two runs: in "emi 500000 at 8.5 for 5 years" the
      groups are "500000", "8" and "5", the fraction taking the place of
      the term. */
  lemma DecimalSplitsIntoTwoRuns()
    ensures Triple("emi 500000 at 8.5 for 5 years") == Some(Groups("500000", "8", "5"))
  {
    var s := "emi 500000 at 8.5 for 5 years";
    assert s[..4] == "emi ";
    assert s[4] == '5' && s[5] == '0' && s[6] == '0' && s[7] == '0' && s[8] == '0' && s[9] == '0';
    assert s[4..10] == "500000";
    assert s[10..14] == " at ";
    assert s[14..15] == "8";
    assert s[15..16] == ".";
    assert s[16..17] == "5";
    TripleAt(s, 4, 10, 14, 15, 16, 17);
  }

  lemma {:induction false} NextDigitSkips(s: string, k: nat, j: nat)
    requires k <= j < |s| && IsDigit(s[j])
    requires forall t :: k <= t < j ==> !IsDigit(s[t])
    ensures NextDigit(s, k) == j
    decreases j - k
  {
    if k < j {
      NextDigitSkips(s, k + 1, j);
    }
  }

  lemma {:induction false} RunEndSkips(s: string, k: nat, j: nat)
    requires k <= j <= |s| && (j == |s| || !IsDigit(s[j]))
    requires forall t :: k <= t < j ==> IsDigit(s[t])
    ensures RunEnd(s, k) == j
    decreases j - k
  {
    if k < j {
      RunEndSkips(s, k + 1, j);
    }
  }
}
