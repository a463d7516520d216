/**
  `similarities.sort(key=lambda x: x[1], reverse=True)` on the list of
  `(index, score)` pairs.

  Python's sort is stable, also with `reverse=True`: pairs of equal score
  keep their relative order. The list is built in index order, so the
  result is ordered by score, highest first, and among equal scores by
  ascending index. The sort is modelled by a stable insertion sort; the
  lemma `RankedUnique` shows that every sort with this outcome yields the
  same list, so the choice of algorithm does not matter.
 */
module Ranking {

  datatype Scored = Scored(index: nat, score: real)

  /** `a` comes before `b` in the sorted list. */
  predicate Before(a: Scored, b: Scored)
  {
    a.score > b.score || (a.score == b.score && a.index < b.index)
  }

  /** Scores non-increasing, and equal scores in ascending index order. */
  predicate Ranked(s: seq<Scored>)
  {
    forall i, j :: 0 <= i < j < |s| ==> Before(s[i], s[j])
  }

  /** The order in which the pairs are created: ascending index. */
  predicate IndexOrdered(s: seq<Scored>)
  {
    forall i, j :: 0 <= i < j < |s| ==> s[i].index < s[j].index
  }

  /** Inserts `p`, the latest pair, after every pair scoring at least as high. */
  function Insert(s: seq<Scored>, p: Scored): (r: seq<Scored>)
    ensures multiset(r) == multiset(s) + multiset{p}
  {
    if s == [] then [p]
    else if s[0].score >= p.score then
      assert s == [s[0]] + s[1..];
      [s[0]] + Insert(s[1..], p)
    else [p] + s
  }

  /** The stable, descending sort by score. */
  function SortByScore(s: seq<Scored>): (r: seq<Scored>)
    ensures multiset(r) == multiset(s)
  {
    if s == [] then []
    else
      assert s == s[..|s| - 1] + [s[|s| - 1]];
      Insert(SortByScore(s[..|s| - 1]), s[|s| - 1])
  }

  lemma {:induction false} InsertRanked(s: seq<Scored>, p: Scored)
    requires Ranked(s)
    requires forall x :: x in s ==> x.index < p.index
    ensures Ranked(Insert(s, p))
  {
    if s != [] && s[0].score >= p.score {
      InsertRanked(s[1..], p);
      var r := Insert(s, p);
      var t := Insert(s[1..], p);
      assert r == [s[0]] + t;
      forall j | 0 < j < |r| ensures Before(r[0], r[j]) {
        assert r[j] in multiset(t);
        assert r[j] in multiset(s[1..]) + multiset{p};
        if r[j] != p {
          assert r[j] in s[1..];
          var k :| 0 <= k < |s[1..]| && s[1..][k] == r[j];
          assert s[k + 1] == r[j];
        }
      }
    }
  }

  /** Sorting pairs created in index order ranks them. */
  lemma {:induction false} SortRanked(s: seq<Scored>)
    requires IndexOrdered(s)
    ensures Ranked(SortByScore(s))
  {
    if s != [] {
      var init, last := s[..|s| - 1], s[|s| - 1];
      SortRanked(init);
      forall x | x in SortByScore(init) ensures x.index < last.index {
        assert x in multiset(SortByScore(init));
        assert x in init;
      }
      InsertRanked(SortByScore(init), last);
    }
  }

  /** The head of a ranked list comes before each of its other elements. */
  lemma RankedHead(s: seq<Scored>, x: Scored)
    requires Ranked(s) && x in s
    ensures x == s[0] || Before(s[0], x)
  {
    var k :| 0 <= k < |s| && s[k] == x;
    if k != 0 {
      assert Before(s[0], s[k]);
    }
  }

  /** Two ranked orderings of the same pairs are the same list. */
  lemma {:induction false} RankedUnique(a: seq<Scored>, b: seq<Scored>)
    requires multiset(a) == multiset(b)
    requires Ranked(a) && Ranked(b)
    ensures a == b
  {
    SameLength(a, b);
    if a != [] {
      SameHead(a, b);
      SameTail(a, b);
      RankedTail(a);
      RankedTail(b);
      RankedUnique(a[1..], b[1..]);
      assert a == [a[0]] + a[1..] && b == [b[0]] + b[1..];
    }
  }

  lemma SameLength(a: seq<Scored>, b: seq<Scored>)
    requires multiset(a) == multiset(b)
    ensures |a| == |b|
  {
    assert |multiset(a)| == |multiset(b)|;
  }

  lemma SameHead(a: seq<Scored>, b: seq<Scored>)
    requires multiset(a) == multiset(b) && a != [] && b != []
    requires Ranked(a) && Ranked(b)
    ensures a[0] == b[0]
  {
    assert a[0] in multiset(b) && b[0] in multiset(a);
    RankedHead(a, b[0]);
    RankedHead(b, a[0]);
  }

  lemma SameTail(a: seq<Scored>, b: seq<Scored>)
    requires multiset(a) == multiset(b) && a != [] && b != [] && a[0] == b[0]
    ensures multiset(a[1..]) == multiset(b[1..])
  {
    assert a == [a[0]] + a[1..] && b == [b[0]] + b[1..];
    assert multiset(a) == multiset{a[0]} + multiset(a[1..]);
    assert multiset(b) == multiset{b[0]} + multiset(b[1..]);
    assert multiset(a[1..]) == multiset(a) - multiset{a[0]};
    assert multiset(b[1..]) == multiset(b) - multiset{b[0]};
  }

  lemma RankedTail(s: seq<Scored>)
    requires Ranked(s) && s != []
    ensures Ranked(s[1..])
  {
    forall i, j | 0 <= i < j < |s| - 1 ensures Before(s[1..][i], s[1..][j]) {
      assert s[1..][i] == s[i + 1] && s[1..][j] == s[j + 1];
    }
  }

  /**
    The sorted list is a permutation of the pairs, ranked (scores
    non-increasing, ties by ascending index), and the only ranked
    permutation there is.
   */
  lemma SortByScoreMeaning(s: seq<Scored>, other: seq<Scored>)
    requires IndexOrdered(s)
    ensures multiset(SortByScore(s)) == multiset(s)
    ensures Ranked(SortByScore(s))
    ensures multiset(other) == multiset(s) && Ranked(other) ==> other == SortByScore(s)
  {
    SortRanked(s);
    if multiset(other) == multiset(s) && Ranked(other) {
      RankedUnique(other, SortByScore(s));
    }
  }

  lemma {:induction false} InsertLowest(s: seq<Scored>, p: Scored)
    requires forall k :: 0 <= k < |s| ==> s[k].score >= p.score
    ensures Insert(s, p) == s + [p]
  {
    if s != [] {
      InsertLowest(s[1..], p);
      assert s == [s[0]] + s[1..];
    }
  }

  /** When all scores are equal the sort leaves the list as it is. */
  lemma {:induction false} SortEqualScores(s: seq<Scored>, c: real)
    requires forall k :: 0 <= k < |s| ==> s[k].score == c
    ensures SortByScore(s) == s
  {
    if s != [] {
      var init := s[..|s| - 1];
      SortEqualScores(init, c);
      InsertLowest(init, s[|s| - 1]);
      assert init + [s[|s| - 1]] == s;
    }
  }
}
