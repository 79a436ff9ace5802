/** Stable sorting by insertion, and why any other sort gives the same. */
module Sorting {
  import opened Sequences

  /** `x` put below the last member that it does not precede. */
  function Insert<T>(s: seq<T>, x: T, above: (T, T) -> bool): seq<T> {
    if |s| == 0 then [x]
    else if above(s[|s| - 1], x) then s + [x]
    else Insert(s[..|s| - 1], x, above) + [s[|s| - 1]]
  }

  function Sort<T>(rows: seq<T>, above: (T, T) -> bool): seq<T> {
    if |rows| == 0 then [] else Insert(Sort(rows[..|rows| - 1], above), rows[|rows| - 1], above)
  }

  /** A strict order. */
  ghost predicate Ranks<T(!new)>(above: (T, T) -> bool) {
    && (forall x, y, z :: above(x, y) && above(y, z) ==> above(x, z))
    && (forall x, y :: above(x, y) ==> !above(y, x))
  }

  function Either<T>(above: (T, T) -> bool): (T, T) -> bool {
    (x, y) => above(x, y) || above(y, x)
  }

  lemma {:induction false} InsertMembers<T>(s: seq<T>, x: T, above: (T, T) -> bool)
    ensures |Insert(s, x, above)| == |s| + 1 && forall r :: r in Insert(s, x, above) <==> r in s || r == x
  {
    if |s| > 0 {
      assert s == s[..|s| - 1] + [s[|s| - 1]];
      InsertMembers(s[..|s| - 1], x, above);
    }
  }

  /** Whatever the comparison, sorting loses no row and adds none. */
  lemma {:induction false} SortMembers<T>(rows: seq<T>, above: (T, T) -> bool)
    ensures |Sort(rows, above)| == |rows| && forall r :: r in Sort(rows, above) <==> r in rows
  {
    if |rows| > 0 {
      var init, last := rows[..|rows| - 1], rows[|rows| - 1];
      assert rows == init + [last];
      SortMembers(init, above);
      InsertMembers(Sort(init, above), last, above);
    }
  }

  /** Every member of `s` comes above its last one. */
  lemma AllAboveLast<T(!new)>(s: seq<T>, x: T, above: (T, T) -> bool)
    requires Ranks(above) && Pairwise(s, above) && |s| > 0 && above(s[|s| - 1], x)
    ensures forall i :: 0 <= i < |s| ==> above(s[i], x)
  {
    var last := s[|s| - 1];
    forall i | 0 <= i < |s| ensures above(s[i], x) {
      if i < |s| - 1 {
        assert above(s[i], last);
      }
    }
  }

  /** `x`, put somewhere among the members of `s` other than the last, stays above the last. */
  lemma PlacedAboveLast<T>(s: seq<T>, x: T, placed: seq<T>, above: (T, T) -> bool)
    requires |s| > 0 && Pairwise(s, above) && above(x, s[|s| - 1])
    requires forall r :: r in placed ==> r in s[..|s| - 1] || r == x
    ensures forall i :: 0 <= i < |placed| ==> above(placed[i], s[|s| - 1])
  {
    forall i | 0 <= i < |placed| ensures above(placed[i], s[|s| - 1]) {
      assert placed[i] in placed;
      if placed[i] in s[..|s| - 1] {
        var k :| 0 <= k < |s| - 1 && s[..|s| - 1][k] == placed[i];
        assert s[k] == placed[i];
      }
    }
  }

  lemma {:induction false} InsertKeepsOrder<T(!new)>(s: seq<T>, x: T, above: (T, T) -> bool)
    requires Ranks(above) && Pairwise(s, above) && forall r :: r in s ==> Either(above)(r, x)
    ensures Pairwise(Insert(s, x, above), above)
  {
    if |s| > 0 {
      var init, last := s[..|s| - 1], s[|s| - 1];
      assert s == init + [last];
      if above(last, x) {
        AllAboveLast(s, x, above);
        PairwiseSnoc(s, x, above);
      } else {
        InsertKeepsOrder(init, x, above);
        InsertMembers(init, x, above);
        assert last in s && Either(above)(last, x);
        PlacedAboveLast(s, x, Insert(init, x, above), above);
        PairwiseSnoc(Insert(init, x, above), last, above);
      }
    }
  }

  lemma {:induction false} SortInOrder<T(!new)>(rows: seq<T>, above: (T, T) -> bool)
    requires Ranks(above) && Pairwise(rows, Either(above))
    ensures Pairwise(Sort(rows, above), above)
  {
    if |rows| > 0 {
      var init, last := rows[..|rows| - 1], rows[|rows| - 1];
      SortInOrder(init, above);
      SortMembers(init, above);
      forall r | r in Sort(init, above) ensures Either(above)(r, last) {
        var i :| 0 <= i < |init| && init[i] == r;
        assert rows[i] == r;
      }
      InsertKeepsOrder(Sort(init, above), last, above);
    }
  }

  lemma LastIsNew<T(!new)>(s: seq<T>, above: (T, T) -> bool)
    requires Ranks(above) && Pairwise(s, above) && |s| > 0
    ensures s[|s| - 1] !in s[..|s| - 1]
  {
    var init, last := s[..|s| - 1], s[|s| - 1];
    forall i | 0 <= i < |init| ensures init[i] != last {
      assert above(s[i], last);
    }
  }

  lemma SameLast<T(!new)>(one: seq<T>, other: seq<T>, above: (T, T) -> bool)
    requires Ranks(above) && Pairwise(one, above) && Pairwise(other, above)
    requires |one| > 0 && |other| > 0 && forall r :: r in one <==> r in other
    ensures one[|one| - 1] == other[|other| - 1]
  {
    var last, last' := one[|one| - 1], other[|other| - 1];
    assert last in one && last' in other;
    var p :| 0 <= p < |one| && one[p] == last';
    var q :| 0 <= q < |other| && other[q] == last;
    assert p < |one| - 1 ==> above(one[p], last);
    assert q < |other| - 1 ==> above(other[q], last');
  }

  /** Rows can be put in order in one way only, so that however they are sorted, this is the result. */
  lemma {:induction false} OneOrder<T(!new)>(one: seq<T>, other: seq<T>, above: (T, T) -> bool)
    requires Ranks(above) && Pairwise(one, above) && Pairwise(other, above)
    requires forall r :: r in one <==> r in other
    ensures one == other
  {
    if |one| > 0 {
      assert one[0] in other;
    }
    if |other| > 0 {
      assert other[0] in one;
    }
    if |one| > 0 {
      SameLast(one, other, above);
      LastIsNew(one, above);
      LastIsNew(other, above);
      var init, init', last := one[..|one| - 1], other[..|other| - 1], one[|one| - 1];
      assert one == init + [last] && other == init' + [last];
      forall r ensures r in init <==> r in init' {
        assert r in init <==> r in one && r != last;
        assert r in init' <==> r in other && r != last;
      }
      OneOrder(init, init', above);
    }
  }

  /** Sorting what is kept is keeping from what is sorted. */
  lemma {:induction false} SortOfFilter<T(!new)>(rows: seq<T>, p: T -> bool, above: (T, T) -> bool)
    requires Ranks(above) && Pairwise(rows, Either(above))
    ensures Sort(Filter(rows, p), above) == Filter(Sort(rows, above), p)
  {
    FilterKeepsPairs(rows, p, Either(above));
    SortInOrder(Filter(rows, p), above);
    SortInOrder(rows, above);
    FilterKeepsPairs(Sort(rows, above), p, above);
    SortMembers(Filter(rows, p), above);
    SortMembers(rows, above);
    FilterMembers(rows, p);
    FilterMembers(Sort(rows, above), p);
    OneOrder(Sort(Filter(rows, p), above), Filter(Sort(rows, above), p), above);
  }
}
