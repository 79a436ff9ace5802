/** Filtered sequences, and sets of numbers put in order. */
module Sequences {
  function Filter<T>(rows: seq<T>, p: T -> bool): seq<T> {
    if |rows| == 0 then []
    else Filter(rows[..|rows| - 1], p) + if p(rows[|rows| - 1]) then [rows[|rows| - 1]] else []
  }

  function Both<T>(p: T -> bool, p': T -> bool): T -> bool {
    t => p(t) && p'(t)
  }

  lemma {:induction false} FilterSame<T>(rows: seq<T>, p: T -> bool, p': T -> bool)
    requires forall r :: r in rows ==> p(r) == p'(r)
    ensures Filter(rows, p) == Filter(rows, p')
  {
    if |rows| > 0 {
      FilterSame(rows[..|rows| - 1], p, p');
    }
  }

  lemma {:induction false} FilterSnoc<T>(rows: seq<T>, last: T, p: T -> bool)
    ensures Filter(rows + [last], p) == if p(last) then Filter(rows, p) + [last] else Filter(rows, p)
  {
    assert (rows + [last])[..|rows|] == rows;
    assert Filter(rows, p) + [] == Filter(rows, p);
  }

  lemma FilterStep<T>(rows: seq<T>, i: nat, p: T -> bool)
    requires i < |rows|
    ensures Filter(rows[..i + 1], p) == if p(rows[i]) then Filter(rows[..i], p) + [rows[i]] else Filter(rows[..i], p)
  {
    assert rows[..i + 1] == rows[..i] + [rows[i]];
    FilterSnoc(rows[..i], rows[i], p);
  }

  lemma {:induction false} FilterTwice<T>(rows: seq<T>, p: T -> bool, p': T -> bool)
    ensures Filter(Filter(rows, p), p') == Filter(rows, Both(p, p'))
  {
    if |rows| > 0 {
      var init, last := rows[..|rows| - 1], rows[|rows| - 1];
      FilterTwice(init, p, p');
      var kept := Filter(init, p);
      if p(last) {
        assert (kept + [last])[..|kept|] == kept;
      } else {
        assert kept + [] == kept;
      }
    }
  }

  lemma {:induction false} FilterMember<T>(rows: seq<T>, p: T -> bool, r: T)
    ensures r in Filter(rows, p) <==> r in rows && p(r)
  {
    if |rows| > 0 {
      var init, last := rows[..|rows| - 1], rows[|rows| - 1];
      assert rows == init + [last];
      FilterMember(init, p, r);
    }
  }

  lemma {:induction false} FilterMembers<T>(rows: seq<T>, p: T -> bool)
    ensures forall r :: r in Filter(rows, p) <==> r in rows && p(r)
  {
    forall r ensures r in Filter(rows, p) <==> r in rows && p(r) {
      FilterMember(rows, p, r);
    }
  }

  lemma {:induction false} FilterLength<T>(rows: seq<T>, p: T -> bool)
    ensures |Filter(rows, p)| <= |rows|
  {
    if |rows| > 0 {
      FilterLength(rows[..|rows| - 1], p);
    }
  }

  lemma {:induction false} FilterAll<T>(rows: seq<T>, p: T -> bool)
    ensures Filter(rows, p) == rows <==> forall r :: r in rows ==> p(r)
  {
    FilterLength(rows, p);
    if |rows| > 0 {
      var init, last := rows[..|rows| - 1], rows[|rows| - 1];
      assert rows == init + [last];
      FilterAll(init, p);
      FilterLength(init, p);
    }
  }

  /** Every member stands in the relation `rel` to all the later ones. */
  ghost predicate Pairwise<T>(s: seq<T>, rel: (T, T) -> bool) {
    forall i, j :: 0 <= i < j < |s| ==> rel(s[i], s[j])
  }

  lemma PairwiseSnoc<T>(s: seq<T>, last: T, rel: (T, T) -> bool)
    requires Pairwise(s, rel) && forall i :: 0 <= i < |s| ==> rel(s[i], last)
    ensures Pairwise(s + [last], rel)
  {
  }

  lemma {:induction false} FilterKeepsPairs<T>(s: seq<T>, p: T -> bool, rel: (T, T) -> bool)
    requires Pairwise(s, rel)
    ensures Pairwise(Filter(s, p), rel)
  {
    if |s| > 0 {
      var init, last := s[..|s| - 1], s[|s| - 1];
      FilterKeepsPairs(init, p, rel);
      var kept := Filter(init, p);
      forall i | 0 <= i < |kept| ensures rel(kept[i], last) {
        assert kept[i] in kept;
        FilterMember(init, p, kept[i]);
      }
    }
  }

  ghost predicate Distinct<T>(s: seq<T>) {
    forall i, j :: 0 <= i < j < |s| ==> s[i] != s[j]
  }

  ghost predicate Ascending(keys: seq<int>) {
    forall i, j :: 0 <= i < j < |keys| ==> keys[i] < keys[j]
  }

  lemma HasMember(s: set<int>)
    ensures s == {} || exists k :: k in s
  {
    if forall k :: k !in s {
      assert s == {};
    }
  }

  lemma {:induction false} LeastExists(s: set<int>)
    requires s != {}
    ensures exists k :: k in s && forall j :: j in s ==> k <= j
  {
    HasMember(s);
    var x :| x in s;
    var rest := s - {x};
    assert forall j :: j in s ==> j == x || j in rest;
    if rest == {} {
      assert forall j :: j in s ==> x <= j;
    } else {
      LeastExists(rest);
      var k :| k in rest && forall j :: j in rest ==> k <= j;
      var least := if x < k then x else k;
      assert least in s && forall j :: j in s ==> least <= j;
    }
  }

  /** The smallest of the keys still to be placed goes last. */
  lemma LeastGoesLast(placed: seq<int>, rest: set<int>, least: int)
    requires Ascending(placed) && least in rest
    requires forall i, k :: 0 <= i < |placed| && k in rest ==> placed[i] < k
    requires forall k :: k in rest ==> least <= k
    ensures Ascending(placed + [least])
    ensures forall i, k :: 0 <= i < |placed + [least]| && k in rest - {least} ==> (placed + [least])[i] < k
  {
  }

  method Sorted(keys: set<int>) returns (sorted: seq<int>)
    ensures Ascending(sorted)
    ensures forall k :: k in keys <==> k in sorted
  {
    sorted := [];
    var rest := keys;
    while rest != {}
      invariant Ascending(sorted)
      invariant forall i, k :: 0 <= i < |sorted| && k in rest ==> sorted[i] < k
      invariant forall k :: k in keys <==> k in rest || k in sorted
      decreases rest
    {
      LeastExists(rest);
      var least :| least in rest && forall j :: j in rest ==> least <= j;
      LeastGoesLast(sorted, rest, least);
      sorted := sorted + [least];
      rest := rest - {least};
    }
  }
}
