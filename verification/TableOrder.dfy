/** How the shared table orders its rows by a column. */
module TableOrder {
  import opened Wrappers
  import opened Sequences
  import opened Sorting

  /** Two cells in ascending or descending order; a missing value comes after every other both ways. */
  function Compare<V>(x: Option<V>, y: Option<V>, desc: bool, cmp: (V, V) -> int): int {
    if x.None? && y.None? then 0
    else if x.None? then 1
    else if y.None? then -1
    else cmp(x.value, y.value) * if desc then -1 else 1
  }

  /** What sorting asks of a comparison of values. */
  ghost predicate Consistent<V(!new)>(cmp: (V, V) -> int) {
    && (forall x, y :: cmp(x, y) <= 0 <==> cmp(y, x) >= 0)
    && (forall x, y, z :: cmp(x, y) <= 0 && cmp(y, z) <= 0 ==> cmp(x, z) <= 0)
  }

  /** Row `i` belongs above row `j`: by their cells, and by where they were when the cells tie. */
  predicate Above<V>(cells: seq<Option<V>>, desc: bool, cmp: (V, V) -> int, i: nat, j: nat)
    requires i < |cells| && j < |cells|
  {
    var order := Compare(cells[i], cells[j], desc, cmp);
    order < 0 || (order == 0 && i < j)
  }

  lemma CompareTransitive<V(!new)>(x: Option<V>, y: Option<V>, z: Option<V>, desc: bool, cmp: (V, V) -> int)
    requires Consistent(cmp)
    requires Compare(x, y, desc, cmp) <= 0 && Compare(y, z, desc, cmp) <= 0
    ensures Compare(x, z, desc, cmp) <= 0
    ensures Compare(x, z, desc, cmp) == 0 ==> Compare(x, y, desc, cmp) == 0 && Compare(y, z, desc, cmp) == 0
  {
    if x.Some? && y.Some? && z.Some? {
      var a, b, c := x.value, y.value, z.value;
      assert cmp(a, b) <= 0 <==> cmp(b, a) >= 0;
      assert cmp(b, c) <= 0 <==> cmp(c, b) >= 0;
      assert cmp(a, c) <= 0 <==> cmp(c, a) >= 0;
    }
  }

  lemma AboveTransitive<V(!new)>(cells: seq<Option<V>>, desc: bool, cmp: (V, V) -> int, i: nat, j: nat, k: nat)
    requires Consistent(cmp) && i < |cells| && j < |cells| && k < |cells|
    requires Above(cells, desc, cmp, i, j) && Above(cells, desc, cmp, j, k)
    ensures Above(cells, desc, cmp, i, k)
  {
    CompareTransitive(cells[i], cells[j], cells[k], desc, cmp);
  }

  lemma AboveTotal<V(!new)>(cells: seq<Option<V>>, desc: bool, cmp: (V, V) -> int, i: nat, j: nat)
    requires Consistent(cmp) && i < |cells| && j < |cells| && i != j
    ensures Above(cells, desc, cmp, i, j) <==> !Above(cells, desc, cmp, j, i)
  {
    if cells[i].Some? && cells[j].Some? {
      var x, y := cells[i].value, cells[j].value;
      assert cmp(x, y) <= 0 <==> cmp(y, x) >= 0;
      assert cmp(y, x) <= 0 <==> cmp(x, y) >= 0;
    }
  }

  /** The order of the rows of a table, by their numbers. */
  function Order<V>(cells: seq<Option<V>>, desc: bool, cmp: (V, V) -> int): (nat, nat) -> bool {
    (i: nat, j: nat) => i < |cells| && j < |cells| && Above(cells, desc, cmp, i, j)
  }

  lemma NotAboveItself<V(!new)>(cells: seq<Option<V>>, desc: bool, cmp: (V, V) -> int, i: nat)
    requires Consistent(cmp) && i < |cells|
    ensures !Above(cells, desc, cmp, i, i)
  {
    if cells[i].Some? {
      var x := cells[i].value;
      assert cmp(x, x) <= 0 <==> cmp(x, x) >= 0;
    }
  }

  lemma OrderRanks<V(!new)>(cells: seq<Option<V>>, desc: bool, cmp: (V, V) -> int)
    requires Consistent(cmp)
    ensures Ranks(Order(cells, desc, cmp))
  {
    var above := Order(cells, desc, cmp);
    forall i: nat, j: nat, k: nat | above(i, j) && above(j, k) ensures above(i, k) {
      AboveTransitive(cells, desc, cmp, i, j, k);
    }
    forall i: nat, j: nat | above(i, j) ensures !above(j, i) {
      if i == j {
        NotAboveItself(cells, desc, cmp, i);
      } else {
        AboveTotal(cells, desc, cmp, i, j);
      }
    }
  }

  function Numbers(n: nat): (numbers: seq<nat>)
    ensures |numbers| == n && forall i :: 0 <= i < n ==> numbers[i] == i
  {
    seq(n, (i: nat) => i)
  }

  /** The numbers of the rows in the order that the table shows them. */
  function SortRows<V>(cells: seq<Option<V>>, desc: bool, cmp: (V, V) -> int): seq<nat> {
    Sort(Numbers(|cells|), Order(cells, desc, cmp))
  }

  /** Every row is shown once, whether the comparison makes sense or not. */
  lemma EveryRowOnce<V>(cells: seq<Option<V>>, desc: bool, cmp: (V, V) -> int)
    ensures var order := SortRows(cells, desc, cmp);
            |order| == |cells| && forall i: nat :: i in order <==> i < |cells|
  {
    SortMembers(Numbers(|cells|), Order(cells, desc, cmp));
    forall i: nat ensures i in Numbers(|cells|) <==> i < |cells| {
      assert i < |cells| ==> Numbers(|cells|)[i] == i;
    }
  }

  /** By a comparison that makes sense the rows are in order, and rows that tie are as they were. */
  lemma RowsInOrder<V(!new)>(cells: seq<Option<V>>, desc: bool, cmp: (V, V) -> int)
    requires Consistent(cmp)
    ensures Pairwise(SortRows(cells, desc, cmp), Order(cells, desc, cmp))
  {
    OrderRanks(cells, desc, cmp);
    var numbers := Numbers(|cells|);
    forall i, j | 0 <= i < j < |numbers| ensures Either(Order(cells, desc, cmp))(numbers[i], numbers[j]) {
      AboveTotal(cells, desc, cmp, numbers[i], numbers[j]);
    }
    SortInOrder(numbers, Order(cells, desc, cmp));
  }

  /**
   Of two rows with a value the one above has the smaller value, or in descending order the greater one, and of
   rows that tie the one above was above before.
   */
  lemma ValuesInOrder<V(!new)>(cells: seq<Option<V>>, desc: bool, cmp: (V, V) -> int, p: nat, q: nat)
    requires Consistent(cmp) && p < q < |SortRows(cells, desc, cmp)|
    ensures var i, j := SortRows(cells, desc, cmp)[p], SortRows(cells, desc, cmp)[q];
            && i < |cells| && j < |cells|
            && (cells[i].Some? && cells[j].Some? ==>
                  var order := cmp(cells[i].value, cells[j].value);
                  (if desc then order > 0 else order < 0) || (order == 0 && i < j))
  {
    RowsInOrder(cells, desc, cmp);
    var rows := SortRows(cells, desc, cmp);
    assert Order(cells, desc, cmp)(rows[p], rows[q]);
  }

  /** However the rows are sorted, stably and by the same comparison, they come out in this order. */
  lemma AnySortAgrees<V(!new)>(order: seq<nat>, cells: seq<Option<V>>, desc: bool, cmp: (V, V) -> int)
    requires Consistent(cmp) && Pairwise(order, Order(cells, desc, cmp))
    requires forall i: nat :: i in order <==> i < |cells|
    ensures order == SortRows(cells, desc, cmp)
  {
    OrderRanks(cells, desc, cmp);
    RowsInOrder(cells, desc, cmp);
    EveryRowOnce(cells, desc, cmp);
    OneOrder(order, SortRows(cells, desc, cmp), Order(cells, desc, cmp));
  }

  function Missing<V>(cells: seq<Option<V>>): nat -> bool {
    (i: nat) => i < |cells| && cells[i].None?
  }

  /** The rows without a value are in their original order, whichever way the column is sorted. */
  lemma MissingInOrder<V(!new)>(cells: seq<Option<V>>, desc: bool, cmp: (V, V) -> int)
    requires Consistent(cmp)
    ensures Pairwise(Filter(SortRows(cells, desc, cmp), Missing(cells)), Order(cells, false, cmp))
  {
    var order := SortRows(cells, desc, cmp);
    var missing := Filter(order, Missing(cells));
    RowsInOrder(cells, desc, cmp);
    FilterKeepsPairs(order, Missing(cells), Order(cells, desc, cmp));
    FilterMembers(order, Missing(cells));
    forall p, q | 0 <= p < q < |missing| ensures Order(cells, false, cmp)(missing[p], missing[q]) {
      assert missing[p] in missing && missing[q] in missing;
      assert Order(cells, desc, cmp)(missing[p], missing[q]);
    }
  }

  lemma MissingLast<V(!new)>(cells: seq<Option<V>>, desc: bool, cmp: (V, V) -> int)
    requires Consistent(cmp)
    ensures var order := SortRows(cells, desc, cmp);
            forall p, q :: 0 <= p < q < |order| && Missing(cells)(order[p]) ==> Missing(cells)(order[q])
  {
    RowsInOrder(cells, desc, cmp);
    var order := SortRows(cells, desc, cmp);
    forall p, q | 0 <= p < q < |order| && Missing(cells)(order[p]) ensures Missing(cells)(order[q]) {
      assert Order(cells, desc, cmp)(order[p], order[q]);
    }
  }

  /** The rows without a value come last and in the same order, whichever way the column is sorted. */
  lemma MissingLastBothWays<V(!new)>(cells: seq<Option<V>>, cmp: (V, V) -> int)
    requires Consistent(cmp)
    ensures var up, down := SortRows(cells, false, cmp), SortRows(cells, true, cmp);
            && Filter(up, Missing(cells)) == Filter(down, Missing(cells))
            && (forall p, q :: 0 <= p < q < |up| && Missing(cells)(up[p]) ==> Missing(cells)(up[q]))
            && (forall p, q :: 0 <= p < q < |down| && Missing(cells)(down[p]) ==> Missing(cells)(down[q]))
  {
    var up, down := SortRows(cells, false, cmp), SortRows(cells, true, cmp);
    OrderRanks(cells, false, cmp);
    RowsInOrder(cells, false, cmp);
    RowsInOrder(cells, true, cmp);
    EveryRowOnce(cells, false, cmp);
    EveryRowOnce(cells, true, cmp);
    FilterMembers(up, Missing(cells));
    FilterMembers(down, Missing(cells));
    MissingInOrder(cells, false, cmp);
    MissingInOrder(cells, true, cmp);
    OneOrder(Filter(up, Missing(cells)), Filter(down, Missing(cells)), Order(cells, false, cmp));
    MissingLast(cells, false, cmp);
    MissingLast(cells, true, cmp);
  }
}
