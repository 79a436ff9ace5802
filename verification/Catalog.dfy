/**
 The device catalog: what seeding a table of device models with a list of entries comes to, entry by
 entry, without looking at the loop that does it.

 A row's primary key is its position in the table.
 */
module Catalog {
  import opened Wrappers
  import opened CatalogRows

  /** A stored row; `releasedAt` is a column that seeding never writes. */
  datatype Row = Row(values: Values, releasedAt: Option<int>)

  type Model = (string, string)

  /** What identifies an entry: a missing variant counts as an empty one. */
  datatype Key = Key(model: Model, variant: string)

  function ModelOf(v: Values): Model {
    (v.brand, v.modelName)
  }

  function KeyOf(v: Values): Key {
    Key(ModelOf(v), if v.variant.Some? then v.variant.value else "")
  }

  /** The same brand, model and variant; a variant that is NULL is like no other. */
  predicate Duplicates(v: Values, w: Values) {
    ModelOf(v) == ModelOf(w) && v.variant.Some? && v.variant == w.variant
  }

  /** The unique constraint of the table. */
  predicate Unique(table: seq<Row>) {
    forall i, j {:trigger Duplicates(table[i].values, table[j].values)} ::
      0 <= i < j < |table| ==> !Duplicates(table[i].values, table[j].values)
  }

  /** The last row with this key. */
  function RowOf(table: seq<Row>, key: Key): (r: Option<nat>)
    ensures r.Some? ==> r.value < |table| && KeyOf(table[r.value].values) == key
    ensures r.None? ==> forall i :: 0 <= i < |table| ==> KeyOf(table[i].values) != key
  {
    if |table| == 0 then None
    else if KeyOf(table[|table| - 1].values) == key then Some(|table| - 1)
    else RowOf(table[..|table| - 1], key)
  }

  /** The last row of this model that has no variant at all: a starter row. */
  function StarterRow(table: seq<Row>, model: Model): (r: Option<nat>)
    ensures r.Some? ==>
            r.value < |table| && ModelOf(table[r.value].values) == model && table[r.value].values.variant.None?
    ensures r.None? ==> forall i :: 0 <= i < |table| && table[i].values.variant.None? ==>
            ModelOf(table[i].values) != model
  {
    if |table| == 0 then None
    else
      var last := table[|table| - 1].values;
      if last.variant.None? && ModelOf(last) == model then Some(|table| - 1)
      else StarterRow(table[..|table| - 1], model)
  }

  /** No row of the table has the entry's key. */
  predicate IsNew(table: seq<Row>, v: Values) {
    RowOf(table, KeyOf(v)).None?
  }

  /** The first new entry of a model takes over the model's starter row. */
  predicate Adopts(table: seq<Row>, es: seq<Values>, k: nat)
    requires k < |es|
  {
    && IsNew(table, es[k]) && StarterRow(table, ModelOf(es[k])).Some?
    && forall j :: 0 <= j < k && IsNew(table, es[j]) ==> ModelOf(es[j]) != ModelOf(es[k])
  }

  /** The last of the first `n` entries with this key. */
  function EntryOf(es: seq<Values>, n: nat, key: Key): (r: Option<nat>)
    requires n <= |es|
    ensures r.Some? ==> r.value < n && KeyOf(es[r.value]) == key
    ensures r.Some? ==> forall k :: r.value < k < n ==> KeyOf(es[k]) != key
    ensures r.None? ==> forall k :: 0 <= k < n ==> KeyOf(es[k]) != key
  {
    if n == 0 then None
    else if KeyOf(es[n - 1]) == key then Some(n - 1)
    else EntryOf(es, n - 1, key)
  }

  predicate Inserts(table: seq<Row>, es: seq<Values>, k: nat)
    requires k < |es|
  {
    IsNew(table, es[k]) && !Adopts(table, es, k) && EntryOf(es, k, KeyOf(es[k])).None?
  }

  /** How many of the first `k` entries got a row of their own. */
  function InsertsBefore(table: seq<Row>, es: seq<Values>, k: nat): (r: nat)
    requires k <= |es|
    ensures r <= k
  {
    if k == 0 then 0 else InsertsBefore(table, es, k - 1) + if Inserts(table, es, k - 1) then 1 else 0
  }

  /** The row that entry `k` is written to; a repeated key goes where it went before. */
  function Target(table: seq<Row>, es: seq<Values>, k: nat): nat
    requires k < |es|
  {
    var earlier := EntryOf(es, k, KeyOf(es[k]));
    if earlier.Some? then Target(table, es, earlier.value)
    else if !IsNew(table, es[k]) then RowOf(table, KeyOf(es[k])).value
    else if Adopts(table, es, k) then StarterRow(table, ModelOf(es[k])).value
    else |table| + InsertsBefore(table, es, k)
  }

  /** The last of the first `n` entries that is written to row `r`. */
  function Writer(table: seq<Row>, es: seq<Values>, n: nat, r: nat): (w: Option<nat>)
    requires n <= |es|
    ensures w.Some? ==> w.value < n && Target(table, es, w.value) == r
    ensures w.None? ==> forall k :: 0 <= k < n ==> Target(table, es, k) != r
  {
    if n == 0 then None
    else if Target(table, es, n - 1) == r then Some(n - 1)
    else Writer(table, es, n - 1, r)
  }

  /** Row `r` after the first `n` entries. */
  function SeededRow(table: seq<Row>, es: seq<Values>, n: nat, r: nat): Row
    requires n <= |es| && (r < |table| || Writer(table, es, n, r).Some?)
  {
    var w := Writer(table, es, n, r);
    if w.None? then table[r]
    else Row(es[w.value], if r < |table| then table[r].releasedAt else None)
  }

  /** The table after the first `n` entries, each written to its target. */
  function Seeded(table: seq<Row>, es: seq<Values>, n: nat): seq<Row>
    requires n <= |es|
  {
    if n == 0 then table
    else
      var before, target := Seeded(table, es, n - 1), Target(table, es, n - 1);
      if target < |before| then before[target := before[target].(values := es[n - 1])]
      else before + [Row(es[n - 1], None)]
  }

  lemma {:induction false} TargetBound(table: seq<Row>, es: seq<Values>, k: nat, n: nat)
    requires k < n <= |es|
    ensures Target(table, es, k) < |table| + InsertsBefore(table, es, n)
    decreases n, k
  {
    var earlier := EntryOf(es, k, KeyOf(es[k]));
    if earlier.Some? {
      TargetBound(table, es, earlier.value, n);
    } else if n > k + 1 {
      TargetBound(table, es, k, n - 1);
    }
  }

  /** Either the entry gets the next free row, or its row exists already. */
  lemma {:induction false} TargetWhere(table: seq<Row>, es: seq<Values>, n: nat)
    requires n < |es|
    ensures Inserts(table, es, n) ==> Target(table, es, n) == |table| + InsertsBefore(table, es, n)
    ensures !Inserts(table, es, n) ==> Target(table, es, n) < |table| + InsertsBefore(table, es, n)
  {
    var earlier := EntryOf(es, n, KeyOf(es[n]));
    if earlier.Some? {
      TargetBound(table, es, earlier.value, n);
    }
  }

  /** One row more for every entry that got one. */
  predicate Grown(table: seq<Row>, es: seq<Values>, n: nat)
    requires n <= |es|
  {
    |Seeded(table, es, n)| == |table| + InsertsBefore(table, es, n)
  }

  lemma GrownStep(table: seq<Row>, es: seq<Values>, n: nat)
    requires n < |es| && Grown(table, es, n)
    ensures Grown(table, es, n + 1)
  {
    TargetWhere(table, es, n);
  }

  lemma {:induction false} GrownFrom(table: seq<Row>, es: seq<Values>, m: nat, n: nat)
    requires m <= n <= |es| && Grown(table, es, m)
    ensures Grown(table, es, n)
    decreases n - m
  {
    if m != n {
      GrownStep(table, es, m);
      GrownFrom(table, es, m + 1, n);
    }
  }

  lemma {:induction false} SeededLength(table: seq<Row>, es: seq<Values>, n: nat)
    requires n <= |es|
    ensures |Seeded(table, es, n)| == |table| + InsertsBefore(table, es, n)
  {
    GrownFrom(table, es, 0, n);
  }

  /** The last write to a row, after one more entry. */
  lemma WriterStep(table: seq<Row>, es: seq<Values>, n: nat, r: nat)
    requires n < |es|
    ensures Writer(table, es, n + 1, r) == if Target(table, es, n) == r then Some(n) else Writer(table, es, n, r)
  {
  }

  /** Row `r`, if there is one, holds the last entry written to it, or what it held at first. */
  predicate RowHolds(table: seq<Row>, es: seq<Values>, n: nat, r: nat)
    requires n <= |es|
  {
    r < |Seeded(table, es, n)| ==>
      (r < |table| || Writer(table, es, n, r).Some?) && Seeded(table, es, n)[r] == SeededRow(table, es, n, r)
  }

  /** A row that was there before, after one more entry. */
  lemma OldRowStep(before: seq<Row>, table: seq<Row>, es: seq<Values>, n: nat, r: nat)
    requires n < |es| && before == Seeded(table, es, n) && r < |before| && RowHolds(table, es, n, r)
    ensures RowHolds(table, es, n + 1, r)
  {
    WriterStep(table, es, n, r);
    assert before[r].releasedAt == if r < |table| then table[r].releasedAt else None;
  }

  /** A row that one more entry adds. */
  lemma {:induction false} NewRowStep(before: seq<Row>, table: seq<Row>, es: seq<Values>, n: nat, r: nat)
    requires n < |es| && before == Seeded(table, es, n) && |before| <= r
    ensures RowHolds(table, es, n + 1, r)
  {
    SeededLength(table, es, n);
    TargetWhere(table, es, n);
    WriterStep(table, es, n, r);
  }

  lemma RowHoldsStep(table: seq<Row>, es: seq<Values>, n: nat, r: nat)
    requires n < |es| && RowHolds(table, es, n, r)
    ensures RowHolds(table, es, n + 1, r)
  {
    var before := Seeded(table, es, n);
    if r < |before| {
      OldRowStep(before, table, es, n, r);
    } else {
      NewRowStep(before, table, es, n, r);
    }
  }

  lemma {:induction false} RowHoldsFrom(table: seq<Row>, es: seq<Values>, m: nat, n: nat, r: nat)
    requires m <= n <= |es| && RowHolds(table, es, m, r)
    ensures RowHolds(table, es, n, r)
    decreases n - m
  {
    if m != n {
      RowHoldsStep(table, es, m, r);
      RowHoldsFrom(table, es, m + 1, n, r);
    }
  }

  lemma {:induction false} SeededAt(table: seq<Row>, es: seq<Values>, n: nat, r: nat)
    requires n <= |es| && r < |Seeded(table, es, n)|
    ensures r < |table| || Writer(table, es, n, r).Some?
    ensures Seeded(table, es, n)[r] == SeededRow(table, es, n, r)
  {
    RowHoldsFrom(table, es, 0, n, r);
  }
}
