/** The loop that seeds the catalog, with its two in-memory indexes over the changing table. */
module CatalogSeed {
  import opened Wrappers
  import opened CatalogRows
  import opened Catalog

  datatype Counts = Counts(inserted: nat, updated: nat)

  /** Where the full-key index points after the first `n` entries. */
  function IndexEntry(table: seq<Row>, es: seq<Values>, n: nat, key: Key): Option<nat>
    requires n <= |es|
  {
    var k := EntryOf(es, n, key);
    if k.Some? then Some(Target(table, es, k.value)) else RowOf(table, key)
  }

  ghost predicate IndexHolds(byKey: map<Key, int>, table: seq<Row>, es: seq<Values>, n: nat)
    requires n <= |es|
  {
    forall key :: (key in byKey <==> IndexEntry(table, es, n, key).Some?)
                  && (key in byKey ==> byKey[key] == IndexEntry(table, es, n, key).value)
  }

  ghost predicate NewSeen(table: seq<Row>, es: seq<Values>, n: nat, m: Model)
    requires n <= |es|
  {
    exists k :: 0 <= k < n && IsNew(table, es[k]) && ModelOf(es[k]) == m
  }

  /** A model's starter row stays up for adoption until a new entry of the model comes by. */
  ghost predicate StartersHold(starters: map<Model, int>, table: seq<Row>, es: seq<Values>, n: nat)
    requires n <= |es|
  {
    forall m :: (m in starters <==> StarterRow(table, m).Some? && !NewSeen(table, es, n, m))
                && (m in starters ==> starters[m] == StarterRow(table, m).value)
  }

  lemma {:induction false} IndexStep(byKey: map<Key, int>, table: seq<Row>, es: seq<Values>, n: nat)
    requires n < |es| && IndexHolds(byKey, table, es, n)
    ensures IndexHolds(byKey[KeyOf(es[n]) := Target(table, es, n)], table, es, n + 1)
  {
  }

  lemma StartersStep(starters: map<Model, int>, table: seq<Row>, es: seq<Values>, n: nat)
    requires n < |es| && StartersHold(starters, table, es, n)
    ensures StartersHold(if IsNew(table, es[n]) then starters - {ModelOf(es[n])} else starters, table, es, n + 1)
  {
    forall m
      ensures NewSeen(table, es, n + 1, m) <==> NewSeen(table, es, n, m) || (IsNew(table, es[n]) && ModelOf(es[n]) == m)
    {
      if IsNew(table, es[n]) && ModelOf(es[n]) == m {
        assert NewSeen(table, es, n + 1, m);
      }
      if NewSeen(table, es, n, m) {
        var k :| 0 <= k < n && IsNew(table, es[k]) && ModelOf(es[k]) == m;
        assert k < n + 1;
      }
    }
  }

  /** The two indexes of a table as it stands; later rows win. */
  function TableIndex(table: seq<Row>): map<Key, int> {
    if |table| == 0 then map[]
    else TableIndex(table[..|table| - 1])[KeyOf(table[|table| - 1].values) := |table| - 1]
  }

  function StarterIndex(table: seq<Row>): map<Model, int> {
    if |table| == 0 then map[]
    else
      var last := table[|table| - 1].values;
      var init := StarterIndex(table[..|table| - 1]);
      if last.variant.None? then init[ModelOf(last) := |table| - 1] else init
  }

  /** The two indexes after the first `n` entries. */
  function KeyIndex(table: seq<Row>, es: seq<Values>, n: nat): map<Key, int>
    requires n <= |es|
  {
    if n == 0 then TableIndex(table) else KeyIndex(table, es, n - 1)[KeyOf(es[n - 1]) := Target(table, es, n - 1)]
  }

  function Starters(table: seq<Row>, es: seq<Values>, n: nat): map<Model, int>
    requires n <= |es|
  {
    if n == 0 then StarterIndex(table)
    else if IsNew(table, es[n - 1]) then Starters(table, es, n - 1) - {ModelOf(es[n - 1])}
    else Starters(table, es, n - 1)
  }

  lemma {:induction false} TableIndexHolds(table: seq<Row>, key: Key)
    ensures key in TableIndex(table) <==> RowOf(table, key).Some?
    ensures key in TableIndex(table) ==> TableIndex(table)[key] == RowOf(table, key).value
  {
    if |table| > 0 {
      TableIndexHolds(table[..|table| - 1], key);
    }
  }

  lemma {:induction false} StarterIndexHolds(table: seq<Row>, m: Model)
    ensures m in StarterIndex(table) <==> StarterRow(table, m).Some?
    ensures m in StarterIndex(table) ==> StarterIndex(table)[m] == StarterRow(table, m).value
  {
    if |table| > 0 {
      StarterIndexHolds(table[..|table| - 1], m);
    }
  }

  ghost predicate BothHold(table: seq<Row>, es: seq<Values>, n: nat)
    requires n <= |es|
  {
    IndexHolds(KeyIndex(table, es, n), table, es, n) && StartersHold(Starters(table, es, n), table, es, n)
  }

  lemma HoldAtFirst(table: seq<Row>, es: seq<Values>)
    ensures BothHold(table, es, 0)
  {
    forall key {
      TableIndexHolds(table, key);
    }
    forall m {
      StarterIndexHolds(table, m);
    }
  }

  lemma HoldStep(table: seq<Row>, es: seq<Values>, n: nat)
    requires n < |es| && BothHold(table, es, n)
    ensures BothHold(table, es, n + 1)
  {
    IndexStep(KeyIndex(table, es, n), table, es, n);
    StartersStep(Starters(table, es, n), table, es, n);
  }

  /**
   The full-key index finds every row of the original table and every entry seen so far, and the other
   index every starter row still to be adopted.
   */
  lemma {:induction false} BothHoldFrom(table: seq<Row>, es: seq<Values>, m: nat, n: nat)
    requires m <= n <= |es| && BothHold(table, es, m)
    ensures BothHold(table, es, n)
    decreases n - m
  {
    if m != n {
      HoldStep(table, es, m);
      BothHoldFrom(table, es, m + 1, n);
    }
  }

  lemma BothAlwaysHold(table: seq<Row>, es: seq<Values>, n: nat)
    requires n <= |es|
    ensures BothHold(table, es, n)
  {
    HoldAtFirst(table, es);
    BothHoldFrom(table, es, 0, n);
  }

  lemma {:induction false} KeyIndexHolds(table: seq<Row>, es: seq<Values>, n: nat)
    requires n <= |es|
    ensures IndexHolds(KeyIndex(table, es, n), table, es, n)
  {
    BothAlwaysHold(table, es, n);
  }

  lemma {:induction false} FoundByKey(table: seq<Row>, es: seq<Values>, n: nat)
    requires n < |es|
    ensures var byKey, key := KeyIndex(table, es, n), KeyOf(es[n]);
            && (key in byKey <==> !IsNew(table, es[n]) || EntryOf(es, n, key).Some?)
            && (key in byKey ==> byKey[key] == Target(table, es, n))
  {
    KeyIndexHolds(table, es, n);
    assert IndexEntry(table, es, n, KeyOf(es[n])).Some? <==> !IsNew(table, es[n]) || EntryOf(es, n, KeyOf(es[n])).Some?;
  }

  lemma {:induction false} FoundByModel(table: seq<Row>, es: seq<Values>, n: nat)
    requires n < |es|
    ensures var starters, model := Starters(table, es, n), ModelOf(es[n]);
            && (EntryOf(es, n, KeyOf(es[n])).Some? && IsNew(table, es[n]) ==> model !in starters)
            && (IsNew(table, es[n]) ==> (model in starters <==> Adopts(table, es, n)))
            && (model in starters ==> StarterRow(table, model) == Some(starters[model]))
  {
    BothAlwaysHold(table, es, n);
  }

  /** What the two lookups find, and what they must hold afterwards. */
  lemma ChosenTarget(table: seq<Row>, es: seq<Values>, n: nat)
    requires n < |es|
    ensures var byKey, starters := KeyIndex(table, es, n), Starters(table, es, n);
            var key, model, target := KeyOf(es[n]), ModelOf(es[n]), Target(table, es, n);
            && (key in byKey ==> byKey[key] == target && Starters(table, es, n + 1) == starters)
            && (key !in byKey ==> Starters(table, es, n + 1) == starters - {model})
            && (key !in byKey && model in starters ==> starters[model] == target)
            && (key !in byKey && model !in starters ==> starters - {model} == starters)
            && (Inserts(table, es, n) <==> key !in byKey && model !in starters)
            && (Inserts(table, es, n) ==> target == |table| + InsertsBefore(table, es, n))
            && (!Inserts(table, es, n) ==> target < |table| + InsertsBefore(table, es, n))
  {
    FoundByKey(table, es, n);
    FoundByModel(table, es, n);
    TargetWhere(table, es, n);
  }

  const BLANK := Values("", "", None, "", "", "", 0.0, 0, None, "", true, None, None, None, map[])

  /** What each entry brings to the table, or that it brings the import down. */
  function MapAll(entries: seq<Entry>, digits: nat): (rs: seq<Result<Values, ()>>)
    ensures |rs| == |entries|
  {
    if |entries| == 0 then []
    else MapAll(entries[..|entries| - 1], digits) + [Storable(entries[|entries| - 1], digits)]
  }

  lemma {:induction false} MapAllAt(entries: seq<Entry>, digits: nat, n: nat)
    requires n < |entries|
    ensures MapAll(entries, digits)[n] == Storable(entries[n], digits)
  {
    if n < |entries| - 1 {
      MapAllAt(entries[..|entries| - 1], digits, n);
    }
  }

  /** The values of every entry, provided that all are storable. */
  function ValuesOf(rs: seq<Result<Values, ()>>): (es: seq<Values>)
    ensures |es| == |rs|
    ensures forall i :: 0 <= i < |rs| && rs[i].Ok? ==> es[i] == rs[i].value
  {
    seq(|rs|, i requires 0 <= i < |rs| => if rs[i].Ok? then rs[i].value else BLANK)
  }

  /** Entry `n` is storable, and the table keeps its unique constraint when it is written after the ones before it. */
  predicate Goes(table: seq<Row>, rs: seq<Result<Values, ()>>, n: nat)
    requires n < |rs|
  {
    rs[n].Ok? && Unique(Seeded(table, ValuesOf(rs), n + 1))
  }

  /** The first `n` entries can all be mapped and written. */
  predicate Commits(table: seq<Row>, rs: seq<Result<Values, ()>>, n: nat)
    requires n <= |rs|
  {
    n == 0 || (Commits(table, rs, n - 1) && Goes(table, rs, n - 1))
  }

  lemma {:induction false} CommittedGoes(table: seq<Row>, rs: seq<Result<Values, ()>>, n: nat, k: nat)
    requires k < n <= |rs| && Commits(table, rs, n)
    ensures Goes(table, rs, k)
  {
    if k < n - 1 {
      CommittedGoes(table, rs, n - 1, k);
    }
  }

  lemma {:induction false} AllGoCommits(table: seq<Row>, rs: seq<Result<Values, ()>>, n: nat)
    requires n <= |rs| && forall k :: 0 <= k < n ==> Goes(table, rs, k)
    ensures Commits(table, rs, n)
  {
    if n > 0 {
      AllGoCommits(table, rs, n - 1);
    }
  }

  /** The mapping of one entry, refused by a column or not. */
  method MapEntry(entries: seq<Entry>, digits: nat, n: nat) returns (r: Result<Values, ()>)
    requires n < |entries|
    ensures r == MapAll(entries, digits)[n]
  {
    r := RowValues(entries[n], digits);
    if r.Ok? && !Taken(r.value) {
      r := Err(());
    }
    MapAllAt(entries, digits, n);
  }

  /** The two indexes over the rows as they stand. */
  method Snapshot(rows: seq<Row>) returns (byKey: map<Key, int>, starters: map<Model, int>)
    ensures byKey == TableIndex(rows) && starters == StarterIndex(rows)
  {
    byKey, starters := map[], map[];
    var i := 0;
    while i < |rows|
      invariant 0 <= i <= |rows|
      invariant byKey == TableIndex(rows[..i]) && starters == StarterIndex(rows[..i])
    {
      assert rows[..i + 1][..i] == rows[..i];
      byKey := byKey[KeyOf(rows[i].values) := i];
      if rows[i].values.variant.None? {
        starters := starters[ModelOf(rows[i].values) := i];
      }
      i := i + 1;
    }
    assert rows[..i] == rows;
  }

  /** The running state of the transaction. */
  datatype Progress = Progress(rows: seq<Row>, byKey: map<Key, int>, starters: map<Model, int>, inserted: nat,
                               updated: nat)

  ghost function ProgressAfter(table: seq<Row>, es: seq<Values>, n: nat): Progress
    requires n <= |es|
  {
    Progress(Seeded(table, es, n), KeyIndex(table, es, n), Starters(table, es, n),
             InsertsBefore(table, es, n), n - InsertsBefore(table, es, n))
  }

  lemma {:induction false} ProgressAtFirst(table: seq<Row>, es: seq<Values>)
    ensures ProgressAfter(table, es, 0) == Progress(table, TableIndex(table), StarterIndex(table), 0, 0)
  {
  }

  /** Writes one entry to the row the indexes find for it, or to a new row, unless that row would repeat another. */
  method Upsert(values: Values, p: Progress, ghost table: seq<Row>, ghost es: seq<Values>, ghost n: nat)
    returns (r: Option<Progress>)
    requires n < |es| && es[n] == values && p == ProgressAfter(table, es, n)
    ensures r.Some? <==> Unique(Seeded(table, es, n + 1))
    ensures r.Some? ==> r.value == ProgressAfter(table, es, n + 1)
  {
    SeededLength(table, es, n);
    ChosenTarget(table, es, n);
    var key, model := KeyOf(values), ModelOf(values);
    var starters := p.starters;
    var target: Option<int> := if key in p.byKey then Some(p.byKey[key]) else None;
    if target.None? && model in starters {
      target := Some(starters[model]);
      starters := starters - {model};
    }
    var p';
    if target.Some? {
      var rows := p.rows[target.value := p.rows[target.value].(values := values)];
      p' := Progress(rows, p.byKey[key := target.value], starters, p.inserted, p.updated + 1);
    } else {
      var rows := p.rows + [Row(values, None)];
      p' := Progress(rows, p.byKey[key := |p.rows|], starters, p.inserted + 1, p.updated);
    }
    assert p' == ProgressAfter(table, es, n + 1);
    return if Unique(p'.rows) then Some(p') else None;
  }

  /** The states that the loop passes through, first to last. */
  ghost predicate Passes(states: seq<Progress>, table: seq<Row>, es: seq<Values>) {
    && |states| == |es| + 1
    && forall k {:trigger ProgressAfter(table, es, k)} :: 0 <= k <= |es| ==> states[k] == ProgressAfter(table, es, k)
  }

  lemma StatesExist(table: seq<Row>, es: seq<Values>) returns (states: seq<Progress>)
    ensures Passes(states, table, es)
  {
    states := seq(|es| + 1, k requires 0 <= k <= |es| => ProgressAfter(table, es, k));
  }

  /** `Goes`, seen from the states of the loop. */
  ghost predicate GoesOver(states: seq<Progress>, rs: seq<Result<Values, ()>>, n: nat)
    requires n < |rs| && |states| == |rs| + 1
  {
    rs[n].Ok? && Unique(states[n + 1].rows)
  }

  ghost predicate AllGoOver(states: seq<Progress>, rs: seq<Result<Values, ()>>, n: nat)
    requires n <= |rs| && |states| == |rs| + 1
  {
    forall k {:trigger GoesOver(states, rs, k)} :: 0 <= k < n ==> GoesOver(states, rs, k)
  }

  lemma SameGoes(states: seq<Progress>, table: seq<Row>, rs: seq<Result<Values, ()>>, k: nat)
    requires Passes(states, table, ValuesOf(rs)) && k < |rs|
    ensures GoesOver(states, rs, k) <==> Goes(table, rs, k)
  {
    assert states[k + 1] == ProgressAfter(table, ValuesOf(rs), k + 1);
  }

  lemma {:induction false} SameCommits(states: seq<Progress>, table: seq<Row>, rs: seq<Result<Values, ()>>)
    requires Passes(states, table, ValuesOf(rs))
    ensures AllGoOver(states, rs, |rs|) <==> Commits(table, rs, |rs|)
  {
    if AllGoOver(states, rs, |rs|) {
      forall k | 0 <= k < |rs| ensures Goes(table, rs, k) {
        SameGoes(states, table, rs, k);
      }
      AllGoCommits(table, rs, |rs|);
    }
    if Commits(table, rs, |rs|) {
      forall k | 0 <= k < |rs| ensures GoesOver(states, rs, k) {
        CommittedGoes(table, rs, |rs|, k);
        SameGoes(states, table, rs, k);
      }
    }
  }

  /** One turn of the loop, or nothing when the entry cannot be mapped or written. */
  method Turn(entries: seq<Entry>, digits: nat, n: nat, p: Progress,
              ghost table: seq<Row>, ghost rs: seq<Result<Values, ()>>, ghost states: seq<Progress>)
    returns (r: Option<Progress>)
    requires n < |entries| && rs == MapAll(entries, digits) && Passes(states, table, ValuesOf(rs)) && p == states[n]
    ensures r.Some? <==> GoesOver(states, rs, n)
    ensures r.Some? ==> r.value == states[n + 1]
  {
    var values := MapEntry(entries, digits, n);
    if values.Err? {
      return None;
    }
    assert states[n] == ProgressAfter(table, ValuesOf(rs), n)
      && states[n + 1] == ProgressAfter(table, ValuesOf(rs), n + 1);
    r := Upsert(values.value, p, table, ValuesOf(rs), n);
  }

  /** The loop over the catalog, from the state at its beginning. */
  method Loop(entries: seq<Entry>, digits: nat, first: Progress,
              ghost table: seq<Row>, ghost rs: seq<Result<Values, ()>>, ghost states: seq<Progress>)
    returns (r: Result<Progress, ()>)
    requires rs == MapAll(entries, digits) && Passes(states, table, ValuesOf(rs)) && first == states[0]
    ensures r.Ok? <==> AllGoOver(states, rs, |rs|)
    ensures r.Ok? ==> r.value == states[|rs|]
  {
    var p, n := first, 0;
    while n < |entries|
      invariant 0 <= n <= |entries|
      invariant AllGoOver(states, rs, n)
      invariant p == states[n]
    {
      var next := Turn(entries, digits, n, p, table, rs, states);
      if next.None? {
        assert !GoesOver(states, rs, n);
        return Err(());
      }
      p := next.value;
      n := n + 1;
    }
    return Ok(p);
  }

  /** The import, inside one transaction: what it would commit, unless an entry raises or is refused. */
  method UpsertAll(table: seq<Row>, entries: seq<Entry>, digits: nat) returns (r: Result<Progress, ()>)
    ensures var rs := MapAll(entries, digits);
            && (r.Ok? <==> Commits(table, rs, |rs|))
            && (r.Ok? ==> r.value == ProgressAfter(table, ValuesOf(rs), |rs|))
  {
    ghost var rs := MapAll(entries, digits);
    ghost var states := StatesExist(table, ValuesOf(rs));
    var byKey, starters := Snapshot(table);
    ProgressAtFirst(table, ValuesOf(rs));
    SameCommits(states, table, rs);
    r := Loop(entries, digits, Progress(table, byKey, starters, 0, 0), table, rs, states);
    assert states[|rs|] == ProgressAfter(table, ValuesOf(rs), |rs|);
  }

  class DeviceModels {
    var table: seq<Row>

    /** What the database itself sees to. */
    predicate Valid()
      reads this
    {
      Unique(table)
    }

    constructor (table: seq<Row>)
      requires Unique(table)
      ensures Valid() && this.table == table
    {
      this.table := table;
    }

    /** Commits the whole catalog, or nothing when an entry raises or is refused. */
    method SeedCatalog(entries: seq<Entry>, digits: nat) returns (r: Result<Counts, ()>)
      requires Valid()
      modifies this
      ensures Valid()
      ensures r.Ok? <==> Commits(old(table), MapAll(entries, digits), |entries|)
      ensures table == if r.Ok? then Seeded(old(table), ValuesOf(MapAll(entries, digits)), |entries|) else old(table)
      ensures r.Ok? ==> r.value.inserted + r.value.updated == |entries|
      ensures r.Ok? ==> |table| == |old(table)| + r.value.inserted
    {
      var outcome := UpsertAll(table, entries, digits);
      if outcome.Err? {
        return Err(());
      }
      SeededLength(table, ValuesOf(MapAll(entries, digits)), |entries|);
      table := outcome.value.rows;
      return Ok(Counts(outcome.value.inserted, outcome.value.updated));
    }
  }
}
