/**
 What seeding promises: every entry ends up in a row of its own, nothing else changes, and seeding again
 changes nothing.
 */
module CatalogLaws {
  import opened Wrappers
  import opened CatalogRows
  import opened Catalog
  import opened CatalogSeed

  ghost predicate EntriesDistinct(es: seq<Values>) {
    forall j, k :: 0 <= j < k < |es| ==> KeyOf(es[j]) != KeyOf(es[k])
  }

  ghost predicate RowsDistinct(table: seq<Row>) {
    forall i, j :: 0 <= i < j < |table| ==> KeyOf(table[i].values) != KeyOf(table[j].values)
  }

  /**
   The catalog lists a model both without a variant and with one that the table does not have yet,
   while the row that the table has for the model without a variant is a starter row.
   */
  ghost predicate ClashAt(table: seq<Row>, es: seq<Values>, j: int, k: int) {
    && 0 <= j < |es| && 0 <= k < |es|
    && ModelOf(es[j]) == ModelOf(es[k]) && KeyOf(es[j]).variant == ""
    && IsNew(table, es[k]) && StarterRow(table, ModelOf(es[k])).Some?
    && RowOf(table, Key(ModelOf(es[k]), "")) == StarterRow(table, ModelOf(es[k]))
  }

  ghost predicate Clash(table: seq<Row>, es: seq<Values>) {
    exists j, k :: ClashAt(table, es, j, k)
  }

  lemma {:induction false} StarterHasKey(table: seq<Row>, m: Model)
    requires StarterRow(table, m).Some?
    ensures KeyOf(table[StarterRow(table, m).value].values) == Key(m, "")
    ensures RowOf(table, Key(m, "")).Some?
  {
  }

  /** A catalog that never mixes the two ways of listing a model cannot clash with any table. */
  lemma UnmixedCatalogNeverClashes(table: seq<Row>, es: seq<Values>)
    requires forall j, k ::
             0 <= j < |es| && 0 <= k < |es| && ModelOf(es[j]) == ModelOf(es[k]) && KeyOf(es[j]).variant == "" ==>
               KeyOf(es[k]).variant == ""
    ensures !Clash(table, es)
  {
    forall j, k | 0 <= j < |es| && 0 <= k < |es| && ModelOf(es[j]) == ModelOf(es[k]) && KeyOf(es[j]).variant == ""
      ensures !ClashAt(table, es, j, k)
    {
      assert KeyOf(es[k]) == Key(ModelOf(es[k]), "");
      if StarterRow(table, ModelOf(es[k])).Some? {
        StarterHasKey(table, ModelOf(es[k]));
      }
    }
  }

  lemma {:induction false} RowOfIsLast(table: seq<Row>, r: nat)
    requires r < |table|
    ensures var last := RowOf(table, KeyOf(table[r].values)); last.Some? && r <= last.value
  {
    if r < |table| - 1 {
      RowOfIsLast(table[..|table| - 1], r);
    }
  }

  lemma {:induction false} RowOfIsUnique(table: seq<Row>, r: nat)
    requires RowsDistinct(table) && r < |table|
    ensures RowOf(table, KeyOf(table[r].values)) == Some(r)
  {
  }

  lemma {:induction false} InsertsGrow(table: seq<Row>, es: seq<Values>, j: nat, k: nat)
    requires j < k <= |es|
    ensures InsertsBefore(table, es, j) + (if Inserts(table, es, j) then 1 else 0) <= InsertsBefore(table, es, k)
  {
    if j < k - 1 {
      InsertsGrow(table, es, j, k - 1);
    }
  }

  /** Without a clash no two entries share a row. */
  lemma {:induction false} TargetsDistinct(table: seq<Row>, es: seq<Values>, j: nat, k: nat)
    requires EntriesDistinct(es) && j < k < |es| && !Clash(table, es)
    ensures Target(table, es, j) != Target(table, es, k)
  {
    InsertsGrow(table, es, j, k);
    assert !ClashAt(table, es, j, k) && !ClashAt(table, es, k, j);
    if Adopts(table, es, k) {
      StarterHasKey(table, ModelOf(es[k]));
    }
    if Adopts(table, es, j) {
      StarterHasKey(table, ModelOf(es[j]));
    }
  }

  /** Without a clash every entry is the last to write its row. */
  lemma {:induction false} WriterOfTarget(table: seq<Row>, es: seq<Values>, k: nat)
    requires EntriesDistinct(es) && k < |es| && !Clash(table, es)
    ensures Writer(table, es, |es|, Target(table, es, k)) == Some(k)
  {
    var w := Writer(table, es, |es|, Target(table, es, k));
    if w.Some? && w.value != k {
      TargetsDistinct(table, es, if w.value < k then w.value else k, if w.value < k then k else w.value);
    }
  }

  /** The table that seeding leaves when the database refuses no write. */
  function Final(table: seq<Row>, es: seq<Values>): seq<Row> {
    Seeded(table, es, |es|)
  }

  lemma {:induction false} EntryInItsRow(table: seq<Row>, es: seq<Values>, k: nat)
    requires EntriesDistinct(es) && k < |es| && !Clash(table, es)
    ensures Target(table, es, k) < |Final(table, es)|
    ensures Final(table, es)[Target(table, es, k)].values == es[k]
  {
    TargetBound(table, es, k, |es|);
    SeededLength(table, es, |es|);
    SeededAt(table, es, |es|, Target(table, es, k));
    WriterOfTarget(table, es, k);
  }

  // ---------- the index and the table ----------

  lemma {:induction false} SameKeySameTarget(table: seq<Row>, es: seq<Values>, j: nat, k: nat)
    requires j <= k < |es| && KeyOf(es[j]) == KeyOf(es[k])
    ensures Target(table, es, j) == Target(table, es, k)
    decreases k
  {
    if j < k {
      SameKeySameTarget(table, es, j, EntryOf(es, k, KeyOf(es[k])).value);
    }
  }

  lemma {:induction false} FirstWithKey(es: seq<Values>, k: nat)
    requires k < |es|
    ensures exists j :: 0 <= j <= k && KeyOf(es[j]) == KeyOf(es[k]) && EntryOf(es, j, KeyOf(es[j])).None?
    decreases k
  {
    var earlier := EntryOf(es, k, KeyOf(es[k]));
    if earlier.Some? {
      FirstWithKey(es, earlier.value);
    }
  }

  /** An entry whose key the table has goes to the row with that key. */
  lemma {:induction false} TargetOfKnownKey(table: seq<Row>, es: seq<Values>, k: nat)
    requires k < |es| && !IsNew(table, es[k])
    ensures Target(table, es, k) == RowOf(table, KeyOf(es[k])).value
    decreases k
  {
    var earlier := EntryOf(es, k, KeyOf(es[k]));
    if earlier.Some? {
      TargetOfKnownKey(table, es, earlier.value);
    }
  }

  /** The row was written by an entry, or is the last that the table had with its key. */
  predicate Listed(table: seq<Row>, es: seq<Values>, n: nat, r: nat)
    requires n <= |es|
  {
    r < |table| && Writer(table, es, n, r).None? ==> RowOf(table, KeyOf(table[r].values)) == Some(r)
  }

  /**
   All through the loop the full-key index has the key of every row of the table, and points to that very
   row exactly if the row was written by an entry or was the last with its key to begin with.
   */
  lemma {:induction false} IndexFindsRowIff(table: seq<Row>, es: seq<Values>, n: nat, r: nat)
    requires n <= |es| && r < |Seeded(table, es, n)|
    ensures KeyOf(Seeded(table, es, n)[r].values) in KeyIndex(table, es, n)
    ensures KeyIndex(table, es, n)[KeyOf(Seeded(table, es, n)[r].values)] == r <==> Listed(table, es, n, r)
  {
    KeyIndexHolds(table, es, n);
    SeededAt(table, es, n, r);
    var key := KeyOf(Seeded(table, es, n)[r].values);
    var w, k := Writer(table, es, n, r), EntryOf(es, n, key);
    if w.Some? {
      SameKeySameTarget(table, es, w.value, k.value);
    } else if k.Some? {
      FirstWithKey(es, k.value);
      TargetOfKnownKey(table, es, k.value);
    }
  }

  /** A table that holds no key twice is always found whole. */
  lemma {:induction false} IndexFindsEveryRow(table: seq<Row>, es: seq<Values>, n: nat, r: nat)
    requires RowsDistinct(table) && n <= |es| && r < |Seeded(table, es, n)|
    ensures KeyOf(Seeded(table, es, n)[r].values) in KeyIndex(table, es, n)
    ensures KeyIndex(table, es, n)[KeyOf(Seeded(table, es, n)[r].values)] == r
  {
    if r < |table| {
      RowOfIsUnique(table, r);
    }
    IndexFindsRowIff(table, es, n, r);
  }

  /** So the table never comes to hold one key twice. */
  lemma {:induction false} RowsStayDistinct(table: seq<Row>, es: seq<Values>, n: nat)
    requires RowsDistinct(table) && n <= |es|
    ensures RowsDistinct(Seeded(table, es, n))
  {
    forall i, j | 0 <= i < j < |Seeded(table, es, n)|
      ensures KeyOf(Seeded(table, es, n)[i].values) != KeyOf(Seeded(table, es, n)[j].values)
    {
      IndexFindsEveryRow(table, es, n, i);
      IndexFindsEveryRow(table, es, n, j);
    }
  }

  // ---------- every entry has its row, exactly when nothing clashes ----------

  ghost predicate Placed(table: seq<Row>, v: Values) {
    exists r :: 0 <= r < |table| && table[r].values == v
  }

  /** The first entry of the model that the table lacks. */
  lemma FirstNew(table: seq<Row>, es: seq<Values>, k: nat) returns (a: nat)
    requires k < |es| && IsNew(table, es[k])
    ensures a <= k && IsNew(table, es[a]) && ModelOf(es[a]) == ModelOf(es[k])
    ensures forall j :: 0 <= j < a && IsNew(table, es[j]) ==> ModelOf(es[j]) != ModelOf(es[a])
    decreases k
  {
    a := k;
    if exists j :: 0 <= j < k && IsNew(table, es[j]) && ModelOf(es[j]) == ModelOf(es[k]) {
      var j :| 0 <= j < k && IsNew(table, es[j]) && ModelOf(es[j]) == ModelOf(es[k]);
      a := FirstNew(table, es, j);
    }
  }

  /** An entry that ended up in the table is the last writer of its target. */
  lemma {:induction false} PlacedAtTarget(table: seq<Row>, es: seq<Values>, k: nat)
    requires EntriesDistinct(es) && RowsDistinct(table) && k < |es| && Placed(Final(table, es), es[k])
    ensures Target(table, es, k) < |Final(table, es)| && Final(table, es)[Target(table, es, k)].values == es[k]
  {
    var r :| 0 <= r < |Final(table, es)| && Final(table, es)[r].values == es[k];
    IndexFindsEveryRow(table, es, |es|, r);
    KeyIndexHolds(table, es, |es|);
    SameKeySameTarget(table, es, k, EntryOf(es, |es|, KeyOf(es[k])).value);
  }

  /** Two clashing entries go to one row. */
  lemma ClashSharesRow(table: seq<Row>, es: seq<Values>, j: nat, k: nat) returns (a: nat)
    requires EntriesDistinct(es) && ClashAt(table, es, j, k)
    ensures a < |es| && KeyOf(es[a]) != KeyOf(es[j]) && Target(table, es, a) == Target(table, es, j)
  {
    a := FirstNew(table, es, k);
    var m := ModelOf(es[k]);
    StarterHasKey(table, m);
    assert KeyOf(es[j]) == Key(m, "");
    assert Adopts(table, es, a);
  }

  /** Entry `k` holds the row that it went to. */
  predicate InItsRow(table: seq<Row>, es: seq<Values>, k: nat)
    requires k < |es|
  {
    Target(table, es, k) < |Final(table, es)| && Final(table, es)[Target(table, es, k)].values == es[k]
  }

  /** Every entry ends up in the row it went to exactly when the catalog does not clash with the table. */
  lemma EveryEntryInItsRowIff(table: seq<Row>, es: seq<Values>)
    requires EntriesDistinct(es)
    ensures (forall k :: 0 <= k < |es| ==> InItsRow(table, es, k)) <==> !Clash(table, es)
  {
    if !Clash(table, es) {
      forall k | 0 <= k < |es| ensures InItsRow(table, es, k) {
        EntryInItsRow(table, es, k);
      }
    } else {
      var j, k :| ClashAt(table, es, j, k);
      var a := ClashSharesRow(table, es, j, k);
      assert !InItsRow(table, es, a) || !InItsRow(table, es, j);
    }
  }

  /**
   In a table that holds no key twice an entry can be in no row but its own, so that the same decides whether
   all are there.
   */
  lemma EveryEntryPlacedIff(table: seq<Row>, es: seq<Values>)
    requires EntriesDistinct(es) && RowsDistinct(table)
    ensures (forall k :: 0 <= k < |es| ==> Placed(Final(table, es), es[k])) <==> !Clash(table, es)
  {
    EveryEntryInItsRowIff(table, es);
    forall k | 0 <= k < |es| ensures Placed(Final(table, es), es[k]) <==> InItsRow(table, es, k) {
      if Placed(Final(table, es), es[k]) {
        PlacedAtTarget(table, es, k);
      }
    }
  }

  /** A row that is neither matched by key nor the starter row of a model with a new entry keeps what it held. */
  lemma OtherRowsUnchanged(table: seq<Row>, es: seq<Values>, r: nat)
    requires r < |table|
    requires forall k :: 0 <= k < |es| ==>
               KeyOf(es[k]) != KeyOf(table[r].values)
               && (table[r].values.variant.None? && IsNew(table, es[k]) ==> ModelOf(es[k]) != ModelOf(table[r].values))
    ensures r < |Final(table, es)| && Final(table, es)[r] == table[r]
  {
    SeededLength(table, es, |es|);
    SeededAt(table, es, |es|, r);
    var w := Writer(table, es, |es|, r);
    if w.Some? {
      FirstWithKey(es, w.value);
      var j :| 0 <= j <= w.value && KeyOf(es[j]) == KeyOf(es[w.value]) && EntryOf(es, j, KeyOf(es[j])).None?;
      SameKeySameTarget(table, es, j, w.value);
    }
  }

  /** Columns that seeding does not write survive in every row it does write. */
  lemma OtherColumnsUnchanged(table: seq<Row>, es: seq<Values>, r: nat)
    requires r < |table|
    ensures r < |Final(table, es)| && Final(table, es)[r].releasedAt == table[r].releasedAt
  {
    SeededLength(table, es, |es|);
    SeededAt(table, es, |es|, r);
  }

  // ---------- seeding again ----------

  /** A row of the final table that has an entry's key is the entry's row or comes before it. */
  lemma {:induction false} NoLaterRow(table: seq<Row>, es: seq<Values>, k: nat, r: nat)
    requires EntriesDistinct(es) && k < |es| && r < |Final(table, es)|
    requires KeyOf(Final(table, es)[r].values) == KeyOf(es[k])
    ensures r <= Target(table, es, k)
  {
    SeededAt(table, es, |es|, r);
    if Writer(table, es, |es|, r).None? {
      RowOfIsLast(table, r);
      TargetOfKnownKey(table, es, k);
    }
  }

  /** After a run that does not clash, every entry's key is in the table, last at the row the entry went to. */
  lemma {:induction false} NothingNewAfterwards(table: seq<Row>, es: seq<Values>, k: nat)
    requires EntriesDistinct(es) && !Clash(table, es) && k < |es|
    ensures RowOf(Final(table, es), KeyOf(es[k])) == Some(Target(table, es, k))
    ensures !IsNew(Final(table, es), es[k])
  {
    EntryInItsRow(table, es, k);
    RowOfIsLast(Final(table, es), Target(table, es, k));
    NoLaterRow(table, es, k, RowOf(Final(table, es), KeyOf(es[k])).value);
  }

  /** The first `n` entries of a second run insert nothing and change nothing. */
  predicate Settled(table: seq<Row>, es: seq<Values>, n: nat)
    requires n <= |es|
  {
    Seeded(Final(table, es), es, n) == Final(table, es) && InsertsBefore(Final(table, es), es, n) == 0
  }

  lemma SettledStep(table: seq<Row>, es: seq<Values>, n: nat)
    requires EntriesDistinct(es) && !Clash(table, es) && n < |es| && Settled(table, es, n)
    ensures Settled(table, es, n + 1)
  {
    NothingNewAfterwards(table, es, n);
    EntryInItsRow(table, es, n);
    TargetOfKnownKey(Final(table, es), es, n);
  }

  lemma {:induction false} SettledFrom(table: seq<Row>, es: seq<Values>, m: nat, n: nat)
    requires EntriesDistinct(es) && !Clash(table, es) && m <= n <= |es| && Settled(table, es, m)
    ensures Settled(table, es, n)
    decreases n - m
  {
    if m != n {
      SettledStep(table, es, m);
      SettledFrom(table, es, m + 1, n);
    }
  }

  /** A second run inserts nothing and leaves the table as it is. */
  lemma {:induction false} SeedingIsIdempotent(table: seq<Row>, es: seq<Values>)
    requires EntriesDistinct(es) && !Clash(table, es)
    ensures Final(Final(table, es), es) == Final(table, es)
    ensures InsertsBefore(Final(table, es), es, |es|) == 0
  {
    SettledFrom(table, es, 0, |es|);
  }

  // ---------- a clash ----------

  function Spec(variant: Option<string>, power: int): Values {
    Values("Bitmain", "S19", variant, "SHA-256", "BTC", "TH/s", 95.0, power, None, "factory", true, None, None, None,
      map[])
  }

  /**
   A starter row, and a catalog that lists its model first without a variant and then with one: the
   second entry takes the row away from the first, and a second run inserts what went missing.
   */
  lemma ClashLosesAnEntry()
    ensures var table := [Row(Spec(None, 3250), None)];
            var es := [Spec(None, 3300), Spec(Some("95 TH"), 3250)];
            && EntriesDistinct(es) && RowsDistinct(table)
            && Final(table, es) == [Row(Spec(Some("95 TH"), 3250), None)]
            && |Final(Final(table, es), es)| == 2
  {
    var table := [Row(Spec(None, 3250), None)];
    var es := [Spec(None, 3300), Spec(Some("95 TH"), 3250)];
    var m := ("Bitmain", "S19");
    assert KeyOf(es[0]) == Key(m, "") && KeyOf(es[1]) == Key(m, "95 TH");
    assert "95 TH" != "";
    assert RowOf(table, Key(m, "")) == Some(0) && StarterRow(table, m) == Some(0);
    assert RowOf(table[..0], Key(m, "95 TH")).None?;
    assert IsNew(table, es[1]);
    assert Target(table, es, 0) == 0;
    assert Adopts(table, es, 1) && Target(table, es, 1) == 0;
    assert Seeded(table, es, 1) == [Row(es[0], None)];
    assert Seeded(table, es, 2) == [Row(es[1], None)];
    var again := Final(table, es);
    assert again == [Row(es[1], None)];
    assert RowOf(again, Key(m, "95 TH")) == Some(0);
    assert RowOf(again[..0], Key(m, "")).None? && IsNew(again, es[0]);
    assert StarterRow(again[..0], m).None? && StarterRow(again, m).None?;
    assert Target(again, es, 0) == 1;
    assert |Seeded(again, es, 1)| == 2;
    SeededLength(again, es, 2);
    SeededLength(again, es, 1);
    assert !Inserts(again, es, 1);
  }
}
