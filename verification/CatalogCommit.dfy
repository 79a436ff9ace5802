/** When exactly an import commits, and what holds after one that did. */
module CatalogCommit {
  import opened Wrappers
  import opened CatalogRows
  import opened Catalog
  import opened CatalogSeed
  import opened CatalogLaws

  /** Row `r` has the empty variant of the entry's model, and a later row has the model with no variant at all. */
  predicate DoubledAt(table: seq<Row>, v: Values, r: nat) {
    && r < |table| && v.variant == Some("")
    && table[r].values.variant == Some("") && ModelOf(table[r].values) == ModelOf(v)
    && RowOf(table, KeyOf(v)) != Some(r)
  }

  /** The catalog lists such an empty variant. */
  ghost predicate Doubled(table: seq<Row>, es: seq<Values>) {
    exists k, r: nat :: 0 <= k < |es| && DoubledAt(table, es[k], r)
  }

  // ---------- a write that the unique constraint refuses ----------

  /** A row that has a variant and is not the last with its key is never written. */
  lemma {:induction false} NeverTarget(table: seq<Row>, es: seq<Values>, r: nat, k: nat)
    requires r < |table| && table[r].values.variant.Some? && RowOf(table, KeyOf(table[r].values)) != Some(r)
    requires k < |es|
    ensures Target(table, es, k) != r
    decreases k
  {
    var earlier := EntryOf(es, k, KeyOf(es[k]));
    if earlier.Some? {
      NeverTarget(table, es, r, earlier.value);
    }
  }

  lemma {:induction false} NeverWritten(table: seq<Row>, es: seq<Values>, r: nat, n: nat)
    requires r < |table| && table[r].values.variant.Some? && RowOf(table, KeyOf(table[r].values)) != Some(r)
    requires n <= |es|
    ensures r < |Seeded(table, es, n)| && Seeded(table, es, n)[r] == table[r]
  {
    SeededLength(table, es, n);
    SeededAt(table, es, n, r);
    var w := Writer(table, es, n, r);
    if w.Some? {
      NeverTarget(table, es, r, w.value);
    }
  }

  lemma {:induction false} WrittenRow(table: seq<Row>, es: seq<Values>, k: nat)
    requires k < |es|
    ensures Target(table, es, k) < |Seeded(table, es, k + 1)|
    ensures Seeded(table, es, k + 1)[Target(table, es, k)].values == es[k]
  {
    SeededLength(table, es, k);
    TargetWhere(table, es, k);
  }

  /** Such an entry is written to the later row and then repeats the earlier one. */
  lemma {:induction false} DoubledRepeats(table: seq<Row>, es: seq<Values>, k: nat, r: nat)
    requires k < |es| && DoubledAt(table, es[k], r)
    ensures !Unique(Seeded(table, es, k + 1))
  {
    var now, t := Seeded(table, es, k + 1), Target(table, es, k);
    assert KeyOf(table[r].values) == KeyOf(es[k]);
    NeverWritten(table, es, r, k + 1);
    NeverTarget(table, es, r, k);
    WrittenRow(table, es, k);
    assert Duplicates(now[r].values, now[t].values) && Duplicates(now[t].values, now[r].values);
  }

  /** A row with the entry's key that is not the row the entry goes to was never the last with its key. */
  lemma {:induction false} PassedOver(table: seq<Row>, es: seq<Values>, n: nat, j: nat)
    requires n < |es| && j < |Seeded(table, es, n)| && j != Target(table, es, n)
    requires KeyOf(Seeded(table, es, n)[j].values) == KeyOf(es[n])
    ensures !Listed(table, es, n, j)
  {
    IndexFindsRowIff(table, es, n, j);
    ChosenTarget(table, es, n);
  }

  lemma {:induction false} UnlistedRowStays(table: seq<Row>, es: seq<Values>, n: nat, j: nat)
    requires n <= |es| && j < |Seeded(table, es, n)| && !Listed(table, es, n, j)
    ensures Seeded(table, es, n)[j] == table[j]
  {
    SeededAt(table, es, n, j);
  }

  /**
   In a table that keeps the constraint, a row that repeats a variant and is not the last with its key has the
   empty one.
   */
  lemma {:induction false} RepeatedIsDoubled(table: seq<Row>, v: Values, j: nat)
    requires Unique(table) && j < |table| && Duplicates(table[j].values, v)
    requires RowOf(table, KeyOf(table[j].values)) != Some(j)
    ensures DoubledAt(table, v, j)
  {
    RowOfIsLast(table, j);
    var last := RowOf(table, KeyOf(table[j].values)).value;
    assert !Duplicates(table[j].values, table[last].values);
  }

  /** Another row like the entry that is about to be written is there only where the table is doubled. */
  lemma {:induction false} OnlyDoubledRepeats(table: seq<Row>, es: seq<Values>, n: nat, j: nat)
    requires Unique(table) && n < |es| && j < |Seeded(table, es, n)| && j != Target(table, es, n)
    requires Duplicates(Seeded(table, es, n)[j].values, es[n])
    ensures DoubledAt(table, es[n], j)
  {
    PassedOver(table, es, n, j);
    UnlistedRowStays(table, es, n, j);
    RepeatedIsDoubled(table, es[n], j);
  }

  lemma WriteChangesOneRow(table: seq<Row>, es: seq<Values>, n: nat, i: nat)
    requires n < |es| && i < |Seeded(table, es, n + 1)| && i != Target(table, es, n)
    ensures i < |Seeded(table, es, n)| && Seeded(table, es, n + 1)[i] == Seeded(table, es, n)[i]
  {
    SeededLength(table, es, n);
    TargetWhere(table, es, n);
  }

  ghost predicate UniqueAfter(table: seq<Row>, es: seq<Values>, n: nat)
    requires n <= |es|
  {
    Unique(Seeded(table, es, n))
  }

  lemma UniqueStep(table: seq<Row>, es: seq<Values>, n: nat)
    requires Unique(table) && n < |es| && UniqueAfter(table, es, n) && !Doubled(table, es)
    ensures UniqueAfter(table, es, n + 1)
  {
    var before, now, t := Seeded(table, es, n), Seeded(table, es, n + 1), Target(table, es, n);
    WrittenRow(table, es, n);
    forall i, j | 0 <= i < j < |now| ensures !Duplicates(now[i].values, now[j].values) {
      if i != t && j != t {
        WriteChangesOneRow(table, es, n, i);
        WriteChangesOneRow(table, es, n, j);
        assert !Duplicates(before[i].values, before[j].values);
      } else {
        var other := if i == t then j else i;
        WriteChangesOneRow(table, es, n, other);
        if Duplicates(before[other].values, es[n]) {
          OnlyDoubledRepeats(table, es, n, other);
        }
      }
    }
  }

  lemma {:induction false} UniqueFrom(table: seq<Row>, es: seq<Values>, m: nat, n: nat)
    requires Unique(table) && m <= n <= |es| && !Doubled(table, es) && UniqueAfter(table, es, m)
    ensures UniqueAfter(table, es, n)
    decreases n - m
  {
    if m != n {
      UniqueStep(table, es, m);
      UniqueFrom(table, es, m + 1, n);
    }
  }

  /** The unique constraint survives every write exactly when the table is not doubled where the catalog writes. */
  lemma UniqueThroughoutIff(table: seq<Row>, es: seq<Values>)
    requires Unique(table)
    ensures (forall n :: 0 <= n <= |es| ==> UniqueAfter(table, es, n)) <==> !Doubled(table, es)
  {
    if Doubled(table, es) {
      var k, r: nat :| 0 <= k < |es| && DoubledAt(table, es[k], r);
      DoubledRepeats(table, es, k, r);
      assert !UniqueAfter(table, es, k + 1);
    } else {
      forall n | 0 <= n <= |es| ensures UniqueAfter(table, es, n) {
        UniqueFrom(table, es, 0, n);
      }
    }
  }

  /** A table that holds no key twice is never doubled. */
  lemma DistinctRowsNeverDoubled(table: seq<Row>, es: seq<Values>)
    requires RowsDistinct(table)
    ensures Unique(table) && !Doubled(table, es)
  {
    forall i, j | 0 <= i < j < |table| ensures !Duplicates(table[i].values, table[j].values) {
      assert KeyOf(table[i].values) != KeyOf(table[j].values);
    }
    forall k, r: nat | 0 <= k < |es| ensures !DoubledAt(table, es[k], r) {
      if r < |table| {
        RowOfIsUnique(table, r);
      }
    }
  }

  // ---------- the commit ----------

  lemma {:induction false} CommittedIsNotDoubled(table: seq<Row>, rs: seq<Result<Values, ()>>)
    requires Commits(table, rs, |rs|)
    ensures !Doubled(table, ValuesOf(rs))
  {
    var es := ValuesOf(rs);
    forall k, r: nat | 0 <= k < |es| ensures !DoubledAt(table, es[k], r) {
      if DoubledAt(table, es[k], r) {
        DoubledRepeats(table, es, k, r);
        CommittedGoes(table, rs, |rs|, k);
      }
    }
  }

  /** The import commits exactly when every entry is storable and the table is not doubled where the catalog writes. */
  lemma {:induction false} CommitsIff(table: seq<Row>, rs: seq<Result<Values, ()>>)
    requires Unique(table)
    ensures Commits(table, rs, |rs|) <==> (forall k :: 0 <= k < |rs| ==> rs[k].Ok?) && !Doubled(table, ValuesOf(rs))
  {
    var es := ValuesOf(rs);
    if Commits(table, rs, |rs|) {
      forall k | 0 <= k < |rs| ensures rs[k].Ok? {
        CommittedGoes(table, rs, |rs|, k);
      }
      CommittedIsNotDoubled(table, rs);
    }
    if (forall k :: 0 <= k < |rs| ==> rs[k].Ok?) && !Doubled(table, es) {
      forall k | 0 <= k < |rs| ensures Goes(table, rs, k) {
        UniqueFrom(table, es, 0, k + 1);
      }
      AllGoCommits(table, rs, |rs|);
    }
  }

  /**
   After an import that committed, every entry holds the row it went to exactly when the catalog does not clash
   with the table.
   */
  lemma {:induction false} CommittedEntriesPlacedIff(table: seq<Row>, rs: seq<Result<Values, ()>>)
    requires Unique(table) && Commits(table, rs, |rs|) && EntriesDistinct(ValuesOf(rs))
    ensures (forall k :: 0 <= k < |rs| ==> InItsRow(table, ValuesOf(rs), k)) <==> !Clash(table, ValuesOf(rs))
  {
    EveryEntryInItsRowIff(table, ValuesOf(rs));
  }

  /** `rs` is what the entries map to, and the import of them commits. */
  predicate ImportCommits(table: seq<Row>, entries: seq<Entry>, digits: nat, rs: seq<Result<Values, ()>>) {
    rs == MapAll(entries, digits) && Commits(table, rs, |rs|)
  }

  lemma {:induction false} CommittedValues(
    table: seq<Row>, entries: seq<Entry>, digits: nat, rs: seq<Result<Values, ()>>, k: nat)
    requires ImportCommits(table, entries, digits, rs) && k < |rs|
    ensures HoldsFields(ValuesOf(rs)[k], entries[k])
  {
    CommittedGoes(table, rs, |rs|, k);
    MapAllAt(entries, digits, k);
    ColumnsHoldFields(entries[k], digits);
  }

  /** Every row that an import writes holds, in each column, the field of the last entry that went there. */
  lemma {:induction false} WrittenRowsHoldFields(
    table: seq<Row>, entries: seq<Entry>, digits: nat, rs: seq<Result<Values, ()>>, r: nat)
    requires ImportCommits(table, entries, digits, rs)
    requires r < |Final(table, ValuesOf(rs))| && Writer(table, ValuesOf(rs), |rs|, r).Some?
    ensures HoldsFields(Final(table, ValuesOf(rs))[r].values, entries[Writer(table, ValuesOf(rs), |rs|, r).value])
  {
    SeededAt(table, ValuesOf(rs), |rs|, r);
    CommittedValues(table, entries, digits, rs, Writer(table, ValuesOf(rs), |rs|, r).value);
  }

  /** Without a clash the row that each entry went to holds the entry's own fields. */
  lemma {:induction false} CommittedEntriesHoldFields(
    table: seq<Row>, entries: seq<Entry>, digits: nat, rs: seq<Result<Values, ()>>, k: nat)
    requires ImportCommits(table, entries, digits, rs) && k < |rs|
    requires EntriesDistinct(ValuesOf(rs)) && !Clash(table, ValuesOf(rs))
    ensures Target(table, ValuesOf(rs), k) < |Final(table, ValuesOf(rs))|
    ensures HoldsFields(Final(table, ValuesOf(rs))[Target(table, ValuesOf(rs), k)].values, entries[k])
  {
    EntryInItsRow(table, ValuesOf(rs), k);
    CommittedValues(table, entries, digits, rs, k);
  }

  /** Entries are told apart exactly by brand, model and variant, where a missing variant is an empty one. */
  lemma SameKeyIff(v: Values, w: Values)
    ensures KeyOf(v) == KeyOf(w) <==>
            && v.brand == w.brand && v.modelName == w.modelName
            && (v.variant == w.variant || (v.variant in {None, Some("")} && w.variant in {None, Some("")}))
  {
  }

  /**
   After an import that committed without a clash, the same import commits again, inserts nothing and changes
   nothing.
   */
  lemma {:induction false} SecondImportChangesNothing(table: seq<Row>, rs: seq<Result<Values, ()>>)
    requires Unique(table) && Commits(table, rs, |rs|)
    requires EntriesDistinct(ValuesOf(rs)) && !Clash(table, ValuesOf(rs))
    ensures var after := Final(table, ValuesOf(rs));
            && Unique(after) && Commits(after, rs, |rs|)
            && Final(after, ValuesOf(rs)) == after && InsertsBefore(after, ValuesOf(rs), |rs|) == 0
  {
    var es := ValuesOf(rs);
    var after := Final(table, es);
    CommitsIff(table, rs);
    UniqueFrom(table, es, 0, |es|);
    SeedingIsIdempotent(table, es);
    forall k | 0 <= k < |rs| ensures Goes(after, rs, k) {
      SettledFrom(table, es, 0, k + 1);
    }
    AllGoCommits(after, rs, |rs|);
  }

  /**
   A row with the empty variant before a starter row, and an entry with the empty variant: nothing clashes, and
   the write is refused.
   */
  lemma DoubledTableRefuses()
    ensures var table := [Row(Spec(Some(""), 3250), None), Row(Spec(None, 3250), None)];
            var es := [Spec(Some(""), 3300)];
            && Unique(table) && EntriesDistinct(es) && !Clash(table, es)
            && !Commits(table, [Ok(es[0])], 1)
  {
    var table := [Row(Spec(Some(""), 3250), None), Row(Spec(None, 3250), None)];
    var es := [Spec(Some(""), 3300)];
    assert RowOf(table, KeyOf(es[0])) == Some(1);
    assert DoubledAt(table, es[0], 0);
    DoubledRepeats(table, es, 0, 0);
    assert ValuesOf([Ok(es[0])]) == es;
    assert !Goes(table, [Ok(es[0])], 0);
    UnmixedCatalogNeverClashes(table, es);
  }
}
