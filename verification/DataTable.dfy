/** The shared table: filters under the columns, the options of the selects, and the order of the rows. */
module DataTable {
  import opened Wrappers
  import opened Sequences
  import Text

  /** A cell is `None` where the row has no value. */
  datatype Row = Row(cells: map<string, Option<string>>)

  datatype Kind = Select | Search | Number

  datatype Column = Column(k: string, kind: Kind)

  const DASH := "\U{2014}"

  function Cell(r: Row, c: Column): Option<string> {
    if c.k in r.cells then r.cells[c.k] else None
  }

  /** What a cell reads in a list of options; every missing value reads the same. */
  function Shown(r: Row, c: Column): string {
    if Cell(r, c).Some? then Cell(r, c).value else DASH
  }

  /** Whether `r` passes the filter of column `c`; `typed` decides for filters that are typed in. */
  predicate Matches(r: Row, c: Column, filter: string, typed: (Column, string, Row) -> bool) {
    if filter == "" then true
    else if c.kind.Select? then Shown(r, c) == filter
    else typed(c, filter, r)
  }

  function FilterOf(flt: map<string, string>, k: string): string {
    if k in flt then flt[k] else ""
  }

  /** A row that passes every column's filter; a column with the key `skip` is not asked. */
  predicate Passes(r: Row, cols: seq<Column>, flt: map<string, string>, skip: Option<string>,
                   typed: (Column, string, Row) -> bool)
  {
    forall c :: c in cols && Some(c.k) != skip ==> Matches(r, c, FilterOf(flt, c.k), typed)
  }

  function Passing(cols: seq<Column>, flt: map<string, string>, skip: Option<string>,
                   typed: (Column, string, Row) -> bool): Row -> bool
  {
    r => Passes(r, cols, flt, skip, typed)
  }

  function Reads(c: Column, v: string): Row -> bool {
    r => Shown(r, c) == v
  }

  function Apply(rows: seq<Row>, cols: seq<Column>, flt: map<string, string>, skip: Option<string>,
                 typed: (Column, string, Row) -> bool): seq<Row>
  {
    Filter(rows, Passing(cols, flt, skip, typed))
  }

  /** The rows of `rows` that read `v` in column `c`. */
  function Reading(rows: seq<Row>, c: Column, v: string): seq<Row> {
    Filter(rows, Reads(c, v))
  }

  /** An option for every value that some row reads, with the number of such rows. */
  ghost predicate Options(o: map<string, nat>, rows: seq<Row>, c: Column) {
    && (forall v :: v in o <==> Reading(rows, c, v) != [])
    && (forall v :: v in o ==> o[v] == |Reading(rows, c, v)|)
  }

  ghost predicate OwnKey(cols: seq<Column>, c: Column) {
    c in cols && forall c' :: c' in cols && c'.k == c.k ==> c' == c
  }

  // ---------- choosing an option ----------

  lemma PassesSplits(r: Row, cols: seq<Column>, flt: map<string, string>, c: Column, v: string,
                     typed: (Column, string, Row) -> bool)
    requires OwnKey(cols, c) && c.kind.Select?
    ensures Passes(r, cols, flt[c.k := v], None, typed) <==>
            Passes(r, cols, flt, Some(c.k), typed) && (v == "" || Shown(r, c) == v)
  {
    var now := flt[c.k := v];
    assert forall c' :: c' in cols && c'.k != c.k ==> FilterOf(now, c'.k) == FilterOf(flt, c'.k);
    assert FilterOf(now, c.k) == v;
    assert Passes(r, cols, now, None, typed) ==> Matches(r, c, v, typed);
  }

  /** The list after `v` is chosen in column `c`: what the count was taken over, read at `v`. */
  lemma ChoosingNarrows(rows: seq<Row>, cols: seq<Column>, flt: map<string, string>, c: Column, v: string,
                        typed: (Column, string, Row) -> bool)
    requires OwnKey(cols, c) && c.kind.Select?
    ensures var others := Apply(rows, cols, flt, Some(c.k), typed);
            Apply(rows, cols, flt[c.k := v], None, typed) == if v == "" then others else Reading(others, c, v)
  {
    var passes := Passing(cols, flt, Some(c.k), typed);
    var after := Passing(cols, flt[c.k := v], None, typed);
    forall r: Row ensures after(r) == (passes(r) && (v == "" || Reads(c, v)(r))) {
      PassesSplits(r, cols, flt, c, v, typed);
    }
    if v == "" {
      FilterSame(rows, after, passes);
    } else {
      FilterSame(rows, after, Both(passes, Reads(c, v)));
      FilterTwice(rows, passes, Reads(c, v));
    }
  }

  lemma PassesSplitsTyped(r: Row, cols: seq<Column>, flt: map<string, string>, c: Column, v: string,
                          typed: (Column, string, Row) -> bool)
    requires OwnKey(cols, c) && !c.kind.Select?
    ensures Passes(r, cols, flt[c.k := v], None, typed) <==>
            Passes(r, cols, flt, Some(c.k), typed) && (v == "" || typed(c, v, r))
  {
    var now := flt[c.k := v];
    assert forall c' :: c' in cols && c'.k != c.k ==> FilterOf(now, c'.k) == FilterOf(flt, c'.k);
    assert FilterOf(now, c.k) == v;
    assert Passes(r, cols, now, None, typed) ==> Matches(r, c, v, typed);
  }

  /** The list after `v` is typed in above column `c`: what passes the other filters and matches what was typed. */
  lemma TypingNarrows(rows: seq<Row>, cols: seq<Column>, flt: map<string, string>, c: Column, v: string,
                      typed: (Column, string, Row) -> bool)
    requires OwnKey(cols, c) && !c.kind.Select?
    ensures var others := Apply(rows, cols, flt, Some(c.k), typed);
            Apply(rows, cols, flt[c.k := v], None, typed) == if v == "" then others
              else Filter(others, r => typed(c, v, r))
  {
    var passes := Passing(cols, flt, Some(c.k), typed);
    var after := Passing(cols, flt[c.k := v], None, typed);
    var matching := (r: Row) => typed(c, v, r);
    forall r: Row ensures after(r) == (passes(r) && (v == "" || matching(r))) {
      PassesSplitsTyped(r, cols, flt, c, v, typed);
    }
    if v == "" {
      FilterSame(rows, after, passes);
    } else {
      FilterSame(rows, after, Both(passes, matching));
      FilterTwice(rows, passes, matching);
    }
  }

  /** Without filters every row is listed, in its order. */
  lemma NoFilterListsAll(rows: seq<Row>, cols: seq<Column>, typed: (Column, string, Row) -> bool)
    ensures Apply(rows, cols, map[], None, typed) == rows
  {
    FilterAll(rows, Passing(cols, map[], None, typed));
  }

  /** A row without a value is found under the dash, and a row with one under its own text. */
  lemma RowReads(r: Row, c: Column)
    ensures c.k !in r.cells || r.cells[c.k] == None ==> Reads(c, "\U{2014}")(r)
    ensures c.k in r.cells && r.cells[c.k].Some? ==> forall v :: Reads(c, v)(r) <==> r.cells[c.k].value == v
  {
  }

  /** The count beside an option is the length of the list after the option is chosen. */
  lemma CountIsLengthAfterChoosing(rows: seq<Row>, cols: seq<Column>, flt: map<string, string>, c: Column, v: string,
                                   typed: (Column, string, Row) -> bool, o: map<string, nat>)
    requires OwnKey(cols, c) && c.kind.Select? && v != ""
    requires Options(o, Apply(rows, cols, flt, Some(c.k), typed), c)
    ensures |Apply(rows, cols, flt[c.k := v], None, typed)| == if v in o then o[v] else 0
  {
    ChoosingNarrows(rows, cols, flt, c, v, typed);
  }

  lemma OnlyOption(rows: seq<Row>, c: Column, v: string, o: map<string, nat>)
    requires Options(o, rows, c) && v in o
    ensures o.Keys == {v} <==> forall r :: r in rows ==> Shown(r, c) == v
  {
    forall r | r in rows ensures Shown(r, c) in o {
      FilterMembers(rows, Reads(c, Shown(r, c)));
      assert r in Reading(rows, c, Shown(r, c));
    }
    forall w | w in o ensures exists r :: r in rows && Shown(r, c) == w {
      FilterMembers(rows, Reads(c, w));
      assert Reading(rows, c, w)[0] in Reading(rows, c, w);
    }
    if forall r :: r in rows ==> Shown(r, c) == v {
      assert forall w :: w in o.Keys ==> w == v;
    }
  }

  /**
   What the select really stores is its option trimmed.  The list is the rows counted beside the
   option exactly when trimming keeps a non-empty option as it is, or empties the only option there is.
   */
  lemma TrimmedChoiceIff(rows: seq<Row>, cols: seq<Column>, flt: map<string, string>, c: Column, v: string,
                         typed: (Column, string, Row) -> bool, o: map<string, nat>)
    requires OwnKey(cols, c) && c.kind.Select? && v in o
    requires Options(o, Apply(rows, cols, flt, Some(c.k), typed), c)
    ensures Apply(rows, cols, flt[c.k := Text.Trimmed(v)], None, typed)
            == Reading(Apply(rows, cols, flt, Some(c.k), typed), c, v)
            <==> if Text.Trimmed(v) == "" then o.Keys == {v} else Text.Trimmed(v) == v
  {
    var others := Apply(rows, cols, flt, Some(c.k), typed);
    ChoosingNarrows(rows, cols, flt, c, Text.Trimmed(v), typed);
    if Text.Trimmed(v) == "" {
      FilterAll(others, Reads(c, v));
      OnlyOption(others, c, v, o);
    } else if Text.Trimmed(v) != v {
      FilterMembers(others, Reads(c, v));
      FilterMembers(others, Reads(c, Text.Trimmed(v)));
      var r := Reading(others, c, v)[0];
      assert r in Reading(others, c, v) && r !in Reading(others, c, Text.Trimmed(v));
    }
  }

  /** One row that reads " a": its option counts one row, and choosing it lists none. */
  lemma PaddedOptionListsNothing(typed: (Column, string, Row) -> bool)
    ensures var c := Column("k", Select);
            var rows := [Row(map["k" := Some(" a")])];
            && |Reading(Apply(rows, [c], map[], Some(c.k), typed), c, " a")| == 1
            && Apply(rows, [c], map[][c.k := Text.Trimmed(" a")], None, typed) == []
  {
    var c := Column("k", Select);
    var r := Row(map["k" := Some(" a")]);
    assert Shown(r, c) == " a" && Passes(r, [c], map[], Some(c.k), typed);
    FilterAll([r], Passing([c], map[], Some(c.k), typed));
    FilterAll([r], Reads(c, " a"));
    var s := " a";
    assert s[1..] == "a" && "a"[0] == 'a' && Text.Trimmed(s) == "a";
    assert "a" != s;
    assert !Matches(r, c, "a", typed) && !Passes(r, [c], map[][c.k := "a"], None, typed);
  }

  function SumCounts(values: seq<string>, rows: seq<Row>, c: Column): nat {
    if |values| == 0 then 0
    else SumCounts(values[..|values| - 1], rows, c) + |Reading(rows, c, values[|values| - 1])|
  }

  lemma {:induction false} SumCountsStep(values: seq<string>, rows: seq<Row>, c: Column)
    requires |rows| > 0 && Distinct(values)
    ensures SumCounts(values, rows, c) ==
            SumCounts(values, rows[..|rows| - 1], c) + if Shown(rows[|rows| - 1], c) in values then 1 else 0
  {
    if |values| > 0 {
      var init := values[..|values| - 1];
      assert values == init + [values[|values| - 1]];
      SumCountsStep(init, rows, c);
    }
  }

  lemma {:induction false} SumCountsNothing(values: seq<string>, c: Column)
    ensures SumCounts(values, [], c) == 0
  {
    if |values| > 0 {
      SumCountsNothing(values[..|values| - 1], c);
    }
  }

  /** The counts of all the options together are the rows that pass every other filter. */
  lemma {:induction false} CountsAddUp(values: seq<string>, rows: seq<Row>, c: Column)
    requires Distinct(values)
    requires forall r :: r in rows ==> Shown(r, c) in values
    ensures SumCounts(values, rows, c) == |rows|
  {
    if |rows| == 0 {
      SumCountsNothing(values, c);
    } else {
      var init, last := rows[..|rows| - 1], rows[|rows| - 1];
      assert last in rows && forall r :: r in init ==> r in rows;
      SumCountsStep(values, rows, c);
      CountsAddUp(values, init, c);
    }
  }

  function SumOptions(values: seq<string>, o: map<string, nat>): nat
    requires forall v :: v in values ==> v in o
  {
    if |values| == 0 then 0
    else
      assert forall v :: v in values[..|values| - 1] ==> v in values;
      SumOptions(values[..|values| - 1], o) + o[values[|values| - 1]]
  }

  lemma {:induction false} SumOptionsIsSumCounts(values: seq<string>, o: map<string, nat>, rows: seq<Row>, c: Column)
    requires Options(o, rows, c) && forall v :: v in values ==> v in o
    ensures SumOptions(values, o) == SumCounts(values, rows, c)
  {
    if |values| > 0 {
      assert forall v :: v in values[..|values| - 1] ==> v in values;
      SumOptionsIsSumCounts(values[..|values| - 1], o, rows, c);
    }
  }

  /** The numbers shown in a select, added up, are the rows that pass every other filter. */
  lemma {:induction false} OptionsAddUp(values: seq<string>, rows: seq<Row>, cols: seq<Column>,
                                        flt: map<string, string>, c: Column, typed: (Column, string, Row) -> bool,
                                        o: map<string, nat>)
    requires Options(o, Apply(rows, cols, flt, Some(c.k), typed), c)
    requires forall v :: v in values <==> v in o
    requires Distinct(values)
    ensures SumOptions(values, o) == |Apply(rows, cols, flt, Some(c.k), typed)|
  {
    var others := Apply(rows, cols, flt, Some(c.k), typed);
    forall r | r in others ensures Shown(r, c) in values {
      FilterMembers(others, Reads(c, Shown(r, c)));
      assert r in Reading(others, c, Shown(r, c));
    }
    SumOptionsIsSumCounts(values, o, others, c);
    CountsAddUp(values, others, c);
  }

  /** The options of a select column, counted over the rows that pass every other filter. */
  method SelectOptions(rows: seq<Row>, cols: seq<Column>, flt: map<string, string>, c: Column,
                       typed: (Column, string, Row) -> bool)
    returns (o: map<string, nat>)
    ensures Options(o, Apply(rows, cols, flt, Some(c.k), typed), c)
  {
    o := map[];
    var counted := Apply(rows, cols, flt, Some(c.k), typed);
    var i := 0;
    while i < |counted|
      invariant 0 <= i <= |counted| && Options(o, counted[..i], c)
    {
      var v := Shown(counted[i], c);
      forall w ensures |Reading(counted[..i + 1], c, w)| == |Reading(counted[..i], c, w)| + if v == w then 1 else 0 {
        FilterStep(counted, i, Reads(c, w));
      }
      o := o[v := (if v in o then o[v] else 0) + 1];
      i := i + 1;
    }
    assert counted[..i] == counted;
  }
}
