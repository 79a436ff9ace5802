/** The list of saved calculations: what is kept in view, how it is cut into pages, how its items are numbered. */
module History {
  import opened Wrappers
  import opened Sequences
  import opened Sorting

  /** A saved calculation; `at` is in microseconds since the epoch. */
  datatype Run = Run(id: int, user: int, at: int)

  type PageSize = n: int | n > 0 witness 1

  /** What the server and the bot both use. */
  const PAGE_SIZE: PageSize := 5

  datatype Page =
    Page(items: seq<Run>, total: nat, page: nat, pageSize: PageSize, isPro: bool, truncated: bool, retentionDays: int)

  const DAY: int := 86_400_000_000

  // ---------- the server ----------

  predicate Newer(a: Run, b: Run) {
    a.at > b.at || (a.at == b.at && a.id > b.id)
  }

  /** The order of the query: by time and then by number, both descending. */
  function NewestFirst(rows: seq<Run>): seq<Run> {
    Sort(rows, Newer)
  }

  /** The earliest time a run may have to be shown; none when retention is not limited. */
  function Cutoff(retentionDays: int, now: int): Option<int> {
    if retentionDays <= 0 then None else Some(now - retentionDays * DAY)
  }

  function Shown(user: int, cutoff: Option<int>): Run -> bool {
    (r: Run) => r.user == user && (cutoff.Some? ==> r.at >= cutoff.value)
  }

  function CountHistory(rows: seq<Run>, user: int, cutoff: Option<int>): nat {
    |Filter(rows, Shown(user, cutoff))|
  }

  function Visible(rows: seq<Run>, user: int, cutoff: Option<int>): seq<Run> {
    NewestFirst(Filter(rows, Shown(user, cutoff)))
  }

  function Max(a: int, b: int): int {
    if a > b then a else b
  }

  function Min(a: int, b: int): int {
    if a < b then a else b
  }

  /** At most `limit` runs after the first `offset`. */
  function ListHistory(rows: seq<Run>, user: int, cutoff: Option<int>, offset: int, limit: int): seq<Run> {
    var visible := Visible(rows, user, cutoff);
    var from := Min(Max(offset, 0), |visible|);
    visible[from..Min(from + Max(limit, 1), |visible|)]
  }

  function GetRun(rows: seq<Run>, user: int, id: int, cutoff: Option<int>): Option<Run> {
    if |rows| == 0 then None
    else if rows[0].id == id && Shown(user, cutoff)(rows[0]) then Some(rows[0])
    else GetRun(rows[1..], user, id, cutoff)
  }

  function RetentionDays(isPro: bool, freeDays: int): int {
    if isPro then 0 else freeDays
  }

  function CalcHistory(rows: seq<Run>, user: int, isPro: bool, freeDays: int, now: int, page: int,
                       size: PageSize := PAGE_SIZE): Page
  {
    var days := RetentionDays(isPro, freeDays);
    var cutoff := Cutoff(days, now);
    var total := CountHistory(rows, user, cutoff);
    var lastPage := if total > 0 then Max((total - 1) / size, 0) else 0;
    var p := Min(Max(page, 0), lastPage);
    Page(ListHistory(rows, user, cutoff, p * size, size), total, p, size, isPro,
         cutoff.Some? && CountHistory(rows, user, None) > total, days)
  }

  // ---------- the bot ----------

  function PageCount(total: int, pageSize: int := PAGE_SIZE): int {
    if total <= 0 then 1
    else
      var size := Max(pageSize, 1);
      (total + size - 1) / size
  }

  function ClampPage(page: int, total: int, pageSize: int := PAGE_SIZE): int {
    var last := PageCount(total, pageSize) - 1;
    if page < 0 then 0 else if page > last then last else page
  }

  function PageOffset(page: int, pageSize: int := PAGE_SIZE): int {
    Max(page, 0) * Max(pageSize, 1)
  }

  /** The lines of the screen: every item with its number. */
  method ListScreen(p: Page, pageSize: int := PAGE_SIZE) returns (lines: seq<(int, Run)>)
    ensures |lines| == |p.items|
    ensures forall j :: 0 <= j < |lines| ==>
              lines[j] == (PageOffset(ClampPage(p.page, p.total, pageSize), pageSize) + j + 1, p.items[j])
  {
    lines := [];
    var page := ClampPage(p.page, p.total, pageSize);
    var start := PageOffset(page, pageSize);
    for i := 0 to |p.items|
      invariant |lines| == i
      invariant forall j :: 0 <= j < i ==> lines[j] == (start + j + 1, p.items[j])
    {
      lines := lines + [(start + i + 1, p.items[i])];
    }
  }

  // ---------- the order ----------

  ghost predicate Descending(s: seq<Run>) {
    Pairwise(s, Newer)
  }

  ghost predicate DistinctIds(rows: seq<Run>) {
    forall i, j :: 0 <= i < j < |rows| ==> rows[i].id != rows[j].id
  }

  /** The list runs from the newest to the oldest. */
  lemma NewestFirstInOrder(rows: seq<Run>)
    requires DistinctIds(rows)
    ensures Ranks(Newer) && Pairwise(rows, Either(Newer)) && Descending(NewestFirst(rows))
  {
    SortInOrder(rows, Newer);
  }

  lemma {:induction false} ShownInOrder(rows: seq<Run>, p: Run -> bool)
    requires DistinctIds(rows)
    ensures NewestFirst(Filter(rows, p)) == Filter(NewestFirst(rows), p)
  {
    NewestFirstInOrder(rows);
    SortOfFilter(rows, p, Newer);
  }

  /** Hiding the runs before a moment hides the end of the list. */
  lemma {:induction false} OldOnesComeLast(s: seq<Run>, user: int, cutoff: Option<int>, later: int)
    requires Descending(s) && (cutoff.Some? ==> cutoff.value <= later)
    ensures Filter(s, Shown(user, Some(later))) <= Filter(s, Shown(user, cutoff))
  {
    if |s| > 0 {
      var init, last := s[..|s| - 1], s[|s| - 1];
      OldOnesComeLast(init, user, cutoff, later);
      if Shown(user, Some(later))(last) {
        forall r | r in init ensures r.at >= last.at {
          var i :| 0 <= i < |init| && init[i] == r;
          assert Newer(s[i], s[|init|]);
        }
        FilterSame(init, Shown(user, Some(later)), Shown(user, cutoff));
      }
    }
  }

  // ---------- what the pages show ----------

  /** The runs in view go from the newest to the oldest. */
  lemma VisibleInOrder(rows: seq<Run>, user: int, cutoff: Option<int>)
    requires DistinctIds(rows)
    ensures Descending(Visible(rows, user, cutoff))
    ensures var v := Visible(rows, user, cutoff);
            forall i, j :: 0 <= i < j < |v| ==> v[i].at > v[j].at || (v[i].at == v[j].at && v[i].id > v[j].id)
  {
    ShownInOrder(rows, Shown(user, cutoff));
    NewestFirstInOrder(rows);
    FilterKeepsPairs(NewestFirst(rows), Shown(user, cutoff), Newer);
  }

  /** As time passes the window only loses the end of the list: every page keeps its place. */
  lemma WindowLosesTheEnd(rows: seq<Run>, user: int, days: int, now: int, later: int)
    requires DistinctIds(rows) && now <= later
    ensures Visible(rows, user, Cutoff(days, later)) <= Visible(rows, user, Cutoff(days, now))
  {
    ShownInOrder(rows, Shown(user, Cutoff(days, later)));
    ShownInOrder(rows, Shown(user, Cutoff(days, now)));
    NewestFirstInOrder(rows);
    if days > 0 {
      OldOnesComeLast(NewestFirst(rows), user, Cutoff(days, now), later - days * DAY);
    }
  }

  lemma VisibleLength(rows: seq<Run>, user: int, cutoff: Option<int>)
    ensures |Visible(rows, user, cutoff)| == CountHistory(rows, user, cutoff)
  {
    SortMembers(Filter(rows, Shown(user, cutoff)), Newer);
  }

  // ---------- pages of any size ----------

  lemma AwayFromZero(d: int, size: int)
    requires size > 0
    ensures d >= 1 ==> d * size >= size
    ensures d <= -1 ==> d * size <= -size
  {
    if d >= 1 {
      assert (d - 1) * size >= 0;
    } else if d <= -1 {
      assert (-d - 1) * size >= 0;
    }
  }

  lemma QuotientIs(x: int, size: int, q: int, r: int)
    requires size > 0 && x == q * size + r && 0 <= r < size
    ensures x / size == q && x % size == r
  {
    assert (x / size - q) * size == r - x % size;
    AwayFromZero(x / size - q, size);
  }

  lemma NextMultiple(n: int, size: int)
    ensures (n + 1) * size == n * size + size
  {
  }

  lemma MultiplesGrow(m: int, n: int, size: int)
    requires size > 0
    ensures m <= n ==> m * size <= n * size
    ensures m < n ==> m * size + size <= n * size
  {
    if m < n {
      assert (n - m - 1) * size >= 0;
    }
  }

  /** The server and the bot count the pages in two ways. */
  lemma LastPage(total: int, size: int)
    requires total > 0 && size > 0
    ensures (total + size - 1) / size == (total - 1) / size + 1
  {
    var q, r := (total - 1) / size, (total - 1) % size;
    NextMultiple(q, size);
    QuotientIs(total + size - 1, size, q + 1, r);
  }

  /** A page is up to the last exactly when it starts before the end. */
  lemma UpToLastIff(page: int, total: int, size: int)
    requires total > 0 && size > 0
    ensures page <= (total - 1) / size <==> page * size < total
  {
    var last := (total - 1) / size;
    assert last * size <= total - 1 < last * size + size;
    MultiplesGrow(page, last, size);
    MultiplesGrow(last, page, size);
  }

  /** The pages cover everything. */
  lemma PagesReachTheEnd(total: int, size: int)
    requires total >= 0 && size > 0
    ensures PageCount(total, size) * size >= total
  {
    if total > 0 {
      LastPage(total, size);
      UpToLastIff(PageCount(total, size), total, size);
    }
  }

  lemma StartsBefore(page: nat, total: nat, size: int)
    requires size > 0 && page < PageCount(total, size)
    ensures page == 0 || page * size < total
    ensures 0 <= page * size <= total
  {
    if total > 0 {
      LastPage(total, size);
      UpToLastIff(page, total, size);
    }
  }

  /** The server and the bot agree on which page is shown and on which is the last. */
  lemma ServerAndBotAgree(rows: seq<Run>, user: int, isPro: bool, freeDays: int, now: int, page: int, size: PageSize)
    ensures var p := CalcHistory(rows, user, isPro, freeDays, now, page, size);
            && p.page == ClampPage(page, p.total, size)
            && ClampPage(p.page, p.total, size) == p.page <= PageCount(p.total, size) - 1
            && (p.items == [] <==> p.total == 0)
  {
    var p := CalcHistory(rows, user, isPro, freeDays, now, page, size);
    VisibleLength(rows, user, Cutoff(RetentionDays(isPro, freeDays), now));
    if p.total > 0 {
      LastPage(p.total, size);
      UpToLastIff(p.page, p.total, size);
    }
  }

  /** The runs from place `page * size` on, `size` of them or as many as there are. */
  function Slice(visible: seq<Run>, page: int, size: PageSize): seq<Run>
    requires 0 <= page * size <= |visible|
  {
    visible[page * size..Min(page * size + size, |visible|)]
  }

  /** Item `j` of page `p` is item `p * size + j` of the whole list. */
  lemma PageIsSlice(rows: seq<Run>, user: int, isPro: bool, freeDays: int, now: int, page: int, size: PageSize)
    ensures var p := CalcHistory(rows, user, isPro, freeDays, now, page, size);
            var visible := Visible(rows, user, Cutoff(p.retentionDays, now));
            && p.total == |visible|
            && 0 <= p.page * size <= |visible|
            && p.items == Slice(visible, p.page, size)
  {
    var p := CalcHistory(rows, user, isPro, freeDays, now, page, size);
    VisibleLength(rows, user, Cutoff(RetentionDays(isPro, freeDays), now));
    ServerAndBotAgree(rows, user, isPro, freeDays, now, page, size);
    StartsBefore(p.page, p.total, size);
  }

  /** The items of the first `n` pages, one after another. */
  function FirstPages(rows: seq<Run>, user: int, isPro: bool, freeDays: int, now: int, size: PageSize, n: nat): seq<Run>
  {
    if n == 0 then []
    else
      FirstPages(rows, user, isPro, freeDays, now, size, n - 1)
      + CalcHistory(rows, user, isPro, freeDays, now, n - 1, size).items
  }

  lemma PageAt(rows: seq<Run>, user: int, isPro: bool, freeDays: int, now: int, page: nat, size: PageSize)
    requires page < PageCount(CountHistory(rows, user, Cutoff(RetentionDays(isPro, freeDays), now)), size)
    ensures var visible := Visible(rows, user, Cutoff(RetentionDays(isPro, freeDays), now));
            && 0 <= page * size <= |visible|
            && CalcHistory(rows, user, isPro, freeDays, now, page, size).items == Slice(visible, page, size)
  {
    PageIsSlice(rows, user, isPro, freeDays, now, page, size);
    ServerAndBotAgree(rows, user, isPro, freeDays, now, page, size);
  }

  lemma PrefixGrows<T>(s: seq<T>, from: nat, to: nat)
    requires from <= to <= |s|
    ensures s[..to] == s[..from] + s[from..to]
  {
  }

  ghost predicate PrefixShown(rows: seq<Run>, user: int, isPro: bool, freeDays: int, now: int, size: PageSize, n: nat) {
    var visible := Visible(rows, user, Cutoff(RetentionDays(isPro, freeDays), now));
    && 0 <= Min(n * size, |visible|)
    && FirstPages(rows, user, isPro, freeDays, now, size, n) == visible[..Min(n * size, |visible|)]
  }

  lemma {:induction false} FirstPagesArePrefix(
    rows: seq<Run>, user: int, isPro: bool, freeDays: int, now: int, size: PageSize, n: nat)
    requires n <= PageCount(CountHistory(rows, user, Cutoff(RetentionDays(isPro, freeDays), now)), size)
    ensures PrefixShown(rows, user, isPro, freeDays, now, size, n)
  {
    var visible := Visible(rows, user, Cutoff(RetentionDays(isPro, freeDays), now));
    if n > 0 {
      FirstPagesArePrefix(rows, user, isPro, freeDays, now, size, n - 1);
      PageAt(rows, user, isPro, freeDays, now, n - 1, size);
      NextMultiple(n - 1, size);
      PrefixGrows(visible, (n - 1) * size, Min(n * size, |visible|));
    }
  }

  lemma {:induction false} PrefixIsAll(
    rows: seq<Run>, user: int, isPro: bool, freeDays: int, now: int, size: PageSize, n: nat, visible: seq<Run>)
    requires PrefixShown(rows, user, isPro, freeDays, now, size, n) && n * size >= |visible|
    requires visible == Visible(rows, user, Cutoff(RetentionDays(isPro, freeDays), now))
    ensures FirstPages(rows, user, isPro, freeDays, now, size, n) == visible
  {
    assert visible[..|visible|] == visible;
  }

  /** The pages from the first to the last are the runs in view, newest first, each once. */
  lemma {:induction false} PagesAreTheHistory(
    rows: seq<Run>, user: int, isPro: bool, freeDays: int, now: int, size: PageSize)
    ensures var visible := Visible(rows, user, Cutoff(RetentionDays(isPro, freeDays), now));
            FirstPages(rows, user, isPro, freeDays, now, size, PageCount(|visible|, size)) == visible
  {
    var visible := Visible(rows, user, Cutoff(RetentionDays(isPro, freeDays), now));
    VisibleLength(rows, user, Cutoff(RetentionDays(isPro, freeDays), now));
    var pages := PageCount(|visible|, size);
    FirstPagesArePrefix(rows, user, isPro, freeDays, now, size, pages);
    PagesReachTheEnd(|visible|, size);
    PrefixIsAll(rows, user, isPro, freeDays, now, size, pages, visible);
  }

  /** The number beside an item is its place in the whole list, counted from one. */
  lemma NumbersArePlaces(
    rows: seq<Run>, user: int, isPro: bool, freeDays: int, now: int, page: int, size: PageSize, j: nat)
    requires j < |CalcHistory(rows, user, isPro, freeDays, now, page, size).items|
    ensures var p := CalcHistory(rows, user, isPro, freeDays, now, page, size);
            var number := PageOffset(ClampPage(p.page, p.total, size), size) + j + 1;
            var visible := Visible(rows, user, Cutoff(p.retentionDays, now));
            1 <= number <= p.total == |visible| && visible[number - 1] == p.items[j]
  {
    ServerAndBotAgree(rows, user, isPro, freeDays, now, page, size);
    PageIsSlice(rows, user, isPro, freeDays, now, page, size);
  }

  lemma {:induction false} FilterGrows<T>(rows: seq<T>, p: T -> bool, p': T -> bool)
    requires forall r :: r in rows && p(r) ==> p'(r)
    ensures |Filter(rows, p)| <= |Filter(rows, p')|
    ensures |Filter(rows, p)| < |Filter(rows, p')| <==> exists r :: r in rows && p'(r) && !p(r)
  {
    if |rows| > 0 {
      var init, last := rows[..|rows| - 1], rows[|rows| - 1];
      assert rows == init + [last];
      FilterGrows(init, p, p');
    }
  }

  /** The hint about a longer history is given exactly when the window hides a run of this user. */
  lemma TruncatedIff(rows: seq<Run>, user: int, isPro: bool, freeDays: int, now: int, page: int)
    ensures CalcHistory(rows, user, isPro, freeDays, now, page).truncated <==>
            !isPro && freeDays > 0 && exists r :: r in rows && r.user == user && r.at < now - freeDays * DAY
  {
    var cutoff := Cutoff(RetentionDays(isPro, freeDays), now);
    FilterGrows(rows, Shown(user, cutoff), Shown(user, None));
    if cutoff.Some? {
      forall r
        ensures Shown(user, None)(r) && !Shown(user, cutoff)(r) <==> r.user == user && r.at < now - freeDays * DAY
      {
      }
    }
  }

  lemma {:induction false} GetRunIff(rows: seq<Run>, user: int, id: int, cutoff: Option<int>)
    ensures GetRun(rows, user, id, cutoff).Some? <==> exists r :: r in rows && Shown(user, cutoff)(r) && r.id == id
    ensures GetRun(rows, user, id, cutoff).Some? ==>
              var r := GetRun(rows, user, id, cutoff).value; r in rows && Shown(user, cutoff)(r) && r.id == id
  {
    if |rows| > 0 {
      assert rows == [rows[0]] + rows[1..];
      GetRunIff(rows[1..], user, id, cutoff);
    }
  }

  lemma PlaceIsOnPage(i: nat, total: int, size: int)
    requires i < total && size > 0
    ensures i / size * size + i % size == i && 0 <= i / size < PageCount(total, size)
  {
    LastPage(total, size);
    UpToLastIff(i / size, total, size);
    UpToLastIff(-1, i + 1, size);
  }

  /** The run in place `i` of the whole list is on the page that the place divided by the size names. */
  lemma OnItsPage(rows: seq<Run>, user: int, isPro: bool, freeDays: int, now: int, size: PageSize, i: nat)
    requires i < |Visible(rows, user, Cutoff(RetentionDays(isPro, freeDays), now))|
    ensures Visible(rows, user, Cutoff(RetentionDays(isPro, freeDays), now))[i]
            in CalcHistory(rows, user, isPro, freeDays, now, i / size, size).items
  {
    var visible := Visible(rows, user, Cutoff(RetentionDays(isPro, freeDays), now));
    var page, j := i / size, i % size;
    VisibleLength(rows, user, Cutoff(RetentionDays(isPro, freeDays), now));
    PlaceIsOnPage(i, |visible|, size);
    PageAt(rows, user, isPro, freeDays, now, page, size);
    var items := CalcHistory(rows, user, isPro, freeDays, now, page, size).items;
    assert items[j] == visible[page * size + j];
    assert items[j] in items;
  }

  lemma PagesShowVisible(rows: seq<Run>, user: int, isPro: bool, freeDays: int, now: int, page: int, size: PageSize)
    ensures forall r :: r in CalcHistory(rows, user, isPro, freeDays, now, page, size).items ==>
              r in Visible(rows, user, Cutoff(RetentionDays(isPro, freeDays), now))
  {
    PageIsSlice(rows, user, isPro, freeDays, now, page, size);
  }

  ghost predicate OnPage(
    rows: seq<Run>, user: int, id: int, isPro: bool, freeDays: int, now: int, page: int, size: PageSize)
  {
    exists r :: r in CalcHistory(rows, user, isPro, freeDays, now, page, size).items && r.id == id
  }

  lemma VisibleIff(rows: seq<Run>, user: int, cutoff: Option<int>, r: Run)
    ensures r in Visible(rows, user, cutoff) <==> r in rows && Shown(user, cutoff)(r)
  {
    FilterMembers(rows, Shown(user, cutoff));
    SortMembers(Filter(rows, Shown(user, cutoff)), Newer);
  }

  lemma VisibleIsOnPage(rows: seq<Run>, user: int, isPro: bool, freeDays: int, now: int, size: PageSize, r: Run)
    requires r in Visible(rows, user, Cutoff(RetentionDays(isPro, freeDays), now))
    ensures exists page :: OnPage(rows, user, r.id, isPro, freeDays, now, page, size)
  {
    var visible := Visible(rows, user, Cutoff(RetentionDays(isPro, freeDays), now));
    var i :| 0 <= i < |visible| && visible[i] == r;
    OnItsPage(rows, user, isPro, freeDays, now, size, i);
    assert OnPage(rows, user, r.id, isPro, freeDays, now, i / size, size);
  }

  /** In view are the user's own runs: all of them on PRO or without a limit, otherwise those of the last days. */
  lemma InViewIff(rows: seq<Run>, user: int, isPro: bool, freeDays: int, now: int, r: Run)
    ensures r in Visible(rows, user, Cutoff(RetentionDays(isPro, freeDays), now)) <==>
            && r in rows && r.user == user
            && (isPro || freeDays <= 0 || r.at >= now - freeDays * 24 * 3_600_000_000)
  {
    VisibleIff(rows, user, Cutoff(RetentionDays(isPro, freeDays), now), r);
  }

  /** A run can be opened exactly when it is on some page. */
  lemma {:induction false} OpensIffListed(rows: seq<Run>, user: int, id: int, isPro: bool, freeDays: int, now: int,
                                          size: PageSize)
    ensures GetRun(rows, user, id, Cutoff(RetentionDays(isPro, freeDays), now)).Some? <==>
            exists page :: OnPage(rows, user, id, isPro, freeDays, now, page, size)
  {
    var cutoff := Cutoff(RetentionDays(isPro, freeDays), now);
    GetRunIff(rows, user, id, cutoff);
    if GetRun(rows, user, id, cutoff).Some? {
      var r := GetRun(rows, user, id, cutoff).value;
      VisibleIff(rows, user, cutoff, r);
      VisibleIsOnPage(rows, user, isPro, freeDays, now, size, r);
    }
    if page :| OnPage(rows, user, id, isPro, freeDays, now, page, size) {
      var r :| r in CalcHistory(rows, user, isPro, freeDays, now, page, size).items && r.id == id;
      PagesShowVisible(rows, user, isPro, freeDays, now, page, size);
      VisibleIff(rows, user, cutoff, r);
    }
  }
}
