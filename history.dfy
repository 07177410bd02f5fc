/**
 * The NAV history of one fund and the value history of the portfolio, read
 * from the daily ledger: official NAVs where a day is settled, estimated
 * closes otherwise, sorted by date.
 */
module History {
  import opened Wrappers
  import opened Text
  import opened Seqs
  import opened Order
  import opened LedgerRows
  import Settlement

  /** Where a NAV came from: the published official NAV or the estimated close. */
  datatype Source = Official | Estimated

  /** One point of a fund's history. */
  datatype NavPoint = NavPoint(date: string, nav: real, source: Source, settleStatus: string)

  function PointDateKey(p: NavPoint): seq<string> {
    [p.date]
  }

  /** `start <= d <= end` on strings. */
  predicate InRange(d: string, start: string, end: string) {
    !Before(d, start) && !Before(end, d)
  }

  // ---------------------------------------------------------------------
  // get_history

  /** The status `get_history` reports: a missing one reads as estimated-only. */
  function StatusOr(x: LedgerRow): string {
    x.settleStatus.GetOr(Settlement.SETTLE_ESTIMATED_ONLY)
  }

  /** A row whose official NAV is shown. */
  predicate OfficialRow(x: LedgerRow) {
    StatusOr(x) == Settlement.SETTLE_SETTLED && x.officialNav.Some?
  }

  function PointOf(x: LedgerRow): NavPoint {
    if OfficialRow(x) then NavPoint(x.date, x.officialNav.value, Official, StatusOr(x))
    else NavPoint(x.date, Num(x.estimatedNavClose), Estimated, StatusOr(x))
  }

  /** A row of fund `c` whose date lies in the window (the code is compared unstripped). */
  predicate Kept(x: LedgerRow, c: string, start: string, end: string) {
    x.code == c && InRange(x.date, start, end)
  }

  function KeptOn(c: string, start: string, end: string): LedgerRow -> bool {
    (x: LedgerRow) => Kept(x, c, start, end)
  }

  /** The points of `c` in ledger order. */
  function Points(items: seq<LedgerRow>, c: string, start: string, end: string): (r: seq<NavPoint>)
    ensures |r| <= |items|
  {
    if items == [] then []
    else
      var x := items[|items| - 1];
      Points(items[..|items| - 1], c, start, end) + (if Kept(x, c, start, end) then [PointOf(x)] else [])
  }

  /**
   * What `get_history(code, days)` returns, `start` and `end` being today
   * minus `days - 1` days and today.
   */
  function HistoryOf(items: seq<LedgerRow>, code: string, days: int, start: string, end: string): Result<seq<NavPoint>> {
    var c := Strip(code);
    if c == "" then Err("code is required")
    else if days <= 0 then Ok([])
    else Ok(SortBy(Points(items, c, start, end), PointDateKey))
  }

  /**
   * A point shows the official NAV exactly when its row is settled and has
   * one; otherwise the estimated close, 0 when missing. A missing status
   * reports as estimated-only.
   */
  lemma PointOfSpec(x: LedgerRow)
    ensures var p := PointOf(x);
            p.date == x.date &&
            (p.source == Official <==> x.settleStatus == Some(Settlement.SETTLE_SETTLED) && x.officialNav.Some?) &&
            (p.source == Official ==> p.nav == x.officialNav.value && p.settleStatus == Settlement.SETTLE_SETTLED) &&
            (p.source == Estimated ==> p.nav == Num(x.estimatedNavClose)) &&
            (x.settleStatus.None? ==> p.source == Estimated && p.settleStatus == Settlement.SETTLE_ESTIMATED_ONLY)
  {
    assert Settlement.SETTLE_ESTIMATED_ONLY[0] != Settlement.SETTLE_SETTLED[0];
  }

  /** Every point comes from one kept row, and every kept row gives one. */
  lemma {:induction false} PointsFrom(items: seq<LedgerRow>, c: string, start: string, end: string)
    ensures |Points(items, c, start, end)| == Count(items, KeptOn(c, start, end))
    ensures forall x :: x in items && Kept(x, c, start, end) ==> PointOf(x) in Points(items, c, start, end)
    ensures forall p :: p in Points(items, c, start, end) ==>
              exists x :: x in items && Kept(x, c, start, end) && p == PointOf(x)
  {
    if items != [] {
      var pre := items[..|items| - 1];
      var x := items[|items| - 1];
      PointsFrom(pre, c, start, end);
      assert items == pre + [x];
      forall y | y in items && Kept(y, c, start, end)
        ensures PointOf(y) in Points(items, c, start, end)
      {
        if y != x {
          assert y in pre;
        }
      }
      forall p | p in Points(items, c, start, end)
        ensures exists y :: y in items && Kept(y, c, start, end) && p == PointOf(y)
      {
        if p !in Points(pre, c, start, end) {
          assert Kept(x, c, start, end) && p == PointOf(x);
        }
      }
    }
  }

  /**
   * `get_history` raises exactly when the stripped code is empty, returns
   * nothing for a non-positive window, and otherwise returns, sorted by
   * date, one point per row of the fund in the window and nothing else.
   */
  lemma HistoryOfSpec(items: seq<LedgerRow>, code: string, days: int, start: string, end: string)
    ensures var r := HistoryOf(items, code, days, start, end);
            (r.Err? <==> Strip(code) == "") &&
            (Strip(code) != "" && days <= 0 ==> r == Ok([])) &&
            (Strip(code) != "" && days > 0 ==>
              SortedBy(r.value, PointDateKey) &&
              |r.value| == Count(items, KeptOn(Strip(code), start, end)) &&
              (forall x :: x in items && Kept(x, Strip(code), start, end) ==> PointOf(x) in r.value) &&
              (forall p :: p in r.value ==>
                (InRange(p.date, start, end) &&
                 exists x :: x in items && Kept(x, Strip(code), start, end) && p == PointOf(x))))
  {
    var c := Strip(code);
    if c != "" && days > 0 {
      var pts := Points(items, c, start, end);
      var r := SortBy(pts, PointDateKey);
      SortBySorted(pts, PointDateKey);
      SortByPermutation(pts, PointDateKey);
      PointsFrom(items, c, start, end);
      forall x | x in items && Kept(x, c, start, end)
        ensures PointOf(x) in r
      {
        assert PointOf(x) in multiset(pts);
      }
      forall p | p in r
        ensures InRange(p.date, start, end) && exists x :: x in items && Kept(x, c, start, end) && p == PointOf(x)
      {
        assert p in multiset(r);
        assert p in pts;
        var x :| x in items && Kept(x, c, start, end) && p == PointOf(x);
        PointOfSpec(x);
      }
    }
  }

  /** `get_history(code, days)`. */
  method GetHistory(items: seq<LedgerRow>, code: string, days: int, start: string, end: string)
    returns (r: Result<seq<NavPoint>>)
    ensures r == HistoryOf(items, code, days, start, end)
  {
    var c := Strip(code);
    if c == "" {
      return Err("code is required");
    }
    if days <= 0 {
      return Ok([]);
    }
    var rows: seq<NavPoint> := [];
    for i := 0 to |items|
      invariant rows == Points(items[..i], c, start, end)
    {
      assert items[..i + 1][..i] == items[..i];
      var x := items[i];
      if x.code != c {
        continue;
      }
      var d := x.date;
      if Before(d, start) || Before(end, d) {
        continue;
      }
      var status := if x.settleStatus.Some? then x.settleStatus.value else Settlement.SETTLE_ESTIMATED_ONLY;
      if status == Settlement.SETTLE_SETTLED && x.officialNav.Some? {
        rows := rows + [NavPoint(d, x.officialNav.value, Official, status)];
      } else {
        rows := rows + [NavPoint(d, Num(x.estimatedNavClose), Estimated, status)];
      }
    }
    assert items[..|items|] == items;
    return Ok(SortBy(rows, PointDateKey));
  }

  // ---------------------------------------------------------------------
  // get_portfolio_history

  /** One day of the portfolio's history. */
  datatype DayPoint = DayPoint(date: string, totalCost: real, totalValue: real, totalPnl: real, totalPnlPct: real,
                               source: Source, settleStatus: string)

  function DayDateKey(p: DayPoint): seq<string> {
    [p.date]
  }

  /** The rows of day `d` in ledger order; none when `d` is outside the window. */
  function OnDay(d: string, start: string, end: string): LedgerRow -> bool {
    (x: LedgerRow) => x.date == d && InRange(d, start, end)
  }

  function Group(items: seq<LedgerRow>, start: string, end: string, d: string): seq<LedgerRow> {
    Filter(items, OnDay(d, start, end))
  }

  /** Every row of the day is settled (a missing status is not). */
  predicate AllSettled(its: seq<LedgerRow>) {
    forall k :: 0 <= k < |its| ==> its[k].settleStatus == Some(Settlement.SETTLE_SETTLED)
  }

  /** Shares times average cost. */
  function Cost(x: LedgerRow): real {
    Num(x.sharesEnd) * Num(x.avgCostNavEnd)
  }

  /** The NAV a row is valued at: official on an all-settled day when it has one, else the estimate. */
  function NavOf(x: LedgerRow, allSettled: bool): real {
    if allSettled && x.officialNav.Some? then x.officialNav.value else Num(x.estimatedNavClose)
  }

  function Value(x: LedgerRow, allSettled: bool): real {
    Num(x.sharesEnd) * NavOf(x, allSettled)
  }

  function RowPnl(x: LedgerRow, allSettled: bool): real {
    Value(x, allSettled) - Cost(x) + Num(x.realizedPnlEnd)
  }

  function CostTotal(its: seq<LedgerRow>): real {
    if its == [] then 0.0 else CostTotal(its[..|its| - 1]) + Cost(its[|its| - 1])
  }

  function ValueTotal(its: seq<LedgerRow>, allSettled: bool): real {
    if its == [] then 0.0 else ValueTotal(its[..|its| - 1], allSettled) + Value(its[|its| - 1], allSettled)
  }

  function PnlTotal(its: seq<LedgerRow>, allSettled: bool): real {
    if its == [] then 0.0 else PnlTotal(its[..|its| - 1], allSettled) + RowPnl(its[|its| - 1], allSettled)
  }

  function RealizedTotal(its: seq<LedgerRow>): real {
    if its == [] then 0.0 else RealizedTotal(its[..|its| - 1]) + Num(its[|its| - 1].realizedPnlEnd)
  }

  /** `total_pnl_pct`: the P&L in percent of the cost, 0 when the cost is not positive. */
  function PnlPct(pnl: real, cost: real): real {
    if cost > 0.0 then pnl / cost * 100.0 else 0.0
  }

  function DayPointOf(d: string, its: seq<LedgerRow>): DayPoint {
    var s := AllSettled(its);
    var cost := CostTotal(its);
    var pnl := PnlTotal(its, s);
    DayPoint(d, cost, ValueTotal(its, s), pnl, PnlPct(pnl, cost),
             if s then Official else Estimated,
             if s then Settlement.SETTLE_SETTLED else Settlement.SETTLE_ESTIMATED_ONLY)
  }

  /** The day's P&L is its value minus its cost plus what was realized. */
  lemma {:induction false} PnlTotalSplit(its: seq<LedgerRow>, allSettled: bool)
    ensures PnlTotal(its, allSettled) == ValueTotal(its, allSettled) - CostTotal(its) + RealizedTotal(its)
  {
    if its != [] {
      PnlTotalSplit(its[..|its| - 1], allSettled);
    }
  }

  /** The percentage is the P&L relative to a positive cost. */
  lemma PnlPctMeaning(pnl: real, cost: real)
    ensures cost > 0.0 ==> PnlPct(pnl, cost) * cost == 100.0 * pnl
    ensures cost > 0.0 ==> (PnlPct(pnl, cost) < 0.0 <==> pnl < 0.0)
    ensures cost <= 0.0 ==> PnlPct(pnl, cost) == 0.0
  {
    if cost > 0.0 {
      var q := pnl / cost;
      assert q * cost == pnl;
      assert PnlPct(pnl, cost) * cost == 100.0 * (q * cost);
      if pnl < 0.0 {
        assert q < 0.0;
      } else {
        assert q >= 0.0;
      }
    }
  }

  /**
   * A day is labelled official and settled exactly when every one of its
   * rows is settled; its P&L is value minus cost plus realized, and its
   * percentage is that P&L relative to a positive cost.
   */
  lemma DayPointOfSpec(d: string, its: seq<LedgerRow>)
    ensures var p := DayPointOf(d, its);
            p.date == d &&
            (p.source == Official <==> AllSettled(its)) &&
            (p.settleStatus == Settlement.SETTLE_SETTLED <==> AllSettled(its)) &&
            (p.settleStatus == Settlement.SETTLE_ESTIMATED_ONLY <==> !AllSettled(its)) &&
            p.totalCost == CostTotal(its) &&
            p.totalPnl == p.totalValue - p.totalCost + RealizedTotal(its) &&
            (p.totalCost > 0.0 ==> p.totalPnlPct * p.totalCost == 100.0 * p.totalPnl) &&
            (p.totalCost <= 0.0 ==> p.totalPnlPct == 0.0)
  {
    assert Settlement.SETTLE_ESTIMATED_ONLY[0] != Settlement.SETTLE_SETTLED[0];
    PnlTotalSplit(its, AllSettled(its));
    PnlPctMeaning(PnlTotal(its, AllSettled(its)), CostTotal(its));
  }

  /** Shares times estimated close, summed. */
  function EstimateTotal(its: seq<LedgerRow>): real {
    if its == [] then 0.0
    else EstimateTotal(its[..|its| - 1]) + Num(its[|its| - 1].sharesEnd) * Num(its[|its| - 1].estimatedNavClose)
  }

  /**
   * On a day not wholly settled (`allSettled` false) every row is valued at
   * its estimate, whether it has an official NAV or not.
   */
  lemma {:induction false} EstimatesOnly(its: seq<LedgerRow>)
    ensures ValueTotal(its, false) == EstimateTotal(its)
  {
    if its != [] {
      EstimatesOnly(its[..|its| - 1]);
    }
  }

  /** The points for the days `days`, one per day, in that order. */
  function DayPoints(days: seq<string>, items: seq<LedgerRow>, start: string, end: string): seq<DayPoint> {
    seq(|days|, k requires 0 <= k < |days| => DayPointOf(days[k], Group(items, start, end, days[k])))
  }

  predicate DatesDistinct(rows: seq<DayPoint>) {
    forall i, j :: 0 <= i < j < |rows| ==> rows[i].date != rows[j].date
  }

  /**
   * The portfolio history of the ledger rows `items`: strictly ascending
   * dates, each the totals of a day that has rows, and every day of the
   * window that has rows present.
   */
  predicate IsPortfolioHistory(rows: seq<DayPoint>, items: seq<LedgerRow>, start: string, end: string) {
    SortedBy(rows, DayDateKey) && DatesDistinct(rows) &&
    (forall k :: 0 <= k < |rows| ==>
      Group(items, start, end, rows[k].date) != [] &&
      rows[k] == DayPointOf(rows[k].date, Group(items, start, end, rows[k].date))) &&
    (forall i :: 0 <= i < |items| && InRange(items[i].date, start, end) ==>
      exists k :: 0 <= k < |rows| && rows[k].date == items[i].date)
  }

  /**
   * Grouping the window's ledger rows by date; `order` holds the dates in
   * first-seen order, as the dict's keys are.
   */
  method GroupByDate(items: seq<LedgerRow>, start: string, end: string)
    returns (byDate: map<string, seq<LedgerRow>>, order: seq<string>)
    ensures Distinct(order)
    ensures forall d :: d in byDate <==> d in order
    ensures forall d :: d in byDate ==> byDate[d] == Group(items, start, end, d) && byDate[d] != []
    ensures forall i :: 0 <= i < |items| && InRange(items[i].date, start, end) ==> items[i].date in byDate
  {
    byDate := map[];
    order := [];
    for i := 0 to |items|
      invariant Distinct(order)
      invariant forall d :: d in byDate <==> d in order
      invariant GroupedUpTo(byDate, items, i, start, end)
    {
      var x := items[i];
      var d := x.date;
      ghost var prev := byDate;
      if !(Before(d, start) || Before(end, d)) {
        if d in byDate {
          byDate := byDate[d := byDate[d] + [x]];
        } else {
          byDate := byDate[d := [x]];
          order := order + [d];
        }
      }
      GroupStep(items, i, start, end, prev, byDate);
    }
    assert items[..|items|] == items;
  }

  /** `byDate` groups the window's rows among the first `i`. */
  predicate GroupedUpTo(byDate: map<string, seq<LedgerRow>>, items: seq<LedgerRow>, i: nat, start: string, end: string)
    requires i <= |items|
  {
    (forall d :: d in byDate ==> byDate[d] == Filter(items[..i], OnDay(d, start, end)) && byDate[d] != []) &&
    (forall k :: 0 <= k < i && InRange(items[k].date, start, end) ==> items[k].date in byDate)
  }

  /** One more row of the grouping loop. */
  lemma GroupStep(items: seq<LedgerRow>, i: nat, start: string, end: string,
                  prev: map<string, seq<LedgerRow>>, next: map<string, seq<LedgerRow>>)
    requires i < |items| && GroupedUpTo(prev, items, i, start, end)
    requires var x := items[i];
             next == if !InRange(x.date, start, end) then prev
                     else if x.date in prev then prev[x.date := prev[x.date] + [x]]
                     else prev[x.date := [x]]
    ensures GroupedUpTo(next, items, i + 1, start, end)
  {
    forall e | e in next
      ensures next[e] == Filter(items[..i + 1], OnDay(e, start, end)) && next[e] != []
    {
      FilterPrefixStep(items, i, OnDay(e, start, end));
      if e !in prev {
        NoRowsYet(items, i, start, end, prev, e);
      }
    }
  }

  /** A day the loop has no group for has no rows among those already seen. */
  lemma NoRowsYet(items: seq<LedgerRow>, i: nat, start: string, end: string, prev: map<string, seq<LedgerRow>>,
                  e: string)
    requires i <= |items| && GroupedUpTo(prev, items, i, start, end) && e !in prev
    ensures Filter(items[..i], OnDay(e, start, end)) == []
  {
    forall k | 0 <= k < |items[..i]|
      ensures !OnDay(e, start, end)(items[..i][k])
    {
      assert items[..i][k] == items[k];
    }
    FilterNone(items[..i], OnDay(e, start, end));
  }

  /** One more row of a day: the step of the accumulation loop. */
  lemma TotalsStep(its: seq<LedgerRow>, i: nat, allSettled: bool)
    requires i < |its|
    ensures CostTotal(its[..i + 1]) == CostTotal(its[..i]) + Cost(its[i])
    ensures ValueTotal(its[..i + 1], allSettled) == ValueTotal(its[..i], allSettled) + Value(its[i], allSettled)
    ensures PnlTotal(its[..i + 1], allSettled) == PnlTotal(its[..i], allSettled) + RowPnl(its[i], allSettled)
  {
    assert its[..i + 1][..i] == its[..i];
  }

  /** The accumulation loop over one day's rows. */
  method DayTotals(its: seq<LedgerRow>, allSettled: bool) returns (totalCost: real, totalValue: real, totalPnl: real)
    ensures totalCost == CostTotal(its)
    ensures totalValue == ValueTotal(its, allSettled)
    ensures totalPnl == PnlTotal(its, allSettled)
  {
    totalCost, totalValue, totalPnl := 0.0, 0.0, 0.0;
    for i := 0 to |its|
      invariant totalCost == CostTotal(its[..i])
      invariant totalValue == ValueTotal(its[..i], allSettled)
      invariant totalPnl == PnlTotal(its[..i], allSettled)
    {
      TotalsStep(its, i, allSettled);
      var x := its[i];
      var shares := Num(x.sharesEnd);
      var cost := Cost(x);
      totalCost := totalCost + cost;
      var nav := if allSettled && x.officialNav.Some? then x.officialNav.value else Num(x.estimatedNavClose);
      var value := shares * nav;
      totalValue := totalValue + value;
      totalPnl := totalPnl + (value - cost + Num(x.realizedPnlEnd));
    }
    assert its[..|its|] == its;
  }

  /** One day of the portfolio loop. */
  method DayPointFor(d: string, its: seq<LedgerRow>) returns (p: DayPoint)
    ensures p == DayPointOf(d, its)
  {
    var allSettled := forall k :: 0 <= k < |its| ==> its[k].settleStatus == Some(Settlement.SETTLE_SETTLED);
    var totalCost, totalValue, totalPnl := DayTotals(its, allSettled);
    p := DayPoint(d, totalCost, totalValue, totalPnl, PnlPct(totalPnl, totalCost),
                  if allSettled then Official else Estimated,
                  if allSettled then Settlement.SETTLE_SETTLED else Settlement.SETTLE_ESTIMATED_ONLY);
  }

  /** The points of the grouped days, before the sort by date. */
  method CollectDays(order: seq<string>, byDate: map<string, seq<LedgerRow>>, items: seq<LedgerRow>, start: string, end: string)
    returns (rows: seq<DayPoint>)
    requires forall d :: d in order ==> d in byDate && byDate[d] == Group(items, start, end, d)
    ensures rows == DayPoints(order, items, start, end)
  {
    rows := [];
    var j := 0;
    while j < |order|
      invariant 0 <= j <= |order|
      invariant rows == DayPoints(order[..j], items, start, end)
    {
      var d := order[j];
      var p := DayPointFor(d, byDate[d]);
      DayPointsStep(order, items, start, end, j);
      rows := rows + [p];
      j := j + 1;
    }
    assert order[..j] == order;
  }

  lemma DayPointsStep(days: seq<string>, items: seq<LedgerRow>, start: string, end: string, j: nat)
    requires j < |days|
    ensures DayPoints(days[..j + 1], items, start, end)
            == DayPoints(days[..j], items, start, end) + [DayPointOf(days[j], Group(items, start, end, days[j]))]
  {
    var a := DayPoints(days[..j + 1], items, start, end);
    var b := DayPoints(days[..j], items, start, end) + [DayPointOf(days[j], Group(items, start, end, days[j]))];
    assert |a| == |b|;
    forall k | 0 <= k < |a|
      ensures a[k] == b[k]
    {
      if k < j {
        assert days[..j + 1][k] == days[..j][k];
      }
    }
  }

  /** Sorting the points of distinct, non-empty days that include every day of the window gives the history. */
  lemma PortfolioOfDays(order: seq<string>, items: seq<LedgerRow>, start: string, end: string)
    requires Distinct(order)
    requires forall d :: d in order ==> Group(items, start, end, d) != []
    requires forall i :: 0 <= i < |items| && InRange(items[i].date, start, end) ==> items[i].date in order
    ensures IsPortfolioHistory(SortBy(DayPoints(order, items, start, end), DayDateKey), items, start, end)
  {
    var built := DayPoints(order, items, start, end);
    var rows := SortBy(built, DayDateKey);
    SortBySorted(built, DayDateKey);
    SortByPermutation(built, DayDateKey);
    DayPointsDistinct(order, items, start, end);
    PermutationDatesDistinct(built, rows);
    SortedDaysAreDays(order, items, start, end, rows);
    SortedDaysCover(order, items, start, end, rows);
  }

  lemma DayPointsDistinct(order: seq<string>, items: seq<LedgerRow>, start: string, end: string)
    requires Distinct(order)
    ensures DatesDistinct(DayPoints(order, items, start, end))
  {
    var built := DayPoints(order, items, start, end);
    forall i, j | 0 <= i < j < |built|
      ensures built[i].date != built[j].date
    {
      assert built[i].date == order[i] && built[j].date == order[j];
    }
  }

  /** Each point of a reordering of the days' points is the point of its non-empty day. */
  lemma SortedDaysAreDays(order: seq<string>, items: seq<LedgerRow>, start: string, end: string, rows: seq<DayPoint>)
    requires forall d :: d in order ==> Group(items, start, end, d) != []
    requires multiset(rows) == multiset(DayPoints(order, items, start, end))
    ensures forall k :: 0 <= k < |rows| ==>
              Group(items, start, end, rows[k].date) != [] &&
              rows[k] == DayPointOf(rows[k].date, Group(items, start, end, rows[k].date))
  {
    var built := DayPoints(order, items, start, end);
    forall k | 0 <= k < |rows|
      ensures Group(items, start, end, rows[k].date) != [] &&
              rows[k] == DayPointOf(rows[k].date, Group(items, start, end, rows[k].date))
    {
      assert rows[k] in multiset(built);
      var p :| 0 <= p < |built| && built[p] == rows[k];
      assert order[p] in order;
    }
  }

  /** A reordering of the days' points has a point for every day of the window with rows. */
  lemma SortedDaysCover(order: seq<string>, items: seq<LedgerRow>, start: string, end: string, rows: seq<DayPoint>)
    requires forall i :: 0 <= i < |items| && InRange(items[i].date, start, end) ==> items[i].date in order
    requires multiset(rows) == multiset(DayPoints(order, items, start, end))
    ensures forall i :: 0 <= i < |items| && InRange(items[i].date, start, end) ==>
              exists k :: 0 <= k < |rows| && rows[k].date == items[i].date
  {
    var built := DayPoints(order, items, start, end);
    forall i | 0 <= i < |items| && InRange(items[i].date, start, end)
      ensures exists k :: 0 <= k < |rows| && rows[k].date == items[i].date
    {
      var j :| 0 <= j < |order| && order[j] == items[i].date;
      assert built[j] in multiset(rows);
      var k :| 0 <= k < |rows| && rows[k] == built[j];
    }
  }

  /** Reordering points with distinct dates keeps them distinct. */
  lemma PermutationDatesDistinct(a: seq<DayPoint>, b: seq<DayPoint>)
    requires multiset(a) == multiset(b) && DatesDistinct(a)
    ensures DatesDistinct(b)
  {
    forall i, j | 0 <= i < j < |b|
      ensures b[i].date != b[j].date
    {
      assert Distinct(a);
      PermutationDistinct(a, b);
      assert b[i] in multiset(a) && b[j] in multiset(a);
      var p :| 0 <= p < |a| && a[p] == b[i];
      var q :| 0 <= q < |a| && a[q] == b[j];
      assert p != q;
    }
  }

  /** `get_portfolio_history(days)`: nothing for a non-positive window, else one point per day with rows. */
  method GetPortfolioHistory(items: seq<LedgerRow>, days: int, start: string, end: string) returns (rows: seq<DayPoint>)
    ensures days <= 0 ==> rows == []
    ensures days > 0 ==> IsPortfolioHistory(rows, items, start, end)
  {
    if days <= 0 {
      return [];
    }
    var byDate, order := GroupByDate(items, start, end);
    var built := CollectDays(order, byDate, items, start, end);
    rows := SortBy(built, DayDateKey);
    PortfolioOfDays(order, items, start, end);
  }

  // ---------------------------------------------------------------------
  // fund_history (the ledger fallback)

  /** A row of fund `c` not before the cutoff; a row without a date is kept. */
  predicate FundKept(x: LedgerRow, c: string, cutoff: string) {
    x.code == c && !(x.date != "" && Before(x.date, cutoff))
  }

  /** The point of a row: official when settled with one, else the estimate when present, else none. */
  function FundPointOf(x: LedgerRow): Option<NavPoint> {
    var status := StatusText(x);
    if status == Settlement.SETTLE_SETTLED && x.officialNav.Some? then
      Some(NavPoint(x.date, x.officialNav.value, Official, status))
    else if x.estimatedNavClose.Some? then
      Some(NavPoint(x.date, x.estimatedNavClose.value, Estimated, status))
    else None
  }

  predicate FundShown(x: LedgerRow, c: string, cutoff: string) {
    FundKept(x, c, cutoff) && FundPointOf(x).Some?
  }

  function FundShownOn(c: string, cutoff: string): LedgerRow -> bool {
    (x: LedgerRow) => FundShown(x, c, cutoff)
  }

  function FundPoints(items: seq<LedgerRow>, c: string, cutoff: string): (r: seq<NavPoint>)
    ensures |r| <= |items|
  {
    if items == [] then []
    else
      var x := items[|items| - 1];
      FundPoints(items[..|items| - 1], c, cutoff) + (if FundShown(x, c, cutoff) then [FundPointOf(x).value] else [])
  }

  /** What `fund_history(code)` returns, `cutoff` being today minus `days_back` days. */
  function FundHistoryOf(items: seq<LedgerRow>, code: string, cutoff: string): seq<NavPoint> {
    var c := Strip(code);
    if c == "" then [] else SortBy(FundPoints(items, c, cutoff), PointDateKey)
  }

  /**
   * A row is dropped exactly when it is neither settled with an official NAV
   * nor carrying an estimate; otherwise it shows the official NAV exactly
   * when settled with one.
   */
  lemma FundPointOfSpec(x: LedgerRow)
    ensures FundPointOf(x).None? <==>
              !(x.settleStatus == Some(Settlement.SETTLE_SETTLED) && x.officialNav.Some?) && x.estimatedNavClose.None?
    ensures FundPointOf(x).Some? ==>
              var p := FundPointOf(x).value;
              p.date == x.date && p.settleStatus == StatusText(x) &&
              (p.source == Official <==> x.settleStatus == Some(Settlement.SETTLE_SETTLED) && x.officialNav.Some?) &&
              (p.source == Official ==> p.nav == x.officialNav.value) &&
              (p.source == Estimated ==> p.nav == x.estimatedNavClose.value)
  {
    assert Settlement.SETTLE_SETTLED != "";
  }

  /** On rows that carry a status and an estimate, `fund_history` and `get_history` show the same point. */
  lemma FundPointAgrees(x: LedgerRow)
    requires x.settleStatus.Some? && x.estimatedNavClose.Some?
    ensures FundPointOf(x) == Some(PointOf(x))
  {
  }

  lemma {:induction false} FundPointsFrom(items: seq<LedgerRow>, c: string, cutoff: string)
    ensures |FundPoints(items, c, cutoff)| == Count(items, FundShownOn(c, cutoff))
    ensures forall x :: x in items && FundShown(x, c, cutoff) ==> FundPointOf(x).value in FundPoints(items, c, cutoff)
    ensures forall p :: p in FundPoints(items, c, cutoff) ==>
              exists x :: x in items && FundShown(x, c, cutoff) && Some(p) == FundPointOf(x)
  {
    if items != [] {
      var pre := items[..|items| - 1];
      var x := items[|items| - 1];
      FundPointsFrom(pre, c, cutoff);
      assert items == pre + [x];
      forall y | y in items && FundShown(y, c, cutoff)
        ensures FundPointOf(y).value in FundPoints(items, c, cutoff)
      {
        if y != x {
          assert y in pre;
        }
      }
      forall p | p in FundPoints(items, c, cutoff)
        ensures exists y :: y in items && FundShown(y, c, cutoff) && Some(p) == FundPointOf(y)
      {
        if p !in FundPoints(pre, c, cutoff) {
          assert FundShown(x, c, cutoff) && Some(p) == FundPointOf(x);
        }
      }
    }
  }

  /**
   * `fund_history`: nothing for an empty code; otherwise, sorted by date,
   * one point per shown row of the fund and nothing else, none of them
   * dated before the cutoff.
   */
  lemma FundHistorySpec(items: seq<LedgerRow>, code: string, cutoff: string)
    ensures var r := FundHistoryOf(items, code, cutoff);
            (Strip(code) == "" ==> r == []) &&
            (Strip(code) != "" ==>
              SortedBy(r, PointDateKey) &&
              |r| == Count(items, FundShownOn(Strip(code), cutoff)) &&
              (forall x :: x in items && FundShown(x, Strip(code), cutoff) ==> FundPointOf(x).value in r) &&
              (forall p :: p in r ==>
                ((p.date == "" || !Before(p.date, cutoff)) &&
                 exists x :: x in items && FundShown(x, Strip(code), cutoff) && Some(p) == FundPointOf(x))))
  {
    var c := Strip(code);
    if c != "" {
      var pts := FundPoints(items, c, cutoff);
      var r := SortBy(pts, PointDateKey);
      SortBySorted(pts, PointDateKey);
      SortByPermutation(pts, PointDateKey);
      FundPointsFrom(items, c, cutoff);
      forall x | x in items && FundShown(x, c, cutoff)
        ensures FundPointOf(x).value in r
      {
        assert FundPointOf(x).value in multiset(pts);
      }
      forall p | p in r
        ensures (p.date == "" || !Before(p.date, cutoff)) &&
                exists x :: x in items && FundShown(x, c, cutoff) && Some(p) == FundPointOf(x)
      {
        assert p in multiset(r);
        assert p in pts;
        var x :| x in items && FundShown(x, c, cutoff) && Some(p) == FundPointOf(x);
        FundPointOfSpec(x);
      }
    }
  }

  /** `fund_history(code, days_back)`, reading from the ledger. */
  method FundHistory(items: seq<LedgerRow>, code: string, cutoff: string) returns (rows: seq<NavPoint>)
    ensures rows == FundHistoryOf(items, code, cutoff)
  {
    var c := Strip(code);
    if c == "" {
      return [];
    }
    var pts: seq<NavPoint> := [];
    for i := 0 to |items|
      invariant pts == FundPoints(items[..i], c, cutoff)
    {
      assert items[..i + 1][..i] == items[..i];
      var x := items[i];
      if x.code != c {
        continue;
      }
      var d := x.date;
      if d != "" && Before(d, cutoff) {
        continue;
      }
      var status := StatusText(x);
      if status == Settlement.SETTLE_SETTLED && x.officialNav.Some? {
        pts := pts + [NavPoint(d, x.officialNav.value, Official, status)];
      } else if x.estimatedNavClose.Some? {
        pts := pts + [NavPoint(d, x.estimatedNavClose.value, Estimated, status)];
      }
    }
    assert items[..|items|] == items;
    rows := SortBy(pts, PointDateKey);
  }
}
