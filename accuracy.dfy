/**
 * How far the estimated closes were from the official NAVs, read from the
 * daily ledger: per fund (one gap row per settled day) and per portfolio
 * (one row per day whose values can be compared), with summary statistics.
 */
module Accuracy {
  import opened Wrappers
  import opened Text
  import opened Seqs
  import opened Order
  import opened LedgerRows
  import Settlement
  import Snapshot

  /** The hit threshold of the summaries, in percent. */
  const HIT_THRESHOLD_PCT: real := 0.30

  function Abs(x: real): real {
    if x < 0.0 then -x else x
  }

  /** A day the window keeps: non-empty and not before the cutoff. */
  predicate InWindow(d: string, cutoff: string) {
    d != "" && !Before(d, cutoff)
  }

  predicate IsSettled(x: LedgerRow) {
    Strip(StatusText(x)) == Settlement.SETTLE_SETTLED
  }

  /** `(official / estimated - 1) * 100`. */
  function GapPct(off: real, est: real): real
    requires est != 0.0
  {
    (off / est - 1.0) * 100.0
  }

  /** The gap in percent is the gap in NAV as a share of the estimate. */
  lemma GapPctMeaning(off: real, est: real)
    requires est != 0.0
    ensures GapPct(off, est) * est == 100.0 * (off - est)
  {
    assert (off / est) * est == off;
  }

  // ---------------------------------------------------------------------
  // fund_gap_rows

  /** `GapRow`. */
  datatype GapRow = GapRow(date: string, estimatedNavClose: real, officialNav: real,
                           gapNav: real, gapPct: real, absGapPct: real)

  /** A ledger row `fund_gap_rows(c)` turns into a gap row. */
  predicate GapKept(x: LedgerRow, c: string, cutoff: string) {
    Strip(x.code) == c && InWindow(Strip(x.date), cutoff) && IsSettled(x) &&
    x.estimatedNavClose.Some? && x.officialNav.Some? && x.estimatedNavClose.value != 0.0
  }

  function GapKeptOn(c: string, cutoff: string): LedgerRow -> bool {
    (x: LedgerRow) => GapKept(x, c, cutoff)
  }

  function GapOf(x: LedgerRow): GapRow
    requires x.estimatedNavClose.Some? && x.officialNav.Some? && x.estimatedNavClose.value != 0.0
  {
    var est := x.estimatedNavClose.value;
    var off := x.officialNav.value;
    GapRow(Strip(x.date), est, off, off - est, GapPct(off, est), Abs(GapPct(off, est)))
  }

  /** The gap rows of `c` in ledger order. */
  function Gaps(items: seq<LedgerRow>, c: string, cutoff: string): (r: seq<GapRow>)
    ensures |r| <= |items|
  {
    if items == [] then []
    else
      var x := items[|items| - 1];
      Gaps(items[..|items| - 1], c, cutoff) + (if GapKept(x, c, cutoff) then [GapOf(x)] else [])
  }

  function GapDateKey(r: GapRow): seq<string> {
    [r.date]
  }

  /** What `fund_gap_rows(code)` returns for the ledger rows `items`, `cutoff` being today minus the window. */
  function FundGapRowsOf(items: seq<LedgerRow>, code: string, cutoff: string): seq<GapRow> {
    var c := Strip(code);
    if c == "" then [] else SortBy(Gaps(items, c, cutoff), GapDateKey)
  }

  /** Every gap row comes from one kept ledger row, and every kept ledger row gives one. */
  lemma {:induction false} GapsFrom(items: seq<LedgerRow>, c: string, cutoff: string)
    ensures |Gaps(items, c, cutoff)| == Count(items, GapKeptOn(c, cutoff))
    ensures forall x :: x in items && GapKept(x, c, cutoff) ==> GapOf(x) in Gaps(items, c, cutoff)
    ensures forall r :: r in Gaps(items, c, cutoff) ==> exists x :: x in items && GapKept(x, c, cutoff) && r == GapOf(x)
  {
    if items != [] {
      var pre := items[..|items| - 1];
      var x := items[|items| - 1];
      GapsFrom(pre, c, cutoff);
      assert items == pre + [x];
      forall y | y in items && GapKept(y, c, cutoff)
        ensures GapOf(y) in Gaps(items, c, cutoff)
      {
        if y != x {
          assert y in pre;
        }
      }
      forall r | r in Gaps(items, c, cutoff)
        ensures exists y :: y in items && GapKept(y, c, cutoff) && r == GapOf(y)
      {
        if r !in Gaps(pre, c, cutoff) {
          assert GapKept(x, c, cutoff) && r == GapOf(x);
        }
      }
    }
  }

  /**
   * A gap row: the official minus the estimate, the same gap in percent of
   * the estimate, and its absolute value.
   */
  lemma GapOfSpec(x: LedgerRow)
    requires x.estimatedNavClose.Some? && x.officialNav.Some? && x.estimatedNavClose.value != 0.0
    ensures var r := GapOf(x);
            r.date == Strip(x.date) && r.estimatedNavClose == x.estimatedNavClose.value &&
            r.officialNav == x.officialNav.value &&
            r.gapNav == r.officialNav - r.estimatedNavClose &&
            r.gapPct * r.estimatedNavClose == 100.0 * r.gapNav &&
            r.absGapPct >= 0.0 && (r.absGapPct == r.gapPct || r.absGapPct == -r.gapPct)
  {
    GapPctMeaning(x.officialNav.value, x.estimatedNavClose.value);
  }

  /**
   * `fund_gap_rows`: nothing for an empty code; otherwise the gap rows of
   * exactly the kept ledger rows (code, window, settled, both prices, a
   * non-zero estimate), sorted by date.
   */
  lemma FundGapRowsSpec(items: seq<LedgerRow>, code: string, cutoff: string)
    ensures Strip(code) == "" ==> FundGapRowsOf(items, code, cutoff) == []
    ensures var rows := FundGapRowsOf(items, code, cutoff);
            var c := Strip(code);
            c != "" ==>
              SortedBy(rows, GapDateKey) &&
              |rows| == Count(items, GapKeptOn(c, cutoff)) &&
              (forall x :: x in items && GapKept(x, c, cutoff) ==> GapOf(x) in rows) &&
              (forall r :: r in rows ==> exists x :: x in items && GapKept(x, c, cutoff) && r == GapOf(x))
  {
    var c := Strip(code);
    if c != "" {
      var g := Gaps(items, c, cutoff);
      var rows := SortBy(g, GapDateKey);
      GapsFrom(items, c, cutoff);
      SortBySorted(g, GapDateKey);
      SortByPermutation(g, GapDateKey);
      forall r
        ensures r in rows <==> r in g
      {
        assert r in rows <==> r in multiset(rows);
        assert r in g <==> r in multiset(g);
      }
    }
  }

  /** The loop of `fund_gap_rows`, then its sort by date. */
  method FundGapRows(items: seq<LedgerRow>, code: string, cutoff: string) returns (rows: seq<GapRow>)
    ensures rows == FundGapRowsOf(items, code, cutoff)
  {
    var c := Strip(code);
    if c == "" {
      return [];
    }
    rows := [];
    for i := 0 to |items|
      invariant rows == Gaps(items[..i], c, cutoff)
    {
      assert items[..i + 1][..i] == items[..i];
      var x := items[i];
      var d := Strip(x.date);
      if Strip(x.code) == c && d != "" && !Before(d, cutoff) && Strip(StatusText(x)) == Settlement.SETTLE_SETTLED &&
         x.estimatedNavClose.Some? && x.officialNav.Some? && x.estimatedNavClose.value != 0.0 {
        rows := rows + [GapOf(x)];
      }
    }
    assert items[..|items|] == items;
    rows := SortBy(rows, GapDateKey);
  }

  // ---------------------------------------------------------------------
  // Summaries

  /** The summary dict: a count and, when there are rows, the statistics and the latest row. */
  datatype Summary<L> = Summary(count: nat, maePct: Option<real>, maxAbsGapPct: Option<real>,
                                hitRatePct: Option<real>, latest: Option<L>)

  /** Python `sum` over reals. */
  function Sum(xs: seq<real>): real {
    if xs == [] then 0.0 else Sum(xs[..|xs| - 1]) + xs[|xs| - 1]
  }

  /** Python `max`: an element no smaller than any other. */
  function MaxOf(xs: seq<real>): (m: real)
    requires xs != []
    ensures m in xs
    ensures forall k :: 0 <= k < |xs| ==> xs[k] <= m
  {
    if |xs| == 1 then xs[0]
    else
      var m := MaxOf(xs[..|xs| - 1]);
      assert m in xs by {
        var j :| 0 <= j < |xs| - 1 && xs[..|xs| - 1][j] == m;
        assert xs[j] == m;
      }
      if xs[|xs| - 1] > m then xs[|xs| - 1] else m
  }

  function IsHit(): real -> bool {
    (v: real) => v <= HIT_THRESHOLD_PCT
  }

  /** The statistics both summaries compute from their rows' absolute gaps. */
  function Summarize<L>(absList: seq<real>, rows: seq<L>): Summary<L>
    requires |absList| == |rows|
  {
    if rows == [] then Summary(0, None, None, None, None)
    else
      var n := |absList| as real;
      Summary(|rows|, Some(Sum(absList) / n), Some(MaxOf(absList)),
              Some(Count(absList, IsHit()) as real / n * 100.0), Some(rows[|rows| - 1]))
  }

  /** A sum of values between `lo` and `hi` lies between `n * lo` and `n * hi`. */
  lemma {:induction false} SumBetween(xs: seq<real>, lo: real, hi: real)
    requires forall x :: x in xs ==> lo <= x <= hi
    ensures (|xs| as real) * lo <= Sum(xs) <= (|xs| as real) * hi
  {
    if xs == [] {
      assert (|xs| as real) * lo == 0.0 == (|xs| as real) * hi;
    } else {
      var pre := xs[..|xs| - 1];
      assert forall x :: x in pre ==> x in xs;
      SumBetween(pre, lo, hi);
      var x := xs[|xs| - 1];
      assert x in xs;
      var n := |pre| as real;
      var sp := Sum(pre);
      assert Sum(xs) == sp + x;
      assert |xs| as real == n + 1.0;
      assert n * lo <= sp <= n * hi;
      assert n * lo + lo <= sp + x <= n * hi + hi;
      assert (n + 1.0) * lo == n * lo + lo && (n + 1.0) * hi == n * hi + hi;
    }
  }

  /**
   * The summary of rows with non-negative gaps: no statistics without rows;
   * otherwise the count, a mean between 0 and the maximum, a maximum that
   * is one of the gaps and bounds them all, a hit rate between 0 and 100
   * and the last row as the latest.
   */
  lemma SummarizeSpec<L>(absList: seq<real>, rows: seq<L>)
    requires |absList| == |rows|
    requires forall x :: x in absList ==> x >= 0.0
    ensures var s := Summarize(absList, rows);
            s.count == |rows| &&
            (rows == [] <==> s.maePct.None?) &&
            (rows == [] ==> s == Summary(0, None, None, None, None)) &&
            (rows != [] ==>
              s.maePct.Some? && s.maxAbsGapPct.Some? && s.hitRatePct.Some? && s.latest == Some(rows[|rows| - 1]) &&
              0.0 <= s.maePct.value <= s.maxAbsGapPct.value &&
              s.maxAbsGapPct.value in absList && (forall k :: 0 <= k < |absList| ==> absList[k] <= s.maxAbsGapPct.value) &&
              0.0 <= s.hitRatePct.value <= 100.0)
  {
    if rows != [] {
      var n := |absList| as real;
      var m := MaxOf(absList);
      SumBetween(absList, 0.0, m);
      Snapshot.QuotientBetween(0.0, m, Sum(absList), n);
      var h := Count(absList, IsHit()) as real;
      assert h <= n;
      Snapshot.QuotientBetween(0.0, 1.0, h, n);
    }
  }

  /** The absolute gaps of a list of rows, each read through `gap`; both tables summarise this list. */
  function AbsGaps<R>(rows: seq<R>, gap: R -> real): (r: seq<real>)
    ensures |r| == |rows|
    ensures forall k :: 0 <= k < |rows| ==> r[k] == gap(rows[k])
  {
    if rows == [] then [] else AbsGaps(rows[..|rows| - 1], gap) + [gap(rows[|rows| - 1])]
  }

  function GapAbs(g: GapRow): real {
    g.absGapPct
  }

  /** Every gap row of `fund_gap_rows` has a non-negative absolute gap. */
  lemma FundGapRowsNonNegative(items: seq<LedgerRow>, code: string, cutoff: string)
    ensures forall g :: g in AbsGaps(FundGapRowsOf(items, code, cutoff), GapAbs) ==> g >= 0.0
  {
    var rows := FundGapRowsOf(items, code, cutoff);
    var c := Strip(code);
    if c != "" {
      FundGapRowsSpec(items, code, cutoff);
      forall k | 0 <= k < |rows|
        ensures rows[k].absGapPct >= 0.0
      {
        assert rows[k] in rows;
        var x :| x in items && GapKept(x, c, cutoff) && rows[k] == GapOf(x);
      }
    }
  }

  /**
   * `fund_gap_summary`: the statistics of `fund_gap_rows`. With rows, the
   * mean lies between 0 and the maximum, the hit rate between 0 and 100,
   * and the latest row has the latest date of all.
   */
  method FundGapSummary(items: seq<LedgerRow>, code: string, cutoff: string) returns (s: Summary<GapRow>)
    ensures var rows := FundGapRowsOf(items, code, cutoff);
            s == Summarize(AbsGaps(rows, GapAbs), rows)
    ensures s.count == |FundGapRowsOf(items, code, cutoff)|
    ensures s.count == 0 ==> s == Summary(0, None, None, None, None)
    ensures s.count > 0 ==>
              s.maePct.Some? && s.maxAbsGapPct.Some? && s.hitRatePct.Some? && s.latest.Some? &&
              0.0 <= s.maePct.value <= s.maxAbsGapPct.value && 0.0 <= s.hitRatePct.value <= 100.0 &&
              forall r :: r in FundGapRowsOf(items, code, cutoff) ==> LexLe(r.date, s.latest.value.date)
  {
    var rows := FundGapRows(items, code, cutoff);
    s := Summarize(AbsGaps(rows, GapAbs), rows);
    FundGapRowsNonNegative(items, code, cutoff);
    SummarizeSpec(AbsGaps(rows, GapAbs), rows);
    if rows != [] {
      FundGapRowsSpec(items, code, cutoff);
      LastIsLatest(rows);
    }
  }

  /** In rows sorted by date, the last one has the latest date. */
  lemma LastIsLatest(rows: seq<GapRow>)
    requires rows != [] && SortedBy(rows, GapDateKey)
    ensures forall r :: r in rows ==> LexLe(r.date, rows[|rows| - 1].date)
  {
    forall r | r in rows
      ensures LexLe(r.date, rows[|rows| - 1].date)
    {
      var k :| 0 <= k < |rows| && rows[k] == r;
      if k < |rows| - 1 {
        KeysLeSingle(r.date, rows[|rows| - 1].date);
      } else {
        LexLeRefl(r.date);
      }
    }
  }

  // ---------------------------------------------------------------------
  // guess_gap_reasons

  /** The reasons, as tokens: one severity and, above the hit threshold, four generic causes. */
  datatype Reason = SmallGap | MediumGap | LargeGap | EtfPricing | CrossMarket | CorporateAction | PublishDelay

  predicate IsSeverity(r: Reason) {
    r == SmallGap || r == MediumGap || r == LargeGap
  }

  function GuessGapReasons(code: string, latestAbsGapPct: real): seq<Reason> {
    if latestAbsGapPct <= HIT_THRESHOLD_PCT then [SmallGap]
    else
      (if latestAbsGapPct <= 1.0 then [MediumGap] else []) +
      (if latestAbsGapPct > 1.0 then [LargeGap] else []) +
      [EtfPricing, CrossMarket, CorporateAction, PublishDelay]
  }

  /**
   * Exactly one reason when the gap is within the hit threshold; otherwise
   * one severity (medium up to 1%, large beyond) followed by the four
   * generic causes.
   */
  lemma GuessGapReasonsSpec(code: string, g: real)
    ensures var r := GuessGapReasons(code, g);
            (|r| == 1 <==> g <= HIT_THRESHOLD_PCT) &&
            (g <= HIT_THRESHOLD_PCT ==> r == [SmallGap]) &&
            (g > HIT_THRESHOLD_PCT ==>
              |r| == 5 && IsSeverity(r[0]) && (forall k :: 1 <= k < 5 ==> !IsSeverity(r[k])) &&
              (r[0] == MediumGap <==> g <= 1.0) && (r[0] == LargeGap <==> g > 1.0))
  {
  }

  // ---------------------------------------------------------------------
  // portfolio_gap_summary (the definition in effect) and portfolio_gap_table

  /** Missing shares count as 0. */
  function Shares(x: LedgerRow): real {
    x.sharesEnd.GetOr(0.0)
  }

  /** A settled row with an official NAV: the only rows the official total counts. */
  predicate HasOfficial(x: LedgerRow) {
    IsSettled(x) && x.officialNav.Some?
  }

  function EstValue(x: LedgerRow): real
    requires x.estimatedNavClose.Some?
  {
    Shares(x) * x.estimatedNavClose.value
  }

  function OffValue(x: LedgerRow): real
    requires x.officialNav.Some?
  {
    Shares(x) * x.officialNav.value
  }

  /** What one row adds to `est_total`. */
  function EstPart(x: LedgerRow): real {
    if x.estimatedNavClose.Some? then EstValue(x) else 0.0
  }

  /** What one row adds to `off_total`. */
  function OffPart(x: LedgerRow): real {
    if HasOfficial(x) then OffValue(x) else 0.0
  }

  /** `est_total`: shares times estimate over the rows having an estimate. */
  function EstTotal(its: seq<LedgerRow>): real {
    if its == [] then 0.0 else EstTotal(its[..|its| - 1]) + EstPart(its[|its| - 1])
  }

  /** `off_total`: shares times official NAV over the settled rows having one. */
  function OffTotal(its: seq<LedgerRow>): real {
    if its == [] then 0.0 else OffTotal(its[..|its| - 1]) + OffPart(its[|its| - 1])
  }

  predicate EstOk(its: seq<LedgerRow>) {
    exists k :: 0 <= k < |its| && its[k].estimatedNavClose.Some?
  }

  /** `settled_any`, which is also `off_ok`. */
  predicate SettledAny(its: seq<LedgerRow>) {
    exists k :: 0 <= k < |its| && HasOfficial(its[k])
  }

  /** A day is compared when one of its rows is settled with an official NAV and the estimated total is not 0. */
  predicate DayCounts(its: seq<LedgerRow>) {
    SettledAny(its) && EstOk(its) && EstTotal(its) != 0.0
  }

  function HasOfficialRow(): LedgerRow -> bool {
    (x: LedgerRow) => HasOfficial(x)
  }

  function HasEstimate(): LedgerRow -> bool {
    (x: LedgerRow) => x.estimatedNavClose.Some?
  }

  /** Rows without a settled official NAV add nothing to the official total. */
  lemma {:induction false} OffTotalSettledOnly(its: seq<LedgerRow>)
    ensures OffTotal(its) == OffTotal(Filter(its, HasOfficialRow()))
  {
    if its != [] {
      var pre := its[..|its| - 1];
      var x := its[|its| - 1];
      OffTotalSettledOnly(pre);
      var f := Filter(pre, HasOfficialRow());
      assert OffTotal(its) == OffTotal(pre) + OffPart(x);
      if HasOfficial(x) {
        assert Filter(its, HasOfficialRow()) == f + [x];
        var g := f + [x];
        assert g[..|g| - 1] == f;
        assert OffTotal(g) == OffTotal(f) + OffPart(x);
      } else {
        assert Filter(its, HasOfficialRow()) == f + [];
        assert f + [] == f;
      }
    }
  }

  /** Rows without an estimate add nothing to the estimated total. */
  lemma {:induction false} EstTotalEstimatedOnly(its: seq<LedgerRow>)
    ensures EstTotal(its) == EstTotal(Filter(its, HasEstimate()))
  {
    if its != [] {
      var pre := its[..|its| - 1];
      var x := its[|its| - 1];
      EstTotalEstimatedOnly(pre);
      var f := Filter(pre, HasEstimate());
      assert EstTotal(its) == EstTotal(pre) + EstPart(x);
      if x.estimatedNavClose.Some? {
        assert Filter(its, HasEstimate()) == f + [x];
        var g := f + [x];
        assert g[..|g| - 1] == f;
        assert EstTotal(g) == EstTotal(f) + EstPart(x);
      } else {
        assert Filter(its, HasEstimate()) == f + [];
        assert f + [] == f;
      }
    }
  }

  /** The rows of day `d` in ledger order; none when `d` is outside the window. */
  function OnDay(d: string, cutoff: string): LedgerRow -> bool {
    (x: LedgerRow) => Strip(x.date) == d && InWindow(d, cutoff)
  }

  function Group(items: seq<LedgerRow>, cutoff: string, d: string): seq<LedgerRow> {
    Filter(items, OnDay(d, cutoff))
  }

  /** One row of the portfolio gap table. */
  datatype PortfolioRow = PortfolioRow(date: string, estValue: real, offValue: real, gap: real, gapPct: real,
                                       absGapPct: real)

  function DayRow(d: string, its: seq<LedgerRow>): PortfolioRow
    requires EstTotal(its) != 0.0
  {
    var e := EstTotal(its);
    var o := OffTotal(its);
    PortfolioRow(d, e, o, o - e, GapPct(o, e), Abs(GapPct(o, e)))
  }

  function PortfolioDateKey(r: PortfolioRow): seq<string> {
    [r.date]
  }

  predicate DatesDistinct(rows: seq<PortfolioRow>) {
    forall i, j :: 0 <= i < j < |rows| ==> rows[i].date != rows[j].date
  }

  /**
   * The portfolio gap table of the ledger rows `items`: strictly ascending
   * dates, each row the totals of its day, the day counted, and every
   * counted day present.
   */
  predicate IsGapTable(rows: seq<PortfolioRow>, items: seq<LedgerRow>, cutoff: string) {
    SortedBy(rows, PortfolioDateKey) && DatesDistinct(rows) &&
    (forall k :: 0 <= k < |rows| ==>
      DayCounts(Group(items, cutoff, rows[k].date)) && rows[k] == DayRow(rows[k].date, Group(items, cutoff, rows[k].date))) &&
    (forall i :: 0 <= i < |items| && DayCounts(Group(items, cutoff, Strip(items[i].date))) ==>
      exists k :: 0 <= k < |rows| && rows[k].date == Strip(items[i].date))
  }

  /** The rows for the days `days`, in that order. */
  function DayRows(days: seq<string>, items: seq<LedgerRow>, cutoff: string): seq<PortfolioRow> {
    if days == [] then []
    else
      var d := days[|days| - 1];
      var its := Group(items, cutoff, d);
      DayRows(days[..|days| - 1], items, cutoff) + (if DayCounts(its) then [DayRow(d, its)] else [])
  }

  lemma {:induction false} DayRowsFrom(days: seq<string>, items: seq<LedgerRow>, cutoff: string)
    ensures forall k :: 0 <= k < |DayRows(days, items, cutoff)| ==>
              var r := DayRows(days, items, cutoff)[k];
              r.date in days && DayCounts(Group(items, cutoff, r.date)) && r == DayRow(r.date, Group(items, cutoff, r.date))
  {
    if days != [] {
      var n := |days| - 1;
      var rs := DayRows(days[..n], items, cutoff);
      DayRowsFrom(days[..n], items, cutoff);
      var r := DayRows(days, items, cutoff);
      forall k | 0 <= k < |r|
        ensures r[k].date in days && DayCounts(Group(items, cutoff, r[k].date)) &&
                r[k] == DayRow(r[k].date, Group(items, cutoff, r[k].date))
      {
        if k < |rs| {
          assert r[k] == rs[k];
          assert rs[k].date in days[..n];
        }
      }
    }
  }

  lemma {:induction false} DayRowsCover(days: seq<string>, items: seq<LedgerRow>, cutoff: string, j: nat)
    requires j < |days| && DayCounts(Group(items, cutoff, days[j]))
    ensures exists k :: 0 <= k < |DayRows(days, items, cutoff)| && DayRows(days, items, cutoff)[k].date == days[j]
  {
    var n := |days| - 1;
    if j < n {
      DayRowsCover(days[..n], items, cutoff, j);
      var k :| 0 <= k < |DayRows(days[..n], items, cutoff)| && DayRows(days[..n], items, cutoff)[k].date == days[..n][j];
      assert DayRows(days, items, cutoff)[k] == DayRows(days[..n], items, cutoff)[k];
    } else {
      assert DayRows(days, items, cutoff)[|DayRows(days[..n], items, cutoff)|].date == days[j];
    }
  }

  lemma {:induction false} DayRowsDistinct(days: seq<string>, items: seq<LedgerRow>, cutoff: string)
    requires Distinct(days)
    ensures DatesDistinct(DayRows(days, items, cutoff))
  {
    if days != [] {
      var n := |days| - 1;
      var rs := DayRows(days[..n], items, cutoff);
      DayRowsDistinct(days[..n], items, cutoff);
      DayRowsFrom(days[..n], items, cutoff);
      var r := DayRows(days, items, cutoff);
      forall i, j | 0 <= i < j < |r|
        ensures r[i].date != r[j].date
      {
        if j >= |rs| {
          assert r[i] == rs[i];
          assert rs[i].date in days[..n];
        } else {
          assert r[i] == rs[i] && r[j] == rs[j];
        }
      }
    }
  }

  /** Reordering rows with distinct dates keeps them distinct. */
  lemma PermutationDatesDistinct(a: seq<PortfolioRow>, b: seq<PortfolioRow>)
    requires multiset(a) == multiset(b) && DatesDistinct(a)
    ensures DatesDistinct(b)
  {
    assert Distinct(a);
    PermutationDistinct(a, b);
    forall i, j | 0 <= i < j < |b|
      ensures b[i].date != b[j].date
    {
      assert b[i] in multiset(a) && b[j] in multiset(a);
      var p :| 0 <= p < |a| && a[p] == b[i];
      var q :| 0 <= q < |a| && a[q] == b[j];
      assert p != q;
    }
  }

  /** The state of the grouping loop after the first `i` rows. */
  ghost predicate Grouped(items: seq<LedgerRow>, cutoff: string, i: nat, byDate: map<string, seq<LedgerRow>>,
                          order: seq<string>)
    requires i <= |items|
  {
    && Distinct(order)
    && (forall d :: d in byDate <==> d in order)
    && (forall d :: d in byDate ==> byDate[d] == Filter(items[..i], OnDay(d, cutoff)))
    && (forall k :: 0 <= k < i && InWindow(Strip(items[k].date), cutoff) ==> Strip(items[k].date) in byDate)
  }

  /** A day the loop has no group for has no rows among those already seen. */
  lemma NoRowsYet(items: seq<LedgerRow>, cutoff: string, i: nat, prev: map<string, seq<LedgerRow>>,
                  prevOrder: seq<string>, e: string)
    requires i <= |items| && Grouped(items, cutoff, i, prev, prevOrder) && e !in prev
    ensures Filter(items[..i], OnDay(e, cutoff)) == []
  {
    forall k | 0 <= k < |items[..i]|
      ensures !OnDay(e, cutoff)(items[..i][k])
    {
      assert items[..i][k] == items[k];
    }
    FilterNone(items[..i], OnDay(e, cutoff));
  }

  /** One row more: the groups of `items[..i + 1]` from those of `items[..i]`. */
  lemma GroupStep(items: seq<LedgerRow>, cutoff: string, i: nat, prev: map<string, seq<LedgerRow>>,
                  prevOrder: seq<string>, next: map<string, seq<LedgerRow>>, nextOrder: seq<string>)
    requires i < |items| && Grouped(items, cutoff, i, prev, prevOrder)
    requires var d := Strip(items[i].date);
             next == if InWindow(d, cutoff) then prev[d := if d in prev then prev[d] + [items[i]] else [items[i]]] else prev
    requires var d := Strip(items[i].date);
             nextOrder == if InWindow(d, cutoff) && d !in prev then prevOrder + [d] else prevOrder
    ensures Grouped(items, cutoff, i + 1, next, nextOrder)
  {
    GroupRowsStep(items, cutoff, i, prev, prevOrder, next);
    var d := Strip(items[i].date);
    if InWindow(d, cutoff) && d !in prev {
      assert forall j :: 0 <= j < |prevOrder| ==> nextOrder[j] == prevOrder[j];
    }
  }

  /** The rows side of `GroupStep`: each group gains the row exactly when it is on its day. */
  lemma GroupRowsStep(items: seq<LedgerRow>, cutoff: string, i: nat, prev: map<string, seq<LedgerRow>>,
                      prevOrder: seq<string>, next: map<string, seq<LedgerRow>>)
    requires i < |items| && Grouped(items, cutoff, i, prev, prevOrder)
    requires var d := Strip(items[i].date);
             next == if InWindow(d, cutoff) then prev[d := if d in prev then prev[d] + [items[i]] else [items[i]]] else prev
    ensures forall e :: e in next ==> next[e] == Filter(items[..i + 1], OnDay(e, cutoff))
  {
    forall e | e in next
      ensures next[e] == Filter(items[..i + 1], OnDay(e, cutoff))
    {
      FilterPrefixStep(items, i, OnDay(e, cutoff));
      if e !in prev {
        NoRowsYet(items, cutoff, i, prev, prevOrder, e);
      }
    }
  }

  /**
   * Grouping the window's ledger rows by their stripped date; `order` holds
   * the dates in first-seen order, as the dict's keys are.
   */
  method GroupByDate(items: seq<LedgerRow>, cutoff: string) returns (byDate: map<string, seq<LedgerRow>>, order: seq<string>)
    ensures Distinct(order)
    ensures forall d :: d in byDate <==> d in order
    ensures forall d :: d in byDate ==> byDate[d] == Group(items, cutoff, d)
    ensures forall i :: 0 <= i < |items| && InWindow(Strip(items[i].date), cutoff) ==> Strip(items[i].date) in byDate
  {
    byDate := map[];
    order := [];
    for i := 0 to |items|
      invariant Grouped(items, cutoff, i, byDate, order)
    {
      var x := items[i];
      var d := Strip(x.date);
      ghost var prev, prevOrder := byDate, order;
      if d != "" && !Before(d, cutoff) {
        if d in byDate {
          byDate := byDate[d := byDate[d] + [x]];
        } else {
          byDate := byDate[d := [x]];
          order := order + [d];
        }
      }
      GroupStep(items, cutoff, i, prev, prevOrder, byDate, order);
    }
    assert items[..|items|] == items;
  }

  /** The accumulation loop over one day's rows. */
  method DayTotals(its: seq<LedgerRow>) returns (estTotal: real, offTotal: real, estOk: bool, offOk: bool)
    ensures estTotal == EstTotal(its) && offTotal == OffTotal(its)
    ensures estOk == EstOk(its) && offOk == SettledAny(its)
  {
    estTotal, offTotal, estOk, offOk := 0.0, 0.0, false, false;
    for i := 0 to |its|
      invariant estTotal == EstTotal(its[..i]) && offTotal == OffTotal(its[..i])
      invariant estOk == EstOk(its[..i]) && offOk == SettledAny(its[..i])
    {
      TotalsStep(its, i);
      var x := its[i];
      if x.estimatedNavClose.Some? {
        estTotal := estTotal + EstValue(x);
        estOk := true;
      }
      if x.officialNav.Some? && Strip(StatusText(x)) == Settlement.SETTLE_SETTLED {
        offTotal := offTotal + OffValue(x);
        offOk := true;
      }
    }
    assert its[..|its|] == its;
  }

  /** One more row of a day: the step of the accumulation loop. */
  lemma TotalsStep(its: seq<LedgerRow>, i: nat)
    requires i < |its|
    ensures EstTotal(its[..i + 1]) == EstTotal(its[..i]) + EstPart(its[i])
    ensures OffTotal(its[..i + 1]) == OffTotal(its[..i]) + OffPart(its[i])
    ensures EstOk(its[..i + 1]) <==> EstOk(its[..i]) || its[i].estimatedNavClose.Some?
    ensures SettledAny(its[..i + 1]) <==> SettledAny(its[..i]) || HasOfficial(its[i])
  {
    var a := its[..i];
    var b := its[..i + 1];
    assert b[..i] == a;
    assert forall k :: 0 <= k < i ==> b[k] == a[k];
    assert b[i] == its[i];
  }

  /** The rows both portfolio functions build, before their sort by date. */
  method CollectDayRows(order: seq<string>, byDate: map<string, seq<LedgerRow>>, items: seq<LedgerRow>, cutoff: string)
    returns (rows: seq<PortfolioRow>)
    requires forall d :: d in order ==> d in byDate && byDate[d] == Group(items, cutoff, d)
    ensures rows == DayRows(order, items, cutoff)
  {
    rows := [];
    for j := 0 to |order|
      invariant rows == DayRows(order[..j], items, cutoff)
    {
      assert order[..j + 1][..j] == order[..j];
      var d := order[j];
      var row := DayRowFor(d, byDate[d]);
      if row.Some? {
        rows := rows + [row.value];
      }
    }
    assert order[..|order|] == order;
  }

  /** One day of the portfolio loop: its row when the day is compared. */
  method DayRowFor(d: string, its: seq<LedgerRow>) returns (row: Option<PortfolioRow>)
    ensures row == if DayCounts(its) then Some(DayRow(d, its)) else None
  {
    var settledAny := exists k :: 0 <= k < |its| && HasOfficial(its[k]);
    if !settledAny {
      return None;
    }
    var e, o, estOk, offOk := DayTotals(its);
    if !(estOk && offOk) || e == 0.0 {
      return None;
    }
    return Some(PortfolioRow(d, e, o, o - e, GapPct(o, e), Abs(GapPct(o, e))));
  }

  /** The grouping, aggregation and sort both `portfolio_gap_summary` and `portfolio_gap_table` perform. */
  method PortfolioGapRows(items: seq<LedgerRow>, cutoff: string) returns (rows: seq<PortfolioRow>)
    ensures IsGapTable(rows, items, cutoff)
  {
    var byDate, order := GroupByDate(items, cutoff);
    var built := CollectDayRows(order, byDate, items, cutoff);
    rows := SortBy(built, PortfolioDateKey);
    GapTableOfDays(order, items, cutoff);
  }

  /** Sorting the rows of distinct days that include every day of the window gives the gap table. */
  lemma GapTableOfDays(order: seq<string>, items: seq<LedgerRow>, cutoff: string)
    requires Distinct(order)
    requires forall i :: 0 <= i < |items| && InWindow(Strip(items[i].date), cutoff) ==> Strip(items[i].date) in order
    ensures IsGapTable(SortBy(DayRows(order, items, cutoff), PortfolioDateKey), items, cutoff)
  {
    var built := DayRows(order, items, cutoff);
    var rows := SortBy(built, PortfolioDateKey);
    SortBySorted(built, PortfolioDateKey);
    SortByPermutation(built, PortfolioDateKey);
    DayRowsDistinct(order, items, cutoff);
    PermutationDatesDistinct(built, rows);
    DayRowsFrom(order, items, cutoff);
    forall k | 0 <= k < |rows|
      ensures DayCounts(Group(items, cutoff, rows[k].date)) && rows[k] == DayRow(rows[k].date, Group(items, cutoff, rows[k].date))
    {
      assert rows[k] in multiset(built);
      var p :| 0 <= p < |built| && built[p] == rows[k];
    }
    forall i | 0 <= i < |items| && DayCounts(Group(items, cutoff, Strip(items[i].date)))
      ensures exists k :: 0 <= k < |rows| && rows[k].date == Strip(items[i].date)
    {
      var d := Strip(items[i].date);
      DayOutsideWindow(items, cutoff, d);
      var j :| 0 <= j < |order| && order[j] == d;
      DayRowsCover(order, items, cutoff, j);
      var p :| 0 <= p < |built| && built[p].date == d;
      assert built[p] in multiset(rows);
      var k :| 0 <= k < |rows| && rows[k] == built[p];
    }
  }

  /** A day outside the window has no rows, so it is never compared. */
  lemma DayOutsideWindow(items: seq<LedgerRow>, cutoff: string, d: string)
    ensures DayCounts(Group(items, cutoff, d)) ==> InWindow(d, cutoff)
  {
    if !InWindow(d, cutoff) {
      FilterNone(items, OnDay(d, cutoff));
    }
  }

  function PortfolioAbs(p: PortfolioRow): real {
    p.absGapPct
  }

  /** `portfolio_gap_table`: the gap table. */
  method PortfolioGapTable(items: seq<LedgerRow>, cutoff: string) returns (rows: seq<PortfolioRow>)
    ensures IsGapTable(rows, items, cutoff)
  {
    rows := PortfolioGapRows(items, cutoff);
  }

  /**
   * `portfolio_gap_summary`: the statistics of the gap table; with rows,
   * the mean lies between 0 and the maximum, the hit rate between 0 and
   * 100, and the latest row is the one of the latest day.
   */
  method PortfolioGapSummary(items: seq<LedgerRow>, cutoff: string) returns (s: Summary<PortfolioRow>, rows: seq<PortfolioRow>)
    ensures IsGapTable(rows, items, cutoff)
    ensures s == Summarize(AbsGaps(rows, PortfolioAbs), rows)
    ensures s.count == |rows|
    ensures s.count == 0 ==> s == Summary(0, None, None, None, None)
    ensures s.count > 0 ==>
              s.maePct.Some? && s.maxAbsGapPct.Some? && s.hitRatePct.Some? && s.latest == Some(rows[|rows| - 1]) &&
              0.0 <= s.maePct.value <= s.maxAbsGapPct.value && 0.0 <= s.hitRatePct.value <= 100.0 &&
              forall k :: 0 <= k < |rows| - 1 ==> Before(rows[k].date, s.latest.value.date)
  {
    rows := PortfolioGapRows(items, cutoff);
    s := Summarize(AbsGaps(rows, PortfolioAbs), rows);
    SummarizeSpec(AbsGaps(rows, PortfolioAbs), rows);
    forall k | 0 <= k < |rows| - 1
      ensures Before(rows[k].date, rows[|rows| - 1].date)
    {
      KeysLeSingle(rows[k].date, rows[|rows| - 1].date);
    }
  }
}
