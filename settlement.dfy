/**
 * The daily ledger: one row per (date, code) holding the end-of-day
 * position, the estimated close and, once the official NAV of that very
 * day is published, the official close. Rows are upserted by the end-of-day
 * finalisation and move from `estimated_only` to `settled` exactly once.
 */
module Settlement {
  import opened Wrappers
  import opened Seqs
  import opened Journal
  import opened Snapshot

  const SETTLE_ESTIMATED_ONLY: string := "estimated_only"
  const SETTLE_SETTLED: string := "settled"

  /** `DailyLedgerItem`, with the realized profit the code also stores. */
  datatype LedgerItem = LedgerItem(
    date: string, code: string,
    sharesEnd: real, avgCostNavEnd: real, realizedPnlEnd: real,
    estimatedNavClose: real, estimatedPnlClose: real,
    officialNav: Option<real>, officialPnl: Option<real>,
    settleStatus: string, updatedAt: string)

  /** The ledger document: its rows and the bookkeeping fields the updaters write. */
  datatype Ledger = Ledger(items: seq<LedgerItem>, updatedAt: Option<string>,
                           lastSettleDay: Option<string>, lastSettleCount: Option<nat>)

  /** Profit of a position valued at `nav`: value minus cost plus what was already realized. */
  function Pnl(shares: real, avgCost: real, nav: real, realized: real): real {
    shares * nav - shares * avgCost + realized
  }

  predicate At(it: LedgerItem, d: string, c: string) {
    it.date == d && it.code == c
  }

  /** The position of the first row of (d, c), if any. */
  function FirstIndex(items: seq<LedgerItem>, d: string, c: string): (r: Option<nat>)
    ensures r.Some? ==> r.value < |items| && At(items[r.value], d, c)
    ensures r.Some? ==> forall k :: 0 <= k < r.value ==> !At(items[k], d, c)
    ensures r.None? ==> forall k :: 0 <= k < |items| ==> !At(items[k], d, c)
  {
    if items == [] then None
    else if At(items[0], d, c) then Some(0)
    else match FirstIndex(items[1..], d, c)
      case None => None
      case Some(i) => Some(i + 1)
  }

  /** `_find_item_index`: a left-to-right scan for the first row of (d, c). */
  method FindItemIndex(items: seq<LedgerItem>, d: string, c: string) returns (r: Option<nat>)
    ensures r == FirstIndex(items, d, c)
  {
    var i := 0;
    while i < |items|
      invariant 0 <= i <= |items|
      invariant forall k :: 0 <= k < i ==> !At(items[k], d, c)
    {
      if items[i].date == d && items[i].code == c {
        return Some(i);
      }
      i := i + 1;
    }
    return None;
  }

  /** Two lists whose rows match (d, c) at the same places have the same first match. */
  lemma FirstIndexSameMatches(a: seq<LedgerItem>, b: seq<LedgerItem>, d: string, c: string)
    requires |a| <= |b|
    requires forall k :: 0 <= k < |a| ==> (At(a[k], d, c) <==> At(b[k], d, c))
    requires forall k :: |a| <= k < |b| ==> !At(b[k], d, c)
    ensures FirstIndex(a, d, c) == FirstIndex(b, d, c)
  {
    var fa := FirstIndex(a, d, c);
    var fb := FirstIndex(b, d, c);
    if fa.Some? {
      assert fb.Some? && fb.value == fa.value;
    }
  }

  // ---------------------------------------------------------------------
  // finalize_estimated_close

  /** The estimated close of `c`, or 0 when the estimator gave none. */
  function EstNavOf(est: map<string, real>, c: string): real {
    if c in est then est[c] else 0.0
  }

  /** The fresh `estimated_only` row for snapshot `s` on day `d`. */
  function Payload(d: string, s: PositionSnapshot, estNav: real, now: string): LedgerItem {
    LedgerItem(d, s.code, s.sharesEnd, s.avgCostNavEnd, s.realizedPnlEnd,
               estNav, Pnl(s.sharesEnd, s.avgCostNavEnd, estNav, s.realizedPnlEnd),
               None, None, SETTLE_ESTIMATED_ONLY, now)
  }

  /** A settled row only takes the new position fields and the clock. */
  function Refresh(it: LedgerItem, s: PositionSnapshot, now: string): LedgerItem {
    it.(sharesEnd := s.sharesEnd, avgCostNavEnd := s.avgCostNavEnd, realizedPnlEnd := s.realizedPnlEnd, updatedAt := now)
  }

  /** The upsert of one snapshot row. */
  function FinalizeOne(items: seq<LedgerItem>, d: string, s: PositionSnapshot, est: map<string, real>, now: string)
    : seq<LedgerItem>
  {
    match FirstIndex(items, d, s.code)
    case None => items + [Payload(d, s, EstNavOf(est, s.code), now)]
    case Some(i) =>
      if items[i].settleStatus == SETTLE_SETTLED then items[i := Refresh(items[i], s, now)]
      else items[i := Payload(d, s, EstNavOf(est, s.code), now)]
  }

  /** The upserts of all snapshot rows, in order. */
  function FinalizeAll(items: seq<LedgerItem>, d: string, snaps: seq<PositionSnapshot>, est: map<string, real>,
                       now: string): seq<LedgerItem>
  {
    if snaps == [] then items
    else FinalizeOne(FinalizeAll(items, d, snaps[..|snaps| - 1], est, now), d, snaps[|snaps| - 1], est, now)
  }

  /**
   * One upsert: a missing (d, c) gets one appended estimated-only row; a
   * settled row keeps its official figures and status and takes the new
   * position; any other row is replaced. Every other row stays in place.
   */
  lemma FinalizeOneSpec(items: seq<LedgerItem>, d: string, s: PositionSnapshot, est: map<string, real>, now: string)
    ensures var r := FinalizeOne(items, d, s, est, now);
            var f := FirstIndex(items, d, s.code);
            var payload := Payload(d, s, EstNavOf(est, s.code), now);
            (forall k :: 0 <= k < |items| && f != Some(k) ==> r[k] == items[k]) &&
            (f.None? ==> r == items + [payload]) &&
            (f.Some? && items[f.value].settleStatus == SETTLE_SETTLED ==>
              |r| == |items| &&
              r[f.value].officialNav == items[f.value].officialNav &&
              r[f.value].officialPnl == items[f.value].officialPnl &&
              r[f.value].settleStatus == SETTLE_SETTLED &&
              r[f.value].estimatedNavClose == items[f.value].estimatedNavClose &&
              r[f.value].estimatedPnlClose == items[f.value].estimatedPnlClose &&
              r[f.value].sharesEnd == s.sharesEnd && r[f.value].avgCostNavEnd == s.avgCostNavEnd &&
              r[f.value].realizedPnlEnd == s.realizedPnlEnd && r[f.value].updatedAt == now) &&
            (f.Some? && items[f.value].settleStatus != SETTLE_SETTLED ==> |r| == |items| && r[f.value] == payload)
  {
  }

  /** After one upsert, the first row of (d, s.code) carries the snapshot's position. */
  lemma FinalizeOneCovers(items: seq<LedgerItem>, d: string, s: PositionSnapshot, est: map<string, real>, now: string)
    ensures var r := FinalizeOne(items, d, s, est, now);
            var f := FirstIndex(r, d, s.code);
            f.Some? && r[f.value].sharesEnd == s.sharesEnd && r[f.value].avgCostNavEnd == s.avgCostNavEnd &&
            r[f.value].realizedPnlEnd == s.realizedPnlEnd
  {
    var r := FinalizeOne(items, d, s, est, now);
    var f := FirstIndex(items, d, s.code);
    if f.Some? {
      FirstIndexSameMatches(items, r, d, s.code);
    } else {
      FirstIndexSameMatches(items, items, d, s.code);
      assert FirstIndex(r, d, s.code) == Some(|items|) by {
        assert At(r[|items|], d, s.code);
        assert forall k :: 0 <= k < |items| ==> r[k] == items[k];
      }
    }
  }

  /** One upsert for code `x` leaves the first row of every other code where it was, unchanged. */
  lemma FinalizeOneOther(items: seq<LedgerItem>, d: string, s: PositionSnapshot, est: map<string, real>, now: string,
                         c: string)
    requires c != s.code
    ensures var r := FinalizeOne(items, d, s, est, now);
            FirstIndex(r, d, c) == FirstIndex(items, d, c) &&
            (FirstIndex(items, d, c).Some? ==> r[FirstIndex(items, d, c).value] == items[FirstIndex(items, d, c).value])
  {
    var r := FinalizeOne(items, d, s, est, now);
    FinalizeOneSpec(items, d, s, est, now);
    var f := FirstIndex(items, d, s.code);
    assert |items| <= |r|;
    forall k | 0 <= k < |items|
      ensures At(items[k], d, c) <==> At(r[k], d, c)
    {
      if f == Some(k) {
        assert r[k].code == s.code && items[k].code == s.code;
      }
    }
    forall k | |items| <= k < |r|
      ensures !At(r[k], d, c)
    {
      assert r[k].code == s.code;
    }
    FirstIndexSameMatches(items, r, d, c);
  }

  /**
   * Finalisation never deletes: the ledger only grows, and rows of other
   * dates or of codes absent from the snapshot are left exactly as they were.
   */
  lemma {:induction false} FinalizeKeepsOthers(items: seq<LedgerItem>, d: string, snaps: seq<PositionSnapshot>,
                                               est: map<string, real>, now: string)
    ensures var r := FinalizeAll(items, d, snaps, est, now);
            |items| <= |r| <= |items| + |snaps| &&
            forall k :: 0 <= k < |items| && (items[k].date != d || forall j :: 0 <= j < |snaps| ==> snaps[j].code != items[k].code)
              ==> r[k] == items[k]
  {
    if snaps != [] {
      var pre := snaps[..|snaps| - 1];
      var x := snaps[|snaps| - 1];
      var mid := FinalizeAll(items, d, pre, est, now);
      FinalizeKeepsOthers(items, d, pre, est, now);
      FinalizeOneSpec(mid, d, x, est, now);
      forall k | 0 <= k < |items| && (items[k].date != d || forall j :: 0 <= j < |snaps| ==> snaps[j].code != items[k].code)
        ensures FinalizeAll(items, d, snaps, est, now)[k] == items[k]
      {
        assert forall j :: 0 <= j < |pre| ==> pre[j] == snaps[j];
        assert mid[k] == items[k];
        assert !At(mid[k], d, x.code);
      }
    }
  }

  /** A settled row stays settled through finalisation, with its official figures intact. */
  lemma {:induction false} FinalizeKeepsSettled(items: seq<LedgerItem>, d: string, snaps: seq<PositionSnapshot>,
                                                est: map<string, real>, now: string)
    ensures var r := FinalizeAll(items, d, snaps, est, now);
            |items| <= |r| &&
            forall k :: 0 <= k < |items| && items[k].settleStatus == SETTLE_SETTLED ==>
              r[k].settleStatus == SETTLE_SETTLED && r[k].officialNav == items[k].officialNav &&
              r[k].officialPnl == items[k].officialPnl && r[k].date == items[k].date && r[k].code == items[k].code
  {
    if snaps != [] {
      var pre := snaps[..|snaps| - 1];
      var x := snaps[|snaps| - 1];
      var mid := FinalizeAll(items, d, pre, est, now);
      FinalizeKeepsSettled(items, d, pre, est, now);
      FinalizeOneSpec(mid, d, x, est, now);
    }
  }

  /**
   * With distinct codes (as a snapshot has), every snapshot row ends up in
   * the first ledger row of its (d, code) with its own position figures.
   */
  lemma {:induction false} FinalizeCovers(items: seq<LedgerItem>, d: string, snaps: seq<PositionSnapshot>,
                                          est: map<string, real>, now: string)
    requires forall i, j :: 0 <= i < j < |snaps| ==> snaps[i].code != snaps[j].code
    ensures var r := FinalizeAll(items, d, snaps, est, now);
            forall j :: 0 <= j < |snaps| ==>
              var f := FirstIndex(r, d, snaps[j].code);
              f.Some? && r[f.value].sharesEnd == snaps[j].sharesEnd &&
              r[f.value].avgCostNavEnd == snaps[j].avgCostNavEnd && r[f.value].realizedPnlEnd == snaps[j].realizedPnlEnd
  {
    if snaps != [] {
      var pre := snaps[..|snaps| - 1];
      var x := snaps[|snaps| - 1];
      var mid := FinalizeAll(items, d, pre, est, now);
      FinalizeCovers(items, d, pre, est, now);
      FinalizeOneCovers(mid, d, x, est, now);
      forall j | 0 <= j < |pre|
        ensures var r := FinalizeOne(mid, d, x, est, now);
                var f := FirstIndex(r, d, snaps[j].code);
                f.Some? && r[f.value].sharesEnd == snaps[j].sharesEnd &&
                r[f.value].avgCostNavEnd == snaps[j].avgCostNavEnd && r[f.value].realizedPnlEnd == snaps[j].realizedPnlEnd
      {
        assert pre[j] == snaps[j];
        FinalizeOneOther(mid, d, x, est, now, snaps[j].code);
      }
    }
  }

  /** The updater of `finalize_estimated_close`: one upsert per snapshot row. */
  method FinalizeUpdater(items: seq<LedgerItem>, d: string, snaps: seq<PositionSnapshot>, est: map<string, real>,
                         now: string) returns (out: seq<LedgerItem>)
    ensures out == FinalizeAll(items, d, snaps, est, now)
  {
    out := items;
    for i := 0 to |snaps|
      invariant out == FinalizeAll(items, d, snaps[..i], est, now)
    {
      assert snaps[..i + 1][..i] == snaps[..i];
      var s := snaps[i];
      var estNav := if s.code in est then est[s.code] else 0.0;
      var estPnl := Pnl(s.sharesEnd, s.avgCostNavEnd, estNav, s.realizedPnlEnd);
      var payload := LedgerItem(d, s.code, s.sharesEnd, s.avgCostNavEnd, s.realizedPnlEnd, estNav, estPnl,
                                None, None, SETTLE_ESTIMATED_ONLY, now);
      var idx := FindItemIndex(out, d, s.code);
      match idx {
        case None =>
          out := out + [payload];
        case Some(j) =>
          if out[j].settleStatus == SETTLE_SETTLED {
            out := out[j := out[j].(sharesEnd := s.sharesEnd, avgCostNavEnd := s.avgCostNavEnd,
                                    realizedPnlEnd := s.realizedPnlEnd, updatedAt := now)];
          } else {
            out := out[j := payload];
          }
      }
    }
    assert snaps[..|snaps|] == snaps;
  }

  // ---------------------------------------------------------------------
  // settle_day and settle_pending_days

  /** A row that `settle_day(d)` settles: of day d, not yet settled, and with an official NAV of exactly day d. */
  predicate Transitions(it: LedgerItem, d: string, official: map<(string, string), real>) {
    it.date == d && it.settleStatus != SETTLE_SETTLED && (it.code, d) in official
  }

  function TransitionsOn(d: string, official: map<(string, string), real>): LedgerItem -> bool {
    (it: LedgerItem) => Transitions(it, d, official)
  }

  predicate Pending(it: LedgerItem) {
    it.settleStatus != SETTLE_SETTLED
  }

  function PendingRow(): LedgerItem -> bool {
    (it: LedgerItem) => Pending(it)
  }

  /** What `settle_day(d)` does to one row. */
  function SettleRow(it: LedgerItem, d: string, official: map<(string, string), real>, now: string): LedgerItem {
    if Transitions(it, d, official) then
      var nav := official[(it.code, d)];
      it.(officialNav := Some(nav), officialPnl := Some(Pnl(it.sharesEnd, it.avgCostNavEnd, nav, it.realizedPnlEnd)),
          settleStatus := SETTLE_SETTLED, updatedAt := now)
    else it
  }

  /** What `settle_day(d)` does to the rows, position by position. */
  function SettleItems(items: seq<LedgerItem>, d: string, official: map<(string, string), real>, now: string)
    : (r: seq<LedgerItem>)
    ensures |r| == |items|
    ensures forall k :: 0 <= k < |items| ==> r[k] == SettleRow(items[k], d, official, now)
  {
    if items == [] then []
    else SettleItems(items[..|items| - 1], d, official, now) + [SettleRow(items[|items| - 1], d, official, now)]
  }

  /**
   * One row under `settle_day(d)`: a transitioning row takes the official
   * NAV, the official profit on the same basis as the estimate, the settled
   * status and the clock, and keeps its position; every other row,
   * including every settled one and every row of another day, is untouched.
   */
  lemma SettleRowSpec(it: LedgerItem, d: string, official: map<(string, string), real>, now: string)
    ensures var r := SettleRow(it, d, official, now);
            r.date == it.date && r.code == it.code && r.sharesEnd == it.sharesEnd &&
            r.avgCostNavEnd == it.avgCostNavEnd && r.realizedPnlEnd == it.realizedPnlEnd &&
            r.estimatedNavClose == it.estimatedNavClose && r.estimatedPnlClose == it.estimatedPnlClose
    ensures Pending(SettleRow(it, d, official, now)) <==> Pending(it) && !Transitions(it, d, official)
    ensures !Transitions(it, d, official) ==> SettleRow(it, d, official, now) == it
    ensures Transitions(it, d, official) ==>
              var nav := official[(it.code, d)];
              var r := SettleRow(it, d, official, now);
              r.officialNav == Some(nav) && r.updatedAt == now &&
              r.officialPnl == Some(Pnl(it.sharesEnd, it.avgCostNavEnd, nav, it.realizedPnlEnd))
  {
  }

  /** Each transition turns exactly one pending row into a settled one. */
  lemma {:induction false} SettleCount(items: seq<LedgerItem>, d: string, official: map<(string, string), real>, now: string)
    ensures Count(SettleItems(items, d, official, now), PendingRow()) + Count(items, TransitionsOn(d, official))
            == Count(items, PendingRow())
  {
    if items != [] {
      var pre := items[..|items| - 1];
      var x := items[|items| - 1];
      var r := SettleItems(items, d, official, now);
      assert r[..|r| - 1] == SettleItems(pre, d, official, now);
      SettleCount(pre, d, official, now);
      SettleRowSpec(x, d, official, now);
    }
  }

  /** Settling the same day again transitions nothing and changes nothing. */
  lemma SettleIdempotent(items: seq<LedgerItem>, d: string, official: map<(string, string), real>, now: string, now2: string)
    ensures var r := SettleItems(items, d, official, now);
            SettleItems(r, d, official, now2) == r && Count(r, TransitionsOn(d, official)) == 0
  {
    var r := SettleItems(items, d, official, now);
    forall k | 0 <= k < |r|
      ensures !Transitions(r[k], d, official)
    {
      SettleRowSpec(items[k], d, official, now);
    }
    FilterNone(r, TransitionsOn(d, official));
  }

  /** The updater of `settle_day(d)`: settles rows in place and counts them. */
  method SettleDayUpdater(doc: Ledger, d: string, official: map<(string, string), real>, now: string)
    returns (r: Ledger, settled: nat)
    ensures r.items == SettleItems(doc.items, d, official, now)
    ensures settled == Count(doc.items, TransitionsOn(d, official))
    ensures r == Ledger(r.items, Some(now), Some(d), Some(settled))
  {
    var items := doc.items;
    settled := 0;
    for k := 0 to |items|
      invariant |items| == |doc.items|
      invariant forall j :: 0 <= j < k ==> items[j] == SettleRow(doc.items[j], d, official, now)
      invariant forall j :: k <= j < |items| ==> items[j] == doc.items[j]
      invariant settled == Count(doc.items[..k], TransitionsOn(d, official))
    {
      FilterPrefixStep(doc.items, k, TransitionsOn(d, official));
      var it := items[k];
      if it.date == d && it.settleStatus != SETTLE_SETTLED && (it.code, d) in official {
        var nav := official[(it.code, d)];
        var pnl := Pnl(it.sharesEnd, it.avgCostNavEnd, nav, it.realizedPnlEnd);
        items := items[k := it.(officialNav := Some(nav), officialPnl := Some(pnl),
                                settleStatus := SETTLE_SETTLED, updatedAt := now)];
        settled := settled + 1;
      }
    }
    assert doc.items[..|doc.items|] == doc.items;
    r := Ledger(items, Some(now), Some(d), Some(settled));
  }

  /** `settle_day` over the days of `days`, in order. */
  function SettleAcross(items: seq<LedgerItem>, days: seq<string>, official: map<(string, string), real>, now: string)
    : seq<LedgerItem>
  {
    if days == [] then items
    else SettleItems(SettleAcross(items, days[..|days| - 1], official, now), days[|days| - 1], official, now)
  }

  /** The counts `settle_day` returns over the days of `days`, summed. */
  function SettledAcross(items: seq<LedgerItem>, days: seq<string>, official: map<(string, string), real>, now: string)
    : nat
  {
    if days == [] then 0
    else
      var pre := days[..|days| - 1];
      SettledAcross(items, pre, official, now) +
      Count(SettleAcross(items, pre, official, now), TransitionsOn(days[|days| - 1], official))
  }

  /**
   * Across any run of days, every counted transition used up one pending
   * row: the total plus the rows still pending is the number pending at the
   * start, so no row is ever counted twice.
   */
  lemma {:induction false} SettleAcrossCount(items: seq<LedgerItem>, days: seq<string>,
                                             official: map<(string, string), real>, now: string)
    ensures SettledAcross(items, days, official, now) + Count(SettleAcross(items, days, official, now), PendingRow())
            == Count(items, PendingRow())
  {
    if days != [] {
      var pre := days[..|days| - 1];
      SettleAcrossCount(items, pre, official, now);
      SettleCount(SettleAcross(items, pre, official, now), days[|days| - 1], official, now);
    }
  }

  /** Settled rows never revert, and no row is lost or reordered, however many days are settled. */
  lemma {:induction false} SettleAcrossKeepsSettled(items: seq<LedgerItem>, days: seq<string>,
                                                    official: map<(string, string), real>, now: string)
    ensures var r := SettleAcross(items, days, official, now);
            |r| == |items| &&
            forall k :: 0 <= k < |items| ==>
              r[k].date == items[k].date && r[k].code == items[k].code &&
              (!Pending(items[k]) ==> r[k] == items[k])
  {
    if days != [] {
      var pre := days[..|days| - 1];
      var mid := SettleAcross(items, pre, official, now);
      SettleAcrossKeepsSettled(items, pre, official, now);
      forall k | 0 <= k < |items|
        ensures SettleRow(mid[k], days[|days| - 1], official, now).code == mid[k].code
      {
        SettleRowSpec(mid[k], days[|days| - 1], official, now);
      }
    }
  }

  /** One more day settled: the step of `settle_pending_days`' loop. */
  lemma SettleAcrossStep(items: seq<LedgerItem>, days: seq<string>, i: nat, official: map<(string, string), real>,
                         now: string)
    requires i < |days|
    ensures SettleAcross(items, days[..i + 1], official, now) ==
              SettleItems(SettleAcross(items, days[..i], official, now), days[i], official, now)
    ensures SettledAcross(items, days[..i + 1], official, now) ==
              SettledAcross(items, days[..i], official, now) +
              Count(SettleAcross(items, days[..i], official, now), TransitionsOn(days[i], official))
  {
    assert days[..i + 1][..i] == days[..i];
  }

  /** The ledger after `settle_pending_days` has settled the first `i` days. */
  ghost predicate SettledThrough(doc0: Ledger, doc: Ledger, days: seq<string>, i: nat,
                                 official: map<(string, string), real>, now: string, total: nat)
    requires i <= |days|
  {
    && doc.items == SettleAcross(doc0.items, days[..i], official, now)
    && total == SettledAcross(doc0.items, days[..i], official, now)
    && (i == 0 ==> doc == doc0)
    && (i > 0 ==> doc.updatedAt == Some(now) && doc.lastSettleDay == Some(days[i - 1]))
  }

  /** One more day settled keeps the loop's state. */
  lemma SettledThroughStep(doc0: Ledger, doc: Ledger, next: Ledger, days: seq<string>, i: nat,
                           official: map<(string, string), real>, now: string, total: nat, cnt: nat)
    requires i < |days| && SettledThrough(doc0, doc, days, i, official, now, total)
    requires next == Ledger(SettleItems(doc.items, days[i], official, now), Some(now), Some(days[i]), Some(cnt))
    requires cnt == Count(doc.items, TransitionsOn(days[i], official))
    ensures SettledThrough(doc0, next, days, i + 1, official, now, total + cnt)
  {
    SettleAcrossStep(doc0.items, days, i, official, now);
  }

  /** The loop's state after every day: the postcondition of `settle_pending_days`. */
  lemma SettledThroughAll(doc0: Ledger, doc: Ledger, days: seq<string>, official: map<(string, string), real>,
                          now: string, total: nat)
    requires SettledThrough(doc0, doc, days, |days|, official, now, total)
    ensures doc.items == SettleAcross(doc0.items, days, official, now)
    ensures total == SettledAcross(doc0.items, days, official, now)
    ensures days == [] ==> doc == doc0
    ensures days != [] ==> doc.updatedAt == Some(now) && doc.lastSettleDay == Some(days[|days| - 1])
  {
    assert days[..|days|] == days;
  }

  /** The ledger file, rewritten whole by each updater. */
  class LedgerFile {
    var doc: Ledger

    constructor ()
      ensures doc == Ledger([], None, None, None)
    {
      doc := Ledger([], None, None, None);
    }

    /**
     * `finalize_estimated_close`: the day is `dateArg`, or today when it is
     * empty; the snapshot is the replay of `journal` as of that day and
     * `est` the estimator's answers for its codes. An empty snapshot
     * leaves the ledger as it was.
     */
    method FinalizeEstimatedClose(dateArg: string, today: string, journal: seq<Adjustment>, est: map<string, real>,
                                  now: string) returns (r: Ledger, snaps: seq<PositionSnapshot>)
      modifies this
      ensures var d := if dateArg == "" then today else dateArg;
              IsReport(snaps, ReplayAsOf(journal, d).book) &&
              (snaps == [] ==> doc == old(doc)) &&
              (snaps != [] ==> doc == old(doc).(items := FinalizeAll(old(doc.items), d, snaps, est, now),
                                                updatedAt := Some(now)))
      ensures r == doc
    {
      var d := if dateArg == "" then today else dateArg;
      snaps := BuildPositionsAsOf(journal, d);
      if snaps == [] {
        return doc, snaps;
      }
      var items := FinalizeUpdater(doc.items, d, snaps, est, now);
      doc := doc.(items := items, updatedAt := Some(now));
      r := doc;
    }

    /** `settle_day(d)`: returns the new ledger and the number of rows it settled. */
    method SettleDay(d: string, official: map<(string, string), real>, now: string) returns (r: Ledger, count: nat)
      modifies this
      ensures doc == Ledger(SettleItems(old(doc.items), d, official, now), Some(now), Some(d), Some(count))
      ensures count == Count(old(doc.items), TransitionsOn(d, official))
      ensures r == doc
    {
      var res, settled := SettleDayUpdater(doc, d, official, now);
      doc := res;
      r := res;
      count := res.lastSettleCount.GetOr(0);
    }

    /**
     * `settle_pending_days`: `days` holds today, today - 1, ... as ISO
     * dates. An empty ledger is returned untouched with 0.
     */
    method SettlePendingDays(days: seq<string>, official: map<(string, string), real>, now: string)
      returns (r: Ledger, total: nat)
      modifies this
      ensures old(doc.items) == [] || days == [] ==> doc == old(doc)
      ensures old(doc.items) == [] ==> total == 0
      ensures old(doc.items) != [] ==>
                doc.items == SettleAcross(old(doc.items), days, official, now) &&
                total == SettledAcross(old(doc.items), days, official, now)
      ensures old(doc.items) != [] && days != [] ==>
                doc.updatedAt == Some(now) && doc.lastSettleDay == Some(days[|days| - 1])
      ensures r == doc
    {
      if doc.items == [] {
        return doc, 0;
      }
      ghost var doc0 := doc;
      total := 0;
      var i := 0;
      while i < |days|
        invariant 0 <= i <= |days|
        invariant SettledThrough(doc0, doc, days, i, official, now, total)
      {
        ghost var before := doc;
        var res, cnt := SettleDay(days[i], official, now);
        SettledThroughStep(doc0, before, doc, days, i, official, now, total, cnt);
        total := total + cnt;
        i := i + 1;
      }
      SettledThroughAll(doc0, doc, days, official, now, total);
      r := doc;
    }
  }
}
