/**
 * The portfolio: the legacy position store `portfolio.json` (positions
 * keyed by fund code, edited directly) and the realtime view, which values
 * the journal's replayed snapshot at each fund's estimated NAV.
 */
module Portfolio {
  import opened Wrappers
  import opened Text
  import opened Seqs
  import opened Order
  import opened Journal
  import opened Snapshot
  import opened Json
  import opened Market
  import opened Fund
  import opened Estimation

  // ---------------------------------------------------------------------
  // The legacy position store
  // ---------------------------------------------------------------------

  /** A stored position (`Position`, as written under `positions[code]`). */
  datatype PositionRec = PositionRec(code: string, shares: real, avgCostNav: real, realizedPnl: real,
                                     tag: Option<string>, note: Option<string>, updatedAt: Option<string>)

  /**
   * The document: the `positions` dict as a map, the order in which its
   * keys were first inserted (a Python dict iterates in that order), and
   * the document's own `updated_at`.
   */
  datatype PortfolioDoc = PortfolioDoc(positions: map<string, PositionRec>, order: seq<string>, updatedAt: Option<string>)

  /** The shape every write keeps: the order lists each key once, and each record carries its own key. */
  ghost predicate StoreValid(d: PortfolioDoc) {
    Distinct(d.order) &&
    (forall c :: c in d.positions <==> c in d.order) &&
    (forall c :: c in d.positions ==> d.positions[c].code == c)
  }

  /** `positions[rec.code] = rec`: a new key goes to the end of the order, a known one keeps its place. */
  function Assign(d: PortfolioDoc, rec: PositionRec, now: string): PortfolioDoc {
    PortfolioDoc(d.positions[rec.code := rec],
                 if rec.code in d.positions then d.order else d.order + [rec.code],
                 Some(now))
  }

  function NotCode(c: string): string -> bool {
    k => k != c
  }

  /** `positions.pop(code, None)`; the document's `updated_at` is refreshed even when nothing was there. */
  function Drop(d: PortfolioDoc, c: string, now: string): PortfolioDoc {
    PortfolioDoc(d.positions - {c}, Filter(d.order, NotCode(c)), Some(now))
  }

  /**
   * Assigning keeps the store valid, stores the record under its
   * code, leaves every other code's record alone and keeps the existing
   * keys in their order.
   */
  lemma AssignSpec(d: PortfolioDoc, rec: PositionRec, now: string)
    requires StoreValid(d)
    ensures var e := Assign(d, rec, now);
            StoreValid(e) && e.positions.Keys == d.positions.Keys + {rec.code} &&
            e.positions[rec.code] == rec &&
            (forall c :: c in d.positions && c != rec.code ==> e.positions[c] == d.positions[c]) &&
            d.order <= e.order
  {
    var e := Assign(d, rec, now);
    if rec.code !in d.positions {
      forall i, j | 0 <= i < j < |e.order|
        ensures e.order[i] != e.order[j]
      {
        if j == |d.order| {
          assert e.order[i] in d.order;
        }
      }
    }
  }

  /**
   * Dropping a code keeps the store valid and removes exactly that
   * code; every other record, and the order of the remaining keys, stay.
   */
  lemma DropSpec(d: PortfolioDoc, c: string, now: string)
    requires StoreValid(d)
    ensures var e := Drop(d, c, now);
            StoreValid(e) && e.positions.Keys == d.positions.Keys - {c} &&
            (forall k :: k in e.positions ==> e.positions[k] == d.positions[k]) &&
            e.order == Filter(d.order, NotCode(c))
  {
    var e := Drop(d, c, now);
    FilterSatisfies(d.order, NotCode(c));
    forall k
      ensures k in e.positions <==> k in e.order
    {
      FilterMember(d.order, NotCode(c), k);
    }
    FilterDistinct(d.order, NotCode(c));
  }

  /** Filtering a list without duplicates leaves one without duplicates. */
  lemma {:induction false} FilterDistinct<T>(s: seq<T>, p: T -> bool)
    requires Distinct(s)
    ensures Distinct(Filter(s, p))
  {
    if s != [] {
      var s' := s[..|s| - 1];
      var x := s[|s| - 1];
      FilterDistinct(s', p);
      if p(x) {
        FilterMember(s', p, x);
        assert x !in s';
        var f := Filter(s', p);
        forall i, j | 0 <= i < j < |f + [x]|
          ensures (f + [x])[i] != (f + [x])[j]
        {
          if j == |f| {
            assert (f + [x])[i] in f;
          }
        }
      }
    }
  }

  /** Adding a new code and then removing it gives back the positions and their order. */
  lemma AssignThenDrop(d: PortfolioDoc, rec: PositionRec, now: string, later: string)
    requires StoreValid(d) && rec.code !in d.positions
    ensures var e := Drop(Assign(d, rec, now), rec.code, later);
            e.positions == d.positions && e.order == d.order
  {
    var p := NotCode(rec.code);
    assert d.positions[rec.code := rec] - {rec.code} == d.positions;
    FilterConcat(d.order, [rec.code], p);
    FilterNone([rec.code], p);
    FilterAll(d.order, p);
    assert Filter(d.order, p) + [] == Filter(d.order, p);
  }

  /** The record `position_set` writes. */
  function NewRecord(c: string, shares: real, avgCostNav: real, realizedPnl: real,
                     tag: Option<string>, note: Option<string>, now: string): PositionRec {
    PositionRec(c, shares, avgCostNav, realizedPnl, tag, note, Some(now))
  }

  /** `position_set`'s checks, in the order the code makes them. */
  function SetError(code: string, shares: real, avgCostNav: real): Option<string> {
    if Strip(code) == "" then Some("code is required")
    else if shares < 0.0 then Some("shares must be >= 0")
    else if avgCostNav < 0.0 then Some("avg_cost_nav must be >= 0")
    else None
  }

  /** `position_update`'s edit of an existing record: each given field replaces the stored one. */
  function Updated(cur: PositionRec, shares: Option<real>, avgCostNav: Option<real>, realizedPnl: Option<real>,
                   tag: Option<string>, note: Option<string>, now: string): PositionRec {
    cur.(shares := shares.GetOr(cur.shares),
         avgCostNav := avgCostNav.GetOr(cur.avgCostNav),
         realizedPnl := realizedPnl.GetOr(cur.realizedPnl),
         tag := if tag.Some? then tag else cur.tag,
         note := if note.Some? then note else cur.note,
         updatedAt := Some(now))
  }

  /** `position_update`'s checks, in the order the code makes them. */
  function UpdateError(d: PortfolioDoc, code: string, shares: Option<real>, avgCostNav: Option<real>): Option<string> {
    var c := Strip(code);
    if c == "" then Some("code is required")
    else if c !in d.positions then Some("position not found: " + c)
    else if shares.Some? && shares.value < 0.0 then Some("shares must be >= 0")
    else if avgCostNav.Some? && avgCostNav.value < 0.0 then Some("avg_cost_nav must be >= 0")
    else None
  }

  /**
   * An update edits only the fields it is given: with nothing given only
   * the time stamp moves, and applying the same update twice is applying it
   * once (up to the time stamp).
   */
  lemma UpdatedSpec(cur: PositionRec, shares: Option<real>, avgCostNav: Option<real>, realizedPnl: Option<real>,
                    tag: Option<string>, note: Option<string>, now: string, later: string)
    ensures var u := Updated(cur, shares, avgCostNav, realizedPnl, tag, note, now);
            u.code == cur.code &&
            u.shares == (if shares.Some? then shares.value else cur.shares) &&
            u.avgCostNav == (if avgCostNav.Some? then avgCostNav.value else cur.avgCostNav) &&
            u.realizedPnl == (if realizedPnl.Some? then realizedPnl.value else cur.realizedPnl) &&
            u.tag == (if tag.Some? then tag else cur.tag) &&
            u.note == (if note.Some? then note else cur.note) &&
            u.updatedAt == Some(now)
    ensures Updated(cur, None, None, None, None, None, now) == cur.(updatedAt := Some(now))
    ensures var u := Updated(cur, shares, avgCostNav, realizedPnl, tag, note, now);
            Updated(u, shares, avgCostNav, realizedPnl, tag, note, later) == u.(updatedAt := Some(later))
  {
  }

  /** Rows with code key, for the listing's sort. */
  function PositionKey(p: PositionRec): seq<string> {
    [p.code]
  }

  /** The stored records in the dict's iteration order. */
  function Records(order: seq<string>, positions: map<string, PositionRec>): (r: seq<PositionRec>)
    requires forall c :: c in order ==> c in positions
    ensures |r| == |order|
  {
    if order == [] then []
    else Records(order[..|order| - 1], positions) + [positions[order[|order| - 1]]]
  }

  /** `position_list`: the stored records sorted by code. */
  function ListOf(d: PortfolioDoc): seq<PositionRec>
    requires StoreValid(d)
  {
    SortBy(Records(d.order, d.positions), PositionKey)
  }

  lemma {:induction false} RecordsMember(order: seq<string>, positions: map<string, PositionRec>, x: PositionRec)
    requires forall c :: c in order ==> c in positions
    ensures x in Records(order, positions) <==> exists c :: c in order && positions[c] == x
  {
    if order != [] {
      var o' := order[..|order| - 1];
      RecordsMember(o', positions, x);
      if exists c :: c in order && positions[c] == x {
        var c :| c in order && positions[c] == x;
        if c != order[|order| - 1] {
          assert c in o';
        }
      }
    }
  }

  /**
   * The listing is sorted by code, holds exactly the stored records, one
   * per code, and has as many rows as the store has positions.
   */
  lemma ListSpec(d: PortfolioDoc)
    requires StoreValid(d)
    ensures SortedBy(ListOf(d), PositionKey)
    ensures |ListOf(d)| == |d.positions|
    ensures forall x :: x in ListOf(d) <==> exists c :: c in d.positions && d.positions[c] == x
    ensures multiset(ListOf(d)) == multiset(Records(d.order, d.positions))
  {
    var rs := Records(d.order, d.positions);
    SortBySorted(rs, PositionKey);
    SortByPermutation(rs, PositionKey);
    forall x
      ensures x in ListOf(d) <==> exists c :: c in d.positions && d.positions[c] == x
    {
      assert x in ListOf(d) <==> x in multiset(ListOf(d));
      assert x in rs <==> x in multiset(rs);
      RecordsMember(d.order, d.positions, x);
    }
    OrderSize(d);
  }

  /** A well-formed document's order has one entry per stored position. */
  lemma OrderSize(d: PortfolioDoc)
    requires StoreValid(d)
    ensures |d.order| == |d.positions|
  {
    DistinctCard(d.order);
    assert d.positions.Keys == set c | c in d.order;
  }

  lemma {:induction false} DistinctCard<T>(s: seq<T>)
    requires Distinct(s)
    ensures |set x | x in s| == |s|
  {
    if s != [] {
      var s' := s[..|s| - 1];
      var x := s[|s| - 1];
      DistinctCard(s');
      assert x !in s';
      assert (set y | y in s) == (set y | y in s') + {x};
    }
  }

  /** The position store: `portfolio.json` behind its read-modify-write helper. */
  class PortfolioFile {
    var doc: PortfolioDoc

    /** A missing file reads as an empty store. */
    constructor ()
      ensures doc == PortfolioDoc(map[], [], None) && StoreValid(doc)
    {
      doc := PortfolioDoc(map[], [], None);
    }

    /** `position_set`: a rejected call writes nothing; otherwise the code's record is replaced whole. */
    method PositionSet(code: string, shares: real, avgCostNav: real, realizedPnl: real,
                       tag: Option<string>, note: Option<string>, now: string) returns (r: Result<PortfolioDoc>)
      modifies this
      ensures r.Err? <==> SetError(code, shares, avgCostNav).Some?
      ensures r.Err? ==> r.error == SetError(code, shares, avgCostNav).value && doc == old(doc)
      ensures r.Ok? ==> doc == Assign(old(doc), NewRecord(Strip(code), shares, avgCostNav, realizedPnl, tag, note, now), now) &&
                        r.value == doc
      ensures old(StoreValid(doc)) ==> StoreValid(doc)
    {
      var c := Strip(code);
      if c == "" {
        return Err("code is required");
      }
      if shares < 0.0 {
        return Err("shares must be >= 0");
      }
      if avgCostNav < 0.0 {
        return Err("avg_cost_nav must be >= 0");
      }
      var rec := NewRecord(c, shares, avgCostNav, realizedPnl, tag, note, now);
      if StoreValid(doc) {
        AssignSpec(doc, rec, now);
      }
      doc := Assign(doc, rec, now);
      r := Ok(doc);
    }

    /** `position_update`: an unknown code or a negative value writes nothing. */
    method PositionUpdate(code: string, shares: Option<real>, avgCostNav: Option<real>, realizedPnl: Option<real>,
                          tag: Option<string>, note: Option<string>, now: string) returns (r: Result<PortfolioDoc>)
      modifies this
      ensures r.Err? <==> UpdateError(old(doc), code, shares, avgCostNav).Some?
      ensures r.Err? ==> r.error == UpdateError(old(doc), code, shares, avgCostNav).value && doc == old(doc)
      ensures r.Ok? ==> var c := Strip(code);
                        c in old(doc.positions) &&
                        doc == Assign(old(doc), Updated(old(doc.positions[c]), shares, avgCostNav, realizedPnl, tag, note, now), now) &&
                        r.value == doc
      ensures old(StoreValid(doc)) ==> StoreValid(doc)
    {
      var c := Strip(code);
      if c == "" {
        return Err("code is required");
      }
      if c !in doc.positions {
        return Err("position not found: " + c);
      }
      var cur := doc.positions[c];
      if shares.Some? {
        if shares.value < 0.0 {
          return Err("shares must be >= 0");
        }
        cur := cur.(shares := shares.value);
      }
      if avgCostNav.Some? {
        if avgCostNav.value < 0.0 {
          return Err("avg_cost_nav must be >= 0");
        }
        cur := cur.(avgCostNav := avgCostNav.value);
      }
      if realizedPnl.Some? {
        cur := cur.(realizedPnl := realizedPnl.value);
      }
      if tag.Some? {
        cur := cur.(tag := tag);
      }
      if note.Some? {
        cur := cur.(note := note);
      }
      cur := cur.(updatedAt := Some(now));
      if StoreValid(doc) {
        AssignSpec(doc, cur, now);
      }
      doc := Assign(doc, cur, now);
      r := Ok(doc);
    }

    /** `position_remove`: only an empty code is refused; an unknown code still refreshes `updated_at`. */
    method PositionRemove(code: string, now: string) returns (r: Result<PortfolioDoc>)
      modifies this
      ensures r.Err? <==> Strip(code) == ""
      ensures r.Err? ==> r.error == "code is required" && doc == old(doc)
      ensures r.Ok? ==> doc == Drop(old(doc), Strip(code), now) && r.value == doc
      ensures old(StoreValid(doc)) ==> StoreValid(doc)
    {
      var c := Strip(code);
      if c == "" {
        return Err("code is required");
      }
      if StoreValid(doc) {
        DropSpec(doc, c, now);
      }
      doc := Drop(doc, c, now);
      r := Ok(doc);
    }

    /** `position_list`: the records collected in dict order, then sorted by code. */
    method PositionList() returns (out: seq<PositionRec>)
      requires StoreValid(doc)
      ensures out == ListOf(doc)
    {
      var rows: seq<PositionRec> := [];
      var i := 0;
      while i < |doc.order|
        invariant 0 <= i <= |doc.order|
        invariant rows == Records(doc.order[..i], doc.positions)
      {
        assert doc.order[..i + 1][..i] == doc.order[..i];
        rows := rows + [doc.positions[doc.order[i]]];
        i := i + 1;
      }
      assert doc.order[..i] == doc.order;
      out := SortBy(rows, PositionKey);
    }
  }

  // ---------------------------------------------------------------------
  // The realtime view
  // ---------------------------------------------------------------------

  /** A row's warning: the estimate's own notes, or "无估值数据" when no estimate came back. */
  datatype RowWarning = EstimateNotes(notes: seq<Note>) | NoEstimate

  /** One row of the view. */
  datatype ViewRow = ViewRow(code: string, shares: real, avgCostNav: real, realizedPnl: real,
                             estNav: real, estChangePct: real, estMethod: string, confidence: real,
                             warning: RowWarning, estTime: string,
                             estValue: real, estPnl: real, estPnlPct: real)

  /** The view: rows, totals, the realized-coverage percentage and the valuation date. */
  datatype View = View(positions: seq<ViewRow>, totalCost: real, totalEstValue: real, totalEstPnl: real,
                       totalEstPnlPct: real, coverage: real, asOf: string)

  /** `date_str or today`. */
  function AsOfDate(dateStr: Option<string>, today: string): string {
    if dateStr.Some? && dateStr.value != "" then dateStr.value else today
  }

  /** `a * b`, kept whole so that the solver treats each product as one term. */
  function Mul(a: real, b: real): real {
    a * b
  }

  /** `num / den * 100`, or 0 when `den` is not positive. */
  function Pct(num: real, den: real): real {
    if den > 0.0 then num / den * 100.0 else 0.0
  }

  /** The estimated NAV used for a code: 0 without an estimate. */
  function NavOf(est: map<string, EstimateResult>, c: string): real {
    if c in est then est[c].estNav else 0.0
  }

  function CostOf(s: PositionSnapshot): real {
    Mul(s.sharesEnd, s.avgCostNavEnd)
  }

  function ValueOf(s: PositionSnapshot, est: map<string, EstimateResult>): real {
    Mul(s.sharesEnd, NavOf(est, s.code))
  }

  function PnlOf(s: PositionSnapshot, est: map<string, EstimateResult>): real {
    ValueOf(s, est) - CostOf(s) + s.realizedPnlEnd
  }

  /** A row counts towards coverage when it has an estimate with a positive NAV. */
  predicate CoveredBy(s: PositionSnapshot, est: map<string, EstimateResult>) {
    s.code in est && est[s.code].estNav > 0.0
  }

  /** One snapshot's row. */
  function RowOf(s: PositionSnapshot, est: map<string, EstimateResult>): ViewRow {
    var e := if s.code in est then Some(est[s.code]) else None;
    ViewRow(s.code, s.sharesEnd, s.avgCostNavEnd, s.realizedPnlEnd,
            NavOf(est, s.code),
            if e.Some? then e.value.estChangePct else 0.0,
            if e.Some? then e.value.estMethod else "",
            if e.Some? then e.value.confidence else 0.0,
            if e.Some? then EstimateNotes(e.value.warning) else NoEstimate,
            if e.Some? then e.value.estTime else "",
            ValueOf(s, est), PnlOf(s, est), Pct(PnlOf(s, est), CostOf(s)))
  }

  function RowsOf(snaps: seq<PositionSnapshot>, est: map<string, EstimateResult>): (r: seq<ViewRow>)
    ensures |r| == |snaps|
  {
    if snaps == [] then [] else RowsOf(snaps[..|snaps| - 1], est) + [RowOf(snaps[|snaps| - 1], est)]
  }

  /** The running totals. */
  datatype Totals = Totals(cost: real, value: real, pnl: real, covered: real)

  /** The totals after one more snapshot. */
  function AddRow(t: Totals, s: PositionSnapshot, est: map<string, EstimateResult>): Totals {
    Totals(t.cost + CostOf(s), t.value + ValueOf(s, est), t.pnl + PnlOf(s, est),
           if CoveredBy(s, est) then t.covered + ValueOf(s, est) else t.covered)
  }

  function TotalsOf(snaps: seq<PositionSnapshot>, est: map<string, EstimateResult>): Totals {
    if snaps == [] then Totals(0.0, 0.0, 0.0, 0.0) else AddRow(TotalsOf(snaps[..|snaps| - 1], est), snaps[|snaps| - 1], est)
  }

  /** The view of the snapshot `snaps` under the estimates `est`. */
  function ViewOf(snaps: seq<PositionSnapshot>, d: string, est: map<string, EstimateResult>): View {
    var t := TotalsOf(snaps, est);
    View(RowsOf(snaps, est), t.cost, t.value, t.pnl, Pct(t.pnl, t.cost), Pct(t.covered, t.value), d)
  }

  function SnapCodes(snaps: seq<PositionSnapshot>): (r: seq<string>)
    ensures |r| == |snaps|
    ensures forall k :: 0 <= k < |r| ==> r[k] == snaps[k].code
  {
    seq(|snaps|, k requires 0 <= k < |snaps| => snaps[k].code)
  }

  /**
   * `portfolio_realtime_view_as_of` for the snapshot `snaps`: nothing held
   * gives the empty view without asking for estimates; otherwise a failing
   * `estimate_many` fails the view.
   */
  function RealtimeViewOf(snaps: seq<PositionSnapshot>, d: string, gszOf: string -> Option<GszQuote>, profileOf: string -> FundProfile,
                          data: Json, stockQuote: string -> Option<StockQuote>, officialNavOf: string -> real, now: string,
                          parse: string -> Option<real>): Result<View> {
    if snaps == [] then Ok(View([], 0.0, 0.0, 0.0, 0.0, 0.0, d))
    else
      var m := EstimateManyOf(SnapCodes(snaps), gszOf, profileOf, data, stockQuote, officialNavOf, now, parse);
      if m.Err? then Err(m.error) else Ok(ViewOf(snaps, d, m.value))
  }

  /** Nothing held: the early return and the general formula give the same view. */
  lemma EmptyViewAgrees(d: string, est: map<string, EstimateResult>)
    ensures ViewOf([], d, est) == View([], 0.0, 0.0, 0.0, 0.0, 0.0, d)
  {
  }

  /** The rows follow the snapshot, one row per position, in order. */
  lemma {:induction false} RowsAt(snaps: seq<PositionSnapshot>, est: map<string, EstimateResult>, k: nat)
    requires k < |snaps|
    ensures RowsOf(snaps, est)[k] == RowOf(snaps[k], est)
  {
    if k < |snaps| - 1 {
      RowsAt(snaps[..|snaps| - 1], est, k);
    }
  }

  /**
   * One row copies its snapshot, values it at the estimated NAV (0 without
   * an estimate, flagged by the warning), and its profit is the value less
   * the cost plus the realized profit.
   */
  lemma RowSpec(s: PositionSnapshot, est: map<string, EstimateResult>)
    ensures var r := RowOf(s, est);
            r.code == s.code && r.shares == s.sharesEnd && r.avgCostNav == s.avgCostNavEnd &&
            r.realizedPnl == s.realizedPnlEnd &&
            (r.warning == NoEstimate <==> s.code !in est) &&
            r.estNav == (if s.code in est then est[s.code].estNav else 0.0) &&
            r.estValue == s.sharesEnd * r.estNav &&
            r.estPnl == r.estValue - s.sharesEnd * s.avgCostNavEnd + s.realizedPnlEnd &&
            r.estPnlPct == Pct(r.estPnl, s.sharesEnd * s.avgCostNavEnd)
  {
  }

  /** The sum of the realized profits. */
  function RealizedSum(snaps: seq<PositionSnapshot>): real {
    if snaps == [] then 0.0 else RealizedSum(snaps[..|snaps| - 1]) + snaps[|snaps| - 1].realizedPnlEnd
  }

  /** The total profit is the total value less the total cost plus every realized profit. */
  lemma {:induction false} TotalPnl(snaps: seq<PositionSnapshot>, est: map<string, EstimateResult>)
    ensures TotalsOf(snaps, est).pnl == TotalsOf(snaps, est).value - TotalsOf(snaps, est).cost + RealizedSum(snaps)
  {
    if snaps != [] {
      TotalPnl(snaps[..|snaps| - 1], est);
    }
  }

  function Plus(a: Totals, b: Totals): Totals {
    Totals(a.cost + b.cost, a.value + b.value, a.pnl + b.pnl, a.covered + b.covered)
  }

  /** The totals of two runs of rows add up, so they do not depend on how the rows are split. */
  lemma {:induction false} TotalsAppend(a: seq<PositionSnapshot>, b: seq<PositionSnapshot>, est: map<string, EstimateResult>)
    ensures TotalsOf(a + b, est) == Plus(TotalsOf(a, est), TotalsOf(b, est))
  {
    if b != [] {
      var b' := b[..|b| - 1];
      assert (a + b)[..|a + b| - 1] == a + b';
      TotalsAppend(a, b', est);
    } else {
      assert a + b == a;
    }
  }

  /** Every code's estimate has a non-negative NAV. */
  predicate NavsNonNegative(est: map<string, EstimateResult>) {
    forall c :: c in est ==> est[c].estNav >= 0.0
  }

  predicate SharesNonNegative(snaps: seq<PositionSnapshot>) {
    forall k :: 0 <= k < |snaps| ==> snaps[k].sharesEnd >= 0.0
  }

  lemma MulNonNegative(a: real, b: real)
    requires a >= 0.0 && b >= 0.0
    ensures Mul(a, b) >= 0.0
  {
  }

  /** With nothing negative, the covered value is between 0 and the total value. */
  lemma {:induction false} CoveredWithin(snaps: seq<PositionSnapshot>, est: map<string, EstimateResult>)
    requires SharesNonNegative(snaps) && NavsNonNegative(est)
    ensures 0.0 <= TotalsOf(snaps, est).covered <= TotalsOf(snaps, est).value
  {
    if snaps != [] {
      var s := snaps[|snaps| - 1];
      CoveredWithin(snaps[..|snaps| - 1], est);
      MulNonNegative(s.sharesEnd, NavOf(est, s.code));
    }
  }

  /** When every held code has an estimate with a positive NAV, all the value is covered. */
  lemma {:induction false} AllCovered(snaps: seq<PositionSnapshot>, est: map<string, EstimateResult>)
    requires forall k :: 0 <= k < |snaps| ==> CoveredBy(snaps[k], est)
    ensures TotalsOf(snaps, est).covered == TotalsOf(snaps, est).value
  {
    if snaps != [] {
      AllCovered(snaps[..|snaps| - 1], est);
    }
  }

  lemma PctWithin(num: real, den: real)
    requires 0.0 <= num <= den
    ensures 0.0 <= Pct(num, den) <= 100.0
    ensures den > 0.0 && num == den ==> Pct(num, den) == 100.0
  {
    if den > 0.0 {
      var q := num / den;
      assert q * den == num;
      assert 0.0 <= q <= 1.0;
      if num == den {
        assert q == 1.0;
      }
    }
  }

  /**
   * The view's coverage: 0 when nothing has value, between 0 and 100 when
   * no share count or NAV is negative, and exactly 100 when every held code
   * has a positive estimate and the total value is positive.
   */
  lemma CoverageSpec(snaps: seq<PositionSnapshot>, d: string, est: map<string, EstimateResult>)
    ensures ViewOf(snaps, d, est).totalEstValue <= 0.0 ==> ViewOf(snaps, d, est).coverage == 0.0
    ensures SharesNonNegative(snaps) && NavsNonNegative(est) ==> 0.0 <= ViewOf(snaps, d, est).coverage <= 100.0
    ensures (forall k :: 0 <= k < |snaps| ==> CoveredBy(snaps[k], est)) && ViewOf(snaps, d, est).totalEstValue > 0.0 ==>
              ViewOf(snaps, d, est).coverage == 100.0
  {
    var t := TotalsOf(snaps, est);
    if SharesNonNegative(snaps) && NavsNonNegative(est) {
      CoveredWithin(snaps, est);
      PctWithin(t.covered, t.value);
    }
    if forall k :: 0 <= k < |snaps| ==> CoveredBy(snaps[k], est) {
      AllCovered(snaps, est);
      if t.value > 0.0 {
        PctWithin(t.covered, t.value);
      }
    }
  }

  /** The loop of the view over the snapshot rows. */
  method BuildView(snaps: seq<PositionSnapshot>, d: string, est: map<string, EstimateResult>) returns (v: View)
    ensures v == ViewOf(snaps, d, est)
  {
    var rows: seq<ViewRow> := [];
    var totals := Totals(0.0, 0.0, 0.0, 0.0);
    var i := 0;
    while i < |snaps|
      invariant 0 <= i <= |snaps|
      invariant rows == RowsOf(snaps[..i], est)
      invariant totals == TotalsOf(snaps[..i], est)
    {
      assert snaps[..i + 1][..i] == snaps[..i];
      var s := snaps[i];
      var cost := CostOf(s);
      var value := ValueOf(s, est);
      var pnl := value - cost + s.realizedPnlEnd;
      var covered := if CoveredBy(s, est) then totals.covered + value else totals.covered;
      totals := Totals(totals.cost + cost, totals.value + value, totals.pnl + pnl, covered);
      rows := rows + [RowOf(s, est)];
      i := i + 1;
    }
    assert snaps[..i] == snaps;
    v := View(rows, totals.cost, totals.value, totals.pnl, Pct(totals.pnl, totals.cost), Pct(totals.covered, totals.value), d);
  }

  /**
   * `portfolio_realtime_view_as_of`: the journal replayed to `date_str` (or
   * today), valued under `estimate_many` of the held codes. The snapshot is
   * the one the replay reports.
   */
  method RealtimeViewAsOf(items: seq<Adjustment>, dateStr: Option<string>, today: string,
                          gszOf: string -> Option<GszQuote>, profileOf: string -> FundProfile, data: Json,
                          stockQuote: string -> Option<StockQuote>, officialNavOf: string -> real, now: string,
                          parse: string -> Option<real>) returns (r: Result<View>, ghost snaps: seq<PositionSnapshot>)
    ensures IsReport(snaps, ReplayAsOf(items, AsOfDate(dateStr, today)).book)
    ensures r == RealtimeViewOf(snaps, AsOfDate(dateStr, today), gszOf, profileOf, data, stockQuote, officialNavOf, now, parse)
  {
    var d := AsOfDate(dateStr, today);
    var ps := BuildPositionsAsOf(items, d);
    snaps := ps;
    if ps == [] {
      r := Ok(View([], 0.0, 0.0, 0.0, 0.0, 0.0, d));
      return;
    }
    var codes := SnapCodes(ps);
    var m := EstimateMany(codes, gszOf, profileOf, data, stockQuote, officialNavOf, now, parse);
    if m.Err? {
      r := Err(m.error);
      return;
    }
    var v := BuildView(ps, d, m.value);
    r := Ok(v);
  }
}
