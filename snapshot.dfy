/**
 * Position snapshots: the journal replayed, in (effective date, creation
 * time) order, up to and including a target date, into per-code shares,
 * average cost and realized profit. The replay is lenient: an over-sized
 * SELL is clamped to the holding, and invalid SELLs and unknown entry types
 * are skipped; each of these leaves a warning.
 */
module Snapshot {
  import opened Text
  import opened Seqs
  import opened Order
  import opened Journal

  /** One code's running position. */
  datatype Pos = Pos(shares: real, avgCost: real, realized: real)

  /** The warnings of the lenient replay (the texts are abstracted to their data). */
  datatype Warning =
    | InvalidSell(code: string, shares: real, price: real)
    | OverSell(code: string, sell: real, hold: real, date: string, id: string)
    | UnknownType(kind: string, id: string)

  /**
   * The replay state. The code keeps three dicts (shares, avg_cost,
   * realized) that every applied entry writes together, so they always have
   * the same keys; they are one map here.
   */
  datatype Replay = Replay(book: map<string, Pos>, warnings: seq<Warning>)

  /** `PositionSnapshot`. */
  datatype PositionSnapshot = PositionSnapshot(code: string, sharesEnd: real, avgCostNavEnd: real, realizedPnlEnd: real)

  /** `SnapshotResult`. */
  datatype SnapshotResult = SnapshotResult(positions: seq<PositionSnapshot>, warnings: seq<Warning>)

  const EPS: real := 0.000000001

  function Max(a: real, b: real): real {
    if a >= b then a else b
  }

  /** `shares.get(code, 0.0)` and the like: a code not yet seen holds nothing. */
  function PosOf(book: map<string, Pos>, code: string): Pos {
    if code in book then book[code] else Pos(0.0, 0.0, 0.0)
  }

  /**
   * The average cost after buying `sh` at `price` onto `held` at `avg`:
   * the share-weighted mean, or 0 when nothing is held afterwards.
   */
  function BuyAvg(held: real, avg: real, sh: real, price: real): real {
    if held + sh > 0.0 then (held * avg + sh * price) / (held + sh) else 0.0
  }

  /** The profit of selling `sold` shares at `price` out of a holding at average cost `avg`. */
  function SellPnl(price: real, avg: real, sold: real): real {
    (price - avg) * sold
  }

  /** The replay of one entry. */
  function Step(st: Replay, a: Adjustment): Replay {
    var cur := PosOf(st.book, a.code);
    if a.kind == BUY then
      st.(book := st.book[a.code := Pos(cur.shares + a.shares, BuyAvg(cur.shares, cur.avgCost, a.shares, a.price), cur.realized)])
    else if a.kind == SELL then
      if a.shares <= 0.0 || a.price <= 0.0 then
        st.(warnings := st.warnings + [InvalidSell(a.code, a.shares, a.price)])
      else
        var over := a.shares > cur.shares + EPS;
        var sold := if over then Max(cur.shares, 0.0) else a.shares;
        var newShares := cur.shares - sold;
        Replay(
          st.book[a.code := Pos(newShares, if newShares > 0.0 then cur.avgCost else 0.0,
                                cur.realized + SellPnl(a.price, cur.avgCost, sold))],
          if over then st.warnings + [OverSell(a.code, a.shares, cur.shares, a.effectiveDate, a.id)] else st.warnings)
    else if a.kind == CASH_ADJ then
      st.(book := st.book[a.code := Pos(cur.shares, cur.avgCost, cur.realized + a.cash)])
    else
      st.(warnings := st.warnings + [UnknownType(a.kind, a.id)])
  }

  /** The replay of a list of entries, in list order. */
  function ReplayAll(adjs: seq<Adjustment>): Replay {
    if adjs == [] then Replay(map[], []) else Step(ReplayAll(adjs[..|adjs| - 1]), adjs[|adjs| - 1])
  }

  /** Python `str(a.get("effective_date")) <= target_date`. */
  function OnOrBefore(target: string): Adjustment -> bool {
    (a: Adjustment) => LexLe(a.effectiveDate, target)
  }

  /** The entries replayed for a target date, in replay order. */
  function AsOf(items: seq<Adjustment>, target: string): seq<Adjustment> {
    Filter(ListAdjustments(items, ""), OnOrBefore(target))
  }

  /** The replayed state as of a target date. */
  function ReplayAsOf(items: seq<Adjustment>, target: string): Replay {
    ReplayAll(AsOf(items, target))
  }

  /** Whether a code appears in the snapshot: it holds shares or has realized profit. */
  predicate Included(p: Pos) {
    p.shares > 0.0 || p.realized > EPS || p.realized < -EPS
  }

  /** The codes of a snapshot, in order. */
  predicate CodesAscending(ps: seq<PositionSnapshot>) {
    forall i, j :: 0 <= i < j < |ps| ==> LexLe(ps[i].code, ps[j].code) && ps[i].code != ps[j].code
  }

  /**
   * `ps` is the snapshot of `book`: codes strictly ascending, exactly the
   * included codes, each with its replayed values.
   */
  predicate IsReport(ps: seq<PositionSnapshot>, book: map<string, Pos>) {
    CodesAscending(ps) &&
    (forall k :: 0 <= k < |ps| ==>
      ps[k].code in book && Included(book[ps[k].code]) &&
      ps[k] == PositionSnapshot(ps[k].code, book[ps[k].code].shares, book[ps[k].code].avgCost, book[ps[k].code].realized)) &&
    (forall c :: c in book && Included(book[c]) ==> exists k :: 0 <= k < |ps| && ps[k].code == c)
  }

  /** The one-element sort key of `sorted(codes)`. */
  function CodeKey(c: string): seq<string> {
    [c]
  }

  /** The snapshot rows for the codes `codes`, in that order. */
  function Rows(codes: seq<string>, book: map<string, Pos>): seq<PositionSnapshot> {
    if codes == [] then []
    else
      var c := codes[|codes| - 1];
      var p := PosOf(book, c);
      Rows(codes[..|codes| - 1], book) +
      (if Included(p) then [RowFor(c, p)] else [])
  }

  /** The snapshot row of one code. */
  function RowFor(c: string, p: Pos): PositionSnapshot {
    PositionSnapshot(c, p.shares, p.avgCost, p.realized)
  }

  lemma {:induction false} RowsFrom(codes: seq<string>, book: map<string, Pos>)
    ensures forall k :: 0 <= k < |Rows(codes, book)| ==>
      var row := Rows(codes, book)[k];
      row.code in codes && Included(PosOf(book, row.code)) && row == RowFor(row.code, PosOf(book, row.code))
  {
    if codes != [] {
      var n := |codes| - 1;
      var rs := Rows(codes[..n], book);
      RowsFrom(codes[..n], book);
      var r := Rows(codes, book);
      forall k | 0 <= k < |r|
        ensures r[k].code in codes && Included(PosOf(book, r[k].code)) && r[k] == RowFor(r[k].code, PosOf(book, r[k].code))
      {
        if k < |rs| {
          assert r[k] == rs[k];
          assert rs[k].code in codes[..n];
        }
      }
    }
  }

  lemma {:induction false} RowsCover(codes: seq<string>, book: map<string, Pos>, j: nat)
    requires j < |codes| && Included(PosOf(book, codes[j]))
    ensures exists k :: 0 <= k < |Rows(codes, book)| && Rows(codes, book)[k].code == codes[j]
  {
    var n := |codes| - 1;
    if j < n {
      RowsCover(codes[..n], book, j);
      var k :| 0 <= k < |Rows(codes[..n], book)| && Rows(codes[..n], book)[k].code == codes[..n][j];
      assert Rows(codes, book)[k] == Rows(codes[..n], book)[k];
    } else {
      assert Rows(codes, book)[|Rows(codes[..n], book)|].code == codes[j];
    }
  }

  /** Rows of strictly ascending codes have strictly ascending codes. */
  lemma {:induction false} RowsAscending(codes: seq<string>, book: map<string, Pos>)
    requires SortedBy(codes, CodeKey) && Distinct(codes)
    ensures CodesAscending(Rows(codes, book))
  {
    if codes != [] {
      var n := |codes| - 1;
      var rs := Rows(codes[..n], book);
      RowsAscending(codes[..n], book);
      RowsFrom(codes[..n], book);
      var r := Rows(codes, book);
      forall i, j | 0 <= i < j < |r|
        ensures LexLe(r[i].code, r[j].code) && r[i].code != r[j].code
      {
        if j >= |rs| {
          assert r[j].code == codes[n];
          assert r[i] == rs[i];
          assert rs[i].code in codes[..n];
          var m :| 0 <= m < n && codes[m] == rs[i].code;
          KeysLeSingle(codes[m], codes[n]);
        } else {
          assert r[i] == rs[i] && r[j] == rs[j];
        }
      }
    }
  }

  /** Sorting the distinct keys of the book and taking the included ones gives its snapshot. */
  lemma RowsReport(codes: seq<string>, book: map<string, Pos>)
    requires SortedBy(codes, CodeKey) && Distinct(codes)
    requires forall c :: c in book <==> c in codes
    ensures IsReport(Rows(codes, book), book)
  {
    var r := Rows(codes, book);
    RowsAscending(codes, book);
    RowsFrom(codes, book);
    forall c | c in book && Included(book[c])
      ensures exists k :: 0 <= k < |r| && r[k].code == c
    {
      var j :| 0 <= j < |codes| && codes[j] == c;
      RowsCover(codes, book, j);
    }
  }

  /**
   * `build_positions_as_of_safe`: the journal is listed, cut at the target
   * date and replayed; the snapshot holds the included codes in ascending
   * order.
   */
  method BuildPositionsAsOfSafe(items: seq<Adjustment>, target: string) returns (res: SnapshotResult)
    ensures res.warnings == ReplayAsOf(items, target).warnings
    ensures IsReport(res.positions, ReplayAsOf(items, target).book)
  {
    var adjs := AsOf(items, target);
    var book, warnings, codes := ReplayEntries(adjs);
    var sorted := SortBy(codes, CodeKey);
    SortBySorted(codes, CodeKey);
    SortByPermutation(codes, CodeKey);
    PermutationDistinct(codes, sorted);
    forall c
      ensures c in book <==> c in sorted
    {
      assert c in sorted <==> c in multiset(sorted);
      assert c in codes <==> c in multiset(codes);
    }
    var out := CollectRows(sorted, book);
    RowsReport(sorted, book);
    res := SnapshotResult(out, warnings);
  }

  /**
   * The body of the replay loop of `build_positions_as_of_safe`: one entry
   * applied to the book, a code joining `codes` when it first enters the book.
   */
  method ReplayEntry(book: map<string, Pos>, warnings: seq<Warning>, codes: seq<string>, a: Adjustment)
    returns (book': map<string, Pos>, warnings': seq<Warning>, codes': seq<string>)
    requires Distinct(codes) && forall c :: c in book <==> c in codes
    ensures Replay(book', warnings') == Step(Replay(book, warnings), a)
    ensures Distinct(codes')
    ensures forall c :: c in book' <==> c in codes'
  {
    book', warnings', codes' := book, warnings, codes;
    var code := a.code;
    var sh := a.shares;
    var price := a.price;
    var cur := PosOf(book, code);
    if a.kind == BUY {
      var newShares := cur.shares + sh;
      var newAvg := BuyAvg(cur.shares, cur.avgCost, sh, price);
      if code !in book {
        codes' := codes + [code];
      }
      book' := book[code := Pos(newShares, newAvg, cur.realized)];
    } else if a.kind == SELL {
      if sh <= 0.0 || price <= 0.0 {
        warnings' := warnings + [InvalidSell(code, sh, price)];
      } else {
        if sh > cur.shares + EPS {
          warnings' := warnings + [OverSell(code, sh, cur.shares, a.effectiveDate, a.id)];
          sh := Max(cur.shares, 0.0);
        }
        var pnl := SellPnl(price, cur.avgCost, sh);
        var newShares := cur.shares - sh;
        if code !in book {
          codes' := codes + [code];
        }
        book' := book[code := Pos(newShares, if newShares > 0.0 then cur.avgCost else 0.0, cur.realized + pnl)];
      }
    } else if a.kind == CASH_ADJ {
      if code !in book {
        codes' := codes + [code];
      }
      book' := book[code := Pos(cur.shares, cur.avgCost, cur.realized + a.cash)];
    } else {
      warnings' := warnings + [UnknownType(a.kind, a.id)];
    }
  }

  /**
   * The replay loop of `build_positions_as_of_safe`; `codes` lists the keys
   * of the book in first-seen order.
   */
  method ReplayEntries(adjs: seq<Adjustment>) returns (book: map<string, Pos>, warnings: seq<Warning>, codes: seq<string>)
    ensures Replay(book, warnings) == ReplayAll(adjs)
    ensures Distinct(codes)
    ensures forall c :: c in book <==> c in codes
  {
    book := map[];
    codes := [];
    warnings := [];
    var i := 0;
    while i < |adjs|
      invariant 0 <= i <= |adjs|
      invariant Replay(book, warnings) == ReplayAll(adjs[..i])
      invariant Distinct(codes)
      invariant forall c :: c in book <==> c in codes
    {
      assert adjs[..i + 1][..i] == adjs[..i];
      book, warnings, codes := ReplayEntry(book, warnings, codes, adjs[i]);
      i := i + 1;
    }
    assert adjs[..i] == adjs;
  }

  /** The output loop of `build_positions_as_of_safe`: one row per included code, in the given order. */
  method CollectRows(sorted: seq<string>, book: map<string, Pos>) returns (out: seq<PositionSnapshot>)
    ensures out == Rows(sorted, book)
  {
    out := [];
    var j := 0;
    while j < |sorted|
      invariant 0 <= j <= |sorted|
      invariant out == Rows(sorted[..j], book)
    {
      assert sorted[..j + 1][..j] == sorted[..j];
      var c := sorted[j];
      var p := PosOf(book, c);
      if p.shares > 0.0 || (if p.realized < 0.0 then -p.realized else p.realized) > EPS {
        out := out + [PositionSnapshot(c, p.shares, p.avgCost, p.realized)];
      }
      j := j + 1;
    }
    assert sorted[..j] == sorted;
  }

  /** `build_positions_as_of`: the positions of the lenient replay. */
  method BuildPositionsAsOf(items: seq<Adjustment>, target: string) returns (ps: seq<PositionSnapshot>)
    ensures IsReport(ps, ReplayAsOf(items, target).book)
  {
    var res := BuildPositionsAsOfSafe(items, target);
    ps := res.positions;
  }

  lemma QuotientBetween(lo: real, hi: real, num: real, n: real)
    requires n > 0.0 && lo * n <= num <= hi * n
    ensures lo <= num / n <= hi
  {
    assert (num / n) * n == num;
  }

  /**
   * The average after a BUY is a share-weighted mean: it lies between the
   * old average and the price, and is the price itself when nothing was
   * held.
   */
  lemma BuyAvgBetween(held: real, avg: real, sh: real, price: real)
    requires held >= 0.0 && sh > 0.0
    ensures held == 0.0 ==> BuyAvg(held, avg, sh, price) == price
    ensures avg <= price ==> held == 0.0 || avg <= BuyAvg(held, avg, sh, price) <= price
    ensures price <= avg ==> held == 0.0 || price <= BuyAvg(held, avg, sh, price) <= avg
  {
    var n := held + sh;
    var num := held * avg + sh * price;
    if held == 0.0 {
      assert num == price * n;
    } else if avg <= price {
      MeanBounds(held, sh, avg, price);
      QuotientBetween(avg, price, num, n);
    } else {
      MeanBounds(sh, held, price, avg);
      QuotientBetween(price, avg, num, n);
    }
  }

  /** A weighted sum of `lo` and `hi` lies between the total weight times each. */
  lemma MeanBounds(u: real, v: real, lo: real, hi: real)
    requires u >= 0.0 && v >= 0.0 && lo <= hi
    ensures lo * (u + v) <= u * lo + v * hi <= hi * (u + v)
  {
    assert v * lo <= v * hi;
    assert u * lo <= u * hi;
  }

  /** A BUY of positive size onto a non-negative holding averages the cost between the old cost and the price. */
  lemma BuyAveragesCost(st: Replay, a: Adjustment)
    requires a.kind == BUY && a.shares > 0.0
    requires PosOf(st.book, a.code).shares >= 0.0
    ensures var cur := PosOf(st.book, a.code);
            var p := Step(st, a).book[a.code];
            p.shares == cur.shares + a.shares && p.realized == cur.realized && Step(st, a).warnings == st.warnings &&
            (cur.shares == 0.0 ==> p.avgCost == a.price) &&
            (cur.avgCost <= a.price ==> cur.shares == 0.0 || cur.avgCost <= p.avgCost <= a.price) &&
            (a.price <= cur.avgCost ==> cur.shares == 0.0 || a.price <= p.avgCost <= cur.avgCost)
  {
    var cur := PosOf(st.book, a.code);
    BuyAvgBetween(cur.shares, cur.avgCost, a.shares, a.price);
  }

  /** A skipped SELL or an entry of unknown type changes no position and adds one warning. */
  lemma SkippedEntries(st: Replay, a: Adjustment)
    requires a.kind != BUY && a.kind != CASH_ADJ
    requires a.kind != SELL || a.shares <= 0.0 || a.price <= 0.0
    ensures Step(st, a).book == st.book
    ensures |Step(st, a).warnings| == |st.warnings| + 1 && Step(st, a).warnings[..|st.warnings|] == st.warnings
  {
    assert (st.warnings + [Step(st, a).warnings[|st.warnings|]])[..|st.warnings|] == st.warnings;
  }

  /**
   * A SELL never takes more than is held plus the tolerance: the amount
   * sold is the order's size unless that exceeds the holding by more than
   * 1e-9, in which case it is the holding (never negative); realized profit
   * grows by (price − average cost) per share sold.
   */
  lemma SellClamped(st: Replay, a: Adjustment)
    requires a.kind == SELL && a.shares > 0.0 && a.price > 0.0
    ensures var cur := PosOf(st.book, a.code);
            var p := Step(st, a).book[a.code];
            var sold := cur.shares - p.shares;
            (a.shares > cur.shares + EPS ==> sold == Max(cur.shares, 0.0) && |Step(st, a).warnings| == |st.warnings| + 1) &&
            (a.shares <= cur.shares + EPS ==> sold == a.shares && Step(st, a).warnings == st.warnings) &&
            p.realized == cur.realized + SellPnl(a.price, cur.avgCost, sold) &&
            (p.shares > 0.0 ==> p.avgCost == cur.avgCost) && (p.shares <= 0.0 ==> p.avgCost == 0.0)
  {
  }

  /** An entry moves only its own code. */
  lemma StepOthers(st: Replay, a: Adjustment)
    ensures forall o :: o != a.code ==> PosOf(Step(st, a).book, o) == PosOf(st.book, o)
  {
  }

  /** A BUY adds its size to the holding and raises no warning. */
  lemma StepBuy(st: Replay, a: Adjustment)
    requires a.kind == BUY
    ensures PosOf(Step(st, a).book, a.code).shares == PosOf(st.book, a.code).shares + a.shares
    ensures Step(st, a).warnings == st.warnings
  {
  }

  /** A cash adjustment adds to realized profit only, and raises no warning. */
  lemma StepCash(st: Replay, a: Adjustment)
    requires a.kind == CASH_ADJ
    ensures PosOf(Step(st, a).book, a.code).shares == PosOf(st.book, a.code).shares
    ensures PosOf(Step(st, a).book, a.code).realized == PosOf(st.book, a.code).realized + a.cash
    ensures Step(st, a).warnings == st.warnings
  {
  }

  /** No replayed holding falls below −1e-9 as long as BUY sizes are not negative. */
  predicate BuysNonNegative(adjs: seq<Adjustment>) {
    forall a :: a in adjs && a.kind == BUY ==> a.shares >= 0.0
  }

  predicate NoDeepShort(book: map<string, Pos>) {
    forall c :: c in book ==> book[c].shares >= -EPS
  }

  lemma StepNoDeepShort(st: Replay, a: Adjustment)
    requires NoDeepShort(st.book)
    requires a.kind == BUY ==> a.shares >= 0.0
    ensures NoDeepShort(Step(st, a).book)
  {
  }

  lemma {:induction false} ReplayNoDeepShort(adjs: seq<Adjustment>)
    requires BuysNonNegative(adjs)
    ensures NoDeepShort(ReplayAll(adjs).book)
  {
    if adjs != [] {
      var n := |adjs| - 1;
      assert BuysNonNegative(adjs[..n]);
      ReplayNoDeepShort(adjs[..n]);
      StepNoDeepShort(ReplayAll(adjs[..n]), adjs[n]);
    }
  }

  /** A well-formed entry never produces an invalid-SELL or unknown-type warning. */
  lemma WellFormedNoSkip(st: Replay, a: Adjustment)
    requires WellFormed(a)
    ensures forall w :: w in Step(st, a).warnings && w !in st.warnings ==> w.OverSell?
  {
  }

  /** Entries dated after the target never influence the replay. */
  lemma LaterEntryIgnored(items: seq<Adjustment>, x: Adjustment, target: string)
    requires !LexLe(x.effectiveDate, target)
    ensures ReplayAsOf(items + [x], target) == ReplayAsOf(items, target)
  {
    FilterSortAppendDropped(items, x, SortKey, OnOrBefore(target));
  }

  /**
   * The walk-through of the journal demo: BUY 1000 at 4.50, a cash
   * adjustment of +5, then SELL 200 at 4.70 leaves 800 shares at an
   * average of 4.50 with 45 realized, and no warning.
   */
  lemma DemoJournalReplay(b: Adjustment, c: Adjustment, s: Adjustment)
    requires b.kind == BUY && b.code == "510300" && b.shares == 1000.0 && b.price == 4.5
    requires c.kind == CASH_ADJ && c.code == "510300" && c.cash == 5.0
    requires s.kind == SELL && s.code == "510300" && s.shares == 200.0 && s.price == 4.7
    ensures ReplayAll([b, c]).book["510300"] == Pos(1000.0, 4.5, 5.0)
    ensures ReplayAll([b, c, s]).book["510300"] == Pos(800.0, 4.5, 45.0)
    ensures ReplayAll([b, c, s]).warnings == []
  {
    assert [b, c, s][..2] == [b, c];
    assert [b, c][..1] == [b];
    assert [b][..0] == [];
    var r0 := ReplayAll([]);
    assert BuyAvg(0.0, 0.0, 1000.0, 4.5) == 4.5;
    var r1 := ReplayAll([b]);
    assert r1 == Step(r0, b);
    assert r1.book["510300"] == Pos(1000.0, 4.5, 0.0) && r1.warnings == [];
    var r2 := ReplayAll([b, c]);
    assert r2 == Step(r1, c);
    assert r2.book["510300"] == Pos(1000.0, 4.5, 5.0) && r2.warnings == [];
    assert SellPnl(4.7, 4.5, 200.0) == 40.0;
    assert ReplayAll([b, c, s]) == Step(r2, s);
  }
}
