/**
 * The position editor's bridge into the journal: an edited end-of-day
 * position (shares, cost, realized profit) for one code and date is turned
 * into journal entries. Earlier editor entries for that code and date are
 * removed first; then a BUY or SELL closes the share gap and a CASH_ADJ
 * closes the realized-profit gap, both tagged `ui_edit`.
 */
module EditBridge {
  import opened Wrappers
  import opened Text
  import opened Seqs
  import opened Order
  import opened Journal
  import opened Snapshot
  import opened Dates

  /** Realized-profit gaps up to this size are left alone. */
  const REALIZED_TOL: real := 0.000001

  function Abs(x: real): real {
    if x < 0.0 then -x else x
  }

  /** A code the snapshot leaves out reads as all zeros. */
  function SnapshotPos(book: map<string, Pos>, c: string): Pos {
    if c in book && Included(book[c]) then book[c] else Pos(0.0, 0.0, 0.0)
  }

  /**
   * `_get_snapshot_map`: the snapshot as of `d`, keyed by code. It holds
   * exactly the codes the snapshot reports, with their replayed values.
   */
  method GetSnapshotMap(items: seq<Adjustment>, d: string) returns (mp: map<string, Pos>)
    ensures forall c :: c in mp <==> c in ReplayAsOf(items, d).book && Included(ReplayAsOf(items, d).book[c])
    ensures forall c :: c in mp ==> mp[c] == ReplayAsOf(items, d).book[c]
  {
    var snaps := BuildPositionsAsOf(items, d);
    ghost var book := ReplayAsOf(items, d).book;
    mp := map[];
    var k := 0;
    while k < |snaps|
      invariant 0 <= k <= |snaps|
      invariant forall c :: c in mp ==> c in book && Included(book[c]) && mp[c] == book[c]
      invariant forall j :: 0 <= j < k ==> snaps[j].code in mp
    {
      var s := snaps[k];
      mp := mp[s.code := Pos(s.sharesEnd, s.avgCostNavEnd, s.realizedPnlEnd)];
      k := k + 1;
    }
  }

  /** `note or "edit->..."`: a missing or empty note gets the default. */
  function EditNote(note: Option<string>, default: string): (r: Option<string>)
    ensures r.Some?
    ensures note.Some? && note.value != "" ==> r == note
    ensures note.None? || note.value == "" ==> r == Some(default)
  {
    if note.None? || note.value == "" then Some(default) else note
  }

  /** A BUY/SELL is priced at the edited cost, or 1.0 when the cost is zero. */
  function TradePrice(avgCost: real): (r: real)
    ensures r > 0.0
    ensures avgCost > 0.0 ==> r == avgCost
  {
    if avgCost > 0.0 then avgCost else 1.0
  }

  /** The entry `add_adjustment` stores for the editor. */
  function EditEntry(kind: string, c: string, d: string, shares: real, price: real, cash: real,
                     note: Option<string>, id: string, now: string): Adjustment {
    Adjustment(id, kind, c, d, shares, price, cash, note, Some(SOURCE_UI_EDIT), now)
  }

  /** The journal with the editor's earlier entries for (c, d) removed, after the backfill. */
  function Cleared(items: seq<Adjustment>, c: string, d: string): seq<Adjustment> {
    Filter(Migrated(items, c, d), CodeDateIsNot(c, d, SOURCE_UI_EDIT))
  }

  /** Step 1: the BUY or SELL that closes the share gap against the snapshot, when it exceeds 1e-9. */
  function TradeEntries(base: seq<Adjustment>, c: string, d: string, sharesEnd: real, avgCost: real,
                        note: Option<string>, id: string, now: string): (r: seq<Adjustment>)
    ensures |r| <= 1
  {
    var delta := sharesEnd - SnapshotPos(ReplayAsOf(base, d).book, c).shares;
    if Abs(delta) <= EPS then []
    else if delta > 0.0 then [EditEntry(BUY, c, d, delta, TradePrice(avgCost), 0.0, EditNote(note, "edit->BUY"), id, now)]
    else [EditEntry(SELL, c, d, Abs(delta), TradePrice(avgCost), 0.0, EditNote(note, "edit->SELL"), id, now)]
  }

  /** Step 2: the CASH_ADJ that closes the realized-profit gap measured after step 1, when it exceeds 1e-6. */
  function CashEntries(items: seq<Adjustment>, c: string, d: string, realizedEnd: real,
                       note: Option<string>, id: string, now: string): (r: seq<Adjustment>)
    ensures |r| <= 1
  {
    var deltaReal := realizedEnd - SnapshotPos(ReplayAsOf(items, d).book, c).realized;
    if Abs(deltaReal) <= REALIZED_TOL then []
    else [EditEntry(CASH_ADJ, c, d, 0.0, 0.0, deltaReal, EditNote(note, "edit->CASH_ADJ"), id, now)]
  }

  /** The arguments `apply_position_edit` accepts. */
  predicate EditAccepted(date: string, code: string, sharesEnd: real, avgCost: real) {
    Strip(code) != "" && sharesEnd >= 0.0 && avgCost >= 0.0 && IsIsoDate(date)
  }

  /**
   * `apply_position_edit` on the journal's item list. The ids of the two
   * possible new entries and the clock are parameters.
   */
  function EditJournal(items: seq<Adjustment>, date: string, code: string, sharesEnd: real, avgCost: real,
                       realizedEnd: real, note: Option<string>, tradeId: string, cashId: string, now: string)
    : (r: Result<seq<Adjustment>>)
    ensures r.Ok? <==> EditAccepted(date, code, sharesEnd, avgCost)
  {
    var c := Strip(code);
    if c == "" then Err("code is required")
    else if sharesEnd < 0.0 then Err("shares_end must be >= 0")
    else if avgCost < 0.0 then Err("avg_cost_nav_end must be >= 0")
    else if !IsIsoDate(date) then Err("Invalid isoformat string")
    else
      var base := Cleared(items, c, date);
      var mid := base + TradeEntries(base, c, date, sharesEnd, avgCost, note, tradeId, now);
      Ok(mid + CashEntries(mid, c, date, realizedEnd, note, cashId, now))
  }

  // ---------------------------------------------------------------------
  // What the editor's entries look like to the rest of the journal.

  lemma BuyNormal()
    ensures Upper(Strip(BUY)) == BUY
  {
    StripNoop(BUY);
  }

  lemma SellNormal()
    ensures Upper(Strip(SELL)) == SELL
  {
    StripNoop(SELL);
  }

  lemma CashAdjNormal()
    ensures Upper(Strip(CASH_ADJ)) == CASH_ADJ
  {
    StripNoop(CASH_ADJ);
  }

  /** `add_adjustment` accepts every entry the editor writes and stores exactly `EditEntry`. */
  lemma EditEntryAccepted(kind: string, c: string, d: string, shares: real, price: real, cash: real,
                          note: Option<string>, id: string, now: string)
    requires kind == BUY || kind == SELL || kind == CASH_ADJ
    requires c != "" && Strip(c) == c && IsIsoDate(d)
    requires kind != CASH_ADJ ==> shares > 0.0 && price > 0.0
    ensures NewAdjustment(kind, c, d, shares, price, cash, note, Some(SOURCE_UI_EDIT), id, now)
            == Ok(EditEntry(kind, c, d, shares, price, cash, note, id, now))
  {
    assert Upper(Strip(kind)) == kind by {
      if kind == BUY {
        BuyNormal();
      } else if kind == SELL {
        SellNormal();
      } else {
        CashAdjNormal();
      }
    }
    assert NormalSource(Some(SOURCE_UI_EDIT)) == SOURCE_UI_EDIT by {
      UiEditTagNormal();
    }
    assert Strip(d) == d by {
      IsoDateStripped(d);
    }
    assert AddAccepted(kind, c, d, shares, price, Some(SOURCE_UI_EDIT));
  }

  /** Every entry in `s` is an editor entry for (c, d) created at `now`. */
  predicate EditorEntries(s: seq<Adjustment>, c: string, d: string, now: string) {
    forall a :: a in s ==>
      a.code == c && a.effectiveDate == d && a.source == Some(SOURCE_UI_EDIT) && a.createdAt == now &&
      (a.kind == BUY ==> a.shares > 0.0)
  }

  lemma TradeEntriesShape(base: seq<Adjustment>, c: string, d: string, sharesEnd: real, avgCost: real,
                          note: Option<string>, id: string, now: string)
    ensures EditorEntries(TradeEntries(base, c, d, sharesEnd, avgCost, note, id, now), c, d, now)
  {
  }

  lemma CashEntriesShape(items: seq<Adjustment>, c: string, d: string, realizedEnd: real,
                         note: Option<string>, id: string, now: string)
    ensures EditorEntries(CashEntries(items, c, d, realizedEnd, note, id, now), c, d, now)
  {
  }

  /** Editor entries for (c, d) are exactly what the clean-up of (c, d) removes, and never need the backfill. */
  lemma EditorEntriesMatch(s: seq<Adjustment>, c: string, d: string, now: string)
    requires EditorEntries(s, c, d, now) && Strip(c) == c && Strip(d) == d
    ensures forall a :: a in s ==> CodeDateMatch(a, c, d, SOURCE_UI_EDIT) && !NeedsRetag(a, c, d)
  {
    UiEditTagNormal();
  }

  // ---------------------------------------------------------------------
  // The edit reaches its target.

  /**
   * The journal facts the guarantee needs: no entry was created after the
   * edit's clock reading, and no BUY has a negative size.
   */
  predicate Sane(items: seq<Adjustment>, now: string) {
    forall a :: a in items ==> LexLe(a.createdAt, now) && (a.kind == BUY ==> a.shares >= 0.0)
  }

  lemma SaneCleared(items: seq<Adjustment>, c: string, d: string, now: string)
    requires Sane(items, now)
    ensures Sane(Cleared(items, c, d), now)
  {
    var m := Migrated(items, c, d);
    forall a | a in Cleared(items, c, d)
      ensures LexLe(a.createdAt, now) && (a.kind == BUY ==> a.shares >= 0.0)
    {
      FilterMember(m, CodeDateIsNot(c, d, SOURCE_UI_EDIT), a);
      var k :| 0 <= k < |m| && m[k] == a;
      assert items[k] in items;
    }
  }

  lemma SaneAppend(s: seq<Adjustment>, t: seq<Adjustment>, c: string, d: string, now: string)
    requires Sane(s, now) && EditorEntries(t, c, d, now)
    ensures Sane(s + t, now)
  {
    LexLeRefl(now);
  }

  lemma SaneAsOf(items: seq<Adjustment>, d: string, now: string)
    requires Sane(items, now)
    ensures BuysNonNegative(AsOf(items, d))
  {
    forall a | a in AsOf(items, d) && a.kind == BUY
      ensures a.shares >= 0.0
    {
      FilterMember(SortBy(items, SortKey), OnOrBefore(d), a);
      SortByPermutation(items, SortKey);
      assert a in multiset(SortBy(items, SortKey));
    }
  }

  /**
   * An entry dated `d` and created at `now` replays last among the entries
   * up to `d`, when no entry was created after `now`.
   */
  lemma ReplayAppendLast(items: seq<Adjustment>, x: Adjustment, d: string, now: string)
    requires x.effectiveDate == d && x.createdAt == now
    requires Sane(items, now)
    ensures ReplayAsOf(items + [x], d) == Step(ReplayAsOf(items, d), x)
  {
    var p := OnOrBefore(d);
    LexLeRefl(d);
    forall k | 0 <= k < |items| && p(items[k])
      ensures KeysLe(SortKey(items[k]), SortKey(x))
    {
      assert items[k] in items;
      KeysLePair(items[k].effectiveDate, items[k].createdAt, d, now);
    }
    FilterSortAppendLast(items, x, SortKey, p);
    var pre := AsOf(items, d);
    assert (pre + [x])[..|pre|] == pre;
  }

  /** A code's replayed holding, read as the snapshot reads it, is off by at most 1e-9. */
  lemma SnapshotPosClose(book: map<string, Pos>, c: string)
    requires NoDeepShort(book)
    ensures Abs(SnapshotPos(book, c).shares - PosOf(book, c).shares) <= EPS
    ensures Abs(SnapshotPos(book, c).realized - PosOf(book, c).realized) <= EPS
    ensures SnapshotPos(book, c).shares == 0.0 || SnapshotPos(book, c).shares == PosOf(book, c).shares
  {
  }

  /** The holding and warnings of the journal up to `d`, with the guarantee's hypotheses discharged. */
  lemma SaneReplay(items: seq<Adjustment>, d: string, now: string)
    requires Sane(items, now)
    ensures NoDeepShort(ReplayAsOf(items, d).book)
  {
    SaneAsOf(items, d, now);
    ReplayNoDeepShort(AsOf(items, d));
  }

  /**
   * After step 1 the code's holding is within 2e-9 of the target, no SELL
   * was clamped (no new warning), and no other code moved.
   */
  lemma TradeReachesShares(base: seq<Adjustment>, c: string, d: string, sharesEnd: real, avgCost: real,
                           note: Option<string>, id: string, now: string)
    requires Sane(base, now) && sharesEnd >= 0.0
    ensures var after := ReplayAsOf(base + TradeEntries(base, c, d, sharesEnd, avgCost, note, id, now), d);
            var before := ReplayAsOf(base, d);
            Abs(PosOf(after.book, c).shares - sharesEnd) <= 2.0 * EPS &&
            after.warnings == before.warnings &&
            forall o :: o != c ==> PosOf(after.book, o) == PosOf(before.book, o)
  {
    var before := ReplayAsOf(base, d);
    SaneReplay(base, d, now);
    SnapshotPosClose(before.book, c);
    var t := TradeEntries(base, c, d, sharesEnd, avgCost, note, id, now);
    if t == [] {
      assert base + t == base;
    } else {
      var x := t[0];
      assert t == [x];
      ReplayAppendLast(base, x, d, now);
      StepOthers(before, x);
      if x.kind == BUY {
        StepBuy(before, x);
      } else {
        SellClamped(before, x);
      }
    }
  }

  /**
   * After step 2 the code's realized profit is within 1e-6 + 1e-9 of the
   * target, its holding is unchanged, and nothing else moved.
   */
  lemma CashReachesRealized(items: seq<Adjustment>, c: string, d: string, realizedEnd: real,
                            note: Option<string>, id: string, now: string)
    requires Sane(items, now)
    ensures var after := ReplayAsOf(items + CashEntries(items, c, d, realizedEnd, note, id, now), d);
            var before := ReplayAsOf(items, d);
            Abs(PosOf(after.book, c).realized - realizedEnd) <= REALIZED_TOL + EPS &&
            PosOf(after.book, c).shares == PosOf(before.book, c).shares &&
            after.warnings == before.warnings &&
            forall o :: o != c ==> PosOf(after.book, o) == PosOf(before.book, o)
  {
    var before := ReplayAsOf(items, d);
    SaneReplay(items, d, now);
    SnapshotPosClose(before.book, c);
    var t := CashEntries(items, c, d, realizedEnd, note, id, now);
    if t == [] {
      assert items + t == items;
    } else {
      var x := t[0];
      assert t == [x];
      ReplayAppendLast(items, x, d, now);
      StepOthers(before, x);
      StepCash(before, x);
    }
  }

  /**
   * Replaying `items` up to day `d` leaves code `c` holding `shares` and
   * `realized`, up to the replay's tolerances.
   */
  predicate Reaches(items: seq<Adjustment>, d: string, c: string, shares: real, realized: real) {
    var p := PosOf(ReplayAsOf(items, d).book, c);
    Abs(p.shares - shares) <= 2.0 * EPS && Abs(p.realized - realized) <= REALIZED_TOL + EPS
  }

  /**
   * The bridge's promise: replaying the edited journal up to the edited
   * date gives the edited holding (within 2e-9) and realized profit
   * (within 1e-6 + 1e-9) for the code, leaves every other code as the
   * journal without the earlier editor entries had it, and raises no
   * warning that journal did not (in particular no SELL is clamped).
   */
  lemma EditReachesTarget(items: seq<Adjustment>, date: string, code: string, sharesEnd: real, avgCost: real,
                          realizedEnd: real, note: Option<string>, tradeId: string, cashId: string, now: string)
    requires EditAccepted(date, code, sharesEnd, avgCost)
    requires Sane(items, now)
    ensures var r := EditJournal(items, date, code, sharesEnd, avgCost, realizedEnd, note, tradeId, cashId, now).value;
            var c := Strip(code);
            var after := ReplayAsOf(r, date);
            var base := ReplayAsOf(Cleared(items, c, date), date);
            Abs(PosOf(after.book, c).shares - sharesEnd) <= 2.0 * EPS &&
            Abs(PosOf(after.book, c).realized - realizedEnd) <= REALIZED_TOL + EPS &&
            after.warnings == base.warnings &&
            forall o :: o != c ==> PosOf(after.book, o) == PosOf(base.book, o)
  {
    var c := Strip(code);
    var base := Cleared(items, c, date);
    EditUnfold(items, date, code, sharesEnd, avgCost, realizedEnd, note, tradeId, cashId, now);
    SaneCleared(items, c, date, now);
    TradeReachesShares(base, c, date, sharesEnd, avgCost, note, tradeId, now);
    var t := TradeEntries(base, c, date, sharesEnd, avgCost, note, tradeId, now);
    TradeEntriesShape(base, c, date, sharesEnd, avgCost, note, tradeId, now);
    SaneAppend(base, t, c, date, now);
    CashReachesRealized(base + t, c, date, realizedEnd, note, cashId, now);
  }

  /** The bridge's promise on the edited code alone. */
  lemma EditReaches(items: seq<Adjustment>, date: string, code: string, sharesEnd: real, avgCost: real,
                    realizedEnd: real, note: Option<string>, tradeId: string, cashId: string, now: string)
    requires EditAccepted(date, code, sharesEnd, avgCost)
    requires Sane(items, now)
    ensures Reaches(EditJournal(items, date, code, sharesEnd, avgCost, realizedEnd, note, tradeId, cashId, now).value,
                    date, Strip(code), sharesEnd, realizedEnd)
  {
    EditReachesTarget(items, date, code, sharesEnd, avgCost, realizedEnd, note, tradeId, cashId, now);
  }

  // ---------------------------------------------------------------------
  // Re-applying an edit changes nothing.

  lemma {:induction false} MigratedConcat(a: seq<Adjustment>, b: seq<Adjustment>, c: string, d: string)
    ensures Migrated(a + b, c, d) == Migrated(a, c, d) + Migrated(b, c, d)
  {
    var l := Migrated(a + b, c, d);
    var r := Migrated(a, c, d) + Migrated(b, c, d);
    assert |l| == |r|;
    forall k | 0 <= k < |l|
      ensures l[k] == r[k]
    {
      if k < |a| {
        assert (a + b)[k] == a[k];
      } else {
        assert (a + b)[k] == b[k - |a|];
      }
    }
  }

  /** The backfill leaves alone a list in which nothing needs it. */
  lemma MigratedSettled(s: seq<Adjustment>, c: string, d: string)
    requires forall a :: a in s ==> !NeedsRetag(a, c, d)
    ensures Migrated(s, c, d) == s
  {
    forall k | 0 <= k < |s|
      ensures Migrated(s, c, d)[k] == s[k]
    {
      assert s[k] in s;
    }
  }

  /** Clearing (c, d) again after appending editor entries for (c, d) gives back the same list. */
  lemma ClearedAgain(items: seq<Adjustment>, extra: seq<Adjustment>, c: string, d: string)
    requires forall a :: a in extra ==> CodeDateMatch(a, c, d, SOURCE_UI_EDIT) && !NeedsRetag(a, c, d)
    ensures Cleared(Cleared(items, c, d) + extra, c, d) == Cleared(items, c, d)
  {
    var m := Migrated(items, c, d);
    var p := CodeDateIsNot(c, d, SOURCE_UI_EDIT);
    var base := Filter(m, p);
    forall a | a in base
      ensures !NeedsRetag(a, c, d)
    {
      FilterMember(m, p, a);
      var k :| 0 <= k < |m| && m[k] == a;
      RetagSettles(items[k], c, d);
    }
    MigratedSettled(base, c, d);
    MigratedSettled(extra, c, d);
    MigratedConcat(base, extra, c, d);
    FilterConcat(base, extra, p);
    FilterIdempotent(m, p);
    forall k | 0 <= k < |extra|
      ensures !p(extra[k])
    {
      assert extra[k] in extra;
    }
    FilterNone(extra, p);
    assert base + [] == base;
  }

  /** The accepted edit is the cleared journal, then step 1's entries, then step 2's. */
  lemma EditUnfold(items: seq<Adjustment>, date: string, code: string, sharesEnd: real, avgCost: real,
                   realizedEnd: real, note: Option<string>, tradeId: string, cashId: string, now: string)
    requires EditAccepted(date, code, sharesEnd, avgCost)
    ensures var c := Strip(code);
            var base := Cleared(items, c, date);
            var t := TradeEntries(base, c, date, sharesEnd, avgCost, note, tradeId, now);
            EditJournal(items, date, code, sharesEnd, avgCost, realizedEnd, note, tradeId, cashId, now)
              == Ok(base + t + CashEntries(base + t, c, date, realizedEnd, note, cashId, now))
  {
  }

  /** The edited journal is the cleared journal followed by editor entries for (c, d). */
  lemma EditShape(items: seq<Adjustment>, date: string, code: string, sharesEnd: real, avgCost: real,
                  realizedEnd: real, note: Option<string>, tradeId: string, cashId: string, now: string)
    requires EditAccepted(date, code, sharesEnd, avgCost)
    ensures var r := EditJournal(items, date, code, sharesEnd, avgCost, realizedEnd, note, tradeId, cashId, now).value;
            var base := Cleared(items, Strip(code), date);
            |base| <= |r| && r[..|base|] == base && EditorEntries(r[|base|..], Strip(code), date, now)
  {
    var c := Strip(code);
    var base := Cleared(items, c, date);
    var t := TradeEntries(base, c, date, sharesEnd, avgCost, note, tradeId, now);
    var u := CashEntries(base + t, c, date, realizedEnd, note, cashId, now);
    EditUnfold(items, date, code, sharesEnd, avgCost, realizedEnd, note, tradeId, cashId, now);
    TradeEntriesShape(base, c, date, sharesEnd, avgCost, note, tradeId, now);
    CashEntriesShape(base + t, c, date, realizedEnd, note, cashId, now);
    AppendShape(base, t, u, c, date, now);
  }

  lemma AppendShape(base: seq<Adjustment>, t: seq<Adjustment>, u: seq<Adjustment>, c: string, d: string, now: string)
    requires EditorEntries(t, c, d, now) && EditorEntries(u, c, d, now)
    ensures var r := base + t + u;
            |base| <= |r| && r[..|base|] == base && EditorEntries(r[|base|..], c, d, now)
  {
    var r := base + t + u;
    assert r[..|base|] == base;
    assert r[|base|..] == t + u;
  }

  /**
   * The overwrite mode: applying the same edit a second time (same ids,
   * same clock reading) leaves the journal as the first application did.
   */
  lemma EditIdempotent(items: seq<Adjustment>, date: string, code: string, sharesEnd: real, avgCost: real,
                       realizedEnd: real, note: Option<string>, tradeId: string, cashId: string, now: string)
    requires EditAccepted(date, code, sharesEnd, avgCost)
    ensures var r := EditJournal(items, date, code, sharesEnd, avgCost, realizedEnd, note, tradeId, cashId, now).value;
            EditJournal(r, date, code, sharesEnd, avgCost, realizedEnd, note, tradeId, cashId, now) == Ok(r)
  {
    var r := EditJournal(items, date, code, sharesEnd, avgCost, realizedEnd, note, tradeId, cashId, now).value;
    EditClearsBack(items, date, code, sharesEnd, avgCost, realizedEnd, note, tradeId, cashId, now);
    SameClearedSameEdit(items, r, date, code, sharesEnd, avgCost, realizedEnd, note, tradeId, cashId, now);
  }

  /** Clearing the edited journal for the same (code, date) gives back the cleared original. */
  lemma EditClearsBack(items: seq<Adjustment>, date: string, code: string, sharesEnd: real, avgCost: real,
                       realizedEnd: real, note: Option<string>, tradeId: string, cashId: string, now: string)
    requires EditAccepted(date, code, sharesEnd, avgCost)
    ensures var r := EditJournal(items, date, code, sharesEnd, avgCost, realizedEnd, note, tradeId, cashId, now).value;
            Cleared(r, Strip(code), date) == Cleared(items, Strip(code), date)
  {
    var r := EditJournal(items, date, code, sharesEnd, avgCost, realizedEnd, note, tradeId, cashId, now).value;
    EditShape(items, date, code, sharesEnd, avgCost, realizedEnd, note, tradeId, cashId, now);
    StripIdempotent(code);
    IsoDateStripped(date);
    ClearedAfterEditor(items, r, Strip(code), date, now);
  }

  /** A list that is the cleared journal followed by editor entries for (c, d) clears back to it. */
  lemma ClearedAfterEditor(items: seq<Adjustment>, r: seq<Adjustment>, c: string, d: string, now: string)
    requires Strip(c) == c && Strip(d) == d
    requires var base := Cleared(items, c, d);
             |base| <= |r| && r[..|base|] == base && EditorEntries(r[|base|..], c, d, now)
    ensures Cleared(r, c, d) == Cleared(items, c, d)
  {
    var base := Cleared(items, c, d);
    var extra := r[|base|..];
    assert r == base + extra;
    EditorEntriesMatch(extra, c, d, now);
    ClearedAgain(items, extra, c, d);
  }

  /** The edit depends on the journal only through its cleared form. */
  lemma SameClearedSameEdit(a: seq<Adjustment>, b: seq<Adjustment>, date: string, code: string, sharesEnd: real,
                            avgCost: real, realizedEnd: real, note: Option<string>, tradeId: string, cashId: string,
                            now: string)
    requires EditAccepted(date, code, sharesEnd, avgCost)
    requires Cleared(a, Strip(code), date) == Cleared(b, Strip(code), date)
    ensures EditJournal(a, date, code, sharesEnd, avgCost, realizedEnd, note, tradeId, cashId, now)
            == EditJournal(b, date, code, sharesEnd, avgCost, realizedEnd, note, tradeId, cashId, now)
  {
    EditUnfold(a, date, code, sharesEnd, avgCost, realizedEnd, note, tradeId, cashId, now);
    EditUnfold(b, date, code, sharesEnd, avgCost, realizedEnd, note, tradeId, cashId, now);
  }

  /** Entries of other codes or dates, and entries that are neither tagged nor editor-like, survive an edit. */
  lemma EditKeepsOthers(items: seq<Adjustment>, date: string, code: string, sharesEnd: real, avgCost: real,
                        realizedEnd: real, note: Option<string>, tradeId: string, cashId: string, now: string, a: Adjustment)
    requires EditAccepted(date, code, sharesEnd, avgCost)
    requires a in items
    requires Strip(a.code) != Strip(code) || Strip(a.effectiveDate) != date ||
             (SourceOrManual(a) != SOURCE_UI_EDIT && !LooksLikeUiEdit(a))
    ensures a in EditJournal(items, date, code, sharesEnd, avgCost, realizedEnd, note, tradeId, cashId, now).value
  {
    var c := Strip(code);
    var m := Migrated(items, c, date);
    var k :| 0 <= k < |items| && items[k] == a;
    SourceReadingsAgree(a);
    assert !NeedsRetag(a, c, date);
    assert m[k] == a;
    FilterMember(m, CodeDateIsNot(c, date, SOURCE_UI_EDIT), a);
    var base := Cleared(items, c, date);
    EditShape(items, date, code, sharesEnd, avgCost, realizedEnd, note, tradeId, cashId, now);
    var r := EditJournal(items, date, code, sharesEnd, avgCost, realizedEnd, note, tradeId, cashId, now).value;
    assert a in r[..|base|];
  }

  /** The two days of the editor walk-through are ISO dates. */
  lemma DemoDates()
    ensures IsIsoDate("2026-01-30") && IsIsoDate("2026-01-31")
  {
    DigitsValue4("2026-01-30"[..4]);
    DigitsValue2("2026-01-30"[5..7]);
    DigitsValue2("2026-01-30"[8..]);
    DigitsValue2("2026-01-31"[8..]);
  }

  /**
   * Two edits in a row, starting from an empty journal: each day's holding
   * of the code is the one its edit asked for, up to the tolerances, when
   * the second edit's clock reading is not earlier than the first's.
   */
  lemma TwoEdits(d1: string, d2: string, c: string, sh1: real, avg1: real, re1: real, sh2: real, avg2: real, re2: real,
                 n1: Option<string>, n2: Option<string>, now1: string, now2: string,
                 trade1: string, cash1: string, trade2: string, cash2: string)
    requires EditAccepted(d1, c, sh1, avg1) && EditAccepted(d2, c, sh2, avg2) && Strip(c) == c
    requires LexLe(now1, now2)
    ensures var r1 := EditJournal([], d1, c, sh1, avg1, re1, n1, trade1, cash1, now1).value;
            Reaches(r1, d1, c, sh1, re1)
    ensures var r1 := EditJournal([], d1, c, sh1, avg1, re1, n1, trade1, cash1, now1).value;
            Reaches(EditJournal(r1, d2, c, sh2, avg2, re2, n2, trade2, cash2, now2).value, d2, c, sh2, re2)
  {
    var r1 := EditJournal([], d1, c, sh1, avg1, re1, n1, trade1, cash1, now1).value;
    EditReaches([], d1, c, sh1, avg1, re1, n1, trade1, cash1, now1);
    EditShape([], d1, c, sh1, avg1, re1, n1, trade1, cash1, now1);
    var base := Cleared([], c, d1);
    assert Sane(r1, now2) by {
      assert base == [];
      assert r1[|base|..] == r1;
    }
    EditReaches(r1, d2, c, sh2, avg2, re2, n2, trade2, cash2, now2);
  }

  /**
   * The editor walk-through: on an empty journal, editing fund 510300 to
   * 1000 shares at cost 4.50 with 5 realized on 2026-01-30, and then to 800
   * shares at 4.50 with 45 realized on 2026-01-31, gives those holdings on
   * each day, up to the replay's tolerances.
   */
  lemma DemoEditBridge(c: string, d1: string, d2: string, now1: string, now2: string,
                       trade1: string, cash1: string, trade2: string, cash2: string)
    requires c == "510300" && d1 == "2026-01-30" && d2 == "2026-01-31"
    requires LexLe(now1, now2)
    ensures EditAccepted(d1, c, 1000.0, 4.5) && EditAccepted(d2, c, 800.0, 4.5)
    ensures var r1 := EditJournal([], d1, c, 1000.0, 4.5, 5.0, Some("UI编辑-1/30"), trade1, cash1, now1).value;
            Reaches(r1, d1, c, 1000.0, 5.0)
    ensures var r1 := EditJournal([], d1, c, 1000.0, 4.5, 5.0, Some("UI编辑-1/30"), trade1, cash1, now1).value;
            var r2 := EditJournal(r1, d2, c, 800.0, 4.5, 45.0, Some("UI编辑-1/31"), trade2, cash2, now2).value;
            Reaches(r2, d2, c, 800.0, 45.0)
  {
    assert EditAccepted(d1, c, 1000.0, 4.5) && EditAccepted(d2, c, 800.0, 4.5) && Strip(c) == c by {
      DemoDates();
      StripNoop(c);
    }
    TwoEdits(d1, d2, c, 1000.0, 4.5, 5.0, 800.0, 4.5, 45.0,
             Some("UI编辑-1/30"), Some("UI编辑-1/31"), now1, now2, trade1, cash1, trade2, cash2);
  }

  // ---------------------------------------------------------------------
  // The bridge against the stored journal.

  /**
   * `apply_position_edit` on the stored journal (local branch): the
   * validation, the clean-up through `remove_adjustments_by_code_date`,
   * the snapshot reading, and up to two `add_adjustment` calls.
   */
  method ApplyPositionEdit(j: JournalFile, date: string, code: string, sharesEnd: real, avgCost: real,
                           realizedEnd: real, note: Option<string>, tradeId: string, cashId: string, now: string)
    returns (r: Result<()>)
    modifies j
    ensures r.Ok? <==> EditAccepted(date, code, sharesEnd, avgCost)
    ensures r.Err? ==> j.doc == old(j.doc)
    ensures r.Ok? ==> j.doc.items == EditJournal(old(j.doc.items), date, code, sharesEnd, avgCost, realizedEnd, note, tradeId, cashId, now).value
    ensures r.Ok? ==> j.doc.updatedAt == Some(now)
  {
    var c := Strip(code);
    if c == "" {
      return Err("code is required");
    }
    if sharesEnd < 0.0 {
      return Err("shares_end must be >= 0");
    }
    if avgCost < 0.0 {
      return Err("avg_cost_nav_end must be >= 0");
    }
    if !IsIsoDate(date) {
      return Err("Invalid isoformat string");
    }
    StripIdempotent(code);
    IsoDateStripped(date);
    UiEditTagNormal();
    assert Strip(c) == c && Strip(date) == date;
    assert Lower(Strip(Some(SOURCE_UI_EDIT).GetOr(""))) == SOURCE_UI_EDIT;
    var _ := j.RemoveByCodeDate(c, date, Some(SOURCE_UI_EDIT), now);
    assert j.doc.items == Filter(Migrated(old(j.doc.items), c, date), CodeDateIsNot(c, date, SOURCE_UI_EDIT));
    AddTrade(j, c, date, sharesEnd, avgCost, note, tradeId, now);
    AddCash(j, c, date, realizedEnd, note, cashId, now);
    EditUnfold(old(j.doc.items), date, code, sharesEnd, avgCost, realizedEnd, note, tradeId, cashId, now);
    r := Ok(());
  }

  /** Step 1 of `apply_position_edit` against the stored journal. */
  method AddTrade(j: JournalFile, c: string, date: string, sharesEnd: real, avgCost: real,
                  note: Option<string>, id: string, now: string)
    requires c != "" && Strip(c) == c && IsIsoDate(date) && avgCost >= 0.0
    requires j.doc.updatedAt == Some(now)
    modifies j
    ensures j.doc.items == old(j.doc.items) + TradeEntries(old(j.doc.items), c, date, sharesEnd, avgCost, note, id, now)
    ensures j.doc.updatedAt == Some(now)
  {
    ghost var base := j.doc.items;
    var baseMap := GetSnapshotMap(j.doc.items, date);
    var baseSh := if c in baseMap then baseMap[c].shares else 0.0;
    assert baseSh == SnapshotPos(ReplayAsOf(base, date).book, c).shares;
    var deltaSh := sharesEnd - baseSh;
    if Abs(deltaSh) > EPS {
      var price := TradePrice(avgCost);
      if deltaSh > 0.0 {
        var n := EditNote(note, "edit->BUY");
        ghost var x := EditEntry(BUY, c, date, deltaSh, price, 0.0, n, id, now);
        assert TradeEntries(base, c, date, sharesEnd, avgCost, note, id, now) == [x];
        EditEntryAccepted(BUY, c, date, deltaSh, price, 0.0, n, id, now);
        var res := j.Add(BUY, c, date, deltaSh, price, 0.0, n, Some(SOURCE_UI_EDIT), id, now);
        assert res.Ok?;
        assert j.doc.items == base + [x];
      } else {
        var n := EditNote(note, "edit->SELL");
        ghost var x := EditEntry(SELL, c, date, Abs(deltaSh), price, 0.0, n, id, now);
        assert TradeEntries(base, c, date, sharesEnd, avgCost, note, id, now) == [x];
        EditEntryAccepted(SELL, c, date, Abs(deltaSh), price, 0.0, n, id, now);
        var res := j.Add(SELL, c, date, Abs(deltaSh), price, 0.0, n, Some(SOURCE_UI_EDIT), id, now);
        assert res.Ok?;
        assert j.doc.items == base + [x];
      }
    } else {
      assert TradeEntries(base, c, date, sharesEnd, avgCost, note, id, now) == [];
      assert j.doc.items == base + [];
    }
  }

  /** Step 2 of `apply_position_edit` against the stored journal. */
  method AddCash(j: JournalFile, c: string, date: string, realizedEnd: real,
                 note: Option<string>, id: string, now: string)
    requires c != "" && Strip(c) == c && IsIsoDate(date)
    requires j.doc.updatedAt == Some(now)
    modifies j
    ensures j.doc.items == old(j.doc.items) + CashEntries(old(j.doc.items), c, date, realizedEnd, note, id, now)
    ensures j.doc.updatedAt == Some(now)
  {
    ghost var mid := j.doc.items;
    var curMap := GetSnapshotMap(j.doc.items, date);
    var curReal := if c in curMap then curMap[c].realized else 0.0;
    assert curReal == SnapshotPos(ReplayAsOf(mid, date).book, c).realized;
    var deltaReal := realizedEnd - curReal;
    if Abs(deltaReal) > REALIZED_TOL {
      var n := EditNote(note, "edit->CASH_ADJ");
      ghost var x := EditEntry(CASH_ADJ, c, date, 0.0, 0.0, deltaReal, n, id, now);
      assert CashEntries(mid, c, date, realizedEnd, note, id, now) == [x];
      EditEntryAccepted(CASH_ADJ, c, date, 0.0, 0.0, deltaReal, n, id, now);
      var res := j.Add(CASH_ADJ, c, date, 0.0, 0.0, deltaReal, n, Some(SOURCE_UI_EDIT), id, now);
      assert res.Ok?;
      assert j.doc.items == mid + [x];
    } else {
      assert CashEntries(mid, c, date, realizedEnd, note, id, now) == [];
      assert j.doc.items == mid + [];
    }
  }
}
