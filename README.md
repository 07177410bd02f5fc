# fund_estimator — a Dafny model of the portfolio ledger

fund_estimator is a personal tool for Chinese mutual funds. It does four things:

- It estimates each fund's net asset value (NAV) during the trading day.
- It keeps a journal of the holder's trades.
- It settles the estimates against the official NAVs published after the close.
- It reports how far the estimates were off.

This project models the core of that system in Dafny and proves properties of the model.

The core is an event-sourced ledger:

- **The adjustment journal.** An append-only list of BUY / SELL / CASH_ADJ entries, each tagged `manual` or `ui_edit`.
- **Position snapshots.** These replay the journal up to a date. Shares, average cost and realized profit are tracked per fund code. The replay clamps over-sized sells and skips invalid entries, leaving warnings.
- **The position editor bridge.** It turns "I hold X shares at cost Y with realized Z" into the journal entries that produce exactly that snapshot.
- **The daily ledger.** One row per (date, code): the estimated close, and the official NAV once it is known. Rows are settled day by day.
- **Read-side services:**
  - estimate-versus-official accuracy statistics;
  - fund and portfolio history;
  - the portfolio's realtime view;
  - the watchlist;
  - intraday sample series and the collector that fills them;
  - estimation of a fund's NAV from a quote or from its stock holdings;
  - the fund profile cache;
  - cache file names;
  - the local account and session tables.

Every JSON document is read, replaced wholesale by an updater and written back. The model follows this:

- a document is an in-memory value;
- an updater is a method (or function) from the old value to the new one;
- a store class holds the current document and applies the updaters.

Money and NAV values are `real`; the code's 1e-9 / 1e-6 tolerances are kept as real constants. Dates are ISO `YYYY-MM-DD` strings compared lexicographically, as the code compares them. Python's stable `sort(key=...)` is `Order.SortBy`, a stable insertion sort, proved sorted, a permutation and stable.

Everything the core gets from outside is a parameter of the model:

- the clock;
- uuids and random tokens;
- hashing;
- HTTP fetchers and the remote quote and NAV sources;
- parsing of floating-point text and of ISO instants.

The model checks no claim about those oracles.

One module per source file, plus shared modules:

- `Text`: Python string operations (`strip`, `split`, `lower`, `int()`);
- `Seqs`: filtering;
- `Order`: ISO-string order and the stable sort;
- `Wrappers`: Option and Result;
- `Dates`: ISO calendar dates;
- `LedgerRows`: the shared read-side view of ledger rows;
- `Json`: JSON values as the settings and market code read them.

Where the code and the system's documented design differ, the model follows the code:

- `apply_position_edit` has no rollback. When a step fails after the clean-up, the deleted `ui_edit` entries stay deleted (services/edit_bridge_service.py:51-98).
- `finalize_estimated_close` never deletes a ledger row, not even one whose code has left the snapshot (services/settlement_service.py:53-92).
- The portfolio accuracy summary and table count a day when at least one row of that day is settled with an official NAV. The design asks for every row (services/accuracy_service.py:241-247).
- `portfolio_gap_summary` is defined twice. The second definition, at services/accuracy_service.py:223, is the one in effect, and it is the one modelled.
- The quote tier applies no staleness window. `GSZ_STALE_SECONDS` in config/settings.py:4 is never read (services/estimation_service.py:24-49).
- `estimate_many` uses the profile name unstripped, where `estimate_one` strips it (services/estimation_service.py:127,170). `Estimation.ManyAgreesWithOne` states the agreement up to that name.
- `position_remove` of an unknown code still rewrites `updated_at` (services/portfolio_service.py:114-120).
- A blank (white-space) `date_str` has two meanings.
  - `record_intraday_point` writes to the file named by the stripped empty string.
  - `intraday_append_close_marker` passes the stripped empty string on, where `or` turns it into today (services/intraday_service.py:96,199,221).
- The close-marker check looks only at the last 200 points. After 200 more samples a second `CLOSE` point can be written (services/intraday_service.py:202).

## Model

| member | source | states |
|---|---|---|
| `Text.StripSpec` | services/adjustment_service.py:163-165 | `strip()` returns a contiguous slice of its input with no white space at either end, and every character it drops, before or after that slice, is white space |
| `Text.StripIdempotent` | services/adjustment_service.py:163-165 | stripping twice is stripping once |
| `Text.JoinSplit` | services/auth_service.py:74 | `split` loses nothing: joining the parts with the separator gives the string back |
| `Text.SplitJoin` | services/auth_service.py:74 | splitting the join of separator-free parts gives the parts back |
| `Text.SplitMaxFirst` | services/auth_service.py:74 | `split(sep, n)` splits off a separator-free first part whole and uses up one split |
| `Order.LexLeTotal` | services/snapshot_service.py:34 | the ISO-string order the code compares dates with is total |
| `Order.LexLeTrans` | services/snapshot_service.py:34 | and transitive |
| `Order.LexLeAntisym` | services/snapshot_service.py:34 | and antisymmetric |
| `Order.KeysLeTotal` | services/adjustment_service.py:148 | the tuple order of sort keys is total |
| `Order.KeysLeTrans` | services/adjustment_service.py:148 | and transitive |
| `Order.SortBySorted` | services/adjustment_service.py:148 | the stable sort's result is ordered by the key |
| `Order.SortByPermutation` | services/adjustment_service.py:148 | the sort's result is a permutation of its input |
| `Order.SortByStable` | services/adjustment_service.py:148 | the elements sharing one key keep their input order |
| `Order.SortByOfSorted` | services/adjustment_service.py:148 | an input already in key order is returned unchanged |
| `Order.SortByAppend` | services/adjustment_service.py:148 | appending to the journal inserts the new entry after all entries with a key not above its own (also line 221) |
| `Order.SortByFilter` | services/snapshot_service.py:33-34 | sorting then filtering is filtering then sorting |
| `Order.FilterSortAppendDropped` | services/snapshot_service.py:33-34 | appending an entry that the date cut drops changes nothing in the sorted, cut list |
| `Order.FilterSortAppendLast` | services/snapshot_service.py:33-34 | an appended entry the cut keeps, with a key not below any kept key, comes last |
| `Seqs.FilterMember` | services/adjustment_service.py:252 | an element is kept exactly when it is in the input and satisfies the predicate |
| `Seqs.FilterIdempotent` | services/adjustment_service.py:252 | filtering twice with the same predicate changes nothing more |
| `Seqs.FilterComplement` | services/adjustment_service.py:313-317 | what a filter keeps plus what its complement keeps is as long as the whole list |
| `Seqs.PermutationDistinct` | services/snapshot_service.py:90 | a permutation of a list without duplicates has none either |
| `Dates.IsoDateStripped` | services/edit_bridge_service.py:50 | a date in the YYYY-MM-DD form `date.fromisoformat` accepts has no surrounding white space |
| `Dates.IsoDateExamples` | services/edit_bridge_service.py:50 | 2024-02-29 is accepted; 2026-02-29 and the one-digit month 2026-1-30 are refused |
| `Journal.SourceOrManual` | services/adjustment_service.py:396 | the source as removal reads it is never empty: missing or blank means "manual" |
| `Journal.SourceReadingsAgree` | services/adjustment_service.py:17-18 | the backfill's and the removal's readings of the source agree on which entries are `ui_edit` (also line 396) |
| `Journal.LooksLikeUiEditCases` | services/adjustment_service.py:16-22 | an entry tagged `ui_edit` is always recognised; an untagged one with a blank note never is |
| `Journal.EditorNoteRecognised` | services/adjustment_service.py:23-25 | a note starting "edit->" (the editor's default notes) is recognised |
| `Journal.RetagSettles` | services/adjustment_service.py:96-102 | a retagged entry never needs retagging again |
| `Journal.Migrated` | services/adjustment_service.py:84-103 | the backfill keeps the length and the order; entry k of the result is entry k retagged or left alone |
| `Journal.MigrateUpdater` | services/adjustment_service.py:78-108 | the backfill loop's result is `Migrated`; its count is the number of entries needing a retag; `updated_at` moves only when the count is positive |
| `Journal.MigrateIdempotent` | services/adjustment_service.py:78-108 | a second backfill over the same scope changes nothing and counts zero |
| `Journal.NewAdjustment` | services/adjustment_service.py:163-194 | accepts exactly BUY/SELL/CASH_ADJ with a code, a date, a manual/ui_edit source, and positive shares and price for BUY/SELL; the record holds the normalised fields |
| `Journal.RemoveByCodeUpdater` | services/adjustment_service.py:307-321 | keeps the other codes in order; the count is the number of entries of the code, and count + kept = all |
| `Journal.RemoveByCodeDateUpdater` | services/adjustment_service.py:387-405 | keeps the non-matching entries in order, counts the matching ones, and no kept entry matches (code, date, source) |
| `Journal.RemoveByCodeDateKeepsOthers` | services/adjustment_service.py:394-401 | an entry of another code or date, or of another source when one is given, survives |
| `Journal.ListAdjustmentsSpec` | services/adjustment_service.py:139-149 | the listing is sorted by (effective date, creation time), is a permutation of the selected entries (all, or those of the code), and keeps journal order among equal keys |
| `Journal.JournalFile.constructor` | services/adjustment_service.py:139-144 | a fresh journal document is empty |
| `Journal.JournalFile.Migrate` | services/adjustment_service.py:32-38 | the stored list becomes the backfill of the stripped scope, and the count of retagged entries is returned (also lines 75-111) |
| `Journal.JournalFile.Add` | services/adjustment_service.py:152-226 | a rejected entry writes nothing; an accepted one is appended at the end, every earlier entry unchanged, and `updated_at` set |
| `Journal.JournalFile.Remove` | services/adjustment_service.py:229-256 | a blank id is an error that writes nothing; otherwise no entry with the id remains, the others keep their order, and an unknown id leaves the list unchanged |
| `Journal.JournalFile.Clear` | services/adjustment_service.py:259-279 | the list becomes empty and `updated_at` is set |
| `Journal.JournalFile.RemoveByCode` | services/adjustment_service.py:282-324 | a blank code is an error that writes nothing; otherwise the code's entries are removed and counted |
| `Journal.JournalFile.RemoveByCodeDate` | services/adjustment_service.py:327-408 | blank code or date is an error; with source `ui_edit` the backfill runs first, then the matching entries are removed and counted |
| `Snapshot.RowsReport` | services/snapshot_service.py:89-101 | the output rows are exactly the book's included codes (shares > 0 or \|realized\| > 1e-9), in strictly ascending order, each with its position |
| `Snapshot.BuildPositionsAsOfSafe` | services/snapshot_service.py:28-103 | the warnings are those of the replay of the listed journal cut at the target date, and the positions are the report of its book |
| `Snapshot.ReplayEntry` | services/snapshot_service.py:43-87 | one entry of the loop yields exactly the specification step `Step` (BUY averages in, SELL is ignored when invalid, truncated when oversold, CASH_ADJ books cash, anything else warns), and keeps every booked code listed once |
| `Snapshot.ReplayEntries` | services/snapshot_service.py:36-87 | the replay loop computes the specification fold `ReplayAll`, and lists each code it touched exactly once |
| `Snapshot.CollectRows` | services/snapshot_service.py:89-101 | one row per included code, in the given order |
| `Snapshot.RowsAscending` | services/snapshot_service.py:89-101 | rows built over distinct codes in ascending order come out with strictly ascending codes |
| `Snapshot.RowsCover` | services/snapshot_service.py:89-101 | every included code gets a row |
| `Snapshot.BuildPositionsAsOf` | services/snapshot_service.py:23-25 | the positions of the lenient replay |
| `Snapshot.BuyAvgBetween` | services/snapshot_service.py:53-61 | after a BUY the average cost lies between the old average and the price, and is the price when nothing was held |
| `Snapshot.BuyAveragesCost` | services/snapshot_service.py:53-61 | a positive BUY onto a non-negative holding adds its shares, averages its cost and leaves realized profit alone |
| `Snapshot.SkippedEntries` | services/snapshot_service.py:63-87 | a SELL with shares ≤ 0 or price ≤ 0, or an unknown entry type, changes no position and adds exactly one warning |
| `Snapshot.SellClamped` | services/snapshot_service.py:68-79 | a SELL sells its size unless that exceeds the holding by more than 1e-9, in which case it sells the holding (never negative) and warns; realized grows by (price − average) × sold |
| `Snapshot.StepOthers` | services/snapshot_service.py:42-87 | an entry moves only its own code's position |
| `Snapshot.StepBuy` | services/snapshot_service.py:53-61 | a BUY adds its size to the holding and raises no warning |
| `Snapshot.StepCash` | services/snapshot_service.py:81-84 | a cash adjustment adds to realized profit only and raises no warning |
| `Snapshot.ReplayNoDeepShort` | services/snapshot_service.py:68-77 | with no negative BUY, no replayed holding falls below −1e-9 |
| `Snapshot.WellFormedNoSkip` | services/snapshot_service.py:63-87 | an entry that `add_adjustment` would accept never raises an invalid-SELL or unknown-type warning |
| `Snapshot.LaterEntryIgnored` | services/snapshot_service.py:33-34 | entries dated after the target never influence the replay |
| `Snapshot.DemoJournalReplay` | scripts/demo_adjustments_snapshot.py:13-19 | BUY 1000 at 4.50, cash +5, SELL 200 at 4.70 leaves 800 shares at 4.50 with 45 realized and no warning |
| `EditBridge.GetSnapshotMap` | services/edit_bridge_service.py:10-19 | the map holds exactly the codes the snapshot reports (included codes of the replay as of the date), each with its replayed values |
| `EditBridge.EditNote` | services/edit_bridge_service.py:68-96 | a missing or empty note is replaced by the default, a non-empty one kept |
| `EditBridge.TradePrice` | services/edit_bridge_service.py:67-77 | the trade price is always positive, and equals the edited cost when that is positive |
| `EditBridge.EditJournal` | services/edit_bridge_service.py:41-50 | the edit is accepted exactly when the stripped code is non-empty, shares and cost are non-negative and the date is a real calendar day written YYYY-MM-DD (what `date.fromisoformat` accepts up to Python 3.10) |
| `EditBridge.EditEntryAccepted` | services/edit_bridge_service.py:62-98 | `add_adjustment` accepts every entry the editor writes (positive size and price, `ui_edit` source) and stores it unchanged |
| `EditBridge.EditorEntriesMatch` | services/edit_bridge_service.py:52 | the editor's entries for (code, date) are exactly what the clean-up of (code, date) removes, and never need the backfill |
| `EditBridge.ReplayAppendLast` | services/edit_bridge_service.py:62-98 | an entry dated d and created now replays last among the entries up to d, when nothing was created later |
| `EditBridge.SnapshotPosClose` | services/edit_bridge_service.py:55-56 | reading a holding through the snapshot (which omits codes with no shares and no realized profit) is off by at most 1e-9 |
| `EditBridge.TradeReachesShares` | services/edit_bridge_service.py:54-80 | after step 1 the code's holding is within 2e-9 of the target, no SELL was clamped and no other code moved |
| `EditBridge.CashReachesRealized` | services/edit_bridge_service.py:85-98 | after step 2 the realized profit is within 1e-6 + 1e-9 of the target, the holding is unchanged and nothing else moved |
| `EditBridge.EditReachesTarget` | services/edit_bridge_service.py:52-98 | replaying the edited journal up to the date gives the target shares (within 2e-9) and realized profit (within 1e-6 + 1e-9), adds no warning and moves no other code |
| `EditBridge.ClearedAgain` | services/edit_bridge_service.py:52 | clearing (code, date) again after the editor's entries were appended gives back the same list |
| `EditBridge.EditShape` | services/edit_bridge_service.py:52-98 | the edited journal is the cleared journal followed by editor entries for (code, date) |
| `EditBridge.EditIdempotent` | services/edit_bridge_service.py:36-52 | applying the same edit twice (same ids and clock) leaves the journal as one application did |
| `EditBridge.EditClearsBack` | services/edit_bridge_service.py:51-52 | clearing the edited journal gives back the cleared original |
| `EditBridge.SameClearedSameEdit` | services/edit_bridge_service.py:51-52 | the edit depends on the journal only through its cleared form |
| `EditBridge.EditKeepsOthers` | services/edit_bridge_service.py:35-52 | entries of other codes or dates, and manual entries that do not look like editor entries, survive an edit |
| `EditBridge.TwoEdits` | services/edit_bridge_service.py:22-98 | two accepted edits of one code in a row on an empty journal each reach their target holding and realized profit on their day, within the tolerances |
| `EditBridge.DemoEditBridge` | scripts/demo_edit_bridge.py:9-40 | both walk-through edits are accepted; the 2026-01-30 replay holds 1000 shares with 5 realized, and the 2026-01-31 replay holds 800 shares with 45 realized, within the tolerances |
| `EditBridge.ApplyPositionEdit` | services/edit_bridge_service.py:22-98 | a rejected edit writes nothing; an accepted one leaves the stored list equal to `EditJournal` of the old list |
| `EditBridge.AddTrade` | services/edit_bridge_service.py:58-80 | step 1 appends the share-closing BUY or SELL (if any) to the stored journal |
| `EditBridge.AddCash` | services/edit_bridge_service.py:82-98 | step 2 appends the realized-closing CASH_ADJ (if any) to the stored journal |
| `Settlement.FirstIndex` | services/settlement_service.py:29-33 | the first index whose row has (date, code), or None when no row has it |
| `Settlement.FindItemIndex` | services/settlement_service.py:29-33 | the scan returns exactly `FirstIndex` |
| `Settlement.FirstIndexSameMatches` | services/settlement_service.py:29-33 | lists whose rows match (date, code) at the same places have the same first match |
| `Settlement.FinalizeOneSpec` | services/settlement_service.py:53-90 | one upsert: a missing (date, code) gets one appended estimated-only row; a settled row keeps its official figures and status and takes the new position; any other row is replaced; every other row stays in place |
| `Settlement.FinalizeOneCovers` | services/settlement_service.py:65-90 | after an upsert the first row of (date, code) carries the snapshot's position |
| `Settlement.FinalizeOneOther` | services/settlement_service.py:65-90 | an upsert for one code leaves the first row of every other code unchanged |
| `Settlement.FinalizeKeepsOthers` | services/settlement_service.py:48-94 | finalisation never deletes: the ledger only grows, and rows of other dates or of codes absent from the snapshot stay as they were |
| `Settlement.FinalizeKeepsSettled` | services/settlement_service.py:84-88 | a settled row stays settled with its official NAV and profit intact |
| `Settlement.FinalizeCovers` | services/settlement_service.py:53-90 | with distinct snapshot codes, every snapshot row ends up in the first ledger row of its (date, code) with its own position figures |
| `Settlement.FinalizeUpdater` | services/settlement_service.py:48-94 | the updater loop performs exactly the specified upserts, one per snapshot row |
| `Settlement.SettleRowSpec` | services/settlement_service.py:112-136 | a row of the day that is not settled and has an official NAV takes that NAV, the official profit on the estimate's basis (shares × NAV − cost + realized), the settled status and the clock; every other row is unchanged |
| `Settlement.SettleCount` | services/settlement_service.py:110 | each counted transition turns exactly one pending row into a settled one (also line 136) |
| `Settlement.SettleIdempotent` | services/settlement_service.py:112-136 | settling the same day again transitions nothing and changes nothing |
| `Settlement.SettleItems` | services/settlement_service.py:112-136 | the day's pass keeps the number and order of the rows and settles each row on its own |
| `Settlement.SettleDayUpdater` | services/settlement_service.py:108-142 | the loop's rows are `SettleItems` and its count is the number of transitioning rows |
| `Settlement.SettleAcrossCount` | services/settlement_service.py:159-163 | over any run of days, the total plus the rows still pending equals the rows pending at the start, so no row is counted twice |
| `Settlement.SettleAcrossKeepsSettled` | services/settlement_service.py:159-163 | settled rows never revert, and no row is lost or reordered |
| `Settlement.LedgerFile.constructor` | services/settlement_service.py:20-26 | a fresh ledger has no rows |
| `Settlement.LedgerFile.FinalizeEstimatedClose` | services/settlement_service.py:36-96 | the day defaults to today; an empty snapshot leaves the ledger unchanged; otherwise the rows become the upserts of the snapshot and `updated_at` is set |
| `Settlement.LedgerFile.SettleDay` | services/settlement_service.py:99-146 | the rows become `SettleItems`; the last settle day and the count are recorded and returned |
| `Settlement.LedgerFile.SettlePendingDays` | services/settlement_service.py:149-165 | an empty ledger is returned untouched with 0; otherwise the days are settled in turn and their counts summed |
| `Accuracy.GapPctMeaning` | services/accuracy_service.py:67-68 | the gap in percent times the estimate is 100 times the gap in NAV |
| `Accuracy.GapsFrom` | services/accuracy_service.py:52-78 | every gap row comes from one kept ledger row, and every kept ledger row gives one |
| `Accuracy.GapOfSpec` | services/accuracy_service.py:67-77 | a gap row holds official − estimate, the same gap in percent of the estimate, and its absolute value |
| `Accuracy.FundGapRowsSpec` | services/accuracy_service.py:40-81 | nothing for a blank code; otherwise the gap rows of exactly the kept ledger rows (the code, inside the window, settled, both prices, a non-zero estimate), sorted by date |
| `Accuracy.FundGapRows` | services/accuracy_service.py:40-81 | the loop and sort compute `FundGapRowsOf` |
| `Accuracy.MaxOf` | services/accuracy_service.py:100 | Python `max`: an element of the list no smaller than any other |
| `Accuracy.SumBetween` | services/accuracy_service.py:99 | a sum of n values between lo and hi lies between n·lo and n·hi |
| `Accuracy.SummarizeSpec` | services/accuracy_service.py:88-120 | no statistics without rows; otherwise the count, a mean between 0 and the maximum, a maximum that is one of the gaps and bounds them all, a hit rate in [0, 100], and the last row as the latest |
| `Accuracy.FundGapRowsNonNegative` | services/accuracy_service.py:76 | every gap row's absolute gap is non-negative |
| `Accuracy.FundGapSummary` | services/accuracy_service.py:84-120 | the statistics of `fund_gap_rows`; with rows, the mean lies in [0, max], the hit rate in [0, 100], and the latest row has the latest date |
| `Accuracy.LastIsLatest` | services/accuracy_service.py:80 | in rows sorted by date the last one has the latest date (also line 106) |
| `Accuracy.GuessGapReasonsSpec` | services/accuracy_service.py:123-152 | exactly one reason when the gap is ≤ 0.30%; otherwise one severity (medium up to 1%, large beyond) followed by the four generic causes |
| `Accuracy.OffTotalSettledOnly` | services/accuracy_service.py:263-265 | rows without a settled official NAV add nothing to the official total |
| `Accuracy.EstTotalEstimatedOnly` | services/accuracy_service.py:259-261 | rows without an estimate add nothing to the estimated total |
| `Accuracy.PermutationDatesDistinct` | services/accuracy_service.py:283 | reordering rows with distinct dates keeps them distinct |
| `Accuracy.GroupByDate` | services/accuracy_service.py:231-236 | the groups are keyed by the distinct stripped dates inside the window, each holding exactly that day's rows in ledger order |
| `Accuracy.DayTotals` | services/accuracy_service.py:249-265 | the loop computes the day's estimated and official totals and both flags as the specification functions define them |
| `Accuracy.TotalsStep` | services/accuracy_service.py:254-265 | one more row adds its own contribution to each total and flag |
| `Accuracy.CollectDayRows` | services/accuracy_service.py:238-281 | the loop builds `DayRows` over the days in first-seen order |
| `Accuracy.DayRowFor` | services/accuracy_service.py:240-281 | a day yields a row exactly when it has a settled official NAV, an estimate, and a non-zero estimated total |
| `Accuracy.GapTableOfDays` | services/accuracy_service.py:238-283 | sorting the rows of distinct days that cover the window gives the gap table: sorted, one row per compared day, every compared day present |
| `Accuracy.DayOutsideWindow` | services/accuracy_service.py:233-235 | a day outside the window has no rows and is never compared |
| `Accuracy.PortfolioGapRows` | services/accuracy_service.py:228-283 | the grouping, aggregation and sort give the gap table |
| `Accuracy.PortfolioGapTable` | services/accuracy_service.py:319-379 | `portfolio_gap_table` returns the gap table |
| `Accuracy.PortfolioGapSummary` | services/accuracy_service.py:223-300 | the statistics of the gap table; with rows, the mean lies in [0, max], the hit rate in [0, 100], and the latest row is the latest day's |
| `History.Points` | services/history_service.py:39-65 | one point per row of the code inside [start, end], in ledger order |
| `History.PointOfSpec` | services/history_service.py:46-65 | a point shows the official NAV exactly when its row is settled and has one; otherwise the estimated close, 0 when missing; a missing status reports as estimated-only |
| `History.PointsFrom` | services/history_service.py:39-65 | every point comes from one kept row, and every kept row gives one |
| `History.HistoryOfSpec` | services/history_service.py:19-68 | raises exactly when the stripped code is empty, returns nothing for a non-positive window, else one point per row of the fund inside the window, sorted by date |
| `History.GetHistory` | services/history_service.py:19-68 | the loop and the sort compute `HistoryOf` |
| `History.PnlTotalSplit` | services/history_service.py:108-121 | a day's P&L is its value minus its cost plus what was realized |
| `History.PnlPctMeaning` | services/history_service.py:129 | the percentage times the cost is 100 times the P&L when the cost is positive |
| `History.DayPointOfSpec` | services/history_service.py:95-132 | a day is official and settled exactly when all its rows are settled; P&L is value − cost + realized; the percentage is P&L relative to a positive cost, else 0 |
| `History.EstimatesOnly` | services/history_service.py:111-118 | on a day not wholly settled every row is valued at its estimate, even one with an official NAV |
| `History.GroupByDate` | services/history_service.py:87-92 | the groups are keyed by the distinct dates inside the window, each holding that day's rows in ledger order |
| `History.GroupStep` | services/history_service.py:88-92 | one more row of the grouping loop keeps the grouping correct for the longer prefix |
| `History.TotalsStep` | services/history_service.py:103-121 | one more row adds its own cost, value and P&L to the day's totals |
| `History.DayTotals` | services/history_service.py:97-121 | the loop computes the day's totals as the specification functions define them |
| `History.DayPointFor` | services/history_service.py:95-133 | one day's loop builds exactly that day's point |
| `History.CollectDays` | services/history_service.py:94-133 | the loop builds the points of the grouped days in first-seen order |
| `History.PortfolioOfDays` | services/history_service.py:94-135 | sorting the points of distinct non-empty days that cover the window gives the portfolio history |
| `History.SortedDaysAreDays` | services/history_service.py:135 | every point of the sorted list is the point of its own day |
| `History.SortedDaysCover` | services/history_service.py:135 | the sorted list has a point for every day of the window with rows |
| `History.PermutationDatesDistinct` | services/history_service.py:135 | reordering points with distinct dates keeps them distinct |
| `History.GetPortfolioHistory` | services/history_service.py:71-136 | nothing for a non-positive window; otherwise the portfolio history: sorted, one point per day with rows, each the day's point |
| `History.FundPointOfSpec` | services/history_service.py:183-190 | a row is dropped exactly when it is neither settled with an official NAV nor carrying an estimate; otherwise it shows the official NAV exactly when settled with one |
| `History.FundPointAgrees` | services/history_service.py:46-65 | on rows with a status and an estimate, `fund_history` and `get_history` show the same point (also lines 183-190) |
| `History.FundHistorySpec` | services/history_service.py:142-194 | nothing for an empty code; otherwise, sorted by date, one point per shown row of the fund, none dated before the cutoff |
| `History.FundHistory` | services/history_service.py:152-194 | the loop and the sort compute `FundHistoryOf` |
| `Market.StripPrefixSpec` | datasources/market_api.py:36-44 | the stripped, lower-cased code loses one leading `sh`/`sz`/`bj` when it has one and nothing else, and stays lower-case |
| `Market.GuessPrefixSpec` | datasources/market_api.py:47-55 | `sh` exactly for a normalised code starting with 6, `sz` for 0 or 3, `bj` for 8, and no prefix otherwise |
| `Market.QueryCodesConcat` | datasources/market_api.py:58-66 | the query codes of two lists are those of each, in input order |
| `Market.QueryCodesSingle` | datasources/market_api.py:60-65 | a code gives its prefixed code, or nothing when it normalises to blank |
| `Market.DigitsNormal` | datasources/market_api.py:36-40 | a code of digits is its own normal form |
| `Market.QueryCodeRoundTrip` | datasources/market_api.py:58-66 | normalising a digit code's query code gives the code back: the query names the same stock |
| `Market.BuildQueryCodes` | datasources/market_api.py:58-66 | the loop computes `QueryCodes` |
| `Market.IdRunPrefix` | datasources/market_api.py:70 | the identifier run of an identifier followed by a non-identifier character is the identifier |
| `Market.MatchLineRoundTrip` | datasources/market_api.py:70-73 | matching `v_<id>="<payload>"` (with or without `;`) gives the payload back |
| `Market.ChangePctMeaning` | datasources/market_api.py:85 | the change in percent times the previous close is 100 times the price move |
| `Market.ParseTencentLineSpec` | datasources/market_api.py:69-86 | a line parses exactly when it matches, has at least five `~` fields, and a price and a positive previous close that parse; the quote takes name and code from fields 1 and 2 |
| `Market.JoinKeepsOut` | datasources/market_api.py:74 | joining parts free of a character, with a different separator, gives a string free of it |
| `Market.TencentLineRoundTrip` | datasources/market_api.py:69-86 | a quote line written from its fields parses back to the quote those fields describe |
| `Market.ParseLinesAt` | datasources/market_api.py:107-108 | entry i of the parsed lines is the parse of line i |
| `Market.FileQuotesFiled` | datasources/market_api.py:109-112 | every parsed quote with a code is filed, each under its own non-empty code |
| `Market.FileQuotesLastWins` | datasources/market_api.py:111-112 | the quote filed under a code is the last one with that code |
| `Market.TencentStep` | datasources/market_api.py:107-112 | one more line of the parsing loop files its quote, if it has a code |
| `Market.FetchTencentQuotes` | datasources/market_api.py:96-113 | nothing when no query code or no response text; otherwise the quotes of the response lines, keyed by code, a later line winning |
| `Market.MapQuotesSpec` | datasources/market_api.py:116-145 | the map's quotes are exactly those of the normalised input codes that have one, each filed under its normalised code |
| `Market.FetchQuotesFromMap` | datasources/market_api.py:116-145 | the loop computes `MapQuotes` |
| `Market.CleanCodes` | datasources/market_api.py:149 | every kept code is stripped and non-blank, and there are no more of them than inputs |
| `Market.FetchStockQuotesSpec` | datasources/market_api.py:156-161 | the merge never overwrites a live quote and takes from the map only codes the live quotes lack, and only when live quotes are fewer than codes |
| `Market.FetchStockQuotes` | datasources/market_api.py:148-161 | the map's quotes when live data is off; otherwise the live quotes, filled from the map when there are fewer of them than codes |
| `Market.FillMissing` | datasources/market_api.py:159-160 | the `setdefault` loop adds the fallback's entries for the keys the live map lacks |
| `Holdings.NormalizedSpec` | datasources/fund_holdings_jsonmap.py:30-41 | a non-list gives nothing; a list keeps exactly its entries that are objects with a non-blank code; a list of such entries is kept whole; normalising twice is normalising once |
| `Holdings.NormalizeHoldings` | datasources/fund_holdings_jsonmap.py:30-41 | the loop computes `NormalizedOf` |
| `Holdings.LoadHoldingsSpec` | datasources/fund_holdings_jsonmap.py:44-62 | a fund is found exactly when the stripped code is non-empty and `items` holds an object under it; the copy keeps every other key and replaces `holdings` by the normalised list |
| `Holdings.LoadHoldingsNormalized` | datasources/fund_holdings_jsonmap.py:60-62 | the loaded entry's `holdings` normalises to itself |
| `Holdings.BatchEntryAgrees` | datasources/fund_holdings_jsonmap.py:44-80 | for a stripped non-empty code the batch lookup and `load_holdings` agree |
| `Holdings.RequestedStep` | datasources/fund_holdings_jsonmap.py:71-72 | a code is requested by a longer list exactly when the shorter list or the new code requests it |
| `Holdings.BatchSpec` | datasources/fund_holdings_jsonmap.py:65-82 | the batch holds a code exactly when some input strips to it and `load_holdings` finds it, and then holds what `load_holdings` returns |
| `Holdings.LoadHoldingsBatch` | datasources/fund_holdings_jsonmap.py:65-82 | the loop computes `BatchOf` |
| `Fund.ToDict` | domain/fund.py:34-37 | `to_dict` writes exactly the eight field names of the profile |
| `Fund.ToDictAt` | domain/fund.py:34-37 | each key holds its field; an absent optional field is null |
| `Fund.RoundTrip` | domain/fund.py:34-56 | reading back what `to_dict` wrote gives the same profile, for a profile whose texts are stripped and whose optional texts are non-empty |
| `Fund.RoundTripCode` | domain/fund.py:34-56 | the code read back is the profile's own code, stripped |
| `Fund.FromDictSpec` | domain/fund.py:40-56 | refuses exactly the empty dictionary; every text field read is stripped; an optional field is present exactly when the dictionary holds a truthy value under it |
| `Fund.ValidateBasic` | domain/fund.py:58-65 | a profile is refused exactly when its code is blank, and otherwise passed through unchanged |
| `FundService.GuessIsEtfSpec` | services/fund_service.py:71-80 | the ETF guess holds exactly when the stripped code has at least three characters and starts with one of the fourteen listed prefixes |
| `FundService.GuessIsEtfExamples` | services/fund_service.py:71-80 | 510300 and 563 are ETFs by the guess; 51 is too short |
| `FundService.BuildProfileSpec` | services/fund_service.py:91-120 | a provider answer wins and is marked `json_map`, with type `ETF` when it gives none for an ETF; otherwise a `gsz_fallback` profile whose ETF flag and type follow the code guess, never QDII |
| `FundService.SaveThenHit` | services/fund_service.py:40-68 | once a profile with a stripped code is saved, the cache hits for that code with the profile as `from_dict` reads it back (the profile itself when clean) |
| `FundService.SaveKeepsOthers` | services/fund_service.py:44-51 | saving a profile leaves every other code's answer as it was |
| `FundService.FundCacheFile.constructor` | services/fund_service.py:23-38 | a fresh cache document is empty |
| `FundService.FundCacheFile.SaveProfile` | services/fund_service.py:40-53 | a profile without a code is refused and nothing is written; otherwise the profile is filed under its code |
| `FundService.FundCacheFile.GetFundProfile` | services/fund_service.py:123-140 | a blank code is refused; a hit is returned unless a refresh is forced; otherwise the built profile is stored and returned |
| `FundService.NextLookupHits` | services/fund_service.py:133-140 | after a miss stores a profile, the next lookup of the same code hits |
| `Estimation.EstimateFromGszSpec` | services/estimation_service.py:24-49 | a positive service estimate is taken as is, with the caller's method, confidence 0.9 and a 10 s refresh; otherwise the last NAV when positive (else 0), no change, `FROZEN_NAV`, confidence 0.3, a 60 s refresh and a warning |
| `Estimation.SumsErr` | services/estimation_service.py:64 | the weighting fails exactly when some entry's weight cannot be read as a number |
| `Estimation.SumsBounds` | services/estimation_service.py:61-75 | the covered weight is never negative and never more than the total weight |
| `Estimation.SumsWeighted` | services/estimation_service.py:61-75 | when every quoted change lies in [lo, hi], the weighted sum lies between lo and hi times the covered weight |
| `Estimation.SumsFull` | services/estimation_service.py:67-75 | when every counted entry is quoted, the covered weight is the whole weight |
| `Estimation.SumsLocal` | services/estimation_service.py:68-75 | the sums read only the quotes of the entries' own stocks |
| `Estimation.SumsErrSticky` | services/estimation_service.py:61-64 | once a prefix of the entries fails, the whole list fails |
| `Estimation.SumsStep` | services/estimation_service.py:61-75 | one more entry of the loop adds that entry's contribution |
| `Estimation.CoverageRange` | services/estimation_service.py:81 | covered / total × 100 lies in (0, 100] when 0 < covered ≤ total |
| `Estimation.AverageWithin` | services/estimation_service.py:80 | a weighted sum between lo and hi times a covered weight no larger than the total gives an average change in [lo, hi] when lo ≤ 0 ≤ hi |
| `Estimation.FromSumsSpec` | services/estimation_service.py:77-115 | an estimate exists exactly when total, covered weight and base NAV are positive; it is base × (1 + change/100) with coverage in (0, 100], the 0.75/0.55/0.35 confidence tier of the coverage, and a low-coverage warning exactly below 60% |
| `Estimation.ByHoldingsSpec` | services/estimation_service.py:52-115 | fails exactly on holdings that cannot be iterated or carry an unreadable weight; gives an estimate exactly for a non-empty list with positive total and covered weight and a positive base NAV |
| `Estimation.ByHoldingsChangeWithin` | services/estimation_service.py:74-80 | when every quoted change lies in [lo, hi] around zero, so does the estimated change |
| `Estimation.ByHoldingsFullCoverage` | services/estimation_service.py:81-91 | with every counted stock quoted, coverage is 100% and confidence the top tier |
| `Estimation.FullCoverage` | services/estimation_service.py:81 | covering the whole weight is 100% coverage |
| `Estimation.AddEntry` | services/estimation_service.py:62-75 | one pass of the loop reads the entry's weight and adds it to the sums as the specification step does |
| `Estimation.Accumulate` | services/estimation_service.py:57-75 | the loop computes `SumsOf`, or fails on an unreadable weight |
| `Estimation.EstimateByHoldings` | services/estimation_service.py:52-115 | the method computes `ByHoldings` |
| `Estimation.RouteSpec` | services/estimation_service.py:129-140 | an ETF gets the service tier as `ETF_IIV`; a fund without holdings gets it as `OFFICIAL_GSZ`; a holdings estimate, when there is one, wins; routing fails only when the holdings tier raises (also lines 172-183) |
| `Estimation.EstimateOneSpec` | services/estimation_service.py:118-140 | a blank code is refused; a QDII fund never uses holdings; a result is for the stripped code under a non-empty name |
| `Estimation.NamesAgree` | services/estimation_service.py:127 | for a stripped profile name both display-name rules agree (also line 170) |
| `Estimation.StockListHas` | services/estimation_service.py:157-162 | every non-blank stock code of every loaded fund is asked for |
| `Estimation.CollectSpec` | services/estimation_service.py:166-185 | the result has exactly the codes asked for, each with its own routed estimate; a failing routing fails the call |
| `Estimation.CollectErrSticky` | services/estimation_service.py:166-185 | once a prefix of the codes fails, the whole call fails the same way |
| `Estimation.RouteRenamed` | services/estimation_service.py:127 | routing reads the display name only to copy it into the estimate (also line 170) |
| `Estimation.ByHoldingsLocal` | services/estimation_service.py:71-75 | the holdings tier reads only the quotes of the fund's own stocks |
| `Estimation.HoldingQuotesAgree` | services/estimation_service.py:135 | fetching a larger list gives the same quotes for the fund's own stocks (also line 164) |
| `Estimation.CleanCodeStripped` | services/estimation_service.py:144 | a cleaned code is stripped and non-blank |
| `Estimation.ManyBatchAgrees` | services/estimation_service.py:132-155 | for a cleaned code, `estimate_many` has the same holdings as `load_holdings` exactly when the fund is neither ETF nor QDII |
| `Estimation.EstimateOneStripped` | services/estimation_service.py:118-121 | `estimate_one` of a stripped non-blank code routes that code |
| `Estimation.RouteHoldingsAgree` | services/estimation_service.py:136 | same holdings and quotes that agree on their stocks give the same routing (also line 178) |
| `Estimation.ManyQuotesAgree` | services/estimation_service.py:134-164 | for a fund whose holdings are loaded, both entry points see the same quotes for its stocks |
| `Estimation.ManyAgreesWithOne` | services/estimation_service.py:118-185 | `estimate_many` agrees with `estimate_one` code by code up to the display name: both fail, or both give the same estimate |
| `Estimation.HoldingStockCodes` | services/estimation_service.py:159-162 | the loop collects the non-blank normalised stock codes of one fund |
| `Estimation.SelectNonEtf` | services/estimation_service.py:151-154 | the codes whose profile is neither ETF nor QDII, in order |
| `Estimation.CollectStockCodes` | services/estimation_service.py:157-162 | the stock codes of every loaded fund, fund by fund |
| `Estimation.FillEstimates` | services/estimation_service.py:166-185 | the result loop computes `Collect` |
| `Estimation.EstimateMany` | services/estimation_service.py:143-185 | the method computes `EstimateManyOf` |
| `Portfolio.AssignSpec` | services/portfolio_service.py:45-58 | assigning keeps the store well formed, stores the record under its code, leaves every other record alone and keeps the existing keys in order |
| `Portfolio.DropSpec` | services/portfolio_service.py:114-120 | dropping keeps the store well formed and removes exactly that code; every other record and the order of the remaining keys stay |
| `Portfolio.FilterDistinct` | services/portfolio_service.py:116-117 | filtering a list without duplicates leaves one without duplicates |
| `Portfolio.AssignThenDrop` | services/portfolio_service.py:45-58 | adding a new code and then removing it gives back the positions and their order (also lines 114-120) |
| `Portfolio.UpdatedSpec` | services/portfolio_service.py:83-98 | an update edits only the fields it is given (with none, only the time stamp moves), and applying it twice is applying it once up to the time stamp |
| `Portfolio.Records` | services/portfolio_service.py:129-140 | one record per stored key, in the dict's iteration order |
| `Portfolio.RecordsMember` | services/portfolio_service.py:129-140 | a record is listed exactly when it is stored under one of the keys |
| `Portfolio.ListSpec` | services/portfolio_service.py:125-142 | the listing is sorted by code, holds exactly the stored records, one per code, as many as there are positions |
| `Portfolio.OrderSize` | services/portfolio_service.py:129 | a well-formed document's key order has one entry per stored position |
| `Portfolio.PortfolioFile.constructor` | services/portfolio_service.py:17-23 | a missing file reads as an empty, well-formed store |
| `Portfolio.PortfolioFile.PositionSet` | services/portfolio_service.py:27-60 | a blank code or a negative share count or cost is refused and writes nothing; otherwise the code's record is replaced whole; the store stays well formed |
| `Portfolio.PortfolioFile.PositionUpdate` | services/portfolio_service.py:63-104 | a blank or unknown code, or a negative value given, writes nothing; otherwise only the given fields change; the store stays well formed |
| `Portfolio.PortfolioFile.PositionRemove` | services/portfolio_service.py:107-122 | only a blank code is refused; otherwise the code is dropped (an unknown code still refreshes the time stamp) |
| `Portfolio.PortfolioFile.PositionList` | services/portfolio_service.py:125-142 | the loop and the sort compute `ListOf` |
| `Portfolio.EmptyViewAgrees` | services/portfolio_service.py:154-163 | with nothing held the early return equals the general formula |
| `Portfolio.RowsAt` | services/portfolio_service.py:173-208 | one row per snapshot position, in order |
| `Portfolio.RowSpec` | services/portfolio_service.py:174-207 | a row copies its snapshot, values it at the estimated NAV (0 and a warning without an estimate), and its profit is value − cost + realized |
| `Portfolio.TotalPnl` | services/portfolio_service.py:185-187 | the total profit is the total value less the total cost plus every realized profit |
| `Portfolio.TotalsAppend` | services/portfolio_service.py:185-190 | the totals of two runs of rows add up |
| `Portfolio.CoveredWithin` | services/portfolio_service.py:189-190 | with nothing negative the covered value lies between 0 and the total value |
| `Portfolio.AllCovered` | services/portfolio_service.py:189-190 | when every held code has a positive estimate, all the value is covered |
| `Portfolio.CoverageSpec` | services/portfolio_service.py:210 | coverage is 0 when nothing has value, in [0, 100] when no share count or NAV is negative, and exactly 100 when every held code has a positive estimate and the total value is positive |
| `Portfolio.BuildView` | services/portfolio_service.py:167-221 | the loop computes `ViewOf` |
| `Portfolio.RealtimeViewAsOf` | services/portfolio_service.py:146-221 | the journal is replayed to the date (today by default) and the view is computed from that snapshot under `estimate_many` of its codes |
| `Watchlist.Cleaned` | services/watchlist_service.py:50-70 | one stripped text per stored item, in order |
| `Watchlist.ListedSpec` | services/watchlist_service.py:23-35 | the list holds exactly the non-blank codes of the file, each once and stripped |
| `Watchlist.ListedPrefix` | services/watchlist_service.py:27-34 | codes keep the place of their first appearance; more entries only add to the end of the list |
| `Watchlist.ListedClean` | services/watchlist_service.py:27-34 | a clean list (stripped, non-blank, no repeats) reads back as itself |
| `Watchlist.Strs` | services/watchlist_service.py:70 | the codes as stored JSON strings, one per code |
| `Watchlist.AddedSpec` | services/watchlist_service.py:45-54 | adding a non-blank code lists it, at the end when it is new, the list otherwise unchanged; adding it again changes nothing more |
| `Watchlist.RemovedSpec` | services/watchlist_service.py:66-72 | removing drops the code and keeps the order of every other listed code |
| `Watchlist.RemovedTwice` | services/watchlist_service.py:66-72 | removing twice is removing once |
| `Watchlist.WatchlistFile.constructor` | services/watchlist_service.py:14-20 | a missing file reads as an empty list |
| `Watchlist.WatchlistFile.List` | services/watchlist_service.py:23-35 | the one-pass loop with a `seen` set computes the listing |
| `Watchlist.WatchlistFile.Add` | services/watchlist_service.py:38-56 | a blank code writes nothing; otherwise the stamp is refreshed and a new code appended |
| `Watchlist.WatchlistFile.Remove` | services/watchlist_service.py:59-74 | a blank code writes nothing; otherwise the items are rewritten stripped, without blanks and without the code |
| `Intraday.DayOfTwice` | services/intraday_service.py:199-222 | re-reading the day of an already stripped day string gives the same day, so the marker check and the write that follows touch the same file |
| `Intraday.DayOfSelf` | services/intraday_service.py:96 | defaulting a day to itself and re-reading it gives the same stripped day (also lines 140, 199) |
| `Intraday.EnsureSpec` | services/intraday_service.py:20-45 | after ensuring, `date`, `series` and `updated_at` are all present; present keys keep their values, missing ones get the day, `{}` and the time stamp; ensuring twice equals ensuring once |
| `Intraday.RecordedSpec` | services/intraday_service.py:99-127 | recording appends exactly the new point to the target's series, leaves every other target's series unchanged and sets `updated_at` to the time stamp |
| `Intraday.Last` | services/intraday_service.py:181-202 | `pts[-n:]` keeps `min(n, len)` points and they are the series' suffix |
| `Intraday.WindowStart` | services/intraday_service.py:202 | the marker window starts inside the series |
| `Intraday.HasCloseSpec` | services/intraday_service.py:195-206 | the marker check holds exactly when one of the last 200 points carries `CLOSE` |
| `Intraday.CloseAppended` | services/intraday_service.py:226-232 | after a `CLOSE` point is appended the series has a closing marker |
| `Intraday.NoCloseStays` | services/intraday_service.py:99-127 | appending a point without `CLOSE` to a series without a marker leaves it without one (also lines 195-206) |
| `Intraday.RecordedClose` | services/intraday_service.py:99-127 | a recorded `CLOSE` point turns the marker check on, and a recorded point of any other kind never does (also lines 195-206) |
| `Intraday.IntradayStore.constructor` | services/intraday_service.py:20-45 | a fresh store has no day files |
| `Intraday.IntradayStore.GetSeries` | services/intraday_service.py:132-149 | an empty (stripped) target is refused; otherwise the result is the stripped target's series on the stripped day, a missing file or a non-list value read as no points |
| `Intraday.IntradayStore.LoadFundSeries` | services/intraday_service.py:172-182 | an empty code gives `[]`; otherwise the last `limit` points when `limit > 0`, the whole series when not |
| `Intraday.IntradayStore.LoadPortfolioSeries` | services/intraday_service.py:185-192 | the last `limit` points of the `portfolio` series when `limit > 0`, the whole series when not |
| `Intraday.IntradayStore.RecordPoint` | services/intraday_service.py:61-129 | an empty target is refused with nothing written; otherwise exactly the day's document changes, to the recorded document, which is also returned |
| `Intraday.IntradayStore.Clear` | services/intraday_service.py:152-165 | the day's document is replaced by one with the day, an empty series map and the new time stamp, so every target's series is empty afterwards; other days are unchanged |
| `Intraday.IntradayStore.HasCloseMarker` | services/intraday_service.py:195-206 | an empty target is refused; otherwise the reverse scan answers exactly the marker predicate on the day's series |
| `Intraday.IntradayStore.AppendCloseMarker` | services/intraday_service.py:209-232 | an empty target is refused; nothing is written exactly when the series already has a closing marker; otherwise one `CLOSE` point is recorded and the series then has a marker |
| `Intraday.CloseMarkerTwice` | services/intraday_service.py:195-232 | two close-marker calls in a row write at most once: the second always finds the first's marker and writes nothing |
| `Clock.TradingTimeSpec` | services/trading_time.py:18-22 | the service check is false at the weekend; on a weekday it holds exactly when the time, in microseconds of the day, lies in 09:30-11:30 or 13:00-15:00, both ends included |
| `Clock.TimeLeMicros` | services/trading_time.py:21-22 | on valid times, Python's field-by-field order of `time` values is the order of their microsecond counts |
| `Clock.SecondsOrder` | services/trading_time.py:21-22 | on valid times, the order of hours, minutes and seconds is the order of the seconds counted from midnight |
| `Clock.TradingTimeExamples` | services/trading_time.py:18-22 | noon is out, 15:00:00 is in, 15:00:01 is out, 09:30 is in, Saturday is out |
| `Clock.CloseWindowSpec` | scripts/intraday_collector.py:37-46 | the close window holds exactly on a weekday within `minutes` minutes of 15:00; a negative width gives no window; the default width gives 14:58-15:02 |
| `Clock.TradingChecksAgree` | services/trading_time.py:18-22 | whatever the service check accepts the collector's minute check accepts; on a whole minute the two agree; at 15:00:01 only the collector still says yes (also scripts/intraday_collector.py:24-34) |
| `Clock.ParseHhmm` | utils/time_utils.py:11-13 | a parsed time has seconds and microseconds zero and a valid hour and minute, and comes from text with exactly one `:` |
| `Clock.ParseHhmmDigits` | utils/time_utils.py:11-13 | two-digit `HH:MM` text with a valid hour and minute parses to exactly that hour and minute |
| `Clock.DigitsPair` | utils/time_utils.py:13 | two digits read as an integer give ten times the first plus the second |
| `Clock.TradingInSpec` | utils/time_utils.py:16-29 | when every session parses, the answer is whether some session contains the time (ends included); no sessions means no |
| `Clock.IsTradingTime` | utils/time_utils.py:20-29 | the loop returns what the session-list function gives, including the error of the first session that does not parse |
| `Collector.IntervalOf` | scripts/intraday_collector.py:100 | the pause is at least 3 seconds and at least the requested interval, and is one of the two |
| `Collector.StripsToStep` | scripts/intraday_collector.py:119 | some part strips to `x` exactly when an earlier part does or the last one does |
| `Collector.StrippedPartsSpec` | scripts/intraday_collector.py:119 | the parsed `--codes` list holds only non-blank stripped codes, and a code is in it exactly when it is non-blank and some comma-separated part strips to it |
| `Collector.CodesForSpec` | scripts/intraday_collector.py:117-125 | the tick's codes are clean; with a non-blank `--codes` they are exactly the non-blank stripped parts; otherwise they are the watchlist listing, or none when the watchlist cannot be read |
| `Collector.MapStrip` | scripts/intraday_collector.py:119 | every part is stripped, in place and order |
| `Collector.ExitOf` | scripts/intraday_collector.py:137-177 | the tick returns exactly under `--once`; the code is 1 exactly when the batch estimate failed, else 0 (also lines 224-225) |
| `Collector.OnlyTradingQuiet` | scripts/intraday_collector.py:143-157 | with codes present and only trading time requested, a tick outside both the trading time and the close window does nothing |
| `Collector.SampledForSpec` | scripts/intraday_collector.py:199-206 | a target that is not a listed code, or has no estimate, gets no samples; a code with an estimate gets one sample per listing |
| `Collector.MarkedSpec` | scripts/intraday_collector.py:182-187 | after marking a list of codes, every listed code's series has a closing marker, and the series of every other target is what it was |
| `Collector.CloseOne` | scripts/intraday_collector.py:185-186 | one code's turn records a closing marker only when the code's series has none yet, carrying the code's estimate if it has one; other days are untouched |
| `Collector.CloseMarkers` | scripts/intraday_collector.py:182-187 | the day's document becomes the old one with each code marked in list order; after the pass every code's series on the day has a closing marker; series of targets that are not codes, and other days, are unchanged |
| `Collector.SampledForStep` | scripts/intraday_collector.py:201-206 | the samples of one more code are the earlier samples followed by that code's point, when it has an estimate and is the target |
| `Collector.GrownStep` | scripts/intraday_collector.py:201-206 | the sample-pass invariant (every series is its start plus its samples) carries over one more code |
| `Collector.SampleOne` | scripts/intraday_collector.py:205 | one sample appends exactly one point carrying the estimate to the code's series on the day; nothing else changes |
| `Collector.SamplePoints` | scripts/intraday_collector.py:198-214 | every series on the day grows by exactly its samples, other days are untouched, and the count returned is the number of codes with an estimate |
| `Collector.SelectCodes` | scripts/intraday_collector.py:117-125 | the loop computes the tick's codes |
| `Collector.WorkTick` | scripts/intraday_collector.py:181-214 | the working part of a tick leaves the day files as `WorkEffect` says: only the codes on the tick's day change; with the close-marker pass the day's document is first the marked one; with the sample pass every series is then followed by exactly its samples; with only the close-marker pass every code ends with a closing marker |
| `Collector.RunTick` | scripts/intraday_collector.py:105-227 | the exit follows the tick's branch, and the day files change as `TickEffect` says: a tick that does no work writes nothing, and a working tick has the effect of `WorkTick` with the close-marker pass exactly inside the close window and the sample pass exactly when sampling is allowed |
| `Collector.Run` | scripts/intraday_collector.py:82-227 | with `--once` exactly the first tick runs and its exit code is returned; without it every tick runs and the loop never returns; the ghost trace it returns links the day files before the ticks to those after, each tick's step being that tick's `TickEffect` |
| `Collector.TraceExtend` | scripts/intraday_collector.py:105-227 | a trace of the ticks so far followed by one more tick's effect is a trace of one more tick |
| `Collector.TraceKeepsDay` | scripts/intraday_collector.py:105-227 | a day that no tick of the run falls on keeps its document |
| `Collector.TraceKeepsTarget` | scripts/intraday_collector.py:105-227 | a target that is none of the run's tick codes keeps its series on every day |
| `Collector.TraceQuiet` | scripts/intraday_collector.py:105-227 | when no tick of the run does any work, the day files are exactly as before |
| `FixAdjustments.BadPrefix` | scripts/fix_adjustments.py:22-39 | the ids flagged on a prefix of the entries are a prefix of those flagged on the whole list |
| `FixAdjustments.FlaggedIff` | scripts/fix_adjustments.py:29-36 | an id is flagged exactly when some entry with that id is a SELL larger than the holding replayed up to it by more than 1e-9 |
| `FixAdjustments.NotOverSoldNotFlagged` | scripts/fix_adjustments.py:31-36 | with unique ids, an entry that fits its holding is not flagged |
| `FixAdjustments.HoldingsFloor` | scripts/fix_adjustments.py:29-36 | when no BUY has negative shares, no holding in the scan ever falls below -1e-9 |
| `FixAdjustments.AgreesWithSnapshot` | scripts/fix_adjustments.py:22-39 | when nothing is flagged and every SELL has positive shares and price, the scan's holdings equal the snapshot replay's shares code by code (also services/snapshot_service.py:36-87) |
| `FixAdjustments.JournalAgreesWithSnapshot` | scripts/fix_adjustments.py:20-39 | the same agreement for the whole journal in (effective date, creation time) order (also services/snapshot_service.py:36-87) |
| `FixAdjustments.KeepSpec` | scripts/fix_adjustments.py:50 | the rewrite keeps exactly the entries whose id is not flagged, and never adds any |
| `FixAdjustments.UniqueIdsPermutation` | scripts/fix_adjustments.py:20 | unique ids stay unique when the entries are reordered |
| `FixAdjustments.SettledPrefix` | scripts/fix_adjustments.py:22-50 | with unique ids, dropping the flagged entries leaves every prefix's holdings as they were and flags nothing more |
| `FixAdjustments.FixSettles` | scripts/fix_adjustments.py:20-52 | with unique ids the repair settles in one run: on the rewritten journal nothing is flagged and the holdings are unchanged |
| `FixAdjustments.CheckAllStep` | scripts/fix_adjustments.py:22-39 | scanning one more entry is one step of the scan after the earlier entries |
| `FixAdjustments.VisitEntry` | scripts/fix_adjustments.py:23-38 | one entry of the loop: a BUY adds to the holding, a SELL beyond it plus the tolerance is flagged and otherwise subtracts, anything else is skipped, exactly as the scan step |
| `FixAdjustments.FlagOverSells` | scripts/fix_adjustments.py:16-39 | the replay loop flags exactly the ids of the scan in (effective date, creation time) order |
| `FixAdjustments.KeepUnflagged` | scripts/fix_adjustments.py:50 | the rewrite loop keeps the unflagged entries in their original order |
| `FixAdjustments.FixBadSells` | scripts/fix_adjustments.py:7-53 | the flagged ids are the scan's; with none the journal is untouched; otherwise only the item list changes, to the unflagged entries in their original order |
| `Paths.SkipRun` | storage/paths.py:83 | skipping a run of disallowed characters never grows the text and stops at the end or at an allowed character |
| `Paths.Collapse` | storage/paths.py:83 | the substitution never makes the text longer |
| `Paths.CollapseAllowed` | storage/paths.py:83 | after the substitution only `[A-Za-z0-9_.-]` characters remain |
| `Paths.CollapseClean` | storage/paths.py:83 | text made only of allowed characters is left unchanged |
| `Paths.CollapseEmpty` | storage/paths.py:83-84 | the substitution gives the empty string only for the empty string |
| `Paths.SkipRunAll` | storage/paths.py:83 | a whole run of disallowed characters is skipped up to what follows it |
| `Paths.CollapseRun` | storage/paths.py:83 | a maximal run of disallowed characters becomes exactly one `_` |
| `Paths.CollapseKeep` | storage/paths.py:83 | an allowed character is copied as it is |
| `Paths.SafeFilenameSpec` | storage/paths.py:82-84 | the safe name is never empty and holds only allowed characters; it is `cache` exactly when the stripped key is empty, else the substituted stripped key; a clean stripped key is kept as it is |
| `Paths.StripAllowed` | storage/paths.py:83 | text of allowed characters has no surrounding white space to strip |
| `Paths.SafeFilenameIdempotent` | storage/paths.py:82-84 | making a safe name safe again changes nothing |
| `Paths.WithExtension` | storage/paths.py:130-136 | an extension added to a clean stem can be cut off again, keeps the name clean and free of `/`, and two stems give the same name exactly when they are equal |
| `Paths.CacheNamesSpec` | storage/paths.py:127-136 | cache and snapshot names are the safe name plus `.json` or `.txt`, contain no `/`, and two keys share a file exactly when their safe names agree |
| `Auth.NormalizePhone` | services/auth_service.py:27-29 | a normalised phone holds only digits |
| `Auth.NormalizePhoneSpec` | services/auth_service.py:27-33 | normalising is idempotent; a character survives exactly when it is a digit of the stripped input; a normalised phone that is valid has 11 digits |
| `Auth.ValidPhoneNormal` | services/auth_service.py:27-33 | a valid phone is all digits and is its own normal form |
| `Auth.NormalizeExample` | services/auth_service.py:27-33 | `" 138-0013-8000 "` normalises to the valid `13800138000`; a second digit of 2, or ten digits, is not valid |
| `Auth.StripExample` | services/auth_service.py:28 | stripping removes only the surrounding spaces |
| `Auth.DigitsExample` | services/auth_service.py:29 | removing the non-digits of `138-0013-8000` leaves `13800138000` |
| `Auth.HexDigit` | services/auth_service.py:43 | each value below 16 has one lower-case hex digit, which reads back as that value and is never `$` |
| `Auth.HexByte` | services/auth_service.py:43 | each byte takes two hex digits |
| `Auth.Hex` | services/auth_service.py:43 | the hex text is twice as long as the bytes |
| `Auth.FromHex` | services/auth_service.py:52-53 | decoded bytes are half as many as the hex characters |
| `Auth.FromHexHex` | services/auth_service.py:43-53 | decoding hex undoes encoding it |
| `Auth.HexNoSeparator` | services/auth_service.py:43-48 | hex text never contains the `$` separator |
| `Auth.PasswordVerify` | services/auth_service.py:46-57 | verification succeeds only on an encoding with four `$`-separated parts, the right algorithm and an integer iteration count of at least one |
| `Auth.IterationsText` | services/auth_service.py:15 | the iteration count written into an encoding reads back as 200000 (also lines 43, 51) |
| `Auth.EncodingParts` | services/auth_service.py:40-48 | an encoding splits back into exactly its algorithm, iteration count, salt hex and digest hex |
| `Auth.PasswordRoundTrip` | services/auth_service.py:40-57 | a password verifies against an encoding exactly when its derived key equals the stored one, so the encoded password always verifies |
| `Auth.PasswordVerifyNoParts` | services/auth_service.py:47-55 | an encoding without a `$` (a bare digest, or nothing) never verifies |
| `Auth.PasswordVerifyOtherAlgo` | services/auth_service.py:49-50 | an encoding naming another algorithm never verifies |
| `Auth.SplitNoSepMax` | services/auth_service.py:48 | text without a `$` splits into itself alone |
| `Auth.FindUser` | services/auth_service.py:117 | a found user is in the list and has the phone; when none is found, no user has it (also line 176) |
| `Auth.LoginSpec` | services/auth_service.py:144-182 | login succeeds exactly when the input checks pass and the first user with the normalised phone has an encoding that accepts the password; a success always carries a non-empty id |
| `Auth.RegisterThenLogin` | services/auth_service.py:113-141 | a newly registered phone logs in with its password and gets `u_` plus the phone; another password logs in exactly when the key derivation gives the same key (also lines 174-182) |
| `Auth.FindUserAppend` | services/auth_service.py:117-133 | a user appended for a phone nobody had is the one found for it (also line 176) |
| `Auth.UserFile.constructor` | services/auth_service.py:60-66 | a fresh file has no users |
| `Auth.UserFile.Register` | services/auth_service.py:73-141 | a failed input check answers its error and writes nothing; a known phone answers "already registered" with the stored id and writes nothing; otherwise exactly one new user is appended; phones stay unique |
| `AuthGuard.Trunc` | services/auth_guard.py:25 | `int()` of a float truncates toward zero: the result is within one of the value on the zero side |
| `AuthGuard.TtlDays` | services/auth_guard.py:23-28 | a session lives at least one day |
| `AuthGuard.TtlDaysSpec` | services/auth_guard.py:23-28 | the time to live is at least a day; 14 when the setting is absent or not an integer; the setting when it is a positive integer; 1 when it is an integer below one |
| `AuthGuard.TtlDaysExamples` | services/auth_guard.py:23-28 | 7.9 gives 7, -3.5 and 0 give 1, `"30"` gives 30, `"two weeks"` gives 14 |
| `AuthGuard.Latest` | services/auth_guard.py:113 | at most 1000 entries are kept |
| `AuthGuard.IssuedSpec` | services/auth_guard.py:91-114 | after issuing there are at most 1000 entries with the new session last; the others are live entries of the old list, in order; while fewer than 1000 are live, none is dropped for the limit |
| `AuthGuard.PrunedSpec` | services/auth_guard.py:96-102 | pruning keeps exactly the live dict entries; pruning again at the same time changes nothing (also lines 136-141) |
| `AuthGuard.MatchedPruned` | services/auth_guard.py:136-146 | dropping dead entries does not change whom a hash resolves to |
| `AuthGuard.IssueThenResolve` | services/auth_guard.py:85-155 | a newly issued session resolves to its (stripped) user and phone at any time before its expiry |
| `AuthGuard.MatchedNone` | services/auth_guard.py:136-146 | with no entry carrying the hash, it resolves to nobody |
| `AuthGuard.RevokeThenResolve` | services/auth_guard.py:120-180 | after a token is revoked it resolves to nobody, at any time |
| `AuthGuard.RevokedSpec` | services/auth_guard.py:165-175 | revoking keeps exactly the dict entries with another hash |
| `AuthGuard.Prune` | services/auth_guard.py:95-102 | the loop keeps exactly the live entries, in order |
| `AuthGuard.Lookup` | services/auth_guard.py:135-146 | the loop keeps the live entries and reports the user and phone of the last live entry with the hash |
| `AuthGuard.SessionFile.constructor` | services/auth_guard.py:92-94 | a fresh file has no sessions |
| `AuthGuard.SessionFile.Issue` | services/auth_guard.py:85-117 | the caller's token is returned and the file becomes the issued list, holding only the token's hash and an expiry the time to live ahead |
| `AuthGuard.SessionFile.Resolve` | services/auth_guard.py:120-155 | a blank token, or a storage failure, resolves to nobody and writes nothing; otherwise the result is the last live match of the stripped token's hash and the file keeps the live entries |
| `AuthGuard.SessionFile.Revoke` | services/auth_guard.py:158-180 | a blank token, or a storage failure, writes nothing; otherwise the file keeps exactly the dict entries with another hash |

## Left out

- File persistence: `storage/json_store.py`, directory creation and path composition. Each `update_json` is an atomic replace of a whole document, and it writes nothing when the updater raises.
- The Supabase branches of the journal and account services, and `services/supabase_client.py`: remote REST I/O. This includes the note-pattern fallback deletes in services/adjustment_service.py:351-377. `strictCloud` stands for the web-cloud guard alone.
- HTTP and quote fetchers (`datasources/http_client.py`, `fund_api.py`, `nav_api.py`) are oracle parameters. These are quote, profile, stock-quote and official-NAV functions. The official NAV is looked up for exactly the requested date.
- An oracle is a function. Within one call it answers the same for the same code, even where the code makes separate requests, as `estimate_one` and `estimate_many` do.
- `_latest_official_nav` is an oracle parameter (`officialNavOf`). It reads the NAV API.
- The clock, `uuid4`, `secrets.token_urlsafe`, PBKDF2 and SHA-256 are parameters. The model proves nothing about their values (for instance, that tokens or ids differ).
- Floating point: money and prices are `real`. IEEE rounding and `float('inf')`/`nan` are not modelled, and neither is the `OverflowError` of `int()` on an infinite setting. `float()` parsing of text is an oracle.
- Python `int()` is modelled on an optional sign and ASCII digits after stripping. Underscores, non-ASCII digits and other bases are not.
- Python's `\d`, `str.lower()` and `str.upper()` are modelled on ASCII only. For example, Python's `"ſell".upper()` is `"SELL"`, so the source accepts an entry type that the model's `Text.Upper` refuses.
- `bytes.fromhex` is modelled without its skipping of white space between pairs.
- The PBKDF2 iteration count has no upper bound in the model. The library's own limit, and its error, are left out.
- Comparing a naive with an aware `datetime` raises `TypeError`. ISO instants are parsed by an oracle into one integer time line, so that error is not modelled.
- JSON documents are typed records. A value of the wrong shape reads as the code's default (an empty list, an empty map, no points). The exceptions a wrong shape would raise deeper in the code (`h.get("code")` on a non-dict holding, a point that is not a dict) are not modelled.
- Json.StrOf: `str()` of a list or dict is Python's repr of it (`"[1]"`, `"{'code': '1'}"`), and `str()` of a float is its shortest repr (`"1.5"` for a JSON `1.50`). The model reads a list or dict as `""` and a number as its JSON text. So a watchlist item or holding code that is a list or dict is listed by the source, while the model drops it as blank (`Watchlist.Cleaned`, `Holdings.NormalizedSpec`). A code written as a JSON number with trailing zeros or an exponent also reads differently.
- `scripts/fix_adjustments.py`: the branch that prints a message and returns when `items` is not a list is left out. Journal entries are typed records there.
- Warning and message texts are abstract tokens where only their presence matters. Printing and logging are left out.
- The collector's sleeping, logging and status file are left out, along with its `IMPORT ERROR` return of 2, the `except` branches around the watchlist and the writers, and time zones.
- The profile cache write inside `get_fund_profile` is modelled. The JSON profile providers (`fund_profile_jsonmap.py`, `fund_profile_localmap.py`, `fund_profile_provider.py`) are an oracle.
- Thin aliases are not modelled separately: `portfolio_realtime_view`, `list_watchlist`, `add_to_watchlist`, `remove_from_watchlist`, `load_fund_series`, and `fund_gap_table` (a field-for-field reshaping of `fund_gap_rows`).
- Streamlit UI code, `require_login`, the query-parameter helpers of `services/auth_guard.py`, process supervision and packaging scripts are left out.
- The demo and migration scripts are drivers. Their scenarios are the lemmas `Snapshot.DemoJournalReplay` and `EditBridge.DemoEditBridge`.
- EditBridge.EditJournal: models `date.fromisoformat` as Python 3.10 and earlier define it, where only YYYY-MM-DD is accepted (`Dates.IsIsoDate`). From Python 3.11 it also accepts the basic form YYYYMMDD and ISO week dates such as 2026-W05-5. On those inputs the source goes on with the edit, while the model refuses it with `Err`.
- EditBridge.EditReachesTarget: assumes the journal is sane — no entry created after the edit's clock reading, and no BUY of negative size. Without these, a later-stamped entry on the same day could sort after the editor's entries and change the replay.
- EditBridge.DemoEditBridge: states the holdings and realized profit within the replay's tolerances, not exactly, and does not state the average cost.
- FixAdjustments.FixSettles: assumes unique ids. When a flagged SELL shares its id with a good entry, the script drops both, and a second run can flag more.
- AuthGuard.SessionFile.Resolve: a storage failure is a `storageFails` flag. It writes nothing and resolves to nobody; partial writes are not modelled.
