/**
 * The adjustment journal: an append-only list of BUY / SELL / CASH_ADJ
 * entries kept in one JSON document (`{"items": [...], "updated_at": ...}`),
 * each tagged with the source `manual` or `ui_edit`.
 *
 * Every write goes through `update_json`: the document is read, an updater
 * computes the new document, and the whole document is written back only
 * when the updater returns. The updaters are modelled as methods over
 * values; `JournalFile` holds the stored document and applies them.
 */
module Journal {
  import opened Wrappers
  import opened Text
  import opened Seqs
  import opened Order

  const BUY := "BUY"
  const SELL := "SELL"
  const CASH_ADJ := "CASH_ADJ"
  const SOURCE_MANUAL := "manual"
  const SOURCE_UI_EDIT := "ui_edit"

  /**
   * One journal entry. `note` is None when the stored value is null;
   * `source` is None when the entry has no "source" key (entries written
   * before the key existed).
   */
  datatype Adjustment = Adjustment(
    id: string,
    kind: string,
    code: string,
    effectiveDate: string,
    shares: real,
    price: real,
    cash: real,
    note: Option<string>,
    source: Option<string>,
    createdAt: string)

  /** The journal document. */
  datatype Doc = Doc(items: seq<Adjustment>, updatedAt: Option<string>)

  /** The source tag as the backfill reads it: blank when missing. */
  function SourceTag(a: Adjustment): string {
    Lower(Strip(a.source.GetOr("")))
  }

  /** The source tag as removal by (code, date, source) reads it: "manual" when missing or blank. */
  function SourceOrManual(a: Adjustment): (r: string)
    ensures r != ""
  {
    match a.source
    case None => SOURCE_MANUAL
    case Some(s) => if Lower(Strip(s)) == "" then SOURCE_MANUAL else Lower(Strip(s))
  }

  /** The two readings of the source agree on which entries are editor entries. */
  lemma SourceReadingsAgree(a: Adjustment)
    ensures SourceOrManual(a) == SOURCE_UI_EDIT <==> SourceTag(a) == SOURCE_UI_EDIT
  {
  }

  /** The heuristic that recognises entries written by the position editor before they were tagged. */
  predicate LooksLikeUiEdit(a: Adjustment) {
    SourceTag(a) == SOURCE_UI_EDIT ||
    (var note := Lower(Strip(a.note.GetOr("")));
     note != "" &&
     (Contains(note, "[ui_edit]") || StartsWith(note, "edit->") || StartsWith(note, "ui_edit") ||
      StartsWith(note, "ui edit") ||
      (StartsWith(note, "ui") && (Contains(note, "edit") || Contains(note, "\U{7F16}\U{8F91}")))))
  }

  /** A tagged entry is always recognised; an untagged one with a blank note never is. */
  lemma LooksLikeUiEditCases(a: Adjustment)
    ensures SourceTag(a) == SOURCE_UI_EDIT ==> LooksLikeUiEdit(a)
    ensures SourceTag(a) != SOURCE_UI_EDIT && Strip(a.note.GetOr("")) == "" ==> !LooksLikeUiEdit(a)
  {
  }

  /** The notes the position editor writes by default ("edit->BUY", ...) are recognised. */
  lemma EditorNoteRecognised(a: Adjustment, rest: string)
    requires a.note == Some("edit->" + rest)
    requires rest == [] || !IsSpace(rest[|rest| - 1])
    ensures LooksLikeUiEdit(a)
  {
    var n := "edit->" + rest;
    assert !IsSpace(n[0]) && !IsSpace(n[|n| - 1]);
    StripNoop(n);
    var l := Lower(n);
    forall i | 0 <= i < 6
      ensures l[i] == "edit->"[i]
    {
      assert n[i] == "edit->"[i];
    }
    assert StartsWith(l, "edit->") && l != "";
  }

  /** Whether the backfill's scope covers `a`: an empty code or date means any. */
  predicate InScope(a: Adjustment, code: string, date: string) {
    (code == "" || Strip(a.code) == code) && (date == "" || Strip(a.effectiveDate) == date)
  }

  /** The entries the backfill retags. */
  predicate NeedsRetag(a: Adjustment, code: string, date: string) {
    InScope(a, code, date) && SourceTag(a) != SOURCE_UI_EDIT && LooksLikeUiEdit(a)
  }

  function NeedsRetagOf(code: string, date: string): Adjustment -> bool {
    a => NeedsRetag(a, code, date)
  }

  /** The backfill's effect on one entry. */
  function Retag(a: Adjustment, code: string, date: string): Adjustment {
    if NeedsRetag(a, code, date) then a.(source := Some(SOURCE_UI_EDIT)) else a
  }

  lemma UiEditStripped()
    ensures Strip(SOURCE_UI_EDIT) == SOURCE_UI_EDIT
  {
    StripNoop(SOURCE_UI_EDIT);
  }

  lemma UiEditLower()
    ensures Lower(SOURCE_UI_EDIT) == SOURCE_UI_EDIT
  {
  }

  lemma UiEditTagNormal()
    ensures Lower(Strip(SOURCE_UI_EDIT)) == SOURCE_UI_EDIT
  {
    UiEditStripped();
    UiEditLower();
  }

  /** After the backfill an entry never needs it again. */
  lemma RetagSettles(a: Adjustment, code: string, date: string)
    ensures !NeedsRetag(Retag(a, code, date), code, date)
  {
    if NeedsRetag(a, code, date) {
      var b := a.(source := Some(SOURCE_UI_EDIT));
      assert SourceTag(b) == SOURCE_UI_EDIT by {
        UiEditTagNormal();
      }
    }
  }

  /** The backfill as a function of the list, for reasoning about later steps. */
  function Migrated(items: seq<Adjustment>, code: string, date: string): (r: seq<Adjustment>)
    ensures |r| == |items|
    ensures forall k :: 0 <= k < |items| ==> r[k] == Retag(items[k], code, date)
  {
    if items == [] then [] else Migrated(items[..|items| - 1], code, date) + [Retag(items[|items| - 1], code, date)]
  }

  lemma MigratedStep(items: seq<Adjustment>, i: nat, code: string, date: string)
    requires i < |items|
    ensures Migrated(items[..i + 1], code, date) == Migrated(items[..i], code, date) + [Retag(items[i], code, date)]
  {
    assert items[..i + 1][..i] == items[..i];
  }

  /**
   * The backfill updater (`migrate_ui_edit_source`, local branch): the list
   * keeps its length and order, each entry is retagged or left alone, and
   * the count of retagged entries is returned; `updated_at` moves only when
   * something changed.
   */
  method MigrateUpdater(doc: Doc, code: string, date: string, now: string) returns (r: Doc, count: nat)
    ensures r.items == Migrated(doc.items, code, date)
    ensures count == |Filter(doc.items, NeedsRetagOf(code, date))|
    ensures r.updatedAt == if count > 0 then Some(now) else doc.updatedAt
  {
    var items := doc.items;
    var out: seq<Adjustment> := [];
    var cnt := 0;
    var i := 0;
    while i < |items|
      invariant 0 <= i <= |items|
      invariant out == Migrated(items[..i], code, date)
      invariant cnt == |Filter(items[..i], NeedsRetagOf(code, date))|
    {
      var it := items[i];
      FilterPrefixStep(items, i, NeedsRetagOf(code, date));
      MigratedStep(items, i, code, date);
      assert NeedsRetagOf(code, date)(it) == NeedsRetag(it, code, date);
      if code != "" && Strip(it.code) != code {
        assert !InScope(it, code, date);
        out := out + [it];
      } else if date != "" && Strip(it.effectiveDate) != date {
        assert !InScope(it, code, date);
        out := out + [it];
      } else if SourceTag(it) == SOURCE_UI_EDIT {
        out := out + [it];
      } else {
        assert InScope(it, code, date);
        if LooksLikeUiEdit(it) {
          it := it.(source := Some(SOURCE_UI_EDIT));
          cnt := cnt + 1;
        }
        out := out + [it];
      }
      i := i + 1;
    }
    assert items[..i] == items;
    count := cnt;
    r := Doc(out, if cnt > 0 then Some(now) else doc.updatedAt);
  }

  /** A second backfill over the same scope changes nothing and counts zero. */
  lemma MigrateIdempotent(items: seq<Adjustment>, code: string, date: string)
    ensures Migrated(Migrated(items, code, date), code, date) == Migrated(items, code, date)
    ensures Filter(Migrated(items, code, date), NeedsRetagOf(code, date)) == []
  {
    var m := Migrated(items, code, date);
    forall k | 0 <= k < |m|
      ensures !NeedsRetag(m[k], code, date)
    {
      RetagSettles(items[k], code, date);
    }
    FilterNone(m, NeedsRetagOf(code, date));
  }

  /** `(source or "manual").strip().lower()`: a missing or empty source means manual. */
  function NormalSource(source: Option<string>): string {
    match source
    case None => SOURCE_MANUAL
    case Some(s) => if s == "" then SOURCE_MANUAL else Lower(Strip(s))
  }

  /** What `add_adjustment` accepts, stated on the normalised arguments. */
  predicate AddAccepted(kind: string, code: string, date: string, shares: real, price: real, source: Option<string>) {
    var k := Upper(Strip(kind));
    (k == BUY || k == SELL || k == CASH_ADJ) &&
    Strip(code) != "" && Strip(date) != "" &&
    (NormalSource(source) == SOURCE_MANUAL || NormalSource(source) == SOURCE_UI_EDIT) &&
    ((k == BUY || k == SELL) ==> shares > 0.0 && price > 0.0)
  }

  /** What every entry that `add_adjustment` writes satisfies. */
  predicate WellFormed(a: Adjustment) {
    (a.kind == BUY || a.kind == SELL || a.kind == CASH_ADJ) &&
    a.code != "" && a.code == Strip(a.code) &&
    a.effectiveDate != "" && a.effectiveDate == Strip(a.effectiveDate) &&
    (a.source == Some(SOURCE_MANUAL) || a.source == Some(SOURCE_UI_EDIT)) &&
    ((a.kind == BUY || a.kind == SELL) ==> a.shares > 0.0 && a.price > 0.0)
  }

  /**
   * The validation and record construction of `add_adjustment`; the id and
   * the creation time are parameters (a fresh uuid and the clock).
   */
  function NewAdjustment(kind: string, code: string, date: string, shares: real, price: real, cash: real,
                         note: Option<string>, source: Option<string>, id: string, now: string): (r: Result<Adjustment>)
    ensures r.Ok? <==> AddAccepted(kind, code, date, shares, price, source)
    ensures r.Ok? ==> WellFormed(r.value)
    ensures r.Ok? ==> r.value.id == id && r.value.createdAt == now && r.value.note == note &&
                      r.value.kind == Upper(Strip(kind)) && r.value.code == Strip(code) &&
                      r.value.effectiveDate == Strip(date) && r.value.shares == shares &&
                      r.value.price == price && r.value.cash == cash && r.value.source == Some(NormalSource(source))
  {
    var k := Upper(Strip(kind));
    var c := Strip(code);
    var d := Strip(date);
    StripIdempotent(code);
    StripIdempotent(date);
    if !(k == BUY || k == SELL || k == CASH_ADJ) then Err("type must be BUY/SELL/CASH_ADJ")
    else if c == "" then Err("code is required")
    else if d == "" then Err("effective_date is required")
    else
      var src := NormalSource(source);
      if !(src == SOURCE_MANUAL || src == SOURCE_UI_EDIT) then Err("source must be manual/ui_edit")
      else if (k == BUY || k == SELL) && shares <= 0.0 then Err("shares must be > 0 for BUY/SELL")
      else if (k == BUY || k == SELL) && price <= 0.0 then Err("price must be > 0 for BUY/SELL")
      else Ok(Adjustment(id, k, c, d, shares, price, cash, note, Some(src), now))
  }

  /** `[x for x in items if str(x.get("id")) != adj_id]`. */
  function IdOtherThan(id: string): Adjustment -> bool {
    (a: Adjustment) => a.id != id
  }

  /** The entries that `remove_adjustments_by_code` deletes. */
  function CodeIs(code: string): Adjustment -> bool {
    (a: Adjustment) => Strip(a.code) == code
  }

  function CodeIsNot(code: string): Adjustment -> bool {
    (a: Adjustment) => Strip(a.code) != code
  }

  /** The entries that `remove_adjustments_by_code_date` deletes; an empty source matches any. */
  predicate CodeDateMatch(a: Adjustment, code: string, date: string, source: string) {
    Strip(a.code) == code && Strip(a.effectiveDate) == date && (source == "" || SourceOrManual(a) == source)
  }

  function CodeDateIs(code: string, date: string, source: string): Adjustment -> bool {
    a => CodeDateMatch(a, code, date, source)
  }

  function CodeDateIsNot(code: string, date: string, source: string): Adjustment -> bool {
    a => !CodeDateMatch(a, code, date, source)
  }

  /**
   * The updater of `remove_adjustments_by_code`: keeps the other codes in
   * order and counts the deleted entries.
   */
  method RemoveByCodeUpdater(items: seq<Adjustment>, code: string) returns (kept: seq<Adjustment>, count: nat)
    ensures kept == Filter(items, CodeIsNot(code))
    ensures count == |Filter(items, CodeIs(code))|
    ensures count + |kept| == |items|
    ensures forall k :: 0 <= k < |kept| ==> Strip(kept[k].code) != code
  {
    kept := [];
    count := 0;
    var i := 0;
    while i < |items|
      invariant 0 <= i <= |items|
      invariant kept == Filter(items[..i], CodeIsNot(code))
      invariant count == |Filter(items[..i], CodeIs(code))|
      invariant count + |kept| == i
    {
      FilterPrefixStep(items, i, CodeIsNot(code));
      FilterPrefixStep(items, i, CodeIs(code));
      if Strip(items[i].code) == code {
        count := count + 1;
      } else {
        kept := kept + [items[i]];
      }
      i := i + 1;
    }
    assert items[..i] == items;
    FilterSatisfies(items, CodeIsNot(code));
  }

  lemma CodeDateStep(items: seq<Adjustment>, i: nat, code: string, date: string, source: string)
    requires i < |items|
    ensures var m := CodeDateMatch(items[i], code, date, source);
            Filter(items[..i + 1], CodeDateIsNot(code, date, source)) ==
              Filter(items[..i], CodeDateIsNot(code, date, source)) + (if m then [] else [items[i]]) &&
            Filter(items[..i + 1], CodeDateIs(code, date, source)) ==
              Filter(items[..i], CodeDateIs(code, date, source)) + (if m then [items[i]] else [])
  {
    FilterPrefixStep(items, i, CodeDateIsNot(code, date, source));
    FilterPrefixStep(items, i, CodeDateIs(code, date, source));
  }

  /**
   * The updater of `remove_adjustments_by_code_date`: keeps every entry
   * that does not match (code, date, source) in order and counts the
   * deleted ones. An entry without a source counts as manual.
   */
  method RemoveByCodeDateUpdater(items: seq<Adjustment>, code: string, date: string, source: string)
    returns (kept: seq<Adjustment>, count: nat)
    ensures kept == Filter(items, CodeDateIsNot(code, date, source))
    ensures count == |Filter(items, CodeDateIs(code, date, source))|
    ensures count + |kept| == |items|
    ensures forall k :: 0 <= k < |kept| ==> !CodeDateMatch(kept[k], code, date, source)
  {
    kept := [];
    count := 0;
    var i := 0;
    while i < |items|
      invariant 0 <= i <= |items|
      invariant kept == Filter(items[..i], CodeDateIsNot(code, date, source))
      invariant count == |Filter(items[..i], CodeDateIs(code, date, source))|
      invariant count + |kept| == i
    {
      CodeDateStep(items, i, code, date, source);
      var it := items[i];
      var itSource := SourceOrManual(it);
      var sourceMatch := source == "" || itSource == source;
      if Strip(it.code) == code && Strip(it.effectiveDate) == date && sourceMatch {
        count := count + 1;
      } else {
        kept := kept + [it];
      }
      i := i + 1;
    }
    assert items[..i] == items;
    FilterSatisfies(items, CodeDateIsNot(code, date, source));
  }

  /** Removal by (code, date, source) touches nothing outside that code and date. */
  lemma RemoveByCodeDateKeepsOthers(items: seq<Adjustment>, code: string, date: string, source: string, a: Adjustment)
    requires a in items
    requires Strip(a.code) != code || Strip(a.effectiveDate) != date || (source != "" && SourceOrManual(a) != source)
    ensures a in Filter(items, CodeDateIsNot(code, date, source))
  {
    FilterMember(items, CodeDateIsNot(code, date, source), a);
  }

  /** The sort key of `list_adjustments`: effective date, then creation time. */
  function SortKey(a: Adjustment): seq<string> {
    [a.effectiveDate, a.createdAt]
  }

  function CodeEquals(code: string): Adjustment -> bool {
    (a: Adjustment) => a.code == code
  }

  /**
   * `list_adjustments` (local branch): optionally restricted to one code
   * (an empty code means all), then stably sorted by (effective date,
   * creation time).
   */
  function ListAdjustments(items: seq<Adjustment>, code: string): seq<Adjustment> {
    var selected := if code == "" then items else Filter(items, CodeEquals(Strip(code)));
    SortBy(selected, SortKey)
  }

  /**
   * The listing is ordered by (effective date, creation time), holds exactly
   * the selected entries, and keeps the journal order among entries with
   * equal keys.
   */
  lemma ListAdjustmentsSpec(items: seq<Adjustment>, code: string, key: seq<string>)
    ensures SortedBy(ListAdjustments(items, code), SortKey)
    ensures code == "" ==> multiset(ListAdjustments(items, code)) == multiset(items)
    ensures code != "" ==> multiset(ListAdjustments(items, code)) == multiset(Filter(items, CodeEquals(Strip(code))))
    ensures forall a :: a in ListAdjustments(items, code) ==> code == "" || a.code == Strip(code)
    ensures var selected := if code == "" then items else Filter(items, CodeEquals(Strip(code)));
            Filter(ListAdjustments(items, code), KeyIs(SortKey, key)) == Filter(selected, KeyIs(SortKey, key))
  {
    var selected := if code == "" then items else Filter(items, CodeEquals(Strip(code)));
    SortBySorted(selected, SortKey);
    SortByPermutation(selected, SortKey);
    SortByStable(selected, SortKey, key);
    forall a | a in ListAdjustments(items, code)
      ensures code == "" || a.code == Strip(code)
    {
      assert a in multiset(selected);
      if code != "" {
        FilterMember(items, CodeEquals(Strip(code)), a);
      }
    }
  }

  /**
   * The stored journal document. `ensure_json_file` creates it as `{}`,
   * which reads as an empty item list.
   */
  class JournalFile {
    var doc: Doc

    constructor ()
      ensures doc == Doc([], None)
    {
      doc := Doc([], None);
    }

    /** `migrate_ui_edit_source` (local branch). */
    method Migrate(code: string, date: string, now: string) returns (changed: nat)
      modifies this
      ensures doc.items == Migrated(old(doc.items), Strip(code), Strip(date))
      ensures changed == |Filter(old(doc.items), NeedsRetagOf(Strip(code), Strip(date)))|
      ensures doc.updatedAt == if changed > 0 then Some(now) else old(doc.updatedAt)
    {
      var r, cnt := MigrateUpdater(doc, Strip(code), Strip(date), now);
      doc := r;
      changed := cnt;
    }

    /** `add_adjustment` (local branch): a rejected entry writes nothing. */
    method Add(kind: string, code: string, date: string, shares: real, price: real, cash: real,
               note: Option<string>, source: Option<string>, id: string, now: string) returns (r: Result<Doc>)
      modifies this
      ensures r.Ok? <==> AddAccepted(kind, code, date, shares, price, source)
      ensures r.Err? ==> doc == old(doc)
      ensures r.Ok? ==> r.value == doc &&
                        doc.items == old(doc.items) + [NewAdjustment(kind, code, date, shares, price, cash, note, source, id, now).value] &&
                        doc.updatedAt == Some(now)
    {
      var a := NewAdjustment(kind, code, date, shares, price, cash, note, source, id, now);
      if a.Err? {
        return Err(a.error);
      }
      doc := Doc(doc.items + [a.value], Some(now));
      r := Ok(doc);
    }

    /** `remove_adjustment` (local branch): an unknown id removes nothing. */
    method Remove(adjId: string, now: string) returns (r: Result<Doc>)
      modifies this
      ensures r.Err? <==> Strip(adjId) == ""
      ensures r.Err? ==> doc == old(doc)
      ensures r.Ok? ==> r.value == doc && doc.updatedAt == Some(now) &&
                        doc.items == Filter(old(doc.items), IdOtherThan(Strip(adjId)))
      ensures r.Ok? ==> forall k :: 0 <= k < |doc.items| ==> doc.items[k].id != Strip(adjId)
      ensures r.Ok? && (forall k :: 0 <= k < |old(doc.items)| ==> old(doc.items)[k].id != Strip(adjId)) ==>
                doc.items == old(doc.items)
    {
      var id := Strip(adjId);
      if id == "" {
        return Err("adj_id is required");
      }
      if forall k :: 0 <= k < |doc.items| ==> doc.items[k].id != id {
        FilterAll(doc.items, IdOtherThan(id));
      }
      FilterSatisfies(doc.items, IdOtherThan(id));
      doc := Doc(Filter(doc.items, IdOtherThan(id)), Some(now));
      r := Ok(doc);
    }

    /** `clear_adjustments` (local branch). */
    method Clear(now: string)
      modifies this
      ensures doc == Doc([], Some(now))
    {
      doc := Doc([], Some(now));
    }

    /** `remove_adjustments_by_code` (local branch). */
    method RemoveByCode(code: string, now: string) returns (r: Result<nat>)
      modifies this
      ensures r.Err? <==> Strip(code) == ""
      ensures r.Err? ==> doc == old(doc)
      ensures r.Ok? ==> doc.items == Filter(old(doc.items), CodeIsNot(Strip(code))) &&
                        doc.updatedAt == Some(now) &&
                        r.value + |doc.items| == |old(doc.items)|
    {
      var c := Strip(code);
      if c == "" {
        return Err("code is required");
      }
      var kept, cnt := RemoveByCodeUpdater(doc.items, c);
      doc := Doc(kept, Some(now));
      r := Ok(cnt);
    }

    /**
     * `remove_adjustments_by_code_date` (local branch). With source
     * "ui_edit" the backfill runs first over the same (code, date), so that
     * untagged editor entries are removed too.
     */
    method RemoveByCodeDate(code: string, date: string, source: Option<string>, now: string) returns (r: Result<nat>)
      modifies this
      ensures r.Err? <==> Strip(code) == "" || Strip(date) == ""
      ensures r.Err? ==> doc == old(doc)
      ensures r.Ok? ==>
        var src := Lower(Strip(source.GetOr("")));
        var before := if src == SOURCE_UI_EDIT then Migrated(old(doc.items), Strip(code), Strip(date)) else old(doc.items);
        doc.items == Filter(before, CodeDateIsNot(Strip(code), Strip(date), src)) &&
        doc.updatedAt == Some(now) &&
        r.value + |doc.items| == |old(doc.items)|
    {
      var c := Strip(code);
      var d := Strip(date);
      if c == "" {
        return Err("code is required");
      }
      if d == "" {
        return Err("effective_date is required");
      }
      var src := Lower(Strip(source.GetOr("")));
      if src == SOURCE_UI_EDIT {
        StripIdempotent(code);
        StripIdempotent(date);
        var _ := Migrate(c, d, now);
      }
      var kept, cnt := RemoveByCodeDateUpdater(doc.items, c, d, src);
      doc := Doc(kept, Some(now));
      r := Ok(cnt);
    }

    /** `list_adjustments` (local branch). */
    function List(code: string): seq<Adjustment>
      reads this
    {
      ListAdjustments(doc.items, code)
    }
  }
}
