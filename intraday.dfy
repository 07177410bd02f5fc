/**
 * Intraday series: one document per day, `{"date": ..., "series": {target:
 * [point, ...]}, "updated_at": ...}`, where a target is a fund code or
 * `portfolio`. Recording appends one point to a target's list; a closing
 * point carries the marker `CLOSE`, written at most once per day and
 * target. The clock readings (`today`, the `HH:MM:SS` time and the ISO
 * time stamp) are parameters.
 */
module Intraday {
  import opened Wrappers
  import opened Text
  import opened Json
  import opened Estimation
  import opened Portfolio

  /** The portfolio totals a point copies from the realtime view. */
  datatype ViewFields = ViewFields(totalEstValue: real, totalEstPnl: real, totalEstPnlPct: real, coverage: real)

  /**
   * One point: the time, the marker when one was given, the estimate's
   * fields when an estimate was given and the view's totals when a view was
   * given.
   */
  datatype Point = Point(t: string, marker: Option<string>, estimate: Option<EstimateResult>, view: Option<ViewFields>)

  /** The value under `series[target]`: a list of points, or anything else (read as no points). */
  datatype Entry = Points(points: seq<Point>) | NotAList(value: Json)

  /**
   * The day's document. An absent key is `None`; `series` is also `None`
   * when it is not an object. A missing file, or one that is not an object,
   * reads as the empty document.
   */
  datatype IntradayDoc = IntradayDoc(date: Option<Json>, series: Option<map<string, Entry>>, updatedAt: Option<Json>)

  const EMPTY: IntradayDoc := IntradayDoc(None, None, None)

  /** Day `d`'s document in a map of day files: a missing file reads as the empty document. */
  function DocIn(days: map<string, IntradayDoc>, d: string): IntradayDoc {
    if d in days then days[d] else EMPTY
  }

  const CLOSE: string := "CLOSE"

  /** How many of the latest points the marker check looks at. */
  const MARKER_WINDOW: nat := 200

  /** The target under which the portfolio's points are kept. */
  const PORTFOLIO: string := "portfolio"

  /** `(date_str or today).strip()`. */
  function DayOf(dateStr: Option<string>, today: string): string {
    Strip(if dateStr.Some? && dateStr.value != "" then dateStr.value else today)
  }

  /**
   * Reading the day of a day already read changes nothing more, so the
   * marker check and the write that follows it use the same file.
   */
  lemma DayOfTwice(d: string, today: string)
    requires Strip(d) == d
    ensures DayOf(Some(DayOf(Some(d), today)), today) == DayOf(Some(d), today)
  {
    StripIdempotent(today);
  }

  /** With the date defaulting to itself, reading the day twice reads the same day. */
  lemma DayOfSelf(ds: string)
    ensures DayOf(Some(DayOf(Some(ds), ds)), ds) == DayOf(Some(ds), ds)
  {
    StripIdempotent(ds);
  }

  /** `_ensure_intraday_file`: each missing key gets its default, present ones stay. */
  function Ensure(doc: IntradayDoc, d: string, nowIso: string): IntradayDoc {
    IntradayDoc(if doc.date.Some? then doc.date else Some(Str(d)),
                if doc.series.Some? then doc.series else Some(map[]),
                if doc.updatedAt.Some? then doc.updatedAt else Some(Str(nowIso)))
  }

  /**
   * Ensuring fills in exactly the missing keys, leaves a complete document
   * alone, and so is idempotent.
   */
  lemma EnsureSpec(doc: IntradayDoc, d: string, nowIso: string, later: string)
    ensures var e := Ensure(doc, d, nowIso);
            e.date.Some? && e.series.Some? && e.updatedAt.Some? &&
            (doc.date.Some? ==> e.date == doc.date) &&
            (doc.series.Some? ==> e.series == doc.series) &&
            (doc.updatedAt.Some? ==> e.updatedAt == doc.updatedAt) &&
            (doc.date.None? ==> e.date == Some(Str(d))) &&
            (doc.series.None? ==> e.series == Some(map[])) &&
            (doc.updatedAt.None? ==> e.updatedAt == Some(Str(nowIso)))
    ensures Ensure(Ensure(doc, d, nowIso), d, later) == Ensure(doc, d, nowIso)
  {
  }

  /** `series.get(target, [])`, with anything but a list read as `[]`. */
  function SeriesOf(doc: IntradayDoc, target: string): seq<Point> {
    if doc.series.Some? && target in doc.series.value && doc.series.value[target].Points? then
      doc.series.value[target].points
    else []
  }

  /** The point `record_intraday_point` builds. */
  function NewPoint(t: string, marker: Option<string>, estimate: Option<EstimateResult>, view: Option<View>): Point {
    Point(t,
          if marker.Some? && marker.value != "" then marker else None,
          estimate,
          if view.Some? then Some(ViewFields(view.value.totalEstValue, view.value.totalEstPnl, view.value.totalEstPnlPct, view.value.coverage)) else None)
  }

  /** The day's document after appending `p` to the stripped target `target`'s series. */
  function Recorded(doc: IntradayDoc, target: string, p: Point, d: string, nowIso: string): IntradayDoc {
    var e := Ensure(doc, d, nowIso);
    IntradayDoc(e.date, Some(e.series.value[target := Points(SeriesOf(e, target) + [p])]), Some(Str(nowIso)))
  }

  /**
   * Recording appends exactly one point to the target's series and leaves
   * every other target's series as it was.
   */
  lemma RecordedSpec(doc: IntradayDoc, target: string, p: Point, d: string, nowIso: string)
    ensures SeriesOf(Recorded(doc, target, p, d, nowIso), target) == SeriesOf(doc, target) + [p]
    ensures forall other :: other != target ==> SeriesOf(Recorded(doc, target, p, d, nowIso), other) == SeriesOf(doc, other)
    ensures Recorded(doc, target, p, d, nowIso).updatedAt == Some(Str(nowIso))
  {
  }

  /** `pts[-n:]` for `n > 0`: the last `n` points, or all of them when there are fewer. */
  function Last(ps: seq<Point>, n: nat): (r: seq<Point>)
    ensures |r| == if |ps| > n then n else |ps|
    ensures r == ps[|ps| - |r|..]
  {
    if |ps| > n then ps[|ps| - n..] else ps
  }

  /** `intraday_has_close_marker` on a series: a `CLOSE` point among the last 200. */
  predicate HasClose(ps: seq<Point>) {
    exists k :: WindowStart(|ps|) <= k < |ps| && ps[k].marker == Some(CLOSE)
  }

  /** Where the last 200 of `n` points begin. */
  function WindowStart(n: nat): (s: nat)
    ensures s <= n
  {
    if n > MARKER_WINDOW then n - MARKER_WINDOW else 0
  }

  /** The marker check looks exactly at the last 200 points (all of them when there are fewer). */
  lemma HasCloseSpec(ps: seq<Point>)
    ensures HasClose(ps) <==> exists x :: x in Last(ps, MARKER_WINDOW) && x.marker == Some(CLOSE)
  {
    var l := Last(ps, MARKER_WINDOW);
    assert WindowStart(|ps|) == |ps| - |l|;
    if HasClose(ps) {
      var k :| WindowStart(|ps|) <= k < |ps| && ps[k].marker == Some(CLOSE);
      assert l[k - WindowStart(|ps|)] == ps[k];
    }
    if exists x :: x in l && x.marker == Some(CLOSE) {
      var x :| x in l && x.marker == Some(CLOSE);
      var j :| 0 <= j < |l| && l[j] == x;
      assert ps[WindowStart(|ps|) + j] == x;
    }
  }

  /** After a `CLOSE` point is appended the series has a closing marker; an earlier one stays seen while it is among the last 200. */
  lemma CloseAppended(ps: seq<Point>, p: Point)
    requires p.marker == Some(CLOSE)
    ensures HasClose(ps + [p])
  {
    var qs := ps + [p];
    assert qs[|qs| - 1].marker == Some(CLOSE);
  }

  /** A point without a `CLOSE` marker appended to a series without one leaves it without one. */
  lemma {:induction false} NoCloseStays(ps: seq<Point>, p: Point)
    requires !HasClose(ps) && p.marker != Some(CLOSE)
    ensures !HasClose(ps + [p])
  {
    var qs := ps + [p];
    forall k | WindowStart(|qs|) <= k < |qs|
      ensures qs[k].marker != Some(CLOSE)
    {
      if k < |ps| {
        assert qs[k] == ps[k];
      }
    }
  }

  /** A closing point is the only kind of point that turns the marker check on. */
  lemma RecordedClose(doc: IntradayDoc, target: string, p: Point, d: string, nowIso: string)
    ensures p.marker == Some(CLOSE) ==> HasClose(SeriesOf(Recorded(doc, target, p, d, nowIso), target))
    ensures p.marker != Some(CLOSE) && !HasClose(SeriesOf(doc, target)) ==>
              !HasClose(SeriesOf(Recorded(doc, target, p, d, nowIso), target))
  {
    RecordedSpec(doc, target, p, d, nowIso);
    if p.marker == Some(CLOSE) {
      CloseAppended(SeriesOf(doc, target), p);
    } else if !HasClose(SeriesOf(doc, target)) {
      NoCloseStays(SeriesOf(doc, target), p);
    }
  }

  /** `intraday_load_*_series`'s limit: the last `limit` points when `limit > 0`, else all. */
  function Limited(ps: seq<Point>, limit: int): seq<Point> {
    if limit > 0 then Last(ps, limit) else ps
  }

  /** The day files. */
  class IntradayStore {
    var days: map<string, IntradayDoc>

    constructor ()
      ensures days == map[]
    {
      days := map[];
    }

    /** The day's document as read: a missing file reads as the empty document. */
    function DocAt(d: string): IntradayDoc
      reads this
    {
      DocIn(days, d)
    }

    /** `get_intraday_series`: an empty target is refused. */
    function GetSeries(target: string, dateStr: Option<string>, today: string): (r: Result<seq<Point>>)
      reads this
      ensures r.Err? <==> Strip(target) == ""
      ensures r.Ok? ==> r.value == SeriesOf(DocAt(DayOf(dateStr, today)), Strip(target))
    {
      var t := Strip(target);
      if t == "" then Err("target is required")
      else
        var d := DayOf(dateStr, today);
        Ok(SeriesOf(Ensure(DocAt(d), d, ""), t))
    }

    /** `intraday_load_fund_series`: an empty code gives no points. */
    function LoadFundSeries(code: string, limit: int, dateStr: Option<string>, today: string): (r: seq<Point>)
      reads this
      ensures Strip(code) == "" ==> r == []
      ensures Strip(code) != "" ==>
                var ps := SeriesOf(DocAt(DayOf(dateStr, today)), Strip(code));
                (limit > 0 ==> |r| == (if |ps| > limit then limit else |ps|) && r == ps[|ps| - |r|..]) &&
                (limit <= 0 ==> r == ps)
    {
      var c := Strip(code);
      if c == "" then []
      else
        var ps := GetSeries(c, dateStr, today);
        StripIdempotent(code);
        Limited(ps.value, limit)
    }

    /** `intraday_load_portfolio_series`. */
    function LoadPortfolioSeries(limit: int, dateStr: Option<string>, today: string): (r: seq<Point>)
      reads this
      ensures var ps := SeriesOf(DocAt(DayOf(dateStr, today)), PORTFOLIO);
              (limit > 0 ==> |r| == (if |ps| > limit then limit else |ps|) && r == ps[|ps| - |r|..]) &&
              (limit <= 0 ==> r == ps)
    {
      assert Strip(PORTFOLIO) == PORTFOLIO by { StripNoop(PORTFOLIO); }
      Limited(GetSeries(PORTFOLIO, dateStr, today).value, limit)
    }

    /** `record_intraday_point`: an empty target is refused and nothing is written. */
    method RecordPoint(target: string, estimate: Option<EstimateResult>, view: Option<View>, dateStr: Option<string>,
                       marker: Option<string>, today: string, t: string, nowIso: string) returns (r: Result<IntradayDoc>)
      modifies this
      ensures r.Err? <==> Strip(target) == ""
      ensures r.Err? ==> days == old(days)
      ensures r.Ok? ==> var d := DayOf(dateStr, today);
                        days == old(days)[d := Recorded(old(DocAt(d)), Strip(target), NewPoint(t, marker, estimate, view), d, nowIso)] &&
                        r.value == days[d]
    {
      var tg := Strip(target);
      if tg == "" {
        return Err("target is required");
      }
      var d := DayOf(dateStr, today);
      var data := Ensure(DocAt(d), d, nowIso);
      var series := data.series.value;
      var points := SeriesOf(data, tg);
      var point := NewPoint(t, marker, estimate, view);
      points := points + [point];
      series := series[tg := Points(points)];
      data := IntradayDoc(data.date, Some(series), Some(Str(nowIso)));
      days := days[d := data];
      r := Ok(data);
    }

    /** `clear_intraday`: the day's document is replaced by one with no series. */
    method Clear(dateStr: Option<string>, today: string, nowIso: string)
      modifies this
      ensures var d := DayOf(dateStr, today);
              days == old(days)[d := IntradayDoc(Some(Str(d)), Some(map[]), Some(Str(nowIso)))] &&
              forall target :: SeriesOf(DocAt(d), target) == []
    {
      var d := DayOf(dateStr, today);
      var data := Ensure(EMPTY, d, nowIso);
      data := data.(series := Some(map[]), updatedAt := Some(Str(nowIso)));
      days := days[d := data];
    }

    /** `intraday_has_close_marker`: a reverse scan of the last 200 points. */
    method HasCloseMarker(target: string, dateStr: Option<string>, today: string) returns (r: Result<bool>)
      ensures r.Err? <==> Strip(target) == ""
      ensures r.Ok? ==> r.value == HasClose(SeriesOf(DocAt(DayOf(Some(DayOf(dateStr, today)), today)), Strip(target)))
    {
      var d := DayOf(dateStr, today);
      var pts := GetSeries(target, Some(d), today);
      if pts.Err? {
        return Err(pts.error);
      }
      var ps := pts.value;
      var tail := ps[WindowStart(|ps|)..];
      var i := |tail|;
      while i > 0
        invariant 0 <= i <= |tail|
        invariant forall k :: i <= k < |tail| ==> tail[k].marker != Some(CLOSE)
      {
        i := i - 1;
        if tail[i].marker == Some(CLOSE) {
          assert ps[|ps| - |tail| + i] == tail[i];
          return Ok(true);
        }
      }
      forall k | |ps| - |tail| <= k < |ps|
        ensures ps[k].marker != Some(CLOSE)
      {
        assert ps[k] == tail[k - (|ps| - |tail|)];
      }
      r := Ok(false);
    }

    /**
     * `intraday_append_close_marker`: when the series already has a closing
     * marker nothing is written and the result is empty (`None`); otherwise
     * one `CLOSE` point is recorded, after which the series has one.
     */
    method AppendCloseMarker(target: string, estimate: Option<EstimateResult>, view: Option<View>, dateStr: Option<string>,
                             today: string, t: string, nowIso: string) returns (r: Result<Option<IntradayDoc>>)
      modifies this
      ensures r.Err? <==> Strip(target) == ""
      ensures r.Err? || (r.Ok? && r.value.None?) ==> days == old(days)
      ensures var d := DayOf(Some(DayOf(dateStr, today)), today);
              r.Ok? ==> (r.value.None? <==> HasClose(SeriesOf(old(DocAt(d)), Strip(target))))
      ensures var d := DayOf(Some(DayOf(dateStr, today)), today);
              r.Ok? && r.value.Some? ==>
                days == old(days)[d := Recorded(old(DocAt(d)), Strip(target), NewPoint(t, Some(CLOSE), estimate, view), d, nowIso)] &&
                HasClose(SeriesOf(DocAt(d), Strip(target)))
    {
      var d := DayOf(dateStr, today);
      var has := HasCloseMarker(target, Some(d), today);
      if has.Err? {
        return Err(has.error);
      }
      StripIdempotent(if dateStr.Some? && dateStr.value != "" then dateStr.value else today);
      DayOfTwice(d, today);
      if has.value {
        return Ok(None);
      }
      ghost var d' := DayOf(Some(d), today);
      ghost var before := DocAt(d');
      var rec := RecordPoint(target, estimate, view, Some(d), Some(CLOSE), today, t, nowIso);
      RecordedClose(before, Strip(target), NewPoint(t, Some(CLOSE), estimate, view), d', nowIso);
      r := Ok(Some(rec.value));
    }
  }

  /** Two closing markers in a row write one: the second call finds the first and writes nothing. */
  method CloseMarkerTwice(store: IntradayStore, target: string, dateStr: Option<string>, today: string, t: string, nowIso: string)
    returns (first: Result<Option<IntradayDoc>>, second: Result<Option<IntradayDoc>>)
    modifies store
    ensures first.Ok? ==> second.Ok? && second.value.None?
  {
    first := store.AppendCloseMarker(target, None, None, dateStr, today, t, nowIso);
    second := store.AppendCloseMarker(target, None, None, dateStr, today, t, nowIso);
  }
}
