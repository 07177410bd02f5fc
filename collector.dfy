/**
 * The intraday collector: a loop that, on every tick, picks the codes (the
 * `--codes` argument or else the watchlist), decides from the clock whether
 * to work at all, estimates every code in one batch, writes a closing
 * marker per code inside the close window and a sample per estimated code
 * during trading time. The clock readings, the watchlist document and the
 * estimate sources of each tick are parameters; sleeping, logging and the
 * status file are not modelled.
 */
module Collector {
  import opened Wrappers
  import opened Text
  import opened Seqs
  import opened Json
  import opened Market
  import opened Fund
  import opened Estimation
  import opened Watchlist
  import opened Intraday
  import opened Clock

  /** The command line: `--interval`, `--only-trading`, `--close-window-min`, `--once`, `--codes`. */
  datatype Args = Args(interval: int, onlyTrading: bool, closeWindowMin: int, once: bool, codes: string)

  /** The shortest pause between ticks, in seconds. */
  const MIN_INTERVAL: int := 3

  /** `max(3, args.interval)`. */
  function IntervalOf(a: Args): (r: int)
    ensures r >= MIN_INTERVAL && r >= a.interval
    ensures r == MIN_INTERVAL || r == a.interval
  {
    if a.interval > MIN_INTERVAL then a.interval else MIN_INTERVAL
  }

  /** `[c.strip() for c in parts if c.strip()]`. */
  function StrippedParts(parts: seq<string>): seq<string> {
    if parts == [] then []
    else
      var pre := StrippedParts(parts[..|parts| - 1]);
      var c := Strip(parts[|parts| - 1]);
      if c != "" then pre + [c] else pre
  }

  /** The codes of one tick: `--codes` when it is not blank, else the watchlist (`None`: it could not be read). */
  function CodesFor(a: Args, watch: Option<WatchDoc>): seq<string> {
    if Strip(a.codes) != "" then StrippedParts(Split(a.codes, ','))
    else if watch.Some? then Listed(watch.value.items)
    else []
  }

  /** Some part strips to `x`. */
  predicate StripsTo(parts: seq<string>, x: string) {
    exists k :: 0 <= k < |parts| && Strip(parts[k]) == x
  }

  lemma StripsToStep(parts: seq<string>, x: string)
    requires parts != []
    ensures StripsTo(parts, x) <==> StripsTo(parts[..|parts| - 1], x) || Strip(parts[|parts| - 1]) == x
  {
    var pre := parts[..|parts| - 1];
    if StripsTo(parts, x) {
      var k :| 0 <= k < |parts| && Strip(parts[k]) == x;
      if k < |pre| {
        assert Strip(pre[k]) == x;
      }
    }
    if StripsTo(pre, x) {
      var k :| 0 <= k < |pre| && Strip(pre[k]) == x;
      assert Strip(parts[k]) == x;
    }
  }

  lemma {:induction false} StrippedPartsSpec(parts: seq<string>)
    ensures CleanCodes(StrippedParts(parts))
    ensures forall x :: x in StrippedParts(parts) <==> x != "" && StripsTo(parts, x)
  {
    if parts != [] {
      var pre := parts[..|parts| - 1];
      StrippedPartsSpec(pre);
      StripIdempotent(parts[|parts| - 1]);
      forall x
        ensures x in StrippedParts(parts) <==> x != "" && StripsTo(parts, x)
      {
        StripsToStep(parts, x);
      }
    }
  }

  /**
   * Every code the collector works on is stripped and non-blank; with
   * `--codes` given they are its comma-separated parts, otherwise the
   * watchlist's codes, and nothing when the watchlist cannot be read.
   */
  lemma CodesForSpec(a: Args, watch: Option<WatchDoc>)
    ensures CleanCodes(CodesFor(a, watch))
    ensures Strip(a.codes) != "" ==>
              forall x :: x in CodesFor(a, watch) <==> x != "" && x in MapStrip(Split(a.codes, ','))
    ensures Strip(a.codes) == "" ==> CodesFor(a, watch) == if watch.Some? then Listed(watch.value.items) else []
  {
    if Strip(a.codes) != "" {
      var parts := Split(a.codes, ',');
      StrippedPartsSpec(parts);
      forall x
        ensures StripsTo(parts, x) <==> x in MapStrip(parts)
      {
        if x in MapStrip(parts) {
          var k :| 0 <= k < |parts| && MapStrip(parts)[k] == x;
        }
      }
    } else if watch.Some? {
      var l := Listed(watch.value.items);
      ListedSpec(watch.value.items);
      forall k | 0 <= k < |l|
        ensures l[k] != "" && Strip(l[k]) == l[k]
      {
        assert l[k] in l;
      }
    }
  }

  function MapStrip(parts: seq<string>): (r: seq<string>)
    ensures |r| == |parts| && forall k :: 0 <= k < |r| ==> r[k] == Strip(parts[k])
  {
    seq(|parts|, k requires 0 <= k < |parts| => Strip(parts[k]))
  }

  /** What one tick does. */
  datatype Phase = NoCodes | OutsideTrading | EstimateFailed | Worked

  /** The estimate sources of a tick (see `Estimation.EstimateManyOf`). */
  datatype Sources = Sources(gszOf: string -> Option<GszQuote>, profileOf: string -> FundProfile, data: Json,
                             stockQuote: string -> Option<StockQuote>, officialNavOf: string -> real, now: string,
                             parse: string -> Option<real>)

  /** One tick's readings: the clock, the day, the watchlist document and the estimate sources. */
  datatype Tick = Tick(weekday: int, dt: Time, ds: string, t: string, nowIso: string, watch: Option<WatchDoc>, src: Sources)

  function EstimatesOf(codes: seq<string>, src: Sources): Result<map<string, EstimateResult>> {
    EstimateManyOf(codes, src.gszOf, src.profileOf, src.data, src.stockQuote, src.officialNavOf, src.now, src.parse)
  }

  predicate InTrading(k: Tick) {
    CollectorTradingTime(k.weekday, k.dt.hour, k.dt.minute)
  }

  predicate InCloseWindow(a: Args, k: Tick) {
    IsCloseWindow(k.weekday, k.dt.hour, k.dt.minute, a.closeWindowMin)
  }

  /**
   * The tick's branch: no codes; only trading time requested and outside
   * both the trading time and the close window; the batch estimate failed;
   * or the work was done.
   */
  function PhaseOf(a: Args, k: Tick): Phase {
    var codes := CodesFor(a, k.watch);
    if codes == [] then NoCodes
    else if a.onlyTrading && !InTrading(k) && !InCloseWindow(a, k) then OutsideTrading
    else if EstimatesOf(codes, k.src).Err? then EstimateFailed
    else Worked
  }

  /** Whether the tick writes ordinary samples: always, unless only trading time was requested. */
  predicate Samples(a: Args, k: Tick) {
    !a.onlyTrading || InTrading(k)
  }

  /** `--once` returns after the first tick whatever happened: 1 when the estimate failed, else 0. */
  function ExitOf(a: Args, p: Phase): (r: Option<int>)
    ensures r.Some? <==> a.once
    ensures r == Some(1) <==> a.once && p == EstimateFailed
    ensures r.Some? ==> r.value == 0 || r.value == 1
  {
    if !a.once then None
    else if p == EstimateFailed then Some(1)
    else Some(0)
  }

  /**
   * Nothing is estimated or written outside the trading time and the close
   * window when only trading time was requested.
   */
  lemma OnlyTradingQuiet(a: Args, k: Tick)
    requires CodesFor(a, k.watch) != []
    requires a.onlyTrading && !InTrading(k) && !InCloseWindow(a, k)
    ensures PhaseOf(a, k) == OutsideTrading
  {
  }

  /** The samples a list of codes writes for the target `x`: one per occurrence of `x` that has an estimate. */
  function SampledFor(codes: seq<string>, est: map<string, EstimateResult>, x: string, t: string): seq<Point> {
    if codes == [] then []
    else
      var c := codes[|codes| - 1];
      SampledFor(codes[..|codes| - 1], est, x, t) +
      (if c == x && c in est then [NewPoint(t, None, Some(est[c]), None)] else [])
  }

  /** A target that is not among the codes gets no samples; a listed code with an estimate gets one per listing. */
  lemma {:induction false} SampledForSpec(codes: seq<string>, est: map<string, EstimateResult>, x: string, t: string)
    ensures x !in codes || x !in est ==> SampledFor(codes, est, x, t) == []
    ensures x in est ==> |SampledFor(codes, est, x, t)| == multiset(codes)[x]
  {
    if codes != [] {
      var pre := codes[..|codes| - 1];
      SampledForSpec(pre, est, x, t);
      assert codes == pre + [codes[|codes| - 1]];
    }
  }

  predicate CleanCodes(codes: seq<string>) {
    forall k :: 0 <= k < |codes| ==> codes[k] != "" && Strip(codes[k]) == codes[k]
  }

  /** The estimate a code's closing marker carries: `est_map.get(c)`. */
  function EstOf(est: map<string, EstimateResult>, c: string): Option<EstimateResult> {
    if c in est then Some(est[c]) else None
  }

  /** `intraday_append_close_marker` for one code on the day's document: a CLOSE point unless one is already in the window. */
  function MarkOne(doc: IntradayDoc, c: string, est: map<string, EstimateResult>, d: string, t: string, nowIso: string): IntradayDoc {
    if HasClose(SeriesOf(doc, c)) then doc
    else Recorded(doc, c, NewPoint(t, Some(CLOSE), EstOf(est, c), None), d, nowIso)
  }

  /** The day's document after the close-marker pass over `codes`, in order. */
  function Marked(doc: IntradayDoc, codes: seq<string>, est: map<string, EstimateResult>, d: string, t: string, nowIso: string): IntradayDoc {
    if codes == [] then doc
    else MarkOne(Marked(doc, codes[..|codes| - 1], est, d, t, nowIso), codes[|codes| - 1], est, d, t, nowIso)
  }

  /**
   * After the pass every code has a closing marker in its series, and every
   * target that is not a code keeps its series.
   */
  lemma {:induction false} MarkedSpec(doc: IntradayDoc, codes: seq<string>, est: map<string, EstimateResult>, d: string, t: string, nowIso: string)
    ensures forall c :: c in codes ==> HasClose(SeriesOf(Marked(doc, codes, est, d, t, nowIso), c))
    ensures forall x :: x !in codes ==> SeriesOf(Marked(doc, codes, est, d, t, nowIso), x) == SeriesOf(doc, x)
  {
    if codes != [] {
      var init := codes[..|codes| - 1];
      var c := codes[|codes| - 1];
      var before := Marked(doc, init, est, d, t, nowIso);
      MarkedSpec(doc, init, est, d, t, nowIso);
      var p := NewPoint(t, Some(CLOSE), EstOf(est, c), None);
      if !HasClose(SeriesOf(before, c)) {
        RecordedSpec(before, c, p, d, nowIso);
        CloseAppended(SeriesOf(before, c), p);
      }
      assert codes == init + [c];
    }
  }

  lemma MarkedStep(doc: IntradayDoc, codes: seq<string>, i: nat, est: map<string, EstimateResult>, d: string, t: string, nowIso: string)
    requires i < |codes|
    ensures Marked(doc, codes[..i + 1], est, d, t, nowIso) == MarkOne(Marked(doc, codes[..i], est, d, t, nowIso), codes[i], est, d, t, nowIso)
  {
    assert codes[..i + 1][..i] == codes[..i];
  }

  /** One code's turn in the closing pass: the day's document becomes `MarkOne` of the old one. */
  method CloseOne(store: IntradayStore, c: string, est: map<string, EstimateResult>, ds: string, t: string, nowIso: string)
    requires Strip(c) == c && c != ""
    modifies store
    ensures var d := DayOf(Some(ds), ds);
            store.DocAt(d) == MarkOne(old(store.DocAt(d)), c, est, d, t, nowIso)
    ensures var d := DayOf(Some(ds), ds);
            forall e :: e != d ==> store.DocAt(e) == old(store.DocAt(e))
  {
    DayOfSelf(ds);
    var e := if c in est then Some(est[c]) else None;
    var r := store.AppendCloseMarker(c, e, None, Some(ds), ds, t, nowIso);
    assert r.Ok?;
  }

  /**
   * The close-marker pass: the day's document becomes `Marked` of the old
   * one, so every code has a closing marker in the day's series, targets
   * that are not codes are untouched, and so are the other days.
   */
  method CloseMarkers(store: IntradayStore, codes: seq<string>, est: map<string, EstimateResult>, ds: string, t: string, nowIso: string)
    requires CleanCodes(codes)
    modifies store
    ensures var d := DayOf(Some(ds), ds);
            store.DocAt(d) == Marked(old(store.DocAt(d)), codes, est, d, t, nowIso)
    ensures var d := DayOf(Some(ds), ds);
            (forall c :: c in codes ==> HasClose(SeriesOf(store.DocAt(d), c))) &&
            (forall x :: x !in codes ==> SeriesOf(store.DocAt(d), x) == SeriesOf(old(store.DocAt(d)), x)) &&
            (forall e :: e != d ==> store.DocAt(e) == old(store.DocAt(e)))
  {
    var d := DayOf(Some(ds), ds);
    DayOfSelf(ds);
    ghost var doc0 := store.DocAt(d);
    var i := 0;
    while i < |codes|
      invariant 0 <= i <= |codes|
      invariant store.DocAt(d) == Marked(doc0, codes[..i], est, d, t, nowIso)
      invariant forall e :: e != d ==> store.DocAt(e) == old(store.DocAt(e))
    {
      CloseOne(store, codes[i], est, ds, t, nowIso);
      MarkedStep(doc0, codes, i, est, d, t, nowIso);
      i := i + 1;
    }
    assert codes[..i] == codes;
    MarkedSpec(doc0, codes, est, d, t, nowIso);
  }

  lemma SampledForStep(codes: seq<string>, i: nat, est: map<string, EstimateResult>, x: string, t: string)
    requires i < |codes|
    ensures SampledFor(codes[..i + 1], est, x, t) ==
              SampledFor(codes[..i], est, x, t) +
              (if codes[i] == x && codes[i] in est then [NewPoint(t, None, Some(est[codes[i]]), None)] else [])
  {
    assert codes[..i + 1][..i] == codes[..i];
  }

  /** Every target's series in `after` is its series in `before` followed by its samples. */
  ghost predicate Grown(before: IntradayDoc, after: IntradayDoc, codes: seq<string>, est: map<string, EstimateResult>, t: string) {
    forall x :: SeriesOf(after, x) == SeriesOf(before, x) + SampledFor(codes, est, x, t)
  }

  lemma GrownStep(before: IntradayDoc, mid: IntradayDoc, after: IntradayDoc, codes: seq<string>, i: nat,
                  est: map<string, EstimateResult>, t: string)
    requires i < |codes| && Grown(before, mid, codes[..i], est, t)
    requires codes[i] in est ==>
               forall x :: SeriesOf(after, x) ==
                             SeriesOf(mid, x) + (if x == codes[i] then [NewPoint(t, None, Some(est[codes[i]]), None)] else [])
    requires codes[i] !in est ==> after == mid
    ensures Grown(before, after, codes[..i + 1], est, t)
  {
    forall x
      ensures SeriesOf(after, x) == SeriesOf(before, x) + SampledFor(codes[..i + 1], est, x, t)
    {
      SampledForStep(codes, i, est, x, t);
    }
  }

  /** One sample: the point goes to the code's series on the day, nothing else changes. */
  method SampleOne(store: IntradayStore, c: string, e: EstimateResult, ds: string, t: string, nowIso: string)
    requires c != "" && Strip(c) == c
    modifies store
    ensures var d := DayOf(Some(ds), ds);
            (forall x :: SeriesOf(store.DocAt(d), x) ==
                           SeriesOf(old(store.DocAt(d)), x) + (if x == c then [NewPoint(t, None, Some(e), None)] else [])) &&
            (forall e' :: e' != d ==> store.DocAt(e') == old(store.DocAt(e')))
  {
    ghost var d := DayOf(Some(ds), ds);
    ghost var before := store.DocAt(d);
    var r := store.RecordPoint(c, Some(e), None, Some(ds), None, ds, t, nowIso);
    RecordedSpec(before, c, NewPoint(t, None, Some(e), None), d, nowIso);
  }

  /**
   * The sample pass: each code with an estimate gets one point carrying it;
   * every target's series grows by exactly its samples, and the other days
   * are untouched.
   */
  method SamplePoints(store: IntradayStore, codes: seq<string>, est: map<string, EstimateResult>, ds: string, t: string, nowIso: string)
      returns (ok: nat)
    requires CleanCodes(codes)
    modifies store
    ensures var d := DayOf(Some(ds), ds);
            Grown(old(store.DocAt(d)), store.DocAt(d), codes, est, t) &&
            (forall e :: e != d ==> store.DocAt(e) == old(store.DocAt(e)))
    ensures ok == |Filter(codes, InMap(est))|
  {
    ghost var d := DayOf(Some(ds), ds);
    ghost var start := store.DocAt(d);
    ok := 0;
    var i := 0;
    while i < |codes|
      invariant 0 <= i <= |codes|
      invariant Grown(start, store.DocAt(d), codes[..i], est, t)
      invariant forall e :: e != d ==> store.DocAt(e) == old(store.DocAt(e))
      invariant ok == |Filter(codes[..i], InMap(est))|
    {
      FilterPrefixStep(codes, i, InMap(est));
      var c := codes[i];
      ghost var mid := store.DocAt(d);
      if c in est {
        assert c != "" && Strip(c) == c;
        SampleOne(store, c, est[c], ds, t, nowIso);
        GrownStep(start, mid, store.DocAt(d), codes, i, est, t);
        ok := ok + 1;
      } else {
        GrownStep(start, mid, mid, codes, i, est, t);
      }
      i := i + 1;
    }
    assert codes[..i] == codes;
  }

  function InMap(est: map<string, EstimateResult>): string -> bool {
    c => c in est
  }

  /** The codes of a tick: `--codes`, or else `watchlist_list()` when the watchlist can be read. */
  method SelectCodes(a: Args, watch: Option<WatchDoc>) returns (codes: seq<string>)
    ensures codes == CodesFor(a, watch)
  {
    if Strip(a.codes) != "" {
      codes := StrippedParts(Split(a.codes, ','));
    } else if watch.Some? {
      var wl := new WatchlistFile();
      wl.doc := watch.value;
      codes := wl.List();
    } else {
      codes := [];
    }
  }

  /**
   * What the working part of a tick does to the day files, `before` to
   * `after`: only the codes on day `d` change. With the close-marker pass
   * the day's document is first `Marked`; with the sample pass every series
   * is then followed by its samples; with only the close-marker pass every
   * code ends with a closing marker.
   */
  ghost predicate WorkEffect(before: map<string, IntradayDoc>, after: map<string, IntradayDoc>, codes: seq<string>,
                             est: map<string, EstimateResult>, d: string, close: bool, samples: bool, t: string, nowIso: string) {
    var marked := if close then Marked(DocIn(before, d), codes, est, d, t, nowIso) else DocIn(before, d);
    (forall x :: x !in codes ==> SeriesOf(DocIn(after, d), x) == SeriesOf(DocIn(before, d), x)) &&
    (forall e :: e != d ==> DocIn(after, e) == DocIn(before, e)) &&
    (samples ==> forall x :: SeriesOf(DocIn(after, d), x) == SeriesOf(marked, x) + SampledFor(codes, est, x, t)) &&
    (!samples ==> DocIn(after, d) == marked) &&
    (close && !samples ==> forall c :: c in codes ==> HasClose(SeriesOf(DocIn(after, d), c)))
  }

  /**
   * What one tick does to the day files: a tick that does no work writes
   * nothing; a working tick runs the close-marker pass inside the close
   * window and the sample pass while sampling is allowed.
   */
  ghost predicate TickEffect(before: map<string, IntradayDoc>, after: map<string, IntradayDoc>, a: Args, k: Tick) {
    var codes := CodesFor(a, k.watch);
    (PhaseOf(a, k) != Worked ==> after == before) &&
    (PhaseOf(a, k) == Worked ==>
       WorkEffect(before, after, codes, EstimatesOf(codes, k.src).value, DayOf(Some(k.ds), k.ds),
                  InCloseWindow(a, k), Samples(a, k), k.t, k.nowIso))
  }

  /** The working part of a tick: the close-marker pass when `close`, then the sample pass when `samples`. */
  method WorkTick(store: IntradayStore, codes: seq<string>, est: map<string, EstimateResult>, ds: string,
                  close: bool, samples: bool, t: string, nowIso: string)
    requires CleanCodes(codes)
    modifies store
    ensures WorkEffect(old(store.days), store.days, codes, est, DayOf(Some(ds), ds), close, samples, t, nowIso)
  {
    ghost var d := DayOf(Some(ds), ds);
    ghost var start := store.days;
    if close {
      CloseMarkers(store, codes, est, ds, t, nowIso);
      forall e | e != d
        ensures DocIn(store.days, e) == DocIn(start, e)
      {
        assert store.DocAt(e) == DocIn(store.days, e);
      }
    }
    ghost var mid := store.days;
    assert DocIn(mid, d) == if close then Marked(DocIn(start, d), codes, est, d, t, nowIso) else DocIn(start, d);
    if samples {
      var ok := SamplePoints(store, codes, est, ds, t, nowIso);
      forall e | e != d
        ensures DocIn(store.days, e) == DocIn(mid, e)
      {
        assert store.DocAt(e) == DocIn(store.days, e);
      }
      forall x | x !in codes
        ensures SampledFor(codes, est, x, t) == []
      {
        SampledForSpec(codes, est, x, t);
      }
    }
  }

  /**
   * One tick of `main`'s loop. It returns the exit code when the loop ends
   * here, which happens exactly with `--once`, and changes the day files as
   * `TickEffect` says: the close-marker pass runs inside the close window
   * and the sample pass while sampling is allowed.
   */
  method RunTick(store: IntradayStore, a: Args, k: Tick) returns (exit: Option<int>)
    modifies store
    ensures exit == ExitOf(a, PhaseOf(a, k))
    ensures TickEffect(old(store.days), store.days, a, k)
  {
    var codes := SelectCodes(a, k.watch);
    CodesForSpec(a, k.watch);
    if codes == [] {
      return ExitOf(a, NoCodes);
    }
    var inTrading := CollectorTradingTime(k.weekday, k.dt.hour, k.dt.minute);
    var inClose := IsCloseWindow(k.weekday, k.dt.hour, k.dt.minute, a.closeWindowMin);
    if a.onlyTrading && !inTrading && !inClose {
      return ExitOf(a, OutsideTrading);
    }
    var est := EstimateMany(codes, k.src.gszOf, k.src.profileOf, k.src.data, k.src.stockQuote, k.src.officialNavOf,
                            k.src.now, k.src.parse);
    if est.Err? {
      return ExitOf(a, EstimateFailed);
    }
    assert PhaseOf(a, k) == Worked && est == EstimatesOf(CodesFor(a, k.watch), k.src);
    assert inClose == InCloseWindow(a, k) && (!a.onlyTrading || inTrading) == Samples(a, k);
    WorkTick(store, codes, est.value, k.ds, inClose, !a.onlyTrading || inTrading, k.t, k.nowIso);
    exit := ExitOf(a, Worked);
  }

  /** `states` are the day files before the ticks and after each one, each tick taking its state to the next. */
  ghost predicate Trace(states: seq<map<string, IntradayDoc>>, a: Args, ticks: seq<Tick>) {
    |states| == |ticks| + 1 &&
    forall j :: 0 <= j < |ticks| ==> TickEffect(states[j], states[j + 1], a, ticks[j])
  }

  /** A trace of the first `n` ticks, followed by one more tick's effect, is a trace of the first `n + 1`. */
  lemma TraceExtend(states: seq<map<string, IntradayDoc>>, a: Args, ticks: seq<Tick>, n: nat, next: map<string, IntradayDoc>)
    requires n < |ticks| && Trace(states, a, ticks[..n])
    requires TickEffect(states[n], next, a, ticks[n])
    ensures Trace(states + [next], a, ticks[..n + 1])
  {
    var s := states + [next];
    forall j | 0 <= j < n + 1
      ensures TickEffect(s[j], s[j + 1], a, ticks[..n + 1][j])
    {
      if j < n {
        assert TickEffect(states[j], states[j + 1], a, ticks[..n][j]);
      }
    }
  }

  /** A day that none of the first `n` ticks falls on keeps its document. */
  lemma {:induction false} TraceKeepsDay(states: seq<map<string, IntradayDoc>>, a: Args, ticks: seq<Tick>, n: nat, e: string)
    requires Trace(states, a, ticks) && n <= |ticks|
    requires forall j :: 0 <= j < n ==> e != DayOf(Some(ticks[j].ds), ticks[j].ds)
    ensures DocIn(states[n], e) == DocIn(states[0], e)
  {
    if n > 0 {
      TraceKeepsDay(states, a, ticks, n - 1, e);
      assert TickEffect(states[n - 1], states[n], a, ticks[n - 1]);
    }
  }

  /** A target that is none of the first `n` ticks' codes keeps its series on every day. */
  lemma {:induction false} TraceKeepsTarget(states: seq<map<string, IntradayDoc>>, a: Args, ticks: seq<Tick>, n: nat, e: string, x: string)
    requires Trace(states, a, ticks) && n <= |ticks|
    requires forall j :: 0 <= j < n ==> x !in CodesFor(a, ticks[j].watch)
    ensures SeriesOf(DocIn(states[n], e), x) == SeriesOf(DocIn(states[0], e), x)
  {
    if n > 0 {
      TraceKeepsTarget(states, a, ticks, n - 1, e, x);
      assert TickEffect(states[n - 1], states[n], a, ticks[n - 1]);
    }
  }

  /** When none of the first `n` ticks does any work, nothing is written. */
  lemma {:induction false} TraceQuiet(states: seq<map<string, IntradayDoc>>, a: Args, ticks: seq<Tick>, n: nat)
    requires Trace(states, a, ticks) && n <= |ticks|
    requires forall j :: 0 <= j < n ==> PhaseOf(a, ticks[j]) != Worked
    ensures states[n] == states[0]
  {
    if n > 0 {
      TraceQuiet(states, a, ticks, n - 1);
      assert TickEffect(states[n - 1], states[n], a, ticks[n - 1]);
    }
  }

  /**
   * `main`'s `while True` loop over the ticks that happen (the pauses of
   * `IntervalOf(a)` seconds between them are not modelled). With `--once`
   * exactly one tick runs and its exit code is returned; without it every
   * tick runs and the loop never returns.
   */
  method Run(store: IntradayStore, a: Args, ticks: seq<Tick>) returns (exit: Option<int>, ran: nat, ghost states: seq<map<string, IntradayDoc>>)
    modifies store
    ensures ran <= |ticks|
    ensures a.once && ticks != [] ==> ran == 1 && exit == ExitOf(a, PhaseOf(a, ticks[0]))
    ensures !a.once ==> ran == |ticks| && exit.None?
    ensures Trace(states, a, ticks[..ran]) && states[0] == old(store.days) && states[ran] == store.days
  {
    ran := 0;
    exit := None;
    states := [store.days];
    while ran < |ticks|
      invariant ran <= |ticks|
      invariant exit.None?
      invariant a.once ==> ran == 0
      invariant Trace(states, a, ticks[..ran]) && states[0] == old(store.days) && states[ran] == store.days
    {
      var r := RunTick(store, a, ticks[ran]);
      TraceExtend(states, a, ticks, ran, store.days);
      states := states + [store.days];
      ran := ran + 1;
      if r.Some? {
        return r, ran, states;
      }
    }
  }
}
