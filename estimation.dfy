/**
 * The valuation router: an intraday estimate for a fund, from the fund
 * estimate service (`gsz`), from the weighted change of its stock holdings,
 * or frozen at the last NAV, each tier with a fixed confidence.
 *
 * Every outside answer is a parameter: `gszOf` is the fund estimate service
 * per code, `profileOf` the profile lookup, `data` the holdings document,
 * `stockQuote` the stock quote source per code, `officialNavOf` the latest
 * official NAV per code (0.0 when there is none), `parse` Python's `float`
 * on a string and `now` the clock.
 */
module Estimation {
  import opened Wrappers
  import opened Text
  import opened Seqs
  import opened Json
  import opened Market
  import opened Holdings
  import opened Fund

  const METHOD_OFFICIAL_GSZ := "OFFICIAL_GSZ"
  const METHOD_ETF_IIV := "ETF_IIV"
  const METHOD_HOLDING_WEIGHTED := "HOLDING_WEIGHTED"
  const METHOD_FROZEN_NAV := "FROZEN_NAV"

  /** A fund estimate service answer: estimated NAV, estimated change in percent, its time and the last NAV. */
  datatype GszQuote = GszQuote(code: string, name: string, gsz: real, gszzl: real, gztime: string, nav: Option<real>)

  /**
   * The parts of an estimate's warning text: low holdings coverage (with
   * the coverage in percent), the date of the holdings, or the fallback to
   * the last NAV.
   */
  datatype Note = LowCoverage(pct: real) | AsOf(date: string) | FrozenFallback

  datatype EstimateResult = EstimateResult(
    code: string,
    name: string,
    estNav: real,
    estChangePct: real,
    estMethod: string,
    confidence: real,
    estTime: string,
    warning: seq<Note>,
    suggestedRefreshSec: int,
    coverage: Option<real>)

  // ---------------------------------------------------------------------
  // The estimate-service tier

  /** The quote's last NAV when it is positive. */
  function PositiveNav(q: Option<GszQuote>): real {
    if q.Some? && q.value.nav.Some? && q.value.nav.value > 0.0 then q.value.nav.value else 0.0
  }

  /** `_estimate_from_gsz`: the service's estimate when positive, else the last NAV frozen. */
  function EstimateFromGsz(code: string, name: string, q: Option<GszQuote>, estMethod: string, now: string): EstimateResult {
    if q.Some? && q.value.gsz > 0.0 then
      EstimateResult(code, name, q.value.gsz, q.value.gszzl, estMethod, 0.9, q.value.gztime, [], 10, None)
    else
      EstimateResult(code, name, PositiveNav(q), 0.0, METHOD_FROZEN_NAV, 0.3, if q.Some? then q.value.gztime else now,
                     [FrozenFallback], 60, None)
  }

  /**
   * A positive service estimate is taken as is, with the caller's method,
   * confidence 0.9 and a 10 s refresh; otherwise the estimate is the last
   * NAV when positive and 0 otherwise, unchanged, with confidence 0.3, a
   * 60 s refresh and a warning.
   */
  lemma EstimateFromGszSpec(code: string, name: string, q: Option<GszQuote>, estMethod: string, now: string)
    ensures var r := EstimateFromGsz(code, name, q, estMethod, now);
            r.code == code && r.name == name && r.coverage == None &&
            (q.Some? && q.value.gsz > 0.0 ==>
               r.estNav == q.value.gsz && r.estChangePct == q.value.gszzl && r.estMethod == estMethod &&
               r.confidence == 0.9 && r.suggestedRefreshSec == 10 && r.warning == [] && r.estTime == q.value.gztime) &&
            (!(q.Some? && q.value.gsz > 0.0) ==>
               r.estMethod == METHOD_FROZEN_NAV && r.estChangePct == 0.0 && r.confidence == 0.3 &&
               r.suggestedRefreshSec == 60 && r.warning != [] && r.estNav >= 0.0 &&
               (r.estNav > 0.0 <==> q.Some? && q.value.nav.Some? && q.value.nav.value > 0.0) &&
               (r.estNav > 0.0 ==> r.estNav == q.value.nav.value))
  {
  }

  // ---------------------------------------------------------------------
  // The holdings-weighted tier

  const BAD_WEIGHT := "could not convert weight to float"

  /** `float(it.get("weight_pct") or it.get("weight") or 0.0)`; `None` where `float` raises. */
  function WeightOf(f: map<string, Json>, parse: string -> Option<real>): Option<real> {
    ToFloat(Or(Or(Get(f, "weight_pct", Null), Get(f, "weight", Null)), Num(0.0, "0.0")), parse)
  }

  /** `normalize_stock_code(it.get("code", ""))`. */
  function StockCodeOf(f: map<string, Json>): string {
    StripPrefix(StrOf(Or(Get(f, "code", Str("")), Str(""))))
  }

  /**
   * How the weighting loop reads one holdings entry: skipped (not an object,
   * or a weight that is not positive), failing (a weight `float` cannot
   * read), or counted with its positive weight and normalised stock code.
   */
  datatype Entry = Skipped | Unreadable | Counted(weight: real, stock: string)

  function EntryOf(it: Json, parse: string -> Option<real>): (e: Entry)
    ensures e.Counted? ==> e.weight > 0.0
  {
    if !it.Obj? then Skipped
    else
      var w := WeightOf(it.fields, parse);
      if w.None? then Unreadable
      else if w.value <= 0.0 then Skipped
      else Counted(w.value, StockCodeOf(it.fields))
  }

  /** The loop's reading of every entry. */
  function Entries(items: seq<Json>, parse: string -> Option<real>): (es: seq<Entry>)
    ensures |es| == |items|
  {
    seq(|items|, k requires 0 <= k < |items| => EntryOf(items[k], parse))
  }

  /** Every counted entry has a positive weight, as `EntryOf` reads them. */
  predicate PositiveWeights(es: seq<Entry>) {
    forall k :: 0 <= k < |es| && es[k].Counted? ==> es[k].weight > 0.0
  }

  lemma EntriesPositive(items: seq<Json>, parse: string -> Option<real>)
    ensures PositiveWeights(Entries(items, parse))
  {
    var es := Entries(items, parse);
    forall k | 0 <= k < |es| && es[k].Counted?
      ensures es[k].weight > 0.0
    {
      assert es[k] == EntryOf(items[k], parse);
    }
  }

  /** The running sums of `_estimate_by_holdings`: total, covered and change-weighted weight. */
  datatype Sums = Sums(total: real, covered: real, weighted: real)

  /** A counted entry whose stock is quoted. */
  predicate Covers(e: Entry, quotes: map<string, StockQuote>) {
    e.Counted? && e.stock != "" && e.stock in quotes
  }

  /** An entry's contribution to the weighted change: its weight times its stock's change. */
  function Contribution(w: real, change: real): real {
    w * change
  }

  /** One entry added to the sums. */
  function Add(s: Sums, e: Entry, quotes: map<string, StockQuote>): Result<Sums> {
    match e
    case Skipped => Ok(s)
    case Unreadable => Err(BAD_WEIGHT)
    case Counted(w, stock) =>
      if Covers(e, quotes) then Ok(Sums(s.total + w, s.covered + w, s.weighted + Contribution(w, quotes[stock].changePct)))
      else Ok(Sums(s.total + w, s.covered, s.weighted))
  }

  /** A covered entry adds its weight to the total and covered weight, and its weighted change. */
  lemma AddCovered(s: Sums, e: Entry, quotes: map<string, StockQuote>)
    requires Covers(e, quotes)
    ensures Add(s, e, quotes) == Ok(Sums(s.total + e.weight, s.covered + e.weight, s.weighted + Contribution(e.weight, quotes[e.stock].changePct)))
  {
  }

  /** The sums over the entries read; an unreadable weight makes the whole computation fail. */
  function SumsOf(es: seq<Entry>, quotes: map<string, StockQuote>): Result<Sums> {
    if es == [] then Ok(Sums(0.0, 0.0, 0.0))
    else
      var pre := SumsOf(es[..|es| - 1], quotes);
      if pre.Err? then pre else Add(pre.value, es[|es| - 1], quotes)
  }

  /** The sums fail exactly when some entry's weight is unreadable. */
  lemma {:induction false} SumsErr(es: seq<Entry>, quotes: map<string, StockQuote>)
    ensures SumsOf(es, quotes).Err? <==> Unreadable in es
  {
    if es != [] {
      var n := |es| - 1;
      SumsErr(es[..n], quotes);
      assert es == es[..n] + [es[n]];
    }
  }

  /** A prefix of entries read with positive weights has positive weights. */
  lemma PositivePrefix(es: seq<Entry>, n: nat)
    requires PositiveWeights(es) && n <= |es|
    ensures PositiveWeights(es[..n])
  {
    forall k | 0 <= k < n
      ensures es[..n][k] == es[k]
    {
    }
  }

  /** Adding a positive weight keeps the covered weight within `[0, total]`. */
  lemma AddBounds(s: Sums, e: Entry, quotes: map<string, StockQuote>)
    requires 0.0 <= s.covered <= s.total && (e.Counted? ==> e.weight > 0.0)
    ensures Add(s, e, quotes).Ok? ==> 0.0 <= Add(s, e, quotes).value.covered <= Add(s, e, quotes).value.total
  {
  }

  /** The covered weight is never negative and never more than the total weight. */
  lemma {:induction false} SumsBounds(es: seq<Entry>, quotes: map<string, StockQuote>)
    requires PositiveWeights(es)
    ensures SumsOf(es, quotes).Ok? ==> 0.0 <= SumsOf(es, quotes).value.covered <= SumsOf(es, quotes).value.total
  {
    if es != [] {
      var n := |es| - 1;
      PositivePrefix(es, n);
      SumsBounds(es[..n], quotes);
      var pre := SumsOf(es[..n], quotes);
      if pre.Ok? {
        AddBounds(pre.value, es[n], quotes);
      }
    }
  }

  /** Every quote's change lies in `[lo, hi]`. */
  predicate ChangesWithin(quotes: map<string, StockQuote>, lo: real, hi: real) {
    forall c :: c in quotes ==> lo <= quotes[c].changePct <= hi
  }

  /** Adding `w * x` with `x` in `[lo, hi]` keeps a sum within `lo` and `hi` times the covered weight. */
  lemma AddWithin(c: real, ws: real, w: real, x: real, lo: real, hi: real)
    requires lo * c <= ws <= hi * c && w >= 0.0 && lo <= x <= hi
    ensures lo * (c + w) <= ws + Contribution(w, x) <= hi * (c + w)
  {
    assert w * lo <= w * x <= w * hi;
    assert lo * (c + w) == lo * c + w * lo;
    assert hi * (c + w) == hi * c + w * hi;
  }

  /** The weighted sum lies between `lo` and `hi` times the covered weight. */
  predicate Within(s: Sums, lo: real, hi: real) {
    lo * s.covered <= s.weighted <= hi * s.covered
  }

  /** Adding an entry keeps the weighted sum between `lo` and `hi` times the covered weight. */
  lemma AddWeighted(s: Sums, e: Entry, quotes: map<string, StockQuote>, lo: real, hi: real)
    requires ChangesWithin(quotes, lo, hi) && (e.Counted? ==> e.weight > 0.0)
    requires Within(s, lo, hi)
    ensures Add(s, e, quotes).Ok? ==> Within(Add(s, e, quotes).value, lo, hi)
  {
    if Covers(e, quotes) {
      AddWithin(s.covered, s.weighted, e.weight, quotes[e.stock].changePct, lo, hi);
    }
  }

  /** The weighted sum lies between `lo` and `hi` times the covered weight. */
  lemma {:induction false} SumsWeighted(es: seq<Entry>, quotes: map<string, StockQuote>, lo: real, hi: real)
    requires ChangesWithin(quotes, lo, hi) && PositiveWeights(es)
    ensures SumsOf(es, quotes).Ok? ==> Within(SumsOf(es, quotes).value, lo, hi)
  {
    if es != [] {
      var n := |es| - 1;
      PositivePrefix(es, n);
      SumsWeighted(es[..n], quotes, lo, hi);
      var pre := SumsOf(es[..n], quotes);
      if pre.Ok? {
        AddWeighted(pre.value, es[n], quotes, lo, hi);
      }
    }
  }

  /** When every entry counted is quoted, the covered weight is the whole weight. */
  lemma {:induction false} SumsFull(es: seq<Entry>, quotes: map<string, StockQuote>)
    requires forall k :: 0 <= k < |es| && es[k].Counted? ==> Covers(es[k], quotes)
    ensures SumsOf(es, quotes).Ok? ==> SumsOf(es, quotes).value.covered == SumsOf(es, quotes).value.total
  {
    if es != [] {
      var n := |es| - 1;
      assert forall k :: 0 <= k < n && es[..n][k].Counted? ==> Covers(es[..n][k], quotes) by {
        forall k | 0 <= k < n
          ensures es[..n][k] == es[k]
        {
        }
      }
      SumsFull(es[..n], quotes);
    }
  }

  /** Two quote maps that agree on the non-blank stocks of the counted entries. */
  predicate AgreeOn(es: seq<Entry>, q1: map<string, StockQuote>, q2: map<string, StockQuote>) {
    forall k :: 0 <= k < |es| && es[k].Counted? && es[k].stock != "" ==>
      (es[k].stock in q1 <==> es[k].stock in q2) && (es[k].stock in q1 ==> q1[es[k].stock] == q2[es[k].stock])
  }

  /** Adding an entry reads only that entry's own quote. */
  lemma AddLocal(s: Sums, e: Entry, q1: map<string, StockQuote>, q2: map<string, StockQuote>)
    requires e.Counted? && e.stock != "" ==> (e.stock in q1 <==> e.stock in q2) && (e.stock in q1 ==> q1[e.stock] == q2[e.stock])
    ensures Add(s, e, q1) == Add(s, e, q2)
  {
    if Covers(e, q1) {
      AddCovered(s, e, q1);
      AddCovered(s, e, q2);
    }
  }

  /** The sums read the quotes of the entries' own stocks only. */
  lemma {:induction false} SumsLocal(es: seq<Entry>, q1: map<string, StockQuote>, q2: map<string, StockQuote>)
    requires AgreeOn(es, q1, q2)
    ensures SumsOf(es, q1) == SumsOf(es, q2)
  {
    if es != [] {
      var n := |es| - 1;
      assert AgreeOn(es[..n], q1, q2) by {
        forall k | 0 <= k < n
          ensures es[..n][k] == es[k]
        {
        }
      }
      SumsLocal(es[..n], q1, q2);
      var pre := SumsOf(es[..n], q1);
      if pre.Ok? {
        AddLocal(pre.value, es[n], q1, q2);
      }
    }
  }

  /** Once a prefix of the entries fails, the whole list fails. */
  lemma {:induction false} SumsErrSticky(es: seq<Entry>, i: nat, quotes: map<string, StockQuote>)
    requires i <= |es| && SumsOf(es[..i], quotes).Err?
    ensures SumsOf(es, quotes) == SumsOf(es[..i], quotes)
    decreases |es| - i
  {
    if i < |es| {
      assert es[..i + 1][..i] == es[..i];
      SumsErrSticky(es, i + 1, quotes);
    } else {
      assert es[..i] == es;
    }
  }

  /** One more entry of the loop. */
  lemma SumsStep(es: seq<Entry>, i: nat, quotes: map<string, StockQuote>)
    requires i < |es| && SumsOf(es[..i], quotes).Ok?
    ensures SumsOf(es[..i + 1], quotes) == Add(SumsOf(es[..i], quotes).value, es[i], quotes)
  {
    assert es[..i + 1][..i] == es[..i];
    assert es[..i + 1][i] == es[i];
  }

  /** The confidence tier of a coverage in percent. */
  function ConfidenceOf(coverage: real): real {
    if coverage >= 80.0 then 0.75 else if coverage >= 50.0 then 0.55 else 0.35
  }

  /** The holdings list of a loaded entry; a non-object entry has none. */
  function HoldingsList(obj: Json): Json {
    if obj.Obj? then Get(obj.fields, "holdings", Arr([])) else Arr([])
  }

  /** `str(holdings_obj.get("as_of") or "").strip()`. */
  function AsOfText(obj: Json): string {
    if obj.Obj? then Strip(StrOf(Or(Get(obj.fields, "as_of", Null), Str("")))) else ""
  }

  /** The warning parts: low coverage under 60 %, then the holdings date when known. */
  function NotesOf(coverage: real, asOf: string): seq<Note> {
    (if coverage < 60.0 then [LowCoverage(coverage)] else []) + (if asOf != "" then [AsOf(asOf)] else [])
  }

  /**
   * The entries the weighting loop visits: a list's entries; a string or
   * an object yields no entry objects, so none.
   */
  function LoopItems(h: Json): seq<Json> {
    if h.Arr? then h.items else []
  }

  /** The NAV the holdings estimate starts from: the quote's positive NAV, else the official NAV. */
  function BaseNav(q: Option<GszQuote>, officialNav: real): real {
    if PositiveNav(q) > 0.0 then PositiveNav(q) else officialNav
  }

  /** The entries the weighting loop reads from a loaded holdings object. */
  function EntriesOf(obj: Json, parse: string -> Option<real>): seq<Entry> {
    Entries(LoopItems(HoldingsList(obj)), parse)
  }

  /** The weight-averaged change `weighted / total`. */
  function AverageChange(s: Sums): real
    requires s.total != 0.0
  {
    s.weighted / s.total
  }

  /** The covered share of the weight, in percent. */
  function CoveragePct(s: Sums): real
    requires s.total != 0.0
  {
    s.covered / s.total * 100.0
  }

  /** A NAV moved by a change in percent. */
  function ApplyChange(base: real, pct: real): real {
    base * (1.0 + pct / 100.0)
  }

  /** The estimate from the sums, when they have positive total and covered weight and the base NAV is positive. */
  function FromSums(code: string, name: string, s: Sums, base: real, asOf: string, now: string): Option<EstimateResult> {
    if s.total <= 0.0 || s.covered <= 0.0 || base <= 0.0 then None
    else
      var pct := AverageChange(s);
      var coverage := CoveragePct(s);
      Some(EstimateResult(code, name, ApplyChange(base, pct), pct, METHOD_HOLDING_WEIGHTED,
                          ConfidenceOf(coverage), now, NotesOf(coverage, asOf), 10, Some(coverage)))
  }

  /**
   * `_estimate_by_holdings`: `None` without holdings, without positive or
   * covered weight, or without a positive base NAV; a number or boolean
   * holdings value cannot be iterated and fails, as does an unreadable weight.
   */
  function ByHoldings(code: string, name: string, obj: Json, quotes: map<string, StockQuote>, q: Option<GszQuote>,
                      officialNav: real, now: string, parse: string -> Option<real>): Result<Option<EstimateResult>> {
    var h := HoldingsList(obj);
    if !Truthy(h) then Ok(None)
    else if h.Num? || h.Bool? then Err("holdings are not iterable")
    else
      var s := SumsOf(EntriesOf(obj, parse), quotes);
      if s.Err? then Err(s.error)
      else Ok(FromSums(code, name, s.value, BaseNav(q, officialNav), AsOfText(obj), now))
  }

  /** `c / t * 100` lies in `(0, 100]` when `0 < c <= t`. */
  lemma CoverageRange(c: real, t: real)
    requires 0.0 < c <= t
    ensures 0.0 < c / t * 100.0 <= 100.0
  {
    assert c / t <= 1.0;
  }

  /**
   * A weighted sum between `lo` and `hi` times a covered weight no larger
   * than the total gives an average change in `[lo, hi]`.
   */
  lemma AverageWithin(s: Sums, lo: real, hi: real)
    requires 0.0 < s.covered <= s.total && lo <= 0.0 <= hi && Within(s, lo, hi)
    ensures lo <= AverageChange(s) <= hi
  {
    var w, c, t := s.weighted, s.covered, s.total;
    assert hi * c <= hi * t by { ScaleLe(hi, c, t); }
    assert lo * t <= lo * c by { ScaleLe(-lo, c, t); }
    QuotientAtMost(w, hi, t);
    QuotientAtLeast(w, lo, t);
  }

  /** A non-negative factor keeps an order. */
  lemma ScaleLe(k: real, x: real, y: real)
    requires 0.0 <= k && x <= y
    ensures k * x <= k * y
  {
    assert k * y - k * x == k * (y - x);
  }

  lemma QuotientAtMost(w: real, b: real, t: real)
    requires 0.0 < t && w <= b * t
    ensures w / t <= b
  {
    var a := w / t;
    assert a * t == w;
    if a > b {
      assert (a - b) * t > 0.0;
      assert a * t - b * t == (a - b) * t;
    }
  }

  lemma QuotientAtLeast(w: real, b: real, t: real)
    requires 0.0 < t && b * t <= w
    ensures b <= w / t
  {
    var a := w / t;
    assert a * t == w;
    if a < b {
      assert (b - a) * t > 0.0;
      assert b * t - a * t == (b - a) * t;
    }
  }

  /**
   * An estimate from sums whose covered weight is at most the total applies
   * the weighted change to the base NAV, with coverage in `(0, 100]`, the
   * confidence tier of that coverage, and a low-coverage warning exactly
   * below 60 %.
   */
  lemma FromSumsSpec(code: string, name: string, s: Sums, base: real, asOf: string, now: string)
    requires s.covered <= s.total
    ensures var r := FromSums(code, name, s, base, asOf, now);
            (r.Some? <==> s.total > 0.0 && s.covered > 0.0 && base > 0.0) &&
            (r.Some? ==>
               var e := r.value;
               var pct := s.weighted / s.total;
               e.code == code && e.name == name && e.estMethod == METHOD_HOLDING_WEIGHTED && e.estTime == now &&
               e.estChangePct == pct && e.estNav == base * (1.0 + pct / 100.0) &&
               e.coverage.Some? && 0.0 < e.coverage.value <= 100.0 &&
               e.confidence == ConfidenceOf(e.coverage.value) &&
               (LowCoverage(e.coverage.value) in e.warning <==> e.coverage.value < 60.0))
  {
    if s.total > 0.0 && s.covered > 0.0 {
      CoverageRange(s.covered, s.total);
    }
  }

  /**
   * A holdings estimate fails exactly for holdings that cannot be iterated
   * or carry an unreadable weight, and exists exactly when the holdings
   * are a non-empty list whose sums have positive total and covered weight
   * and the base NAV is positive.
   */
  lemma ByHoldingsSpec(code: string, name: string, obj: Json, quotes: map<string, StockQuote>, q: Option<GszQuote>,
                       officialNav: real, now: string, parse: string -> Option<real>)
    ensures var r := ByHoldings(code, name, obj, quotes, q, officialNav, now, parse);
            var h := HoldingsList(obj);
            var es := EntriesOf(obj, parse);
            var s := SumsOf(es, quotes);
            (r.Err? <==> Truthy(h) && (h.Num? || h.Bool? || Unreadable in es)) &&
            (r.Ok? && r.value.Some? <==>
               Truthy(h) && h.Arr? && s.Ok? && s.value.total > 0.0 && s.value.covered > 0.0 && BaseNav(q, officialNav) > 0.0) &&
            (r.Ok? && r.value.Some? ==> r.value == FromSums(code, name, s.value, BaseNav(q, officialNav), AsOfText(obj), now))
  {
    SumsErr(EntriesOf(obj, parse), quotes);
  }

  /**
   * When every quoted change lies in `[lo, hi]` around zero, so does the
   * estimated change: uncovered weight only pulls it toward zero.
   */
  lemma ByHoldingsChangeWithin(code: string, name: string, obj: Json, quotes: map<string, StockQuote>, q: Option<GszQuote>,
                               officialNav: real, now: string, parse: string -> Option<real>, lo: real, hi: real)
    requires ChangesWithin(quotes, lo, hi) && lo <= 0.0 <= hi
    requires ByHoldings(code, name, obj, quotes, q, officialNav, now, parse).Ok?
    requires ByHoldings(code, name, obj, quotes, q, officialNav, now, parse).value.Some?
    ensures lo <= ByHoldings(code, name, obj, quotes, q, officialNav, now, parse).value.value.estChangePct <= hi
  {
    var es := EntriesOf(obj, parse);
    EntriesPositive(LoopItems(HoldingsList(obj)), parse);
    SumsBounds(es, quotes);
    SumsWeighted(es, quotes, lo, hi);
    ByHoldingsSpec(code, name, obj, quotes, q, officialNav, now, parse);
    AverageWithin(SumsOf(es, quotes).value, lo, hi);
  }

  /** With every counted stock quoted, the coverage is 100 % and the confidence the top tier. */
  lemma ByHoldingsFullCoverage(code: string, name: string, obj: Json, quotes: map<string, StockQuote>, q: Option<GszQuote>,
                               officialNav: real, now: string, parse: string -> Option<real>)
    requires var es := EntriesOf(obj, parse); forall k :: 0 <= k < |es| && es[k].Counted? ==> Covers(es[k], quotes)
    requires ByHoldings(code, name, obj, quotes, q, officialNav, now, parse).Ok?
    requires ByHoldings(code, name, obj, quotes, q, officialNav, now, parse).value.Some?
    ensures var e := ByHoldings(code, name, obj, quotes, q, officialNav, now, parse).value.value;
            e.coverage == Some(100.0) && e.confidence == 0.75
  {
    var es := EntriesOf(obj, parse);
    SumsFull(es, quotes);
    ByHoldingsSpec(code, name, obj, quotes, q, officialNav, now, parse);
    FullCoverage(SumsOf(es, quotes).value);
  }

  /** Covering the whole weight is 100 % coverage. */
  lemma FullCoverage(s: Sums)
    requires s.covered == s.total && s.total > 0.0
    ensures CoveragePct(s) == 100.0
  {
    assert s.covered / s.total == 1.0;
  }

  /** One pass of the weighting loop: the entry's weight is read and, when positive, added to the sums. */
  method AddEntry(it: Json, s: Sums, quotes: map<string, StockQuote>, parse: string -> Option<real>) returns (r: Result<Sums>)
    ensures r == Add(s, EntryOf(it, parse), quotes)
  {
    if !it.Obj? {
      return Ok(s);
    }
    var w := WeightOf(it.fields, parse);
    if w.None? {
      return Err(BAD_WEIGHT);
    }
    if w.value <= 0.0 {
      return Ok(s);
    }
    var total, covered, weighted := s.total + w.value, s.covered, s.weighted;
    var scode := StockCodeOf(it.fields);
    assert EntryOf(it, parse) == Counted(w.value, scode);
    if scode != "" && scode in quotes {
      covered := covered + w.value;
      weighted := weighted + w.value * quotes[scode].changePct;
      AddCovered(s, Counted(w.value, scode), quotes);
    }
    r := Ok(Sums(total, covered, weighted));
    assert r == Add(s, Counted(w.value, scode), quotes);
  }

  /** The weighting loop of `_estimate_by_holdings`: the running sums, or the failure of an unreadable weight. */
  method Accumulate(items: seq<Json>, quotes: map<string, StockQuote>, parse: string -> Option<real>) returns (r: Result<Sums>)
    ensures r == SumsOf(Entries(items, parse), quotes)
  {
    var es := Entries(items, parse);
    var sums := Sums(0.0, 0.0, 0.0);
    var i := 0;
    while i < |items|
      invariant 0 <= i <= |items|
      invariant SumsOf(es[..i], quotes) == Ok(sums)
    {
      SumsStep(es, i, quotes);
      assert es[i] == EntryOf(items[i], parse);
      var next := AddEntry(items[i], sums, quotes, parse);
      if next.Err? {
        SumsErrSticky(es, i + 1, quotes);
        return next;
      }
      sums := next.value;
      i := i + 1;
    }
    assert es[..i] == es;
    r := Ok(sums);
  }

  /** `_estimate_by_holdings`. */
  method EstimateByHoldings(code: string, name: string, obj: Json, quotes: map<string, StockQuote>, q: Option<GszQuote>,
                            officialNav: real, now: string, parse: string -> Option<real>)
    returns (r: Result<Option<EstimateResult>>)
    ensures r == ByHoldings(code, name, obj, quotes, q, officialNav, now, parse)
  {
    var h := HoldingsList(obj);
    if !Truthy(h) {
      return Ok(None);
    }
    if h.Num? || h.Bool? {
      return Err("holdings are not iterable");
    }
    var sums := Accumulate(LoopItems(h), quotes, parse);
    if sums.Err? {
      return Err(sums.error);
    }
    if sums.value.total <= 0.0 || sums.value.covered <= 0.0 {
      return Ok(None);
    }
    var pct := AverageChange(sums.value);
    var coverage := CoveragePct(sums.value);
    var base := PositiveNav(q);
    if base <= 0.0 {
      base := officialNav;
    }
    if base <= 0.0 {
      return Ok(None);
    }
    r := Ok(Some(EstimateResult(code, name, ApplyChange(base, pct), pct, METHOD_HOLDING_WEIGHTED,
                                ConfidenceOf(coverage), now, NotesOf(coverage, AsOfText(obj)), 10, Some(coverage))));
  }

  // ---------------------------------------------------------------------
  // Routing

  /**
   * The tier choice shared by `estimate_one` and `estimate_many`: an ETF
   * uses the service estimate as its IIV; otherwise loaded holdings are
   * tried first and the service estimate is the fallback.
   */
  function Route(code: string, name: string, q: Option<GszQuote>, profile: FundProfile, holdings: Option<Json>,
                 quotes: map<string, StockQuote>, officialNav: real, now: string, parse: string -> Option<real>): Result<EstimateResult> {
    if profile.isEtf then Ok(EstimateFromGsz(code, name, q, METHOD_ETF_IIV, now))
    else
      var est := if holdings.Some? then ByHoldings(code, name, holdings.value, quotes, q, officialNav, now, parse) else Ok(None);
      if est.Err? then Err(est.error)
      else if est.value.Some? then Ok(est.value.value)
      else Ok(EstimateFromGsz(code, name, q, METHOD_OFFICIAL_GSZ, now))
  }

  /**
   * An ETF always gets the service tier as `ETF_IIV`; a fund without
   * holdings (a QDII, say) gets the service tier as `OFFICIAL_GSZ`; a
   * holdings estimate, when there is one, wins.
   */
  lemma RouteSpec(code: string, name: string, q: Option<GszQuote>, profile: FundProfile, holdings: Option<Json>,
                  quotes: map<string, StockQuote>, officialNav: real, now: string, parse: string -> Option<real>)
    ensures var r := Route(code, name, q, profile, holdings, quotes, officialNav, now, parse);
            var est := if holdings.Some? then ByHoldings(code, name, holdings.value, quotes, q, officialNav, now, parse) else Ok(None);
            (profile.isEtf ==> r == Ok(EstimateFromGsz(code, name, q, METHOD_ETF_IIV, now))) &&
            (!profile.isEtf && holdings.None? ==> r == Ok(EstimateFromGsz(code, name, q, METHOD_OFFICIAL_GSZ, now))) &&
            (!profile.isEtf && est.Ok? && est.value.Some? ==> r == Ok(est.value.value)) &&
            (!profile.isEtf && est.Ok? && est.value.None? ==> r == Ok(EstimateFromGsz(code, name, q, METHOD_OFFICIAL_GSZ, now))) &&
            (r.Err? <==> !profile.isEtf && est.Err?) &&
            (r.Ok? ==> r.value.code == code && r.value.name == name)
  {
  }

  /** The quotes the stock quote source gives for a list of codes; blank codes are not asked for. */
  function Fetched(stockQuote: string -> Option<StockQuote>, codes: seq<string>): map<string, StockQuote> {
    map c | c in codes && c != "" && stockQuote(c).Some? :: stockQuote(c).value
  }

  /** The stock codes of a holdings entry list, one per entry. */
  function HoldingCodes(obj: Json): (r: seq<string>)
    ensures |r| == |LoopItems(HoldingsList(obj))|
  {
    var items := LoopItems(HoldingsList(obj));
    seq(|items|, k requires 0 <= k < |items| => if items[k].Obj? then StockCodeOf(items[k].fields) else "")
  }

  /** `estimate_one`'s display name: the stripped profile name, else the quote's name, else the code. */
  function NameOne(profileName: string, q: Option<GszQuote>, code: string): string {
    if Strip(profileName) != "" then Strip(profileName)
    else if q.Some? && q.value.name != "" then q.value.name
    else code
  }

  /** `estimate_one`: a blank code is refused. */
  function EstimateOne(code: string, gszOf: string -> Option<GszQuote>, profileOf: string -> FundProfile, data: Json,
                       stockQuote: string -> Option<StockQuote>, officialNavOf: string -> real, now: string,
                       parse: string -> Option<real>): Result<EstimateResult> {
    var c := Strip(code);
    if c == "" then Err("estimate_one: code is required")
    else
      var q := gszOf(c);
      var p := profileOf(c);
      var h := if p.isEtf || p.isQdii then None else LoadHoldingsOf(c, data);
      var quotes := if h.Some? then Fetched(stockQuote, HoldingCodes(h.value)) else map[];
      Route(c, NameOne(p.name, q, c), q, p, h, quotes, officialNavOf(c), now, parse)
  }

  /**
   * A blank code is refused; a QDII fund never uses holdings; otherwise
   * the estimate is the routing of the fund's loaded holdings, under a
   * non-empty name.
   */
  lemma EstimateOneSpec(code: string, gszOf: string -> Option<GszQuote>, profileOf: string -> FundProfile, data: Json,
                        stockQuote: string -> Option<StockQuote>, officialNavOf: string -> real, now: string,
                        parse: string -> Option<real>)
    ensures var c := Strip(code);
            var r := EstimateOne(code, gszOf, profileOf, data, stockQuote, officialNavOf, now, parse);
            (c == "" ==> r.Err?) &&
            (c != "" && profileOf(c).isQdii && !profileOf(c).isEtf ==>
               r == Ok(EstimateFromGsz(c, NameOne(profileOf(c).name, gszOf(c), c), gszOf(c), METHOD_OFFICIAL_GSZ, now))) &&
            (r.Ok? ==> r.value.code == c && r.value.name != "")
  {
    var c := Strip(code);
    if c != "" {
      var q, p := gszOf(c), profileOf(c);
      var h := if p.isEtf || p.isQdii then None else LoadHoldingsOf(c, data);
      var quotes := if h.Some? then Fetched(stockQuote, HoldingCodes(h.value)) else map[];
      RouteSpec(c, NameOne(p.name, q, c), q, p, h, quotes, officialNavOf(c), now, parse);
    }
  }

  // ---------------------------------------------------------------------
  // Many codes at once

  /** `estimate_many`'s display name: the profile name as stored, else the quote's name, else the code. */
  function NameMany(profileName: string, q: Option<GszQuote>, code: string): string {
    if profileName != "" then profileName
    else if q.Some? && q.value.name != "" then q.value.name
    else code
  }

  /** For a stripped profile name both display names agree. */
  lemma NamesAgree(profileName: string, q: Option<GszQuote>, code: string)
    requires Strip(profileName) == profileName
    ensures NameOne(profileName, q, code) == NameMany(profileName, q, code)
  {
  }

  /** The codes whose holdings are loaded: neither ETF nor QDII. */
  function UsesHoldings(profileOf: string -> FundProfile): string -> bool {
    c => !(profileOf(c).isEtf || profileOf(c).isQdii)
  }

  /** The non-blank stock codes of one holdings entry list. */
  function NonBlank(): string -> bool {
    s => s != ""
  }

  /**
   * The stock codes `estimate_many` asks for: the non-blank stock codes of
   * each loaded fund's holdings. The quotes a fund's own stocks receive do
   * not depend on the order or repeats of this list (`HoldingQuotesAgree`),
   * though its length decides whether the fetch falls back to the map.
   */
  function StockList(order: seq<string>, batch: map<string, Json>): seq<string> {
    if order == [] then []
    else
      var c := order[|order| - 1];
      StockList(order[..|order| - 1], batch) + (if c in batch then Filter(HoldingCodes(batch[c]), NonBlank()) else [])
  }

  /** Every non-blank stock code of every loaded fund is asked for. */
  lemma {:induction false} StockListHas(order: seq<string>, batch: map<string, Json>, c: string, s: string)
    requires c in order && c in batch && s in HoldingCodes(batch[c]) && s != ""
    ensures s in StockList(order, batch)
  {
    var n := |order| - 1;
    if order[n] == c {
      FilterMember(HoldingCodes(batch[c]), NonBlank(), s);
    } else {
      assert c in order[..n] by {
        var i :| 0 <= i < |order| && order[i] == c;
        assert order[..n][i] == c;
      }
      StockListHas(order[..n], batch, c, s);
    }
  }

  /** One code's estimate as `estimate_many` routes it. */
  function RouteMany(c: string, gszOf: string -> Option<GszQuote>, profileOf: string -> FundProfile,
                     batch: map<string, Json>, quotes: map<string, StockQuote>, officialNavOf: string -> real,
                     now: string, parse: string -> Option<real>): Result<EstimateResult> {
    var q := gszOf(c);
    var p := profileOf(c);
    Route(c, NameMany(p.name, q, c), q, p, if c in batch then Some(batch[c]) else None, quotes, officialNavOf(c), now, parse)
  }

  /** The result dictionary filled code by code; the first failing code fails the whole call. */
  function Collect(cs: seq<string>, gszOf: string -> Option<GszQuote>, profileOf: string -> FundProfile,
                   batch: map<string, Json>, quotes: map<string, StockQuote>, officialNavOf: string -> real,
                   now: string, parse: string -> Option<real>): Result<map<string, EstimateResult>> {
    if cs == [] then Ok(map[])
    else
      var pre := Collect(cs[..|cs| - 1], gszOf, profileOf, batch, quotes, officialNavOf, now, parse);
      var c := cs[|cs| - 1];
      var e := RouteMany(c, gszOf, profileOf, batch, quotes, officialNavOf, now, parse);
      if pre.Err? then pre else if e.Err? then Err(e.error) else Ok(pre.value[c := e.value])
  }

  /**
   * The dictionary has exactly the codes asked for, each with its own
   * routed estimate; a code whose routing fails fails the whole call.
   */
  lemma {:induction false} CollectSpec(cs: seq<string>, gszOf: string -> Option<GszQuote>, profileOf: string -> FundProfile,
                                       batch: map<string, Json>, quotes: map<string, StockQuote>, officialNavOf: string -> real,
                                       now: string, parse: string -> Option<real>, c: string)
    ensures var r := Collect(cs, gszOf, profileOf, batch, quotes, officialNavOf, now, parse);
            var e := RouteMany(c, gszOf, profileOf, batch, quotes, officialNavOf, now, parse);
            (r.Ok? ==> (c in r.value <==> c in cs)) &&
            (r.Ok? && c in cs ==> e.Ok? && r.value[c] == e.value) &&
            (c in cs && e.Err? ==> r.Err?)
  {
    if cs != [] {
      var n := |cs| - 1;
      CollectSpec(cs[..n], gszOf, profileOf, batch, quotes, officialNavOf, now, parse, c);
      assert cs == cs[..n] + [cs[n]];
    }
  }

  /** Once a prefix of the codes fails, the whole call fails the same way. */
  lemma {:induction false} CollectErrSticky(cs: seq<string>, i: nat, gszOf: string -> Option<GszQuote>, profileOf: string -> FundProfile,
                                            batch: map<string, Json>, quotes: map<string, StockQuote>, officialNavOf: string -> real,
                                            now: string, parse: string -> Option<real>)
    requires i <= |cs| && Collect(cs[..i], gszOf, profileOf, batch, quotes, officialNavOf, now, parse).Err?
    ensures Collect(cs, gszOf, profileOf, batch, quotes, officialNavOf, now, parse) ==
            Collect(cs[..i], gszOf, profileOf, batch, quotes, officialNavOf, now, parse)
    decreases |cs| - i
  {
    if i < |cs| {
      assert cs[..i + 1][..i] == cs[..i];
      CollectErrSticky(cs, i + 1, gszOf, profileOf, batch, quotes, officialNavOf, now, parse);
    } else {
      assert cs[..i] == cs;
    }
  }

  /** The codes whose holdings `estimate_many` loads. */
  function NonEtf(cs: seq<string>, profileOf: string -> FundProfile): seq<string> {
    Filter(cs, UsesHoldings(profileOf))
  }

  /** The holdings `estimate_many` loads. */
  function ManyBatch(cs: seq<string>, profileOf: string -> FundProfile, data: Json): map<string, Json> {
    BatchOf(NonEtf(cs, profileOf), data)
  }

  /** The stock quotes `estimate_many` fetches. */
  function ManyQuotes(cs: seq<string>, profileOf: string -> FundProfile, data: Json,
                      stockQuote: string -> Option<StockQuote>): map<string, StockQuote> {
    Fetched(stockQuote, StockList(NonEtf(cs, profileOf), ManyBatch(cs, profileOf, data)))
  }

  /** `estimate_many` on the stripped, non-blank codes. */
  function EstimateManyOf(codes: seq<string>, gszOf: string -> Option<GszQuote>, profileOf: string -> FundProfile, data: Json,
                          stockQuote: string -> Option<StockQuote>, officialNavOf: string -> real, now: string,
                          parse: string -> Option<real>): Result<map<string, EstimateResult>> {
    var cs := CleanCodes(codes);
    Collect(cs, gszOf, profileOf, ManyBatch(cs, profileOf, data), ManyQuotes(cs, profileOf, data, stockQuote),
            officialNavOf, now, parse)
  }

  /** The routing reads the display name only to copy it into the estimate. */
  lemma RouteRenamed(c: string, n1: string, n2: string, q: Option<GszQuote>, p: FundProfile, h: Option<Json>,
                     quotes: map<string, StockQuote>, nav: real, now: string, parse: string -> Option<real>)
    ensures var r1 := Route(c, n1, q, p, h, quotes, nav, now, parse);
            var r2 := Route(c, n2, q, p, h, quotes, nav, now, parse);
            (r1.Err? <==> r2.Err?) && (r1.Ok? ==> r2.value == r1.value.(name := n2))
  {
  }

  /** The holdings tier reads only the quotes of the fund's own stocks. */
  lemma ByHoldingsLocal(code: string, name: string, obj: Json, q1: map<string, StockQuote>, q2: map<string, StockQuote>,
                        q: Option<GszQuote>, officialNav: real, now: string, parse: string -> Option<real>)
    requires AgreeOn(EntriesOf(obj, parse), q1, q2)
    ensures ByHoldings(code, name, obj, q1, q, officialNav, now, parse) == ByHoldings(code, name, obj, q2, q, officialNav, now, parse)
  {
    SumsLocal(EntriesOf(obj, parse), q1, q2);
  }

  /** Fetching a larger list gives the same quotes for the fund's own stocks. */
  lemma HoldingQuotesAgree(obj: Json, parse: string -> Option<real>, stockQuote: string -> Option<StockQuote>, list: seq<string>)
    requires forall s :: s in HoldingCodes(obj) && s != "" ==> s in list
    ensures AgreeOn(EntriesOf(obj, parse), Fetched(stockQuote, HoldingCodes(obj)), Fetched(stockQuote, list))
  {
    var items := LoopItems(HoldingsList(obj));
    var es := EntriesOf(obj, parse);
    forall k | 0 <= k < |es| && es[k].Counted? && es[k].stock != ""
      ensures es[k].stock in HoldingCodes(obj)
    {
      assert es[k] == EntryOf(items[k], parse);
      assert HoldingCodes(obj)[k] == es[k].stock;
    }
  }

  /** A cleaned code is stripped and non-blank. */
  lemma CleanCodeStripped(codes: seq<string>, c: string)
    requires c in CleanCodes(codes)
    ensures c != "" && Strip(c) == c
  {
    var cs := CleanCodes(codes);
    var k :| 0 <= k < |cs| && cs[k] == c;
  }

  /**
   * For a cleaned code, `estimate_many` has loaded the same holdings as
   * `load_holdings` exactly when the fund is neither an ETF nor a QDII fund.
   */
  lemma ManyBatchAgrees(codes: seq<string>, profileOf: string -> FundProfile, data: Json, c: string)
    requires c in CleanCodes(codes)
    ensures var batch := ManyBatch(CleanCodes(codes), profileOf, data);
            var p := profileOf(c);
            (p.isEtf || p.isQdii ==> c !in batch) &&
            (!(p.isEtf || p.isQdii) ==> (c in batch <==> LoadHoldingsOf(c, data).Some?) &&
                                         (c in batch ==> batch[c] == LoadHoldingsOf(c, data).value))
  {
    var cs := CleanCodes(codes);
    var nonEtf := NonEtf(cs, profileOf);
    CleanCodeStripped(codes, c);
    BatchSpec(nonEtf, data, c);
    FilterMember(cs, UsesHoldings(profileOf), c);
    if Requested(nonEtf, c) {
      var i :| 0 <= i < |nonEtf| && Strip(nonEtf[i]) == c;
      FilterMember(cs, UsesHoldings(profileOf), nonEtf[i]);
      CleanCodeStripped(codes, nonEtf[i]);
    }
    if !(profileOf(c).isEtf || profileOf(c).isQdii) {
      assert Strip(nonEtf[IndexOf(nonEtf, c)]) == c;
    }
  }

  /** The index of a member. */
  function IndexOf(s: seq<string>, x: string): (i: nat)
    requires x in s
    ensures i < |s| && s[i] == x
  {
    if s[0] == x then 0 else 1 + IndexOf(s[1..], x)
  }

  /** `estimate_one` of a stripped non-blank code routes that code. */
  lemma EstimateOneStripped(c: string, gszOf: string -> Option<GszQuote>, profileOf: string -> FundProfile, data: Json,
                            stockQuote: string -> Option<StockQuote>, officialNavOf: string -> real, now: string,
                            parse: string -> Option<real>)
    requires c != "" && Strip(c) == c
    ensures var q, p := gszOf(c), profileOf(c);
            var h := if p.isEtf || p.isQdii then None else LoadHoldingsOf(c, data);
            var quotes := if h.Some? then Fetched(stockQuote, HoldingCodes(h.value)) else map[];
            EstimateOne(c, gszOf, profileOf, data, stockQuote, officialNavOf, now, parse) ==
              Route(c, NameOne(p.name, q, c), q, p, h, quotes, officialNavOf(c), now, parse)
  {
  }

  /** With the same holdings, and quotes that agree on their stocks, the routing is the same. */
  lemma RouteHoldingsAgree(c: string, n: string, q: Option<GszQuote>, p: FundProfile, h1: Option<Json>, quotes1: map<string, StockQuote>,
                           h2: Option<Json>, quotes2: map<string, StockQuote>, nav: real, now: string, parse: string -> Option<real>)
    requires p.isEtf || (h1 == h2 && (h1.Some? ==> AgreeOn(EntriesOf(h1.value, parse), quotes1, quotes2)))
    ensures Route(c, n, q, p, h1, quotes1, nav, now, parse) == Route(c, n, q, p, h2, quotes2, nav, now, parse)
  {
    if !p.isEtf && h1.Some? {
      ByHoldingsLocal(c, n, h1.value, quotes1, quotes2, q, nav, now, parse);
    }
  }

  /**
   * For a fund whose holdings are loaded, the quotes `estimate_many`
   * fetches agree with those `estimate_one` fetches on the fund's stocks.
   */
  lemma ManyQuotesAgree(codes: seq<string>, profileOf: string -> FundProfile, data: Json,
                        stockQuote: string -> Option<StockQuote>, parse: string -> Option<real>, c: string)
    requires c in CleanCodes(codes) && !(profileOf(c).isEtf || profileOf(c).isQdii) && LoadHoldingsOf(c, data).Some?
    ensures var h := LoadHoldingsOf(c, data).value;
            AgreeOn(EntriesOf(h, parse), Fetched(stockQuote, HoldingCodes(h)),
                    ManyQuotes(CleanCodes(codes), profileOf, data, stockQuote))
  {
    var cs := CleanCodes(codes);
    var h := LoadHoldingsOf(c, data).value;
    var batch := ManyBatch(cs, profileOf, data);
    ManyBatchAgrees(codes, profileOf, data, c);
    var list := StockList(NonEtf(cs, profileOf), batch);
    FilterMember(cs, UsesHoldings(profileOf), c);
    forall s | s in HoldingCodes(h) && s != ""
      ensures s in list
    {
      StockListHas(NonEtf(cs, profileOf), batch, c, s);
    }
    HoldingQuotesAgree(h, parse, stockQuote, list);
  }

  /**
   * `estimate_many` agrees with `estimate_one` code by code, up to the
   * display name (which `estimate_many` does not strip): both fail or
   * both give the same estimate.
   */
  lemma ManyAgreesWithOne(codes: seq<string>, gszOf: string -> Option<GszQuote>, profileOf: string -> FundProfile, data: Json,
                          stockQuote: string -> Option<StockQuote>, officialNavOf: string -> real, now: string,
                          parse: string -> Option<real>, c: string)
    requires c in CleanCodes(codes)
    ensures var many := EstimateManyOf(codes, gszOf, profileOf, data, stockQuote, officialNavOf, now, parse);
            var one := EstimateOne(c, gszOf, profileOf, data, stockQuote, officialNavOf, now, parse);
            (one.Err? ==> many.Err?) &&
            (many.Ok? ==> c in many.value && one.Ok? &&
                          many.value[c] == one.value.(name := NameMany(profileOf(c).name, gszOf(c), c)))
  {
    var cs := CleanCodes(codes);
    CleanCodeStripped(codes, c);
    var batch := ManyBatch(cs, profileOf, data);
    var quotes2 := ManyQuotes(cs, profileOf, data, stockQuote);
    var q, p, nav := gszOf(c), profileOf(c), officialNavOf(c);
    var n1, n2 := NameOne(p.name, q, c), NameMany(p.name, q, c);
    var h1 := if p.isEtf || p.isQdii then None else LoadHoldingsOf(c, data);
    var quotes1 := if h1.Some? then Fetched(stockQuote, HoldingCodes(h1.value)) else map[];
    var h2 := if c in batch then Some(batch[c]) else None;
    EstimateOneStripped(c, gszOf, profileOf, data, stockQuote, officialNavOf, now, parse);
    ManyBatchAgrees(codes, profileOf, data, c);
    if !p.isEtf && h1.Some? {
      ManyQuotesAgree(codes, profileOf, data, stockQuote, parse, c);
    }
    RouteHoldingsAgree(c, n2, q, p, h1, quotes1, h2, quotes2, nav, now, parse);
    RouteRenamed(c, n1, n2, q, p, h1, quotes1, nav, now, parse);
    CollectSpec(cs, gszOf, profileOf, batch, quotes2, officialNavOf, now, parse, c);
  }

  /** One more code of the result loop. */
  lemma CollectStep(cs: seq<string>, i: nat, gszOf: string -> Option<GszQuote>, profileOf: string -> FundProfile,
                    batch: map<string, Json>, quotes: map<string, StockQuote>, officialNavOf: string -> real,
                    now: string, parse: string -> Option<real>)
    requires i < |cs| && Collect(cs[..i], gszOf, profileOf, batch, quotes, officialNavOf, now, parse).Ok?
    ensures var pre := Collect(cs[..i], gszOf, profileOf, batch, quotes, officialNavOf, now, parse).value;
            var e := RouteMany(cs[i], gszOf, profileOf, batch, quotes, officialNavOf, now, parse);
            Collect(cs[..i + 1], gszOf, profileOf, batch, quotes, officialNavOf, now, parse) ==
              if e.Err? then Err(e.error) else Ok(pre[cs[i] := e.value])
  {
    assert cs[..i + 1][..i] == cs[..i];
    assert cs[..i + 1][i] == cs[i];
  }

  /** One more loaded fund of the stock-code loop. */
  lemma StockListStep(order: seq<string>, i: nat, batch: map<string, Json>)
    requires i < |order|
    ensures StockList(order[..i + 1], batch) ==
              StockList(order[..i], batch) + (if order[i] in batch then Filter(HoldingCodes(batch[order[i]]), NonBlank()) else [])
  {
    assert order[..i + 1][..i] == order[..i];
    assert order[..i + 1][i] == order[i];
  }

  /** The stock codes of one loaded fund, collected as `estimate_many` does. */
  method HoldingStockCodes(obj: Json) returns (out: seq<string>)
    ensures out == Filter(HoldingCodes(obj), NonBlank())
  {
    var items := LoopItems(HoldingsList(obj));
    var codes := HoldingCodes(obj);
    out := [];
    var j := 0;
    while j < |items|
      invariant 0 <= j <= |items|
      invariant out == Filter(codes[..j], NonBlank())
    {
      FilterPrefixStep(codes, j, NonBlank());
      var h := items[j];
      var scode := if h.Obj? then StockCodeOf(h.fields) else "";
      if scode != "" {
        out := out + [scode];
      }
      j := j + 1;
    }
    assert codes[..j] == codes;
  }

  /** The codes whose profile is neither ETF nor QDII, in order. */
  method SelectNonEtf(cs: seq<string>, profileOf: string -> FundProfile) returns (nonEtf: seq<string>)
    ensures nonEtf == NonEtf(cs, profileOf)
  {
    nonEtf := [];
    var i := 0;
    while i < |cs|
      invariant 0 <= i <= |cs|
      invariant nonEtf == Filter(cs[..i], UsesHoldings(profileOf))
    {
      FilterPrefixStep(cs, i, UsesHoldings(profileOf));
      var profile := profileOf(cs[i]);
      if !(profile.isEtf || profile.isQdii) {
        nonEtf := nonEtf + [cs[i]];
      }
      i := i + 1;
    }
    assert cs[..i] == cs;
  }

  /** The stock codes of every loaded fund, fund by fund. */
  method CollectStockCodes(nonEtf: seq<string>, holdingsMap: map<string, Json>) returns (stockCodes: seq<string>)
    ensures stockCodes == StockList(nonEtf, holdingsMap)
  {
    stockCodes := [];
    var i := 0;
    while i < |nonEtf|
      invariant 0 <= i <= |nonEtf|
      invariant stockCodes == StockList(nonEtf[..i], holdingsMap)
    {
      StockListStep(nonEtf, i, holdingsMap);
      if nonEtf[i] in holdingsMap {
        var more := HoldingStockCodes(holdingsMap[nonEtf[i]]);
        stockCodes := stockCodes + more;
      }
      i := i + 1;
    }
    assert nonEtf[..i] == nonEtf;
  }

  /** The result loop of `estimate_many`: each code routed in turn; an exception ends the call. */
  method FillEstimates(cs: seq<string>, gszOf: string -> Option<GszQuote>, profileOf: string -> FundProfile,
                       holdingsMap: map<string, Json>, stockQuotes: map<string, StockQuote>, officialNavOf: string -> real,
                       now: string, parse: string -> Option<real>) returns (r: Result<map<string, EstimateResult>>)
    ensures r == Collect(cs, gszOf, profileOf, holdingsMap, stockQuotes, officialNavOf, now, parse)
  {
    var out := map[];
    var i := 0;
    while i < |cs|
      invariant 0 <= i <= |cs|
      invariant Collect(cs[..i], gszOf, profileOf, holdingsMap, stockQuotes, officialNavOf, now, parse) == Ok(out)
    {
      CollectStep(cs, i, gszOf, profileOf, holdingsMap, stockQuotes, officialNavOf, now, parse);
      var code := cs[i];
      var q := gszOf(code);
      var profile := profileOf(code);
      var name := NameMany(profile.name, q, code);
      if profile.isEtf {
        out := out[code := EstimateFromGsz(code, name, q, METHOD_ETF_IIV, now)];
        i := i + 1;
        continue;
      }
      if code in holdingsMap {
        var est := EstimateByHoldings(code, name, holdingsMap[code], stockQuotes, q, officialNavOf(code), now, parse);
        if est.Err? {
          CollectErrSticky(cs, i + 1, gszOf, profileOf, holdingsMap, stockQuotes, officialNavOf, now, parse);
          return Err(est.error);
        }
        if est.value.Some? {
          out := out[code := est.value.value];
          i := i + 1;
          continue;
        }
      }
      out := out[code := EstimateFromGsz(code, name, q, METHOD_OFFICIAL_GSZ, now)];
      i := i + 1;
    }
    assert cs[..i] == cs;
    r := Ok(out);
  }

  /**
   * `estimate_many`: the codes are cleaned, the funds that are neither ETF
   * nor QDII have their holdings loaded in one batch, the stocks of all
   * those holdings are quoted in one fetch, and each code is routed.
   */
  method EstimateMany(codes: seq<string>, gszOf: string -> Option<GszQuote>, profileOf: string -> FundProfile, data: Json,
                      stockQuote: string -> Option<StockQuote>, officialNavOf: string -> real, now: string,
                      parse: string -> Option<real>) returns (r: Result<map<string, EstimateResult>>)
    ensures r == EstimateManyOf(codes, gszOf, profileOf, data, stockQuote, officialNavOf, now, parse)
  {
    var cs := CleanCodes(codes);
    if cs == [] {
      return Ok(map[]);
    }
    var nonEtf := SelectNonEtf(cs, profileOf);
    var holdingsMap := map[];
    if nonEtf != [] {
      holdingsMap := LoadHoldingsBatch(nonEtf, data);
    }
    var stockCodes := CollectStockCodes(nonEtf, holdingsMap);
    var stockQuotes := if stockCodes != [] then Fetched(stockQuote, stockCodes) else map[];
    r := FillEstimates(cs, gszOf, profileOf, holdingsMap, stockQuotes, officialNavOf, now, parse);
  }
}
