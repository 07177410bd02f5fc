/**
 * Stock quotes: normalising stock codes, building the exchange-prefixed
 * codes the quote service is asked for, parsing its `v_<id>="..."` lines,
 * reading the local quote map, and merging the two sources.
 */
module Market {
  import opened Wrappers
  import opened Text
  import opened Seqs
  import opened Json

  datatype StockQuote = StockQuote(code: string, name: string, price: real, prevClose: real, changePct: real, ts: string)

  // ---------------------------------------------------------------------
  // Codes

  /** The three exchange prefixes. */
  predicate HasExchangePrefix(s: string) {
    StartsWith(s, "sh") || StartsWith(s, "sz") || StartsWith(s, "bj")
  }

  /** `_strip_prefix`, which is also `normalize_stock_code`. */
  function StripPrefix(code: string): string {
    var s := Lower(Strip(code));
    if HasExchangePrefix(s) then s[2..] else s
  }

  /**
   * The stripped, lower-cased code loses one leading exchange prefix when
   * it has one, and nothing else.
   */
  lemma StripPrefixSpec(code: string)
    ensures var s := Lower(Strip(code));
            var r := StripPrefix(code);
            (HasExchangePrefix(s) ==> (s == "sh" + r || s == "sz" + r || s == "bj" + r)) &&
            (!HasExchangePrefix(s) ==> r == s) &&
            Lower(r) == r
  {
    var s := Lower(Strip(code));
    var r := StripPrefix(code);
    if HasExchangePrefix(s) {
      assert r == s[2..];
      assert s == s[..2] + r;
      assert s[..2] == "sh" || s[..2] == "sz" || s[..2] == "bj";
    } else {
      assert r == s;
    }
    LoweredSuffix(Strip(code), |s| - |r|);
  }

  /** A suffix of a lower-cased string is left unchanged by lower-casing. */
  lemma LoweredSuffix(t: string, n: nat)
    requires n <= |t|
    ensures Lower(Lower(t)[n..]) == Lower(t)[n..]
  {
    var r := Lower(t)[n..];
    var lr := Lower(r);
    assert |lr| == |r|;
    forall i | 0 <= i < |r|
      ensures lr[i] == r[i]
    {
      var c := t[i + n];
      assert r[i] == LowerChar(c);
      LowerCharIdempotent(c);
    }
  }

  lemma LowerCharIdempotent(c: char)
    ensures LowerChar(LowerChar(c)) == LowerChar(c)
  {
    if 'A' <= c <= 'Z' {
      assert 'a' <= LowerChar(c) <= 'z';
    }
  }

  /** `_guess_prefix`: the exchange of a code from its first digit. */
  function GuessPrefix(code: string): string {
    var s := StripPrefix(code);
    if StartsWith(s, "6") then "sh"
    else if StartsWith(s, "0") || StartsWith(s, "3") then "sz"
    else if StartsWith(s, "8") then "bj"
    else ""
  }

  lemma GuessPrefixSpec(code: string)
    ensures var s := StripPrefix(code);
            var p := GuessPrefix(code);
            (p == "sh" <==> s != "" && s[0] == '6') &&
            (p == "sz" <==> s != "" && (s[0] == '0' || s[0] == '3')) &&
            (p == "bj" <==> s != "" && s[0] == '8') &&
            (p == "" <==> s == "" || (s[0] != '6' && s[0] != '0' && s[0] != '3' && s[0] != '8'))
  {
    var s := StripPrefix(code);
    if s != "" {
      assert StartsWith(s, "6") <==> s[0] == '6';
      assert StartsWith(s, "0") <==> s[0] == '0';
      assert StartsWith(s, "3") <==> s[0] == '3';
      assert StartsWith(s, "8") <==> s[0] == '8';
    }
  }

  /** The code asked of the quote service for one input code; none when it is blank. */
  function QueryCodeOf(code: string): Option<string> {
    var base := StripPrefix(code);
    if base == "" then None
    else
      var prefix := GuessPrefix(base);
      Some(if prefix != "" then prefix + base else base)
  }

  /** What `_build_query_codes` returns. */
  function QueryCodes(codes: seq<string>): seq<string> {
    if codes == [] then []
    else
      var q := QueryCodeOf(codes[|codes| - 1]);
      QueryCodes(codes[..|codes| - 1]) + (if q.Some? then [q.value] else [])
  }

  /** The query codes of two lists are those of each, in input order. */
  lemma {:induction false} QueryCodesConcat(a: seq<string>, b: seq<string>)
    ensures QueryCodes(a + b) == QueryCodes(a) + QueryCodes(b)
  {
    if b == [] {
      assert a + b == a;
    } else {
      var b' := b[..|b| - 1];
      assert (a + b)[..|a + b| - 1] == a + b';
      QueryCodesConcat(a, b');
    }
  }

  /** One code gives its prefixed code, or nothing when blank. */
  lemma QueryCodesSingle(c: string)
    ensures QueryCodes([c]) == if StripPrefix(c) == "" then [] else [QueryCodeOf(c).value]
  {
    assert [c][..0] == [];
  }

  /** A code of digits is its own normal form. */
  lemma DigitsNormal(b: string)
    requires b != "" && AllDigits(b)
    ensures StripPrefix(b) == b
  {
    assert !IsSpace(b[0]) && !IsSpace(b[|b| - 1]);
    StripNoop(b);
    assert Lower(b) == b;
  }

  /** The queried code names the same stock: normalising it gives back the code's digits. */
  lemma QueryCodeRoundTrip(code: string)
    requires StripPrefix(code) != "" && AllDigits(StripPrefix(code))
    ensures QueryCodeOf(code).Some? && StripPrefix(QueryCodeOf(code).value) == StripPrefix(code)
  {
    var b := StripPrefix(code);
    DigitsNormal(b);
    var p := GuessPrefix(b);
    if p != "" {
      GuessPrefixSpec(b);
      PrefixedDigits(p, b);
    }
  }

  /** An exchange prefix on a code of digits is stripped off again. */
  lemma PrefixedDigits(p: string, b: string)
    requires p == "sh" || p == "sz" || p == "bj"
    requires b != "" && AllDigits(b)
    ensures StripPrefix(p + b) == b
  {
    var q := p + b;
    assert Strip(q) == q by {
      assert q[0] == p[0] && q[|q| - 1] == b[|b| - 1];
      assert !IsSpace(q[0]) && !IsSpace(q[|q| - 1]);
      StripNoop(q);
    }
    assert Lower(q) == q by {
      forall i | 0 <= i < |q|
        ensures Lower(q)[i] == q[i]
      {
        if i >= 2 {
          assert q[i] == b[i - 2];
        }
      }
    }
    assert HasExchangePrefix(q) by {
      assert q[..2] == p;
    }
    assert q[2..] == b;
  }

  /** `_build_query_codes`. */
  method BuildQueryCodes(codes: seq<string>) returns (out: seq<string>)
    ensures out == QueryCodes(codes)
  {
    out := [];
    for i := 0 to |codes|
      invariant out == QueryCodes(codes[..i])
    {
      assert codes[..i + 1][..i] == codes[..i];
      var base := StripPrefix(codes[i]);
      if base == "" {
        continue;
      }
      var prefix := GuessPrefix(base);
      out := out + [if prefix != "" then prefix + base else base];
    }
    assert codes[..|codes|] == codes;
  }

  // ---------------------------------------------------------------------
  // The quote service's lines

  /**
   * The characters `[a-z0-9]` matches under `re.IGNORECASE`: ASCII letters
   * and digits and the four non-ASCII letters that case-fold onto them.
   */
  predicate IdChar(c: char) {
    'a' <= c <= 'z' || 'A' <= c <= 'Z' || '0' <= c <= '9' ||
    c == '\U{0130}' || c == '\U{0131}' || c == '\U{017F}' || c == '\U{212A}'
  }

  /** The length of the run of identifier characters at the start of `s`. */
  function IdRun(s: string): (n: nat)
    ensures n <= |s|
  {
    if s != [] && IdChar(s[0]) then 1 + IdRun(s[1..]) else 0
  }

  /**
   * The payload `^v_([a-z0-9]+)="(.*)";?$` captures in `s`, matched without
   * regard to case; `.` does not match a newline.
   */
  function MatchLine(s: string): Option<string> {
    if |s| < 2 || !(s[0] == 'v' || s[0] == 'V') || s[1] != '_' then None
    else
      var rest := s[2..];
      var n := IdRun(rest);
      if n == 0 || n + 2 > |rest| || rest[n] != '=' || rest[n + 1] != '"' then None
      else
        var r := rest[n + 2..];
        if |r| >= 1 && r[|r| - 1] == '"' && '\n' !in r[..|r| - 1] then Some(r[..|r| - 1])
        else if |r| >= 2 && r[|r| - 2] == '"' && r[|r| - 1] == ';' && '\n' !in r[..|r| - 2] then Some(r[..|r| - 2])
        else None
  }

  lemma {:induction false} IdRunPrefix(id: string, rest: string)
    requires forall k :: 0 <= k < |id| ==> IdChar(id[k])
    requires rest != [] && !IdChar(rest[0])
    ensures IdRun(id + rest) == |id|
  {
    if id != [] {
      assert (id + rest)[1..] == id[1..] + rest;
      IdRunPrefix(id[1..], rest);
    }
  }

  /** The line `v_<id>="<payload>"`, with or without `;`. */
  function QuoteLine(id: string, payload: string, semicolon: bool): string {
    "v_" + id + "=\"" + payload + (if semicolon then "\";" else "\"")
  }

  /** Matching a line built from an identifier and a payload gives the payload back. */
  lemma MatchLineRoundTrip(id: string, payload: string, semicolon: bool)
    requires id != [] && forall k :: 0 <= k < |id| ==> IdChar(id[k])
    requires '\n' !in payload
    ensures MatchLine(QuoteLine(id, payload, semicolon)) == Some(payload)
  {
    var s := QuoteLine(id, payload, semicolon);
    var tail := "=\"" + payload + (if semicolon then "\";" else "\"");
    assert s[2..] == id + tail;
    IdRunPrefix(id, tail);
    var r := (id + tail)[|id| + 2..];
    assert r == payload + (if semicolon then "\";" else "\"");
    if semicolon {
      assert r[..|r| - 2] == payload;
    } else {
      assert r[..|r| - 1] == payload;
    }
  }

  /** `change_pct`: the move from the previous close, in percent. */
  function ChangePct(price: real, prev: real): real
    requires prev != 0.0
  {
    (price / prev - 1.0) * 100.0
  }

  lemma ChangePctMeaning(price: real, prev: real)
    requires prev != 0.0
    ensures ChangePct(price, prev) * prev == 100.0 * (price - prev)
  {
    var q := price / prev;
    assert q * prev == price;
    assert (q - 1.0) * prev == price - prev;
  }

  /**
   * `_parse_tencent_line`; `parse` is `float(...)` on a field (`None` where
   * it raises) and `now` the time stamp the quote gets.
   */
  function ParseTencentLine(line: string, parse: string -> Option<real>, now: string): Option<StockQuote> {
    var m := MatchLine(Strip(line));
    if m.None? then None
    else
      var parts := Split(m.value, '~');
      if |parts| < 5 then None
      else
        var price := parse(parts[3]);
        var prev := parse(parts[4]);
        if price.None? || prev.None? || prev.value <= 0.0 then None
        else Some(StockQuote(Strip(parts[2]), Strip(parts[1]), price.value, prev.value,
                             ChangePct(price.value, prev.value), now))
  }

  /**
   * A line parses exactly when it matches, has at least five `~` fields and
   * a price and a positive previous close that parse; the quote then takes
   * name and code from fields 1 and 2 and moves by the percentage the two
   * prices give.
   */
  lemma ParseTencentLineSpec(line: string, parse: string -> Option<real>, now: string)
    ensures var r := ParseTencentLine(line, parse, now);
            var m := MatchLine(Strip(line));
            (r.Some? <==>
              m.Some? && |Split(m.value, '~')| >= 5 && parse(Split(m.value, '~')[3]).Some? &&
              parse(Split(m.value, '~')[4]).Some? && parse(Split(m.value, '~')[4]).value > 0.0) &&
            (r.Some? ==>
              var parts := Split(m.value, '~');
              r.value.name == Strip(parts[1]) && r.value.code == Strip(parts[2]) &&
              r.value.price == parse(parts[3]).value && r.value.prevClose == parse(parts[4]).value &&
              r.value.changePct * r.value.prevClose == 100.0 * (r.value.price - r.value.prevClose))
  {
    var r := ParseTencentLine(line, parse, now);
    if r.Some? {
      ChangePctMeaning(r.value.price, r.value.prevClose);
    }
  }

  /** No `~` and no newline: a field that can sit in a quote line. */
  predicate PlainField(f: string) {
    '~' !in f && '\n' !in f
  }

  /** Joining parts none of which holds `c` with a separator other than `c` gives a string without `c`. */
  lemma {:induction false} JoinKeepsOut(parts: seq<string>, sep: char, c: char)
    requires c != sep && forall k :: 0 <= k < |parts| ==> c !in parts[k]
    ensures c !in Join(parts, sep)
  {
    if |parts| > 1 {
      JoinKeepsOut(parts[1..], sep, c);
    }
  }

  /**
   * A quote line written from its fields parses back to the quote those
   * fields describe.
   */
  lemma TencentLineRoundTrip(id: string, market: string, name: string, code: string, priceText: string, prevText: string,
                             parse: string -> Option<real>, now: string)
    requires id != [] && forall k :: 0 <= k < |id| ==> IdChar(id[k])
    requires PlainField(market) && PlainField(name) && PlainField(code) && PlainField(priceText) && PlainField(prevText)
    requires parse(priceText).Some? && parse(prevText).Some? && parse(prevText).value > 0.0
    ensures var payload := Join([market, name, code, priceText, prevText], '~');
            var p := parse(priceText).value;
            var q := parse(prevText).value;
            ParseTencentLine(QuoteLine(id, payload, true), parse, now) ==
              Some(StockQuote(Strip(code), Strip(name), p, q, ChangePct(p, q), now))
  {
    var parts := [market, name, code, priceText, prevText];
    var payload := Join(parts, '~');
    JoinKeepsOut(parts, '~', '\n');
    SplitJoin(parts, '~');
    var line := QuoteLine(id, payload, true);
    assert line[0] == 'v' && line[|line| - 1] == ';';
    StripNoop(line);
    MatchLineRoundTrip(id, payload, true);
  }

  /** The parse of each line. */
  function ParseLines(lines: seq<string>, parse: string -> Option<real>, now: string): (r: seq<Option<StockQuote>>)
    ensures |r| == |lines|
  {
    if lines == [] then [] else ParseLines(lines[..|lines| - 1], parse, now) + [ParseTencentLine(lines[|lines| - 1], parse, now)]
  }

  /** Entry `i` of `ParseLines` is the parse of line `i`. */
  lemma {:induction false} ParseLinesAt(lines: seq<string>, parse: string -> Option<real>, now: string, i: nat)
    requires i < |lines|
    ensures ParseLines(lines, parse, now)[i] == ParseTencentLine(lines[i], parse, now)
  {
    var n := |lines| - 1;
    if i < n {
      ParseLinesAt(lines[..n], parse, now, i);
    }
  }

  /** Quotes filed by code in order, a later one replacing an earlier one; those without a code are dropped. */
  function FileQuotes(qs: seq<Option<StockQuote>>): map<string, StockQuote> {
    if qs == [] then map[]
    else
      var m := FileQuotes(qs[..|qs| - 1]);
      var q := qs[|qs| - 1];
      if q.Some? && q.value.code != "" then m[q.value.code := q.value] else m
  }

  /** The quotes of the service's lines, keyed by code; a later line wins. */
  function TencentQuotes(lines: seq<string>, parse: string -> Option<real>, now: string): map<string, StockQuote> {
    FileQuotes(ParseLines(lines, parse, now))
  }

  /** Quote `q` has code `k`. */
  predicate HasCode(q: Option<StockQuote>, k: string) {
    q.Some? && q.value.code == k
  }

  lemma FileQuotesUnfold(qs: seq<Option<StockQuote>>)
    requires qs != []
    ensures var q := qs[|qs| - 1];
            var m := FileQuotes(qs[..|qs| - 1]);
            FileQuotes(qs) == if q.Some? && q.value.code != "" then m[q.value.code := q.value] else m
  {
  }

  /** Every quote with a code is filed, each under its own non-empty code. */
  lemma {:induction false} FileQuotesFiled(qs: seq<Option<StockQuote>>)
    ensures var m := FileQuotes(qs);
            (forall k :: k in m ==> k != "" && m[k].code == k) &&
            (forall i, k :: 0 <= i < |qs| && k != "" && HasCode(qs[i], k) ==> k in m)
  {
    if qs != [] {
      var n := |qs| - 1;
      FileQuotesFiled(qs[..n]);
      FileQuotesUnfold(qs);
      forall i, k | 0 <= i < |qs| && k != "" && HasCode(qs[i], k)
        ensures k in FileQuotes(qs)
      {
        if i < n {
          assert qs[i] == qs[..n][i];
        }
      }
    }
  }

  /** The quote filed under a code is the last one with that code. */
  lemma {:induction false} FileQuotesLastWins(qs: seq<Option<StockQuote>>, k: string)
    requires k in FileQuotes(qs)
    ensures exists i :: 0 <= i < |qs| && qs[i] == Some(FileQuotes(qs)[k]) &&
              forall j :: i < j < |qs| ==> !HasCode(qs[j], k)
  {
    var n := |qs| - 1;
    var pre := qs[..n];
    var m := FileQuotes(qs);
    FileQuotesUnfold(qs);
    FileQuotesFiled(qs);
    if HasCode(qs[n], k) {
      assert qs[n] == Some(m[k]);
    } else {
      FileQuotesLastWins(pre, k);
      var i :| 0 <= i < |pre| && pre[i] == Some(m[k]) && forall j :: i < j < |pre| ==> !HasCode(pre[j], k);
      assert qs[i] == pre[i];
      forall j | i < j < |qs|
        ensures !HasCode(qs[j], k)
      {
        if j < n {
          assert qs[j] == pre[j];
        }
      }
    }
  }

  /** One more line of the parsing loop. */
  lemma TencentStep(ls: seq<string>, i: nat, parse: string -> Option<real>, now: string, q: Option<StockQuote>)
    requires i < |ls| && q == ParseTencentLine(ls[i], parse, now)
    ensures var m := TencentQuotes(ls[..i], parse, now);
            TencentQuotes(ls[..i + 1], parse, now) == if q.Some? && q.value.code != "" then m[q.value.code := q.value] else m
  {
    var qs := ParseLines(ls[..i + 1], parse, now);
    assert ls[..i + 1][..i] == ls[..i];
    assert qs[..i] == ParseLines(ls[..i], parse, now);
    FileQuotesUnfold(qs);
  }

  /**
   * `_fetch_tencent_quotes`: `lines` are the response's lines, `None` when
   * the request failed or returned no text.
   */
  method FetchTencentQuotes(codes: seq<string>, lines: Option<seq<string>>, parse: string -> Option<real>, now: string)
    returns (out: map<string, StockQuote>)
    ensures out == if QueryCodes(codes) == [] || lines.None? then map[] else TencentQuotes(lines.value, parse, now)
  {
    var query := BuildQueryCodes(codes);
    if query == [] || lines.None? {
      return map[];
    }
    var ls := lines.value;
    out := map[];
    for i := 0 to |ls|
      invariant out == TencentQuotes(ls[..i], parse, now)
    {
      var q := ParseTencentLine(ls[i], parse, now);
      TencentStep(ls, i, parse, now, q);
      if q.None? {
        continue;
      }
      if q.value.code != "" {
        out := out[q.value.code := q.value];
      }
    }
    assert ls[..|ls|] == ls;
  }

  // ---------------------------------------------------------------------
  // The local quote map

  /** `_safe_float`: `float(v)`, `None` on any failure. */
  function SafeFloat(v: Json, parse: string -> Option<real>): Option<real> {
    ToFloat(v, parse)
  }

  /**
   * The quote the map's `items` give for `base`: none unless its entry is
   * a dict whose change parses, or whose price and positive previous close
   * do.
   */
  function MapQuote(items: Json, base: string, parse: string -> Option<real>, now: string): Option<StockQuote> {
    if !items.Obj? || base !in items.fields || !items.fields[base].Obj? then None
    else
      var f := items.fields[base].fields;
      var name := Strip(StrOf(Get(f, "name", Str(""))));
      var price := SafeFloat(Get(f, "price", Num(0.0, "0")), parse);
      var prev := SafeFloat(Get(f, "prev_close", Num(0.0, "0")), parse);
      var pct0 := SafeFloat(Get(f, "change_pct", Num(0.0, "0")), parse);
      var pct := if pct0.None? && price.Some? && prev.Some? && prev.value > 0.0
                 then Some(ChangePct(price.value, prev.value)) else pct0;
      if pct.None? then None
      else
        var ts := Get(f, "ts", Null);
        Some(StockQuote(base, name, price.GetOr(0.0), prev.GetOr(0.0), pct.value, if Truthy(ts) then StrOf(ts) else now))
  }

  /** What `_fetch_quotes_from_map(codes)` returns. */
  function MapQuotes(codes: seq<string>, items: Json, parse: string -> Option<real>, now: string): map<string, StockQuote> {
    if codes == [] then map[]
    else
      var m := MapQuotes(codes[..|codes| - 1], items, parse, now);
      var base := StripPrefix(codes[|codes| - 1]);
      var q := MapQuote(items, base, parse, now);
      if q.Some? then m[base := q.value] else m
  }

  /** The normalised input codes. */
  function Bases(codes: seq<string>): (r: seq<string>)
    ensures |r| == |codes| && forall i :: 0 <= i < |codes| ==> r[i] == StripPrefix(codes[i])
  {
    if codes == [] then [] else Bases(codes[..|codes| - 1]) + [StripPrefix(codes[|codes| - 1])]
  }

  /** The map's quotes are exactly those of the normalised input codes that have one. */
  lemma {:induction false} MapQuotesSpec(codes: seq<string>, items: Json, parse: string -> Option<real>, now: string)
    ensures var m := MapQuotes(codes, items, parse, now);
            (forall b :: b in m <==> b in Bases(codes) && MapQuote(items, b, parse, now).Some?) &&
            (forall b :: b in m ==> m[b] == MapQuote(items, b, parse, now).value && m[b].code == b)
  {
    if codes != [] {
      var n := |codes| - 1;
      MapQuotesSpec(codes[..n], items, parse, now);
      assert Bases(codes) == Bases(codes[..n]) + [StripPrefix(codes[n])];
    }
  }

  /** `_fetch_quotes_from_map`, `items` being the map document's `items`. */
  method FetchQuotesFromMap(codes: seq<string>, items: Json, parse: string -> Option<real>, now: string)
    returns (out: map<string, StockQuote>)
    ensures out == MapQuotes(codes, items, parse, now)
  {
    out := map[];
    for i := 0 to |codes|
      invariant out == MapQuotes(codes[..i], items, parse, now)
    {
      assert codes[..i + 1][..i] == codes[..i];
      var base := StripPrefix(codes[i]);
      var q := MapQuote(items, base, parse, now);
      if q.None? {
        continue;
      }
      out := out[base := q.value];
    }
    assert codes[..|codes|] == codes;
  }

  // ---------------------------------------------------------------------
  // fetch_stock_quotes

  /** The stripped, non-blank input codes. */
  function CleanCodes(codes: seq<string>): (r: seq<string>)
    ensures |r| <= |codes|
    ensures forall k :: 0 <= k < |r| ==> r[k] != "" && r[k] == Strip(r[k])
  {
    if codes == [] then []
    else
      var c := Strip(codes[|codes| - 1]);
      StripIdempotent(codes[|codes| - 1]);
      CleanCodes(codes[..|codes| - 1]) + (if c != "" then [c] else [])
  }

  /**
   * What `fetch_stock_quotes(codes)` returns: the map's quotes when live
   * data is off; otherwise the live quotes, with the map filling the codes
   * they miss when there are fewer live quotes than codes.
   */
  function StockQuotesOf(codes: seq<string>, useReal: bool, lines: Option<seq<string>>, items: Json,
                         parse: string -> Option<real>, now: string): map<string, StockQuote> {
    var cs := CleanCodes(codes);
    if cs == [] then map[]
    else if !useReal then MapQuotes(cs, items, parse, now)
    else
      var live := if QueryCodes(cs) == [] || lines.None? then map[] else TencentQuotes(lines.value, parse, now);
      if |live| < |cs| then MapQuotes(cs, items, parse, now) + live else live
  }

  /**
   * The merge never overwrites a live quote, and takes from the map only
   * the codes the live quotes lack.
   */
  lemma FetchStockQuotesSpec(codes: seq<string>, lines: Option<seq<string>>, items: Json,
                             parse: string -> Option<real>, now: string)
    requires CleanCodes(codes) != []
    ensures var cs := CleanCodes(codes);
            var live := if QueryCodes(cs) == [] || lines.None? then map[] else TencentQuotes(lines.value, parse, now);
            var fallback := MapQuotes(cs, items, parse, now);
            var r := StockQuotesOf(codes, true, lines, items, parse, now);
            (forall k :: k in live ==> k in r && r[k] == live[k]) &&
            (forall k :: k in r && k !in live ==> |live| < |cs| && k in fallback && r[k] == fallback[k]) &&
            (|live| < |cs| ==> forall k :: k in fallback ==> k in r)
  {
  }

  /** `fetch_stock_quotes`: live lines are the quote service's response. */
  method FetchStockQuotes(codes: seq<string>, useReal: bool, lines: Option<seq<string>>, items: Json,
                          parse: string -> Option<real>, now: string) returns (out: map<string, StockQuote>)
    ensures out == StockQuotesOf(codes, useReal, lines, items, parse, now)
  {
    var cs := CleanCodes(codes);
    if cs == [] {
      return map[];
    }
    if !useReal {
      out := FetchQuotesFromMap(cs, items, parse, now);
      return;
    }
    out := FetchTencentQuotes(cs, lines, parse, now);
    if |out| < |cs| {
      var fallback := FetchQuotesFromMap(cs, items, parse, now);
      out := FillMissing(out, fallback);
    }
  }

  /** The `setdefault` loop: the fallback's entries for the keys `live` lacks. */
  method FillMissing(live: map<string, StockQuote>, fallback: map<string, StockQuote>) returns (out: map<string, StockQuote>)
    ensures out == fallback + live
  {
    out := live;
    var rest := fallback.Keys;
    while rest != {}
      invariant rest <= fallback.Keys
      invariant forall k :: k in out <==> k in live || (k in fallback && k !in rest)
      invariant forall k :: k in out ==> out[k] == if k in live then live[k] else fallback[k]
      decreases |rest|
    {
      var k :| k in rest;
      if k !in out {
        out := out[k := fallback[k]];
      }
      rest := rest - {k};
    }
    assert out == fallback + live;
  }
}
