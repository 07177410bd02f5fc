/**
 * The fund-holdings map: a JSON document `{"items": {fund code: {"as_of":
 * ..., "holdings": [{"code": ..., "name": ..., "weight_pct": ...}, ...]}}}`.
 * Reading it keeps only the holding entries that are objects with a
 * non-blank stock code. The document is a parameter here; creating and
 * reading the file is not part of this model.
 */
module Holdings {
  import opened Wrappers
  import opened Text
  import opened Seqs
  import opened Json

  /** A holding entry worth keeping: an object whose `str(code).strip()` is non-empty. */
  predicate IsHolding(it: Json) {
    it.Obj? && Strip(StrOf(Get(it.fields, "code", Str("")))) != ""
  }

  /** The normalised holdings list: the kept entries of a list, in order and unchanged; anything else gives `[]`. */
  function NormalizedOf(items: Json): seq<Json> {
    if items.Arr? then Filter(items.items, IsHolding) else []
  }

  /**
   * A non-list gives nothing; a list keeps exactly its holding entries;
   * a list of holdings is kept whole; normalising twice is normalising once.
   */
  lemma NormalizedSpec(items: Json)
    ensures !items.Arr? ==> NormalizedOf(items) == []
    ensures forall k :: 0 <= k < |NormalizedOf(items)| ==> IsHolding(NormalizedOf(items)[k])
    ensures forall x :: x in NormalizedOf(items) <==> items.Arr? && x in items.items && IsHolding(x)
    ensures items.Arr? && (forall k :: 0 <= k < |items.items| ==> IsHolding(items.items[k])) ==>
              NormalizedOf(items) == items.items
    ensures NormalizedOf(Arr(NormalizedOf(items))) == NormalizedOf(items)
  {
    if items.Arr? {
      FilterSatisfies(items.items, IsHolding);
      forall x
        ensures x in NormalizedOf(items) <==> x in items.items && IsHolding(x)
      {
        FilterMember(items.items, IsHolding, x);
      }
      if forall k :: 0 <= k < |items.items| ==> IsHolding(items.items[k]) {
        FilterAll(items.items, IsHolding);
      }
      FilterIdempotent(items.items, IsHolding);
    }
  }

  /** `_normalize_holdings`: the kept entries, collected by a loop. */
  method NormalizeHoldings(items: Json) returns (out: seq<Json>)
    ensures out == NormalizedOf(items)
  {
    if !items.Arr? {
      return [];
    }
    var xs := items.items;
    out := [];
    var i := 0;
    while i < |xs|
      invariant 0 <= i <= |xs|
      invariant out == Filter(xs[..i], IsHolding)
    {
      FilterPrefixStep(xs, i, IsHolding);
      var it := xs[i];
      if it.Obj? {
        var code := Strip(StrOf(Get(it.fields, "code", Str(""))));
        if code != "" {
          out := out + [it];
        }
      }
      i := i + 1;
    }
    assert xs[..i] == xs;
  }

  /** A copy of a fund's entry whose `holdings` is replaced by its normalised list. */
  function Loaded(obj: map<string, Json>): Json {
    Obj(obj["holdings" := Arr(NormalizedOf(Get(obj, "holdings", Arr([]))))])
  }

  /** `load_holdings(code)` against the document `data`. */
  function LoadHoldingsOf(code: string, data: Json): Option<Json> {
    var c := Strip(code);
    if c == "" || !data.Obj? then None
    else
      var items := Get(data.fields, "items", Obj(map[]));
      if !items.Obj? then None
      else
        var obj := Get(items.fields, c, Null);
        if !obj.Obj? then None else Some(Loaded(obj.fields))
  }

  /**
   * A fund's entry is found exactly when the stripped code is non-empty and
   * the document's `items` object holds an object under it; the copy keeps
   * every other key and replaces `holdings` by the normalised list.
   */
  lemma LoadHoldingsSpec(code: string, data: Json)
    ensures var c := Strip(code);
            LoadHoldingsOf(code, data).Some? <==>
              c != "" && data.Obj? && Get(data.fields, "items", Obj(map[])).Obj? &&
              c in Get(data.fields, "items", Obj(map[])).fields &&
              Get(data.fields, "items", Obj(map[])).fields[c].Obj?
    ensures LoadHoldingsOf(code, data).Some? ==>
              var obj := Get(data.fields, "items", Obj(map[])).fields[Strip(code)].fields;
              var r := LoadHoldingsOf(code, data).value;
              r.Obj? && r.fields.Keys == obj.Keys + {"holdings"} &&
              (forall k :: k in obj && k != "holdings" ==> r.fields[k] == obj[k]) &&
              r.fields["holdings"] == Arr(NormalizedOf(Get(obj, "holdings", Arr([]))))
  {
  }

  /** Loading is stable: the loaded entry's own `holdings` normalises to itself. */
  lemma LoadHoldingsNormalized(code: string, data: Json)
    requires LoadHoldingsOf(code, data).Some?
    ensures var r := LoadHoldingsOf(code, data).value;
            r.Obj? && "holdings" in r.fields && NormalizedOf(r.fields["holdings"]) == r.fields["holdings"].items
  {
    var obj := Get(Get(data.fields, "items", Obj(map[])).fields, Strip(code), Null).fields;
    NormalizedSpec(Get(obj, "holdings", Arr([])));
  }

  /** The batch loader's lookup of one stripped code, written as `load_holdings_batch` does it. */
  function BatchEntry(c: string, data: Json): Option<Json> {
    var items := if data.Obj? then Get(data.fields, "items", Obj(map[])) else Obj(map[]);
    var obj := if items.Obj? then Get(items.fields, c, Null) else Null;
    if obj.Obj? then Some(Loaded(obj.fields)) else None
  }

  /** `load_holdings_batch(codes)`: the entries found, keyed by stripped code; a repeated code is looked up again. */
  function BatchOf(codes: seq<string>, data: Json): map<string, Json> {
    if codes == [] then map[]
    else
      var m := BatchOf(codes[..|codes| - 1], data);
      var c := Strip(codes[|codes| - 1]);
      var o := BatchEntry(c, data);
      if c == "" || o.None? then m else m[c := o.value]
  }

  /** For a stripped non-empty code the batch lookup and `load_holdings` agree. */
  lemma BatchEntryAgrees(c: string, data: Json)
    requires c != "" && Strip(c) == c
    ensures BatchEntry(c, data) == LoadHoldingsOf(c, data)
  {
  }

  /** Some input code strips to `c`. */
  predicate Requested(codes: seq<string>, c: string) {
    exists i :: 0 <= i < |codes| && Strip(codes[i]) == c
  }

  lemma RequestedStep(codes: seq<string>, c: string)
    requires codes != []
    ensures Requested(codes, c) <==> Requested(codes[..|codes| - 1], c) || Strip(codes[|codes| - 1]) == c
  {
    var pre := codes[..|codes| - 1];
    if Requested(pre, c) {
      var i :| 0 <= i < |pre| && Strip(pre[i]) == c;
      assert Strip(codes[i]) == c;
    }
    if Requested(codes, c) {
      var i :| 0 <= i < |codes| && Strip(codes[i]) == c;
      if i < |pre| {
        assert Strip(pre[i]) == c;
      }
    }
  }

  /**
   * The batch holds a code exactly when some input code strips to it and
   * `load_holdings` finds that fund, and then holds what `load_holdings`
   * returns.
   */
  lemma {:induction false} BatchSpec(codes: seq<string>, data: Json, c: string)
    ensures c in BatchOf(codes, data) <==> Requested(codes, c) && LoadHoldingsOf(c, data).Some?
    ensures c in BatchOf(codes, data) ==> BatchOf(codes, data)[c] == LoadHoldingsOf(c, data).value
  {
    if codes != [] {
      var n := |codes| - 1;
      BatchSpec(codes[..n], data, c);
      RequestedStep(codes, c);
      var d := Strip(codes[n]);
      StripIdempotent(codes[n]);
      if d != "" {
        BatchEntryAgrees(d, data);
      }
    }
  }

  /** `load_holdings_batch` as a loop filling a dictionary. */
  method LoadHoldingsBatch(codes: seq<string>, data: Json) returns (out: map<string, Json>)
    ensures out == BatchOf(codes, data)
  {
    var items := if data.Obj? then Get(data.fields, "items", Obj(map[])) else Obj(map[]);
    out := map[];
    var i := 0;
    while i < |codes|
      invariant 0 <= i <= |codes|
      invariant out == BatchOf(codes[..i], data)
    {
      assert codes[..i + 1][..i] == codes[..i];
      var c := Strip(codes[i]);
      if c == "" {
        i := i + 1;
        continue;
      }
      var obj := if items.Obj? then Get(items.fields, c, Null) else Null;
      if !obj.Obj? {
        i := i + 1;
        continue;
      }
      var holdings := NormalizeHoldings(Get(obj.fields, "holdings", Arr([])));
      out := out[c := Obj(obj.fields["holdings" := Arr(holdings)])];
      i := i + 1;
    }
    assert codes[..i] == codes;
  }
}
