/**
 * The watchlist: `watchlist.json`, `{"items": [code, ...], "updated_at": ...}`.
 * Reading it gives the stripped, non-blank codes without repeats, in order
 * of first appearance; adding appends a code not yet listed; removing
 * rewrites the list without that code and without blank entries.
 */
module Watchlist {
  import opened Wrappers
  import opened Text
  import opened Seqs
  import opened Json

  /** The document; `items` holds whatever JSON values the file has. */
  datatype WatchDoc = WatchDoc(items: seq<Json>, updatedAt: Option<string>)

  /** `str(x).strip()`. */
  function CodeOf(x: Json): string {
    Strip(StrOf(x))
  }

  /** `[str(x).strip() for x in items]`. */
  function Cleaned(items: seq<Json>): (r: seq<string>)
    ensures |r| == |items|
    ensures forall k :: 0 <= k < |r| ==> r[k] == CodeOf(items[k])
  {
    seq(|items|, k requires 0 <= k < |items| => CodeOf(items[k]))
  }

  /** `watchlist_list`: each non-blank code the first time it appears. */
  function Listed(items: seq<Json>): seq<string> {
    if items == [] then []
    else
      var pre := Listed(items[..|items| - 1]);
      var c := CodeOf(items[|items| - 1]);
      if c == "" || c in pre then pre else pre + [c]
  }

  /**
   * The list holds exactly the non-blank codes of the file, each once and
   * stripped.
   */
  lemma {:induction false} ListedSpec(items: seq<Json>)
    ensures Distinct(Listed(items))
    ensures forall x :: x in Listed(items) <==> x != "" && x in Cleaned(items)
    ensures forall k :: 0 <= k < |Listed(items)| ==> Strip(Listed(items)[k]) == Listed(items)[k]
  {
    if items != [] {
      var pre := items[..|items| - 1];
      var x := items[|items| - 1];
      ListedSpec(pre);
      StripIdempotent(StrOf(x));
      assert Cleaned(items) == Cleaned(pre) + [CodeOf(x)];
      var l := Listed(pre);
      if CodeOf(x) != "" && CodeOf(x) !in l {
        forall i, j | 0 <= i < j < |l + [CodeOf(x)]|
          ensures (l + [CodeOf(x)])[i] != (l + [CodeOf(x)])[j]
        {
          if j == |l| {
            assert (l + [CodeOf(x)])[i] in l;
          }
        }
      }
    }
  }

  /** Codes keep the place of their first appearance: more entries only add to the end of the list. */
  lemma {:induction false} ListedPrefix(a: seq<Json>, b: seq<Json>)
    ensures Listed(a) <= Listed(a + b)
  {
    if b == [] {
      assert a + b == a;
    } else {
      var b' := b[..|b| - 1];
      assert (a + b)[..|a + b| - 1] == a + b';
      ListedPrefix(a, b');
    }
  }

  /** A list already clean (stripped, non-blank, no repeats) reads back as itself. */
  lemma {:induction false} ListedClean(codes: seq<string>)
    requires Distinct(codes)
    requires forall k :: 0 <= k < |codes| ==> codes[k] != "" && Strip(codes[k]) == codes[k]
    ensures Listed(Strs(codes)) == codes
  {
    if codes != [] {
      var pre := codes[..|codes| - 1];
      assert Strs(codes)[..|codes| - 1] == Strs(pre);
      ListedClean(pre);
      assert codes[|codes| - 1] !in pre;
      assert codes == pre + [codes[|codes| - 1]];
    }
  }

  /** The codes as JSON strings, as `watchlist_remove` writes them. */
  function Strs(codes: seq<string>): (r: seq<Json>)
    ensures |r| == |codes|
    ensures forall k :: 0 <= k < |r| ==> r[k] == Str(codes[k])
  {
    seq(|codes|, k requires 0 <= k < |codes| => Str(codes[k]))
  }

  /** `watchlist_add`'s edit of the items: `c` is appended unless some entry already strips to it. */
  function AddedItems(items: seq<Json>, c: string): seq<Json> {
    if c in Cleaned(items) then items else items + [Str(c)]
  }

  /**
   * Adding a non-blank stripped code lists it: at the end when it is new,
   * otherwise the list is unchanged; adding it again changes nothing more.
   */
  lemma AddedSpec(items: seq<Json>, c: string)
    requires c != "" && Strip(c) == c
    ensures Listed(AddedItems(items, c)) == if c in Listed(items) then Listed(items) else Listed(items) + [c]
    ensures c in Listed(AddedItems(items, c))
    ensures AddedItems(AddedItems(items, c), c) == AddedItems(items, c)
  {
    ListedSpec(items);
    var a := AddedItems(items, c);
    if c !in Cleaned(items) {
      assert a[..|a| - 1] == items;
      assert Cleaned(a) == Cleaned(items) + [c];
    }
  }

  /** `watchlist_remove`'s new items: the stripped entries, without blanks and without `c`. */
  function RemovedItems(items: seq<Json>, c: string): seq<Json> {
    if items == [] then []
    else
      var pre := RemovedItems(items[..|items| - 1], c);
      var x := CodeOf(items[|items| - 1]);
      if x != "" && x != c then pre + [Str(x)] else pre
  }

  function NotCode(c: string): string -> bool {
    x => x != c
  }

  /** Removing drops the code from the list and keeps the order of every other code. */
  lemma {:induction false} RemovedSpec(items: seq<Json>, c: string)
    ensures Listed(RemovedItems(items, c)) == Filter(Listed(items), NotCode(c))
    ensures c !in Listed(RemovedItems(items, c))
  {
    if items != [] {
      var pre := items[..|items| - 1];
      var x := CodeOf(items[|items| - 1]);
      RemovedSpec(pre, c);
      var l := Listed(pre);
      FilterConcat(l, [x], NotCode(c));
      if x != "" && x != c {
        var r := RemovedItems(items, c);
        assert r[..|r| - 1] == RemovedItems(pre, c);
        StripIdempotent(StrOf(items[|items| - 1]));
        FilterMember(l, NotCode(c), x);
      } else if x !in l && x != "" {
        assert Filter(l, NotCode(c)) + [] == Filter(l, NotCode(c));
      }
    }
    FilterSatisfies(Listed(items), NotCode(c));
    FilterMember(Listed(items), NotCode(c), c);
  }

  /** Removing twice is removing once. */
  lemma {:induction false} RemovedTwice(items: seq<Json>, c: string)
    ensures RemovedItems(RemovedItems(items, c), c) == RemovedItems(items, c)
  {
    if items != [] {
      var pre := items[..|items| - 1];
      var x := CodeOf(items[|items| - 1]);
      RemovedTwice(pre, c);
      if x != "" && x != c {
        var r := RemovedItems(items, c);
        assert r[..|r| - 1] == RemovedItems(pre, c);
        StripIdempotent(StrOf(items[|items| - 1]));
      }
    }
  }

  /** `watchlist.json`. */
  class WatchlistFile {
    var doc: WatchDoc

    /** A missing file reads as an empty list. */
    constructor ()
      ensures doc == WatchDoc([], None)
    {
      doc := WatchDoc([], None);
    }

    /** `watchlist_list`: one pass with a `seen` set. */
    method List() returns (out: seq<string>)
      ensures out == Listed(doc.items)
    {
      var items := doc.items;
      var seen: set<string> := {};
      out := [];
      var i := 0;
      while i < |items|
        invariant 0 <= i <= |items|
        invariant out == Listed(items[..i])
        invariant seen == set x | x in out
      {
        assert items[..i + 1][..i] == items[..i];
        var code := Strip(StrOf(items[i]));
        if code == "" || code in seen {
          i := i + 1;
          continue;
        }
        seen := seen + {code};
        out := out + [code];
        i := i + 1;
      }
      assert items[..i] == items;
    }

    /** `watchlist_add`: a blank code writes nothing; otherwise the stamp is refreshed and a new code appended. */
    method Add(code: string, now: string) returns (r: WatchDoc)
      modifies this
      ensures Strip(code) == "" ==> doc == old(doc)
      ensures Strip(code) != "" ==> doc == WatchDoc(AddedItems(old(doc.items), Strip(code)), Some(now))
      ensures r == doc
    {
      var c := Strip(code);
      if c == "" {
        return doc;
      }
      var items := doc.items;
      var present := false;
      var i := 0;
      while i < |items|
        invariant 0 <= i <= |items|
        invariant present <==> c in Cleaned(items)[..i]
      {
        assert Cleaned(items)[..i + 1] == Cleaned(items)[..i] + [Cleaned(items)[i]];
        if Strip(StrOf(items[i])) == c {
          present := true;
        }
        i := i + 1;
      }
      assert Cleaned(items)[..i] == Cleaned(items);
      if !present {
        items := items + [Str(c)];
      }
      doc := WatchDoc(items, Some(now));
      r := doc;
    }

    /** `watchlist_remove`: a blank code writes nothing; otherwise the list is rewritten without it. */
    method Remove(code: string, now: string) returns (r: WatchDoc)
      modifies this
      ensures Strip(code) == "" ==> doc == old(doc)
      ensures Strip(code) != "" ==> doc == WatchDoc(RemovedItems(old(doc.items), Strip(code)), Some(now))
      ensures r == doc
    {
      var c := Strip(code);
      if c == "" {
        return doc;
      }
      doc := WatchDoc(RemovedItems(doc.items, c), Some(now));
      r := doc;
    }
  }
}
