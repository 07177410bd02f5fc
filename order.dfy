/** List filtering as Python's `[x for x in s if p(x)]`, defined from the end so that a left-to-right loop can keep it as an invariant. */
module Seqs {

  function Filter<T>(s: seq<T>, p: T -> bool): (r: seq<T>)
    ensures |r| <= |s|
  {
    if s == [] then [] else Filter(s[..|s| - 1], p) + (if p(s[|s| - 1]) then [s[|s| - 1]] else [])
  }

  /** Everything a filter keeps satisfies its predicate. */
  lemma {:induction false} FilterSatisfies<T>(s: seq<T>, p: T -> bool)
    ensures forall k :: 0 <= k < |Filter(s, p)| ==> p(Filter(s, p)[k])
  {
    if s != [] {
      FilterSatisfies(s[..|s| - 1], p);
    }
  }

  /** One more element of a prefix: the step of a left-to-right filtering loop. */
  lemma FilterPrefixStep<T>(s: seq<T>, i: nat, p: T -> bool)
    requires i < |s|
    ensures Filter(s[..i + 1], p) == Filter(s[..i], p) + (if p(s[i]) then [s[i]] else [])
  {
    assert s[..i + 1][..i] == s[..i];
  }

  lemma {:induction false} FilterConcat<T>(a: seq<T>, b: seq<T>, p: T -> bool)
    ensures Filter(a + b, p) == Filter(a, p) + Filter(b, p)
  {
    if b == [] {
      assert a + b == a;
    } else {
      var b' := b[..|b| - 1];
      assert (a + b)[..|a + b| - 1] == a + b';
      FilterConcat(a, b', p);
    }
  }

  /** An element is kept exactly when it is in the input and satisfies `p`. */
  lemma {:induction false} FilterMember<T>(s: seq<T>, p: T -> bool, x: T)
    ensures x in Filter(s, p) <==> x in s && p(x)
  {
    if s != [] {
      FilterMember(s[..|s| - 1], p, x);
      assert s == s[..|s| - 1] + [s[|s| - 1]];
    }
  }

  /** Keeping everything is the identity. */
  lemma {:induction false} FilterAll<T>(s: seq<T>, p: T -> bool)
    requires forall k :: 0 <= k < |s| ==> p(s[k])
    ensures Filter(s, p) == s
  {
    if s != [] {
      FilterAll(s[..|s| - 1], p);
    }
  }

  /** Keeping nothing gives the empty list. */
  lemma {:induction false} FilterNone<T>(s: seq<T>, p: T -> bool)
    requires forall k :: 0 <= k < |s| ==> !p(s[k])
    ensures Filter(s, p) == []
  {
    if s != [] {
      FilterNone(s[..|s| - 1], p);
    }
  }

  /** Two predicates that agree on every element filter alike. */
  lemma {:induction false} FilterSame<T>(s: seq<T>, p: T -> bool, q: T -> bool)
    requires forall k :: 0 <= k < |s| ==> p(s[k]) == q(s[k])
    ensures Filter(s, p) == Filter(s, q)
  {
    if s != [] {
      FilterSame(s[..|s| - 1], p, q);
    }
  }

  /** Filtering twice with the same predicate changes nothing more. */
  lemma FilterIdempotent<T>(s: seq<T>, p: T -> bool)
    ensures Filter(Filter(s, p), p) == Filter(s, p)
  {
    FilterSatisfies(s, p);
    FilterAll(Filter(s, p), p);
  }

  /** What a filter keeps and what its complement keeps add up to the whole list. */
  lemma {:induction false} FilterComplement<T>(s: seq<T>, p: T -> bool, q: T -> bool)
    requires forall k :: 0 <= k < |s| ==> q(s[k]) == !p(s[k])
    ensures |Filter(s, p)| + |Filter(s, q)| == |s|
  {
    if s != [] {
      FilterComplement(s[..|s| - 1], p, q);
    }
  }

  /** Moving an element to the end does not change the filter when nothing kept follows it. */
  lemma FilterSwapLast<T>(lo: seq<T>, x: T, hi: seq<T>, p: T -> bool)
    requires p(x) ==> Filter(hi, p) == []
    ensures Filter(lo + [x] + hi, p) == Filter(lo + hi + [x], p)
  {
    FilterConcat(lo + [x], hi, p);
    FilterConcat(lo, [x], p);
    FilterConcat(lo + hi, [x], p);
    FilterConcat(lo, hi, p);
    if !p(x) {
      FilterNone([x], p);
    }
  }

  predicate Distinct<T(==)>(s: seq<T>) {
    forall i, j :: 0 <= i < j < |s| ==> s[i] != s[j]
  }

  lemma {:induction false} DistinctMultiplicity<T>(s: seq<T>, x: T)
    requires Distinct(s)
    ensures multiset(s)[x] <= 1
  {
    if s != [] {
      var s' := s[..|s| - 1];
      assert s == s' + [s[|s| - 1]];
      DistinctMultiplicity(s', x);
      if s[|s| - 1] == x {
        assert x !in s';
      }
    }
  }

  /** A permutation of a list without duplicates has none either. */
  lemma PermutationDistinct<T>(a: seq<T>, b: seq<T>)
    requires multiset(a) == multiset(b) && Distinct(a)
    ensures Distinct(b)
  {
    forall i, j | 0 <= i < j < |b|
      ensures b[i] != b[j]
    {
      if b[i] == b[j] {
        var x := b[i];
        assert b == b[..j] + b[j..];
        assert x in b[..j] && x in b[j..];
        assert multiset(b)[x] == multiset(b[..j])[x] + multiset(b[j..])[x];
        DistinctMultiplicity(a, x);
        assert false;
      }
    }
  }

  /** Dropping an element the filter drops changes nothing. */
  lemma FilterDropMiddle<T>(lo: seq<T>, x: T, hi: seq<T>, p: T -> bool)
    requires !p(x)
    ensures Filter(lo + [x] + hi, p) == Filter(lo + hi, p)
  {
    FilterSwapLast(lo, x, hi, p);
    FilterConcat(lo + hi, [x], p);
    FilterNone([x], p);
    assert Filter(lo + hi, p) + [] == Filter(lo + hi, p);
  }

  /** Python `sum(1 for x in s if p(x))`. */
  function Count<T>(s: seq<T>, p: T -> bool): nat {
    |Filter(s, p)|
  }
}

/**
 * The orders the code gets from comparing Python strings (`<`, `<=`,
 * `sorted`) and tuples of strings (`sort(key=lambda x: (a, b))`), and a
 * stable sort by such a key.
 */
module Order {
  import opened Seqs

  /** Python `a <= b` on `str`: lexicographic by code point. */
  predicate LexLe(a: string, b: string) {
    a == [] || (b != [] && (a[0] < b[0] || (a[0] == b[0] && LexLe(a[1..], b[1..]))))
  }

  /** Python `a < b` on `str`. */
  predicate Before(a: string, b: string) {
    LexLe(a, b) && a != b
  }

  lemma {:induction false} LexLeRefl(a: string)
    ensures LexLe(a, a)
  {
    if a != [] {
      LexLeRefl(a[1..]);
    }
  }

  lemma {:induction false} LexLeTotal(a: string, b: string)
    ensures LexLe(a, b) || LexLe(b, a)
  {
    if a != [] && b != [] && a[0] == b[0] {
      LexLeTotal(a[1..], b[1..]);
    }
  }

  lemma {:induction false} LexLeAntisym(a: string, b: string)
    requires LexLe(a, b) && LexLe(b, a)
    ensures a == b
  {
    if a != [] && b != [] {
      LexLeAntisym(a[1..], b[1..]);
      assert a == [a[0]] + a[1..] && b == [b[0]] + b[1..];
    }
  }

  lemma {:induction false} LexLeTrans(a: string, b: string, c: string)
    requires LexLe(a, b) && LexLe(b, c)
    ensures LexLe(a, c)
  {
    if a != [] && b != [] && c != [] && a[0] == b[0] && b[0] == c[0] {
      LexLeTrans(a[1..], b[1..], c[1..]);
    }
  }

  /** Python `a <= b` on tuples of strings. */
  predicate KeysLe(a: seq<string>, b: seq<string>) {
    a == [] || (b != [] && ((a[0] != b[0] && LexLe(a[0], b[0])) || (a[0] == b[0] && KeysLe(a[1..], b[1..]))))
  }

  lemma {:induction false} KeysLeRefl(a: seq<string>)
    ensures KeysLe(a, a)
  {
    if a != [] {
      KeysLeRefl(a[1..]);
    }
  }

  lemma {:induction false} KeysLeTotal(a: seq<string>, b: seq<string>)
    ensures KeysLe(a, b) || KeysLe(b, a)
  {
    if a != [] && b != [] {
      if a[0] == b[0] {
        KeysLeTotal(a[1..], b[1..]);
      } else {
        LexLeTotal(a[0], b[0]);
      }
    }
  }

  lemma {:induction false} KeysLeAntisym(a: seq<string>, b: seq<string>)
    requires KeysLe(a, b) && KeysLe(b, a)
    ensures a == b
  {
    if a != [] && b != [] {
      if a[0] == b[0] {
        KeysLeAntisym(a[1..], b[1..]);
        assert a == [a[0]] + a[1..] && b == [b[0]] + b[1..];
      } else {
        LexLeAntisym(a[0], b[0]);
      }
    }
  }

  lemma {:induction false} KeysLeTrans(a: seq<string>, b: seq<string>, c: seq<string>)
    requires KeysLe(a, b) && KeysLe(b, c)
    ensures KeysLe(a, c)
  {
    if a != [] && b != [] && c != [] {
      if a[0] == b[0] && b[0] == c[0] {
        KeysLeTrans(a[1..], b[1..], c[1..]);
      } else if a[0] == b[0] {
      } else if b[0] == c[0] {
      } else {
        LexLeTrans(a[0], b[0], c[0]);
        if a[0] == c[0] {
          LexLeAntisym(a[0], b[0]);
        }
      }
    }
  }

  /** On one-element keys the tuple order is the string order. */
  lemma KeysLeSingle(a: string, b: string)
    ensures KeysLe([a], [b]) <==> LexLe(a, b)
  {
    if a == b {
      LexLeRefl(a);
    }
  }

  /** On two-element keys: first component, then second. */
  lemma KeysLePair(a1: string, a2: string, b1: string, b2: string)
    ensures KeysLe([a1, a2], [b1, b2]) <==> (a1 != b1 && LexLe(a1, b1)) || (a1 == b1 && LexLe(a2, b2))
  {
    assert [a1, a2][1..] == [a2] && [b1, b2][1..] == [b2];
    KeysLeSingle(a2, b2);
  }

  predicate SortedBy<T>(s: seq<T>, key: T -> seq<string>) {
    forall i, j :: 0 <= i < j < |s| ==> KeysLe(key(s[i]), key(s[j]))
  }

  /** Where `InsertLast` puts `x`: after the last element whose key is not above `x`'s. */
  function InsertPos<T>(t: seq<T>, x: T, key: T -> seq<string>): (p: nat)
    ensures p <= |t|
    ensures forall j :: p <= j < |t| ==> !KeysLe(key(t[j]), key(x))
    ensures p > 0 ==> KeysLe(key(t[p - 1]), key(x))
  {
    if t == [] then 0
    else if KeysLe(key(t[|t| - 1]), key(x)) then |t|
    else InsertPos(t[..|t| - 1], x, key)
  }

  /** Inserts `x` after every element with a key not above its own (so after equal keys). */
  function InsertLast<T>(t: seq<T>, x: T, key: T -> seq<string>): (r: seq<T>)
    ensures |r| == |t| + 1
    ensures r[InsertPos(t, x, key)] == x
    ensures forall k :: 0 <= k < InsertPos(t, x, key) ==> r[k] == t[k]
    ensures forall k :: InsertPos(t, x, key) < k < |r| ==> r[k] == t[k - 1]
  {
    var p := InsertPos(t, x, key);
    t[..p] + [x] + t[p..]
  }

  /** Python's stable `sorted(s, key=key)`: insertion sort, each element placed after equal keys. */
  function SortBy<T>(s: seq<T>, key: T -> seq<string>): (r: seq<T>)
    ensures |r| == |s|
  {
    if s == [] then [] else InsertLast(SortBy(s[..|s| - 1], key), s[|s| - 1], key)
  }

  lemma InsertLastSorted<T>(t: seq<T>, x: T, key: T -> seq<string>)
    requires SortedBy(t, key)
    ensures SortedBy(InsertLast(t, x, key), key)
    ensures forall i :: 0 <= i < InsertPos(t, x, key) ==> KeysLe(key(t[i]), key(x))
  {
    var p := InsertPos(t, x, key);
    var r := InsertLast(t, x, key);
    forall i | 0 <= i < p
      ensures KeysLe(key(t[i]), key(x))
    {
      if i < p - 1 {
        KeysLeTrans(key(t[i]), key(t[p - 1]), key(x));
      }
    }
    forall j | p <= j < |t|
      ensures KeysLe(key(x), key(t[j]))
    {
      KeysLeTotal(key(x), key(t[j]));
    }
    forall i, j | 0 <= i < j < |r|
      ensures KeysLe(key(r[i]), key(r[j]))
    {
      if i < p && j == p {
      } else if i < p && j > p {
        assert r[j] == t[j - 1];
        KeysLeTrans(key(t[i]), key(x), key(t[j - 1]));
      } else if i == p {
        assert r[j] == t[j - 1];
      } else if i > p {
        assert r[i] == t[i - 1] && r[j] == t[j - 1];
      }
    }
  }

  /** The sort's result is ordered by `key`. */
  lemma {:induction false} SortBySorted<T>(s: seq<T>, key: T -> seq<string>)
    ensures SortedBy(SortBy(s, key), key)
  {
    if s != [] {
      SortBySorted(s[..|s| - 1], key);
      InsertLastSorted(SortBy(s[..|s| - 1], key), s[|s| - 1], key);
    }
  }

  lemma InsertLastPermutation<T>(t: seq<T>, x: T, key: T -> seq<string>)
    ensures multiset(InsertLast(t, x, key)) == multiset(t) + multiset{x}
  {
    var p := InsertPos(t, x, key);
    assert t == t[..p] + t[p..];
    assert InsertLast(t, x, key) == t[..p] + [x] + t[p..];
  }

  /** The sort's result is a permutation of its input. */
  lemma {:induction false} SortByPermutation<T>(s: seq<T>, key: T -> seq<string>)
    ensures multiset(SortBy(s, key)) == multiset(s)
  {
    if s != [] {
      var s' := s[..|s| - 1];
      var x := s[|s| - 1];
      assert s == s' + [x];
      assert multiset(s) == multiset(s') + multiset{x};
      SortByPermutation(s', key);
      InsertLastPermutation(SortBy(s', key), x, key);
    }
  }

  /** The elements whose key is `k`. */
  function KeyIs<T>(key: T -> seq<string>, k: seq<string>): T -> bool {
    x => key(x) == k
  }

  /** The sort is stable: the elements with any one key keep their input order. */
  lemma {:induction false} SortByStable<T>(s: seq<T>, key: T -> seq<string>, k: seq<string>)
    ensures Filter(SortBy(s, key), KeyIs(key, k)) == Filter(s, KeyIs(key, k))
  {
    var p := KeyIs(key, k);
    if s != [] {
      var s' := s[..|s| - 1];
      var x := s[|s| - 1];
      assert s == s' + [x];
      var t := SortBy(s', key);
      var i := InsertPos(t, x, key);
      var lo, hi := t[..i], t[i..];
      assert t == lo + hi;
      assert SortBy(s, key) == lo + [x] + hi;
      SortByStable(s', key, k);
      if p(x) {
        InsertPosAfterEqualKeys(t, x, key);
        FilterNone(hi, p);
      }
      FilterSwapLast(lo, x, hi, p);
      FilterConcat(t, [x], p);
      FilterConcat(s', [x], p);
    }
  }

  /** Nothing after the insertion point has the inserted element's key. */
  lemma InsertPosAfterEqualKeys<T>(t: seq<T>, x: T, key: T -> seq<string>)
    ensures forall j :: 0 <= j < |t[InsertPos(t, x, key)..]| ==> !KeyIs(key, key(x))(t[InsertPos(t, x, key)..][j])
  {
    KeysLeRefl(key(x));
  }

  /** Appending to the input inserts into the sorted output. */
  lemma SortByAppend<T>(s: seq<T>, x: T, key: T -> seq<string>)
    ensures SortBy(s + [x], key) == InsertLast(SortBy(s, key), x, key)
  {
    assert (s + [x])[..|s + [x]| - 1] == s;
  }

  /**
   * When the input is already in key order, the sort returns it unchanged.
   */
  lemma {:induction false} SortByOfSorted<T>(s: seq<T>, key: T -> seq<string>)
    requires SortedBy(s, key)
    ensures SortBy(s, key) == s
  {
    if s != [] {
      var s' := s[..|s| - 1];
      SortByOfSorted(s', key);
      assert SortBy(s, key) == InsertLast(s', s[|s| - 1], key);
    }
  }

  /** The sorted list after an append is the old sorted list with the new element inserted. */
  lemma SortByAppendSplit<T>(s: seq<T>, x: T, key: T -> seq<string>)
    ensures var t := SortBy(s, key);
            var i := InsertPos(t, x, key);
            SortBy(s + [x], key) == t[..i] + [x] + t[i..] && t == t[..i] + t[i..]
  {
    var t := SortBy(s, key);
    var i := InsertPos(t, x, key);
    assert t == t[..i] + t[i..];
    SortByAppend(s, x, key);
  }

  /** Appending an element the filter drops changes nothing in the sorted, filtered list. */
  lemma FilterSortAppendDropped<T>(s: seq<T>, x: T, key: T -> seq<string>, p: T -> bool)
    requires !p(x)
    ensures Filter(SortBy(s + [x], key), p) == Filter(SortBy(s, key), p)
  {
    var t := SortBy(s, key);
    var i := InsertPos(t, x, key);
    SortByAppendSplit(s, x, key);
    FilterDropMiddle(t[..i], x, t[i..], p);
  }

  lemma InsertPosTailDropped<T>(s: seq<T>, x: T, key: T -> seq<string>, p: T -> bool)
    requires forall k :: 0 <= k < |s| && p(s[k]) ==> KeysLe(key(s[k]), key(x))
    ensures var t := SortBy(s, key);
            forall j :: InsertPos(t, x, key) <= j < |t| ==> !p(t[j])
  {
    var t := SortBy(s, key);
    SortByPermutation(s, key);
    forall j | InsertPos(t, x, key) <= j < |t|
      ensures !p(t[j])
    {
      assert t[j] in multiset(s);
      var k :| 0 <= k < |s| && s[k] == t[j];
    }
  }

  /**
   * Appending an element the filter keeps, whose key is not below any kept
   * element's key, puts it last in the sorted, filtered list.
   */
  lemma FilterSortAppendLast<T>(s: seq<T>, x: T, key: T -> seq<string>, p: T -> bool)
    requires p(x)
    requires forall k :: 0 <= k < |s| && p(s[k]) ==> KeysLe(key(s[k]), key(x))
    ensures Filter(SortBy(s + [x], key), p) == Filter(SortBy(s, key), p) + [x]
  {
    var t := SortBy(s, key);
    var i := InsertPos(t, x, key);
    SortByAppendSplit(s, x, key);
    var hi := t[i..];
    InsertPosTailDropped(s, x, key, p);
    FilterNone(hi, p);
    FilterSwapLast(t[..i], x, hi, p);
    FilterConcat(t[..i] + hi, [x], p);
  }

  /** An insertion point is fixed by a split into keys not above `x` and keys above it. */
  lemma {:induction false} InsertPosSplit<T>(a: seq<T>, b: seq<T>, x: T, key: T -> seq<string>)
    requires forall k :: 0 <= k < |a| ==> KeysLe(key(a[k]), key(x))
    requires forall k :: 0 <= k < |b| ==> !KeysLe(key(b[k]), key(x))
    ensures InsertPos(a + b, x, key) == |a|
  {
    if b == [] {
      assert a + b == a;
    } else {
      var b' := b[..|b| - 1];
      assert (a + b)[..|a + b| - 1] == a + b';
      InsertPosSplit(a, b', x, key);
    }
  }

  /** Filtering a sorted list commutes with inserting an element the filter keeps. */
  lemma FilterInsertLast<T>(t: seq<T>, x: T, key: T -> seq<string>, p: T -> bool)
    requires SortedBy(t, key) && p(x)
    ensures Filter(InsertLast(t, x, key), p) == InsertLast(Filter(t, p), x, key)
  {
    var i := InsertPos(t, x, key);
    InsertLastSorted(t, x, key);
    var lo, hi := Filter(t[..i], p), Filter(t[i..], p);
    forall k | 0 <= k < |lo|
      ensures KeysLe(key(lo[k]), key(x))
    {
      FilterMember(t[..i], p, lo[k]);
    }
    forall k | 0 <= k < |hi|
      ensures !KeysLe(key(hi[k]), key(x))
    {
      FilterMember(t[i..], p, hi[k]);
    }
    assert t == t[..i] + t[i..];
    FilterConcat(t[..i], t[i..], p);
    InsertPosSplit(lo, hi, x, key);
    assert InsertLast(t, x, key) == t[..i] + [x] + t[i..];
    FilterConcat(t[..i] + [x], t[i..], p);
    FilterConcat(t[..i], [x], p);
    assert (lo + hi)[..|lo|] == lo && (lo + hi)[|lo|..] == hi;
  }

  /** Sorting and then filtering is filtering and then sorting. */
  lemma {:induction false} SortByFilter<T>(s: seq<T>, key: T -> seq<string>, p: T -> bool)
    ensures SortBy(Filter(s, p), key) == Filter(SortBy(s, key), p)
  {
    if s != [] {
      var s' := s[..|s| - 1];
      var x := s[|s| - 1];
      assert s == s' + [x];
      SortByFilter(s', key, p);
      if !p(x) {
        assert Filter(s, p) == Filter(s', p);
        FilterSortAppendDropped(s', x, key, p);
      } else {
        assert Filter(s, p) == Filter(s', p) + [x];
        SortByAppend(Filter(s', p), x, key);
        assert SortBy(s, key) == InsertLast(SortBy(s', key), x, key);
        SortBySorted(s', key);
        FilterInsertLast(SortBy(s', key), x, key, p);
      }
    }
  }
}
