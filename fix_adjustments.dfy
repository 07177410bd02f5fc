/**
 * The journal repair script. It replays the adjustments in (effective date,
 * creation time) order, keeping only a share count per code, and flags
 * every SELL that is larger than the running holding by more than the
 * tolerance, without applying it. It then rewrites the journal without the
 * flagged ids. Unlike the snapshot replay, which clamps such a SELL, this
 * replay refuses it.
 */
module FixAdjustments {
  import opened Seqs
  import opened Order
  import opened Journal
  import Snapshot

  /** The running state of the scan: shares per code, and the ids flagged so far. */
  datatype Check = Check(shares: map<string, real>, bad: seq<string>)

  /** `shares.get(code, 0.0)`. */
  function Held(shares: map<string, real>, code: string): real {
    if code in shares then shares[code] else 0.0
  }

  /** A SELL beyond the running holding: the entries the script flags. */
  predicate OverSold(st: Check, a: Adjustment) {
    a.kind == SELL && a.shares > Held(st.shares, a.code) + Snapshot.EPS
  }

  /** One entry of the scan: a BUY adds, a SELL subtracts or is flagged, anything else is skipped. */
  function Visit(st: Check, a: Adjustment): Check {
    var cur := Held(st.shares, a.code);
    if a.kind == BUY then st.(shares := st.shares[a.code := cur + a.shares])
    else if a.kind == SELL then
      if a.shares > cur + Snapshot.EPS then st.(bad := st.bad + [a.id])
      else st.(shares := st.shares[a.code := cur - a.shares])
    else st
  }

  /** the scan of a list of entries, in list order. */
  function CheckAll(s: seq<Adjustment>): Check {
    if s == [] then Check(map[], []) else Visit(CheckAll(s[..|s| - 1]), s[|s| - 1])
  }

  /** The scan of the journal, in replay order. */
  function Checked(items: seq<Adjustment>): Check {
    CheckAll(SortBy(items, SortKey))
  }

  /** The entries the rewrite keeps: those whose id was not flagged. */
  function Keep(bad: seq<string>): Adjustment -> bool {
    (a: Adjustment) => a.id !in bad
  }

  /** No two entries share an id. */
  predicate UniqueIds(s: seq<Adjustment>) {
    forall i, j :: 0 <= i < j < |s| ==> s[i].id != s[j].id
  }

  /** Flagged ids only accumulate: a prefix's flags start the whole list's. */
  lemma {:induction false} BadPrefix(s: seq<Adjustment>, k: nat)
    requires k <= |s|
    ensures CheckAll(s[..k]).bad <= CheckAll(s).bad
  {
    if k < |s| {
      var s' := s[..|s| - 1];
      assert s[..k] == s'[..k];
      BadPrefix(s', k);
    } else {
      assert s[..k] == s;
    }
  }

  /**
   * An id is flagged exactly when some entry with that id is a SELL beyond
   * the holding replayed up to it.
   */
  lemma {:induction false} FlaggedIff(s: seq<Adjustment>, x: string)
    ensures x in CheckAll(s).bad <==>
            exists j :: 0 <= j < |s| && s[j].id == x && OverSold(CheckAll(s[..j]), s[j])
  {
    if s != [] {
      var s' := s[..|s| - 1];
      var n := |s| - 1;
      FlaggedIff(s', x);
      assert s[..n] == s';
      forall j | 0 <= j < n
        ensures s[j] == s'[j] && s[..j] == s'[..j]
      {
      }
      if x in CheckAll(s).bad && x !in CheckAll(s').bad {
        assert s[n].id == x && OverSold(CheckAll(s[..n]), s[n]);
      }
      if exists j :: 0 <= j < |s| && s[j].id == x && OverSold(CheckAll(s[..j]), s[j]) {
        var j :| 0 <= j < |s| && s[j].id == x && OverSold(CheckAll(s[..j]), s[j]);
        if j == n {
          assert x in CheckAll(s).bad;
        } else {
          assert s'[j].id == x && OverSold(CheckAll(s'[..j]), s'[j]);
        }
      }
    }
  }

  /** With unique ids, an entry that is not beyond its holding is not flagged. */
  lemma NotOverSoldNotFlagged(s: seq<Adjustment>, k: nat)
    requires UniqueIds(s) && k < |s|
    requires !OverSold(CheckAll(s[..k]), s[k])
    ensures s[k].id !in CheckAll(s).bad
  {
    forall j | 0 <= j < |s| && s[j].id == s[k].id
      ensures !OverSold(CheckAll(s[..j]), s[j])
    {
      assert j == k;
    }
    FlaggedIff(s, s[k].id);
  }

  /**
   * When every BUY adds a non-negative number of shares, no holding ever
   * drops below minus the tolerance: a SELL is applied only when it fits.
   */
  lemma {:induction false} HoldingsFloor(s: seq<Adjustment>)
    requires forall a :: a in s && a.kind == BUY ==> a.shares >= 0.0
    ensures forall c :: c in CheckAll(s).shares ==> CheckAll(s).shares[c] >= -Snapshot.EPS
  {
    if s != [] {
      var s' := s[..|s| - 1];
      forall a | a in s' && a.kind == BUY
        ensures a.shares >= 0.0
      {
        assert a in s;
      }
      HoldingsFloor(s');
    }
  }

  /**
   * When the scan flags nothing and every SELL has positive shares and
   * price, its holdings are the snapshot replay's shares, code by code:
   * the two replays differ only on over-sized or invalid SELLs.
   */
  lemma {:induction false} AgreesWithSnapshot(s: seq<Adjustment>)
    requires CheckAll(s).bad == []
    requires forall a :: a in s && a.kind == SELL ==> a.shares > 0.0 && a.price > 0.0
    ensures forall c :: Held(CheckAll(s).shares, c) == Snapshot.PosOf(Snapshot.ReplayAll(s).book, c).shares
  {
    if s != [] {
      var s' := s[..|s| - 1];
      BadPrefix(s, |s| - 1);
      forall a | a in s' && a.kind == SELL
        ensures a.shares > 0.0 && a.price > 0.0
      {
        assert a in s;
      }
      AgreesWithSnapshot(s');
      var a := s[|s| - 1];
      var st, rp := CheckAll(s'), Snapshot.ReplayAll(s');
      assert CheckAll(s) == Visit(st, a);
      assert Snapshot.ReplayAll(s) == Snapshot.Step(rp, a);
      assert a in s;
      assert !OverSold(st, a);
      forall c
        ensures Held(CheckAll(s).shares, c) == Snapshot.PosOf(Snapshot.ReplayAll(s).book, c).shares
      {
        assert Held(st.shares, c) == Snapshot.PosOf(rp.book, c).shares;
      }
    }
  }

  /** The same, for the whole journal in replay order. */
  lemma JournalAgreesWithSnapshot(items: seq<Adjustment>)
    requires Checked(items).bad == []
    requires forall a :: a in items && a.kind == SELL ==> a.shares > 0.0 && a.price > 0.0
    ensures forall c :: Held(Checked(items).shares, c) ==
                        Snapshot.PosOf(Snapshot.ReplayAll(ListAdjustments(items, "")).book, c).shares
  {
    var t := SortBy(items, SortKey);
    SortByPermutation(items, SortKey);
    forall a | a in t && a.kind == SELL
      ensures a.shares > 0.0 && a.price > 0.0
    {
      assert a in multiset(items);
    }
    AgreesWithSnapshot(t);
  }

  /** The rewrite drops exactly the entries with a flagged id and keeps the rest. */
  lemma KeepSpec(items: seq<Adjustment>, bad: seq<string>)
    ensures forall a :: a in Filter(items, Keep(bad)) <==> a in items && a.id !in bad
    ensures |Filter(items, Keep(bad))| <= |items|
  {
    forall a
      ensures a in Filter(items, Keep(bad)) <==> a in items && a.id !in bad
    {
      FilterMember(items, Keep(bad), a);
    }
  }

  /** Unique ids stay unique under a permutation. */
  lemma UniqueIdsPermutation(a: seq<Adjustment>, b: seq<Adjustment>)
    requires multiset(a) == multiset(b) && UniqueIds(a)
    ensures UniqueIds(b)
  {
    assert Distinct(a);
    PermutationDistinct(a, b);
    forall i, j | 0 <= i < j < |b|
      ensures b[i].id != b[j].id
    {
      assert b[i] in multiset(a) && b[j] in multiset(a);
      var p :| 0 <= p < |a| && a[p] == b[i];
      var q :| 0 <= q < |a| && a[q] == b[j];
      assert p != q;
    }
  }

  /**
   * Dropping the flagged entries of a list with unique ids leaves every
   * prefix's holdings as they were and flags nothing.
   */
  lemma {:induction false} SettledPrefix(s: seq<Adjustment>, k: nat)
    requires UniqueIds(s) && k <= |s|
    ensures CheckAll(Filter(s[..k], Keep(CheckAll(s).bad))) == Check(CheckAll(s[..k]).shares, [])
  {
    if k > 0 {
      SettledPrefix(s, k - 1);
      SettledStep(s, k - 1);
    }
  }

  /** One more entry of the prefix: kept when not flagged, dropped (holding nothing) when flagged. */
  lemma SettledStep(s: seq<Adjustment>, i: nat)
    requires UniqueIds(s) && i < |s|
    requires CheckAll(Filter(s[..i], Keep(CheckAll(s).bad))) == Check(CheckAll(s[..i]).shares, [])
    ensures CheckAll(Filter(s[..i + 1], Keep(CheckAll(s).bad))) == Check(CheckAll(s[..i + 1]).shares, [])
  {
    var p := Keep(CheckAll(s).bad);
    FilterPrefixStep(s, i, p);
    CheckAllStep(s, i);
    var st := CheckAll(s[..i]);
    if OverSold(st, s[i]) {
      FlaggedIff(s, s[i].id);
      assert !p(s[i]);
      assert Filter(s[..i], p) + [] == Filter(s[..i], p);
      assert Visit(st, s[i]).shares == st.shares;
    } else {
      NotOverSoldNotFlagged(s, i);
      var f := Filter(s[..i], p) + [s[i]];
      assert f[..|f| - 1] == Filter(s[..i], p);
    }
  }

  /**
   * Running the repair twice is running it once: on a journal with unique
   * ids, the rewritten journal has no over-sized SELL left and the same
   * holdings.
   */
  lemma FixSettles(items: seq<Adjustment>)
    requires UniqueIds(items)
    ensures var kept := Filter(items, Keep(Checked(items).bad));
            Checked(kept).bad == [] && Checked(kept).shares == Checked(items).shares
  {
    var t := SortBy(items, SortKey);
    var p := Keep(Checked(items).bad);
    SortByFilter(items, SortKey, p);
    SortByPermutation(items, SortKey);
    UniqueIdsPermutation(items, t);
    SettledPrefix(t, |t|);
    assert t[..|t|] == t;
  }

  lemma CheckAllStep(s: seq<Adjustment>, i: nat)
    requires i < |s|
    ensures CheckAll(s[..i + 1]) == Visit(CheckAll(s[..i]), s[i])
  {
    assert s[..i + 1][..i] == s[..i];
  }

  /** The body of the replay loop of `main`: one entry applied to the running holdings. */
  method VisitEntry(shares: map<string, real>, bad: seq<string>, a: Adjustment) returns (shares': map<string, real>, bad': seq<string>)
    ensures Check(shares', bad') == Visit(Check(shares, bad), a)
  {
    shares', bad' := shares, bad;
    var cur := Held(shares, a.code);
    if a.kind == BUY {
      shares' := shares[a.code := cur + a.shares];
    } else if a.kind == SELL {
      if a.shares > cur + Snapshot.EPS {
        bad' := bad + [a.id];
      } else {
        shares' := shares[a.code := cur - a.shares];
      }
    }
  }

  /** The replay loop of `main`: the ids it flags. */
  method FlagOverSells(items: seq<Adjustment>) returns (bad: seq<string>)
    ensures bad == Checked(items).bad
  {
    var sorted := SortBy(items, SortKey);
    var shares: map<string, real> := map[];
    bad := [];
    var i := 0;
    while i < |sorted|
      invariant 0 <= i <= |sorted|
      invariant Check(shares, bad) == CheckAll(sorted[..i])
    {
      CheckAllStep(sorted, i);
      shares, bad := VisitEntry(shares, bad, sorted[i]);
      i := i + 1;
    }
    assert sorted[..i] == sorted;
  }

  /** The rewrite of `main`: the entries whose id is not among `bad`, in order. */
  method KeepUnflagged(items: seq<Adjustment>, bad: seq<string>) returns (kept: seq<Adjustment>)
    ensures kept == Filter(items, Keep(bad))
  {
    kept := [];
    var i := 0;
    while i < |items|
      invariant 0 <= i <= |items|
      invariant kept == Filter(items[..i], Keep(bad))
    {
      FilterPrefixStep(items, i, Keep(bad));
      if items[i].id !in bad {
        kept := kept + [items[i]];
      }
      i := i + 1;
    }
    assert items[..i] == items;
  }

  /**
   * `main`: replays the journal, and when it flags anything, replaces the
   * item list by the entries whose id was not flagged, in their original
   * order, leaving the rest of the document (the stamp included) as it
   * was. When nothing is flagged the file is not written. Returns the
   * flagged ids.
   */
  method FixBadSells(f: JournalFile) returns (bad: seq<string>)
    modifies f
    ensures bad == Checked(old(f.doc.items)).bad
    ensures bad == [] ==> f.doc == old(f.doc)
    ensures bad != [] ==> f.doc == old(f.doc).(items := Filter(old(f.doc.items), Keep(bad)))
  {
    bad := FlagOverSells(f.doc.items);
    if bad == [] {
      return;
    }
    var kept := KeepUnflagged(f.doc.items, bad);
    f.doc := f.doc.(items := kept);
  }
}
