/**
 * Persistent login sessions: `auth_sessions.json` holds one entry per
 * issued session with the SHA-256 of its token (never the token itself),
 * the user, and an expiry. Issuing prunes expired entries, appends the new
 * one and keeps the latest 1000; resolving prunes and reports the user of
 * the last live entry with the token's hash; revoking removes every entry
 * with that hash. Instants are microseconds; the hash, the ISO formatter
 * and the ISO parser are parameters.
 */
module AuthGuard {
  import opened Wrappers
  import opened Text
  import opened Seqs
  import opened Json

  const DEFAULT_TTL_DAYS := 14
  const MAX_SESSIONS := 1000
  const DAY: int := 86400 * 1000000

  /** Python `int(x)` on a float: truncation toward zero. */
  function Trunc(n: real): (r: int)
    ensures n >= 0.0 ==> r as real <= n < r as real + 1.0
    ensures n < 0.0 ==> r as real - 1.0 < n <= r as real
  {
    if n >= 0.0 then n.Floor else -((-n).Floor)
  }

  /** `int(v)`, `None` where Python raises. */
  function IntOf(v: Json): Option<int> {
    match v
    case Bool(b) => Some(if b then 1 else 0)
    case Num(n, _) => Some(Trunc(n))
    case Str(s) => ParseInt(s)
    case _ => None
  }

  /** `_auth_session_ttl_days`: the configured day count, at least one; 14 when unset or not an integer. */
  function TtlDays(setting: Option<Json>): (r: int)
    ensures r >= 1
  {
    var days := if setting.None? then DEFAULT_TTL_DAYS
                else if IntOf(setting.value).None? then DEFAULT_TTL_DAYS
                else IntOf(setting.value).value;
    if days > 1 then days else 1
  }

  /** The time to live is at least a day; it is the configured count when that is a positive integer, and 14 otherwise. */
  lemma TtlDaysSpec(setting: Option<Json>)
    ensures TtlDays(setting) >= 1
    ensures setting.None? || IntOf(setting.value).None? ==> TtlDays(setting) == DEFAULT_TTL_DAYS
    ensures setting.Some? && IntOf(setting.value).Some? && IntOf(setting.value).value >= 1 ==>
              TtlDays(setting) == IntOf(setting.value).value
    ensures setting.Some? && IntOf(setting.value).Some? && IntOf(setting.value).value < 1 ==> TtlDays(setting) == 1
  {
  }

  /** Examples: a float setting is truncated, a numeric string parsed, zero raised to one. */
  lemma TtlDaysExamples()
    ensures TtlDays(Some(Num(7.9, "7.9"))) == 7
    ensures TtlDays(Some(Num(-3.5, "-3.5"))) == 1
    ensures TtlDays(Some(Str("30"))) == 30
    ensures TtlDays(Some(Str("two weeks"))) == 14
    ensures TtlDays(Some(Num(0.0, "0"))) == 1
  {
    assert Strip("30") == "30" by {
      StripNoop("30");
    }
    assert "30"[..1] == "3";
    assert DigitsValue("30") == 30;
    assert Strip("two weeks") == "two weeks" by {
      StripNoop("two weeks");
    }
    assert !IsDigit("two weeks"[0]);
  }

  /** One stored session; a missing field reads as "". */
  datatype Session = Session(tokenHash: string, userId: string, phone: string, createdAt: string, expiresAt: string)

  /** An entry of the list: a session, or something that is not a dict. */
  datatype Item = Dict(session: Session) | NotDict

  /** `_parse_iso`: blank is no time; otherwise the parser's reading of the stripped text. */
  function ParseIso(value: string, parse: string -> Option<int>): Option<int> {
    var raw := Strip(value);
    if raw == "" then None else parse(raw)
  }

  /** Whether an entry survives pruning: a dict whose expiry reads as a time after `now`. */
  function Alive(now: int, parse: string -> Option<int>): Item -> bool {
    (it: Item) => it.Dict? && ParseIso(it.session.expiresAt, parse).Some? && ParseIso(it.session.expiresAt, parse).value > now
  }

  /** The pruning loop both updaters share. */
  function Pruned(items: seq<Item>, now: int, parse: string -> Option<int>): seq<Item> {
    Filter(items, Alive(now, parse))
  }

  /** `kept[-1000:]`. */
  function Latest(s: seq<Item>): (r: seq<Item>)
    ensures |r| <= MAX_SESSIONS
  {
    if |s| <= MAX_SESSIONS then s else s[|s| - MAX_SESSIONS..]
  }

  /** The session `_issue_auth_session` writes. */
  function NewSession(token: string, userId: string, phone: string, now: int, setting: Option<Json>,
                      hash: string -> string, fmt: int -> string): Session {
    Session(hash(token), userId, phone, fmt(now), fmt(now + TtlDays(setting) * DAY))
  }

  /** The list after issuing `s`. */
  function Issued(items: seq<Item>, s: Session, now: int, parse: string -> Option<int>): seq<Item> {
    Latest(Pruned(items, now, parse) + [Dict(s)])
  }

  /** The user and phone of the last live entry with hash `h`, stripped; blank when there is none. */
  function Matched(items: seq<Item>, h: string, now: int, parse: string -> Option<int>): (string, string) {
    if items == [] then ("", "")
    else
      var it := items[|items| - 1];
      if Alive(now, parse)(it) && it.session.tokenHash == h then (Strip(it.session.userId), Strip(it.session.phone))
      else Matched(items[..|items| - 1], h, now, parse)
  }

  /** Whether an entry survives revoking hash `h`: a dict with another hash. */
  function OtherHash(h: string): Item -> bool {
    (it: Item) => it.Dict? && it.session.tokenHash != h
  }

  /** The list after revoking hash `h`. */
  function Revoked(items: seq<Item>, h: string): seq<Item> {
    Filter(items, OtherHash(h))
  }

  /**
   * Issuing keeps at most 1000 entries, the new session last; the others
   * are the newest live entries, in order, and none is dropped for the
   * limit while fewer than 1000 are live.
   */
  lemma IssuedSpec(items: seq<Item>, s: Session, now: int, parse: string -> Option<int>)
    ensures var r := Issued(items, s, now, parse);
            |r| <= MAX_SESSIONS && r != [] && r[|r| - 1] == Dict(s)
    ensures var r := Issued(items, s, now, parse);
            forall k :: 0 <= k < |r| - 1 ==> Alive(now, parse)(r[k]) && r[k] in items
    ensures |Pruned(items, now, parse)| < MAX_SESSIONS ==>
              Issued(items, s, now, parse) == Pruned(items, now, parse) + [Dict(s)]
  {
    var p := Pruned(items, now, parse);
    var r := Issued(items, s, now, parse);
    FilterSatisfies(items, Alive(now, parse));
    forall k | 0 <= k < |r| - 1
      ensures Alive(now, parse)(r[k]) && r[k] in items
    {
      var j := if |p + [Dict(s)]| <= MAX_SESSIONS then k else k + |p + [Dict(s)]| - MAX_SESSIONS;
      assert r[k] == p[j];
      FilterMember(items, Alive(now, parse), p[j]);
    }
  }

  /** Pruning keeps exactly the live entries, and a second pruning at the same time changes nothing. */
  lemma PrunedSpec(items: seq<Item>, now: int, parse: string -> Option<int>)
    ensures forall it :: it in Pruned(items, now, parse) <==> it in items && Alive(now, parse)(it)
    ensures Pruned(Pruned(items, now, parse), now, parse) == Pruned(items, now, parse)
  {
    forall it
      ensures it in Pruned(items, now, parse) <==> it in items && Alive(now, parse)(it)
    {
      FilterMember(items, Alive(now, parse), it);
    }
    FilterIdempotent(items, Alive(now, parse));
  }

  /** Dropping dead entries does not change who a hash resolves to. */
  lemma {:induction false} MatchedPruned(items: seq<Item>, h: string, now: int, parse: string -> Option<int>)
    ensures Matched(Pruned(items, now, parse), h, now, parse) == Matched(items, h, now, parse)
  {
    if items != [] {
      var pre := items[..|items| - 1];
      var it := items[|items| - 1];
      MatchedPruned(pre, h, now, parse);
      var p := Pruned(items, now, parse);
      if Alive(now, parse)(it) {
        assert p == Pruned(pre, now, parse) + [it];
        assert p[..|p| - 1] == Pruned(pre, now, parse);
      } else {
        assert p == Pruned(pre, now, parse) + [];
        assert p == Pruned(pre, now, parse);
      }
    }
  }

  /**
   * A freshly issued session resolves to its user while its expiry, read
   * back, is still ahead: nothing comes after it in the list.
   */
  lemma IssueThenResolve(items: seq<Item>, s: Session, now: int, later: int, parse: string -> Option<int>)
    requires ParseIso(s.expiresAt, parse).Some? && ParseIso(s.expiresAt, parse).value > later
    ensures Matched(Issued(items, s, now, parse), s.tokenHash, later, parse) == (Strip(s.userId), Strip(s.phone))
  {
    IssuedSpec(items, s, now, parse);
  }

  /** An entry with hash `h` that `Matched` could report, or nothing left with that hash. */
  lemma {:induction false} MatchedNone(items: seq<Item>, h: string, now: int, parse: string -> Option<int>)
    requires forall k :: 0 <= k < |items| ==> OtherHash(h)(items[k])
    ensures Matched(items, h, now, parse) == ("", "")
  {
    if items != [] {
      MatchedNone(items[..|items| - 1], h, now, parse);
    }
  }

  /** After revoking a token, it resolves to nobody, at any time. */
  lemma RevokeThenResolve(items: seq<Item>, h: string, now: int, parse: string -> Option<int>)
    ensures Matched(Revoked(items, h), h, now, parse) == ("", "")
  {
    FilterSatisfies(items, OtherHash(h));
    MatchedNone(Revoked(items, h), h, now, parse);
  }

  /** Revoking keeps every session with another hash, and no other entry. */
  lemma RevokedSpec(items: seq<Item>, h: string)
    ensures forall it :: it in Revoked(items, h) <==> it in items && it.Dict? && it.session.tokenHash != h
  {
    forall it
      ensures it in Revoked(items, h) <==> it in items && it.Dict? && it.session.tokenHash != h
    {
      FilterMember(items, OtherHash(h), it);
    }
  }

  /** The pruning loop: the live entries, in order. */
  method Prune(items: seq<Item>, now: int, parse: string -> Option<int>) returns (kept: seq<Item>)
    ensures kept == Pruned(items, now, parse)
  {
    kept := [];
    var i := 0;
    while i < |items|
      invariant 0 <= i <= |items|
      invariant kept == Filter(items[..i], Alive(now, parse))
    {
      FilterPrefixStep(items, i, Alive(now, parse));
      var item := items[i];
      if item.Dict? {
        var exp := ParseIso(item.session.expiresAt, parse);
        if exp.Some? && exp.value > now {
          kept := kept + [item];
        }
      }
      i := i + 1;
    }
    assert items[..i] == items;
  }

  /** The resolving loop: the live entries, and the user of the last live one with hash `target`. */
  method Lookup(items: seq<Item>, target: string, now: int, parse: string -> Option<int>)
    returns (kept: seq<Item>, uid: string, phone: string)
    ensures kept == Pruned(items, now, parse)
    ensures (uid, phone) == Matched(items, target, now, parse)
  {
    uid, phone := "", "";
    kept := [];
    var i := 0;
    while i < |items|
      invariant 0 <= i <= |items|
      invariant kept == Filter(items[..i], Alive(now, parse))
      invariant (uid, phone) == Matched(items[..i], target, now, parse)
    {
      FilterPrefixStep(items, i, Alive(now, parse));
      assert items[..i + 1][..i] == items[..i];
      var item := items[i];
      if item.Dict? {
        var exp := ParseIso(item.session.expiresAt, parse);
        if exp.Some? && exp.value > now {
          if item.session.tokenHash == target {
            uid := Strip(item.session.userId);
            phone := Strip(item.session.phone);
          }
          kept := kept + [item];
        }
      }
      i := i + 1;
    }
    assert items[..i] == items;
  }

  /** `auth_sessions.json`. */
  class SessionFile {
    var items: seq<Item>

    constructor ()
      ensures items == []
    {
      items := [];
    }

    /**
     * `_issue_auth_session` for the token `token` (drawn by the caller):
     * stores only the token's hash and returns the token.
     */
    method Issue(phone: string, userId: string, token: string, now: int, setting: Option<Json>,
                 hash: string -> string, fmt: int -> string, parse: string -> Option<int>)
      returns (t: string)
      modifies this
      ensures t == token
      ensures items == Issued(old(items), NewSession(token, userId, phone, now, setting, hash, fmt), now, parse)
    {
      var s := NewSession(token, userId, phone, now, setting, hash, fmt);
      var kept := Prune(items, now, parse);
      kept := kept + [Dict(s)];
      items := Latest(kept);
      t := token;
    }

    /**
     * `_resolve_auth_session`: a blank token resolves to nobody without
     * touching the file; otherwise expired entries are dropped and the
     * last live entry with the token's hash names the user. A storage
     * failure (`storageFails`) writes nothing and resolves to nobody.
     */
    method Resolve(token: string, now: int, hash: string -> string, parse: string -> Option<int>, storageFails: bool)
      returns (uid: string, phone: string)
      modifies this
      ensures Strip(token) == "" || storageFails ==> uid == "" && phone == "" && items == old(items)
      ensures Strip(token) != "" && !storageFails ==>
                (uid, phone) == Matched(old(items), hash(Strip(token)), now, parse) &&
                items == Pruned(old(items), now, parse)
    {
      var raw := Strip(token);
      if raw == "" {
        return "", "";
      }
      var kept;
      kept, uid, phone := Lookup(items, hash(raw), now, parse);
      if storageFails {
        return "", "";
      }
      items := kept;
    }

    /**
     * `_revoke_auth_session`: a blank token is a no-op; otherwise every
     * entry with the token's hash, and every entry that is not a dict, is
     * removed. A storage failure is swallowed and writes nothing.
     */
    method Revoke(token: string, hash: string -> string, storageFails: bool)
      modifies this
      ensures Strip(token) == "" || storageFails ==> items == old(items)
      ensures Strip(token) != "" && !storageFails ==> items == Revoked(old(items), hash(Strip(token)))
    {
      var raw := Strip(token);
      if raw == "" || storageFails {
        return;
      }
      items := Revoked(items, hash(raw));
    }
  }
}
