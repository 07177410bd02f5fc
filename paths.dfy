/**
 * Cache file names. A cache key becomes a file name by stripping it,
 * replacing every run of characters outside `[A-Za-z0-9_.-]` by one
 * underscore, and falling back to "cache" when nothing is left; HTTP cache
 * entries add ".json", raw snapshots ".txt". The directories themselves
 * are not part of this model.
 */
module Paths {
  import opened Text

  const FALLBACK := "cache"
  const JSON_EXT := ".json"
  const TXT_EXT := ".txt"

  /** The characters a file name may keep: `[A-Za-z0-9_.-]`. */
  predicate Allowed(c: char) {
    ('A' <= c <= 'Z') || ('a' <= c <= 'z') || ('0' <= c <= '9') || c == '_' || c == '.' || c == '-'
  }

  predicate AllAllowed(s: string) {
    forall k :: 0 <= k < |s| ==> Allowed(s[k])
  }

  /** The rest of a run of disallowed characters: what follows it. */
  function SkipRun(s: string): (r: string)
    ensures |r| <= |s|
    ensures r == [] || Allowed(r[0])
  {
    if s != [] && !Allowed(s[0]) then SkipRun(s[1..]) else s
  }

  /** `re.sub(r"[^A-Za-z0-9_.-]+", "_", s)`: each maximal run of disallowed characters becomes one "_". */
  function Collapse(s: string): (r: string)
    ensures |r| <= |s|
    decreases |s|
  {
    if s == [] then []
    else if Allowed(s[0]) then [s[0]] + Collapse(s[1..])
    else "_" + Collapse(SkipRun(s[1..]))
  }

  /** `_safe_filename`. */
  function SafeFilename(key: string): string {
    var s := Collapse(Strip(key));
    if s == [] then FALLBACK else s
  }

  /** `file_http_cache`'s file name. */
  function HttpCacheName(key: string): string {
    SafeFilename(key) + JSON_EXT
  }

  /** `file_raw_snapshot`'s file name. */
  function RawSnapshotName(key: string): string {
    SafeFilename(key) + TXT_EXT
  }

  /** The substitution leaves only allowed characters. */
  lemma {:induction false} CollapseAllowed(s: string)
    ensures AllAllowed(Collapse(s))
    decreases |s|
  {
    if s != [] {
      if Allowed(s[0]) {
        CollapseAllowed(s[1..]);
      } else {
        CollapseAllowed(SkipRun(s[1..]));
      }
    }
  }

  /** A string of allowed characters is left unchanged. */
  lemma {:induction false} CollapseClean(s: string)
    requires AllAllowed(s)
    ensures Collapse(s) == s
  {
    if s != [] {
      CollapseClean(s[1..]);
    }
  }

  /** The substitution is empty only on the empty string. */
  lemma CollapseEmpty(s: string)
    ensures Collapse(s) == [] <==> s == []
  {
  }

  lemma {:induction false} SkipRunAll(r: string, b: string)
    requires r != [] && forall k :: 0 <= k < |r| ==> !Allowed(r[k])
    requires b == [] || Allowed(b[0])
    ensures SkipRun(r + b) == b
  {
    assert (r + b)[1..] == r[1..] + b;
    if |r| > 1 {
      SkipRunAll(r[1..], b);
    } else {
      assert r[1..] + b == b;
    }
  }

  /**
   * A whole run of disallowed characters, followed by the end or an allowed
   * character, becomes a single "_"; an allowed character is kept as is.
   */
  lemma CollapseRun(r: string, b: string)
    requires r != [] && forall k :: 0 <= k < |r| ==> !Allowed(r[k])
    requires b == [] || Allowed(b[0])
    ensures Collapse(r + b) == "_" + Collapse(b)
  {
    var s := r + b;
    assert s != [] && s[0] == r[0] && !Allowed(s[0]);
    assert s[1..] == r[1..] + b;
    if |r| > 1 {
      SkipRunAll(r[1..], b);
    } else {
      assert r[1..] + b == b;
    }
    assert SkipRun(s[1..]) == b;
  }

  lemma CollapseKeep(c: char, b: string)
    requires Allowed(c)
    ensures Collapse([c] + b) == [c] + Collapse(b)
  {
    assert ([c] + b)[1..] == b;
  }

  /**
   * The safe name is never empty and holds only allowed characters; it is
   * "cache" exactly when the stripped key is empty, and a stripped key of
   * allowed characters is kept as is.
   */
  lemma SafeFilenameSpec(key: string)
    ensures SafeFilename(key) != []
    ensures AllAllowed(SafeFilename(key))
    ensures Strip(key) == [] ==> SafeFilename(key) == FALLBACK
    ensures Strip(key) != [] ==> SafeFilename(key) == Collapse(Strip(key))
    ensures AllAllowed(Strip(key)) && Strip(key) != [] ==> SafeFilename(key) == Strip(key)
  {
    CollapseAllowed(Strip(key));
    CollapseEmpty(Strip(key));
    if AllAllowed(Strip(key)) {
      CollapseClean(Strip(key));
    }
  }

  /** An allowed character is never white space, so a safe name strips to itself. */
  lemma StripAllowed(s: string)
    requires AllAllowed(s)
    ensures Strip(s) == s
  {
    StripNoop(s);
  }

  /** Sanitising a safe name changes nothing. */
  lemma SafeFilenameIdempotent(key: string)
    ensures SafeFilename(SafeFilename(key)) == SafeFilename(key)
  {
    var s := SafeFilename(key);
    SafeFilenameSpec(key);
    StripAllowed(s);
    CollapseClean(s);
  }

  /** A safe stem with an extension of allowed characters. */
  lemma WithExtension(stem: string, other: string, ext: string)
    requires AllAllowed(stem) && AllAllowed(ext)
    ensures (stem + ext)[..|stem + ext| - |ext|] == stem
    ensures AllAllowed(stem + ext) && '/' !in stem + ext
    ensures stem + ext == other + ext <==> stem == other
  {
    var n := stem + ext;
    assert n[..|n| - |ext|] == stem;
    if stem + ext == other + ext {
      assert (other + ext)[..|other + ext| - |ext|] == other;
    }
    assert forall k :: 0 <= k < |n| ==> Allowed(n[k]);
  }

  /**
   * Cache and snapshot names are the safe name plus their extension, stay
   * inside their directory (no separator), and two keys share a file
   * exactly when their safe names agree.
   */
  lemma CacheNamesSpec(key: string, other: string)
    ensures HttpCacheName(key)[..|HttpCacheName(key)| - 5] == SafeFilename(key)
    ensures RawSnapshotName(key)[..|RawSnapshotName(key)| - 4] == SafeFilename(key)
    ensures AllAllowed(HttpCacheName(key)) && AllAllowed(RawSnapshotName(key))
    ensures '/' !in HttpCacheName(key) && '/' !in RawSnapshotName(key)
    ensures HttpCacheName(key) == HttpCacheName(other) <==> SafeFilename(key) == SafeFilename(other)
    ensures RawSnapshotName(key) == RawSnapshotName(other) <==> SafeFilename(key) == SafeFilename(other)
  {
    SafeFilenameSpec(key);
    assert AllAllowed(JSON_EXT) && AllAllowed(TXT_EXT);
    WithExtension(SafeFilename(key), SafeFilename(other), JSON_EXT);
    WithExtension(SafeFilename(key), SafeFilename(other), TXT_EXT);
  }
}
