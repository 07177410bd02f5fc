/**
 * A fund's static profile and its JSON form: `to_dict`, `from_dict` (which
 * strips every text field and reads a falsy optional field as absent) and
 * `validate_basic`.
 */
module Fund {
  import opened Wrappers
  import opened Text
  import opened Json

  datatype FundProfile = FundProfile(
    code: string,
    name: string,
    fundType: string,
    isEtf: bool,
    isQdii: bool,
    trackIndex: Option<string>,
    source: string,
    updatedAt: Option<string>)

  function OptStr(v: Option<string>): Json {
    if v.Some? then Str(v.value) else Null
  }

  /** `to_dict`: every field under its Python name; an absent optional field is `null`. */
  function ToDict(p: FundProfile): (r: map<string, Json>)
    ensures r.Keys == {"code", "name", "fund_type", "is_etf", "is_qdii", "track_index", "source", "updated_at"}
  {
    map["code" := Str(p.code), "name" := Str(p.name), "fund_type" := Str(p.fundType),
        "is_etf" := Bool(p.isEtf), "is_qdii" := Bool(p.isQdii), "track_index" := OptStr(p.trackIndex),
        "source" := Str(p.source), "updated_at" := OptStr(p.updatedAt)]
  }

  /** `str(data.get(k, "")).strip()`. */
  function TextField(data: map<string, Json>, k: string): string {
    Strip(StrOf(Get(data, k, Str(""))))
  }

  /** `str(data[k]).strip() if data.get(k) else None`. */
  function OptField(data: map<string, Json>, k: string): Option<string> {
    if Truthy(Get(data, k, Null)) then Some(Strip(StrOf(data[k]))) else None
  }

  /** `from_dict`: an empty dictionary is refused. */
  function FromDict(data: map<string, Json>): Result<FundProfile> {
    if data == map[] then Err("FundProfile.from_dict: empty data")
    else
      Ok(FundProfile(
        TextField(data, "code"), TextField(data, "name"), TextField(data, "fund_type"),
        Truthy(Get(data, "is_etf", Bool(false))), Truthy(Get(data, "is_qdii", Bool(false))),
        OptField(data, "track_index"), TextField(data, "source"), OptField(data, "updated_at")))
  }

  /** A string `strip()` leaves alone. */
  predicate Stripped(s: string) {
    Strip(s) == s
  }

  /** An optional field as `from_dict` reads it back: absent, or present, non-empty and stripped. */
  predicate CleanOpt(v: Option<string>) {
    v.Some? ==> v.value != "" && Stripped(v.value)
  }

  /** A profile whose every field survives the dictionary round trip. */
  predicate Clean(p: FundProfile) {
    Stripped(p.code) && Stripped(p.name) && Stripped(p.fundType) && Stripped(p.source) &&
    CleanOpt(p.trackIndex) && CleanOpt(p.updatedAt)
  }

  /** What `to_dict` stores under each key. */
  lemma ToDictAt(p: FundProfile)
    ensures var d := ToDict(p);
            d["code"] == Str(p.code) && d["name"] == Str(p.name) && d["fund_type"] == Str(p.fundType) &&
            d["is_etf"] == Bool(p.isEtf) && d["is_qdii"] == Bool(p.isQdii) && d["track_index"] == OptStr(p.trackIndex) &&
            d["source"] == Str(p.source) && d["updated_at"] == OptStr(p.updatedAt)
  {
    assert "code"[0] == 'c' && "name"[0] == 'n' && "fund_type"[0] == 'f' && "is_etf"[0] == 'i';
    assert "is_qdii"[0] == 'i' && "track_index"[0] == 't' && "source"[0] == 's' && "updated_at"[0] == 'u';
    assert "is_etf"[3] == 'e' && "is_qdii"[3] == 'q';
  }

  /** Reading back what `to_dict` wrote gives the same profile, for a clean profile. */
  lemma RoundTrip(p: FundProfile)
    requires Clean(p)
    ensures FromDict(ToDict(p)) == Ok(p)
  {
    var d := ToDict(p);
    ToDictAt(p);
    assert "code" in d;
    assert TextField(d, "code") == p.code;
    assert TextField(d, "name") == p.name;
    assert TextField(d, "fund_type") == p.fundType;
    assert TextField(d, "source") == p.source;
    assert OptField(d, "track_index") == p.trackIndex;
    assert OptField(d, "updated_at") == p.updatedAt;
  }

  /** The code read back from `to_dict` is the profile's own code, once stripped. */
  lemma RoundTripCode(p: FundProfile)
    requires Stripped(p.code)
    ensures FromDict(ToDict(p)).Ok? && FromDict(ToDict(p)).value.code == p.code
  {
    ToDictAt(p);
    assert "code" in ToDict(p);
  }

  /**
   * `from_dict` refuses exactly the empty dictionary, and every text field it
   * reads is stripped; an optional field is present exactly when the
   * dictionary holds a truthy value under it.
   */
  lemma FromDictSpec(data: map<string, Json>)
    ensures FromDict(data).Err? <==> data == map[]
    ensures FromDict(data).Ok? ==>
              var p := FromDict(data).value;
              Stripped(p.code) && Stripped(p.name) && Stripped(p.fundType) && Stripped(p.source) &&
              (p.trackIndex.Some? <==> "track_index" in data && Truthy(data["track_index"])) &&
              (p.updatedAt.Some? <==> "updated_at" in data && Truthy(data["updated_at"])) &&
              (p.trackIndex.Some? ==> Stripped(p.trackIndex.value)) &&
              (p.updatedAt.Some? ==> Stripped(p.updatedAt.value))
  {
    StripIdempotent(StrOf(Get(data, "code", Str(""))));
    StripIdempotent(StrOf(Get(data, "name", Str(""))));
    StripIdempotent(StrOf(Get(data, "fund_type", Str(""))));
    StripIdempotent(StrOf(Get(data, "source", Str(""))));
    if "track_index" in data {
      StripIdempotent(StrOf(data["track_index"]));
    }
    if "updated_at" in data {
      StripIdempotent(StrOf(data["updated_at"]));
    }
  }

  /** `validate_basic`: a profile needs a code that is not blank. */
  function ValidateBasic(p: FundProfile): (r: Result<FundProfile>)
    ensures r.Err? <==> Strip(p.code) == ""
    ensures r.Ok? ==> r.value == p
  {
    if p.code == "" || Strip(p.code) == "" then Err("FundProfile.validate_basic: code is required") else Ok(p)
  }
}

/**
 * Profile lookup with a local cache document: a cache hit is returned as
 * stored, a miss (or a forced refresh) builds the profile from the profile
 * provider or, failing that, from the quote name and a guess on the code,
 * and stores it.
 */
module FundService {
  import opened Wrappers
  import opened Text
  import opened Json
  import opened Fund

  /** What the profile provider knows about a fund. */
  datatype ProfileDto = ProfileDto(name: string, fundType: string, isEtf: bool, isQdii: bool, trackIndex: Option<string>)

  const ETF_PREFIXES: seq<string> := ["510", "511", "512", "513", "515", "516", "517", "518", "588", "159", "560", "561", "562", "563"]

  /** `_guess_is_etf`: a code of at least three characters that starts with a listed prefix. */
  predicate GuessIsEtf(code: string) {
    var c := Strip(code);
    |c| >= 3 && exists k :: 0 <= k < |ETF_PREFIXES| && StartsWith(c, ETF_PREFIXES[k])
  }

  /** `_guess_is_qdii`: the code alone never identifies a QDII fund. */
  predicate GuessIsQdii(code: string) {
    false
  }

  /** The ETF guess reads the first three characters of the stripped code only. */
  lemma GuessIsEtfSpec(code: string)
    ensures var c := Strip(code);
            GuessIsEtf(code) <==> |c| >= 3 && c[..3] in ETF_PREFIXES
  {
    var c := Strip(code);
    assert forall k :: 0 <= k < |ETF_PREFIXES| ==> |ETF_PREFIXES[k]| == 3;
    if |c| >= 3 && c[..3] in ETF_PREFIXES {
      var k :| 0 <= k < |ETF_PREFIXES| && ETF_PREFIXES[k] == c[..3];
      assert StartsWith(c, ETF_PREFIXES[k]);
    }
    if GuessIsEtf(code) {
      var k :| 0 <= k < |ETF_PREFIXES| && StartsWith(c, ETF_PREFIXES[k]);
      assert c[..3] == ETF_PREFIXES[k];
    }
  }

  lemma GuessIsEtfExamples()
    ensures GuessIsEtf("510300") && GuessIsEtf("563") && !GuessIsEtf("51")
  {
    StripNoop("510300");
    StripNoop("563");
    StripNoop("51");
    assert StartsWith("510300", ETF_PREFIXES[0]);
    assert StartsWith("563", ETF_PREFIXES[13]);
  }

  /**
   * `_build_profile_from_quote`: `dto` is the provider's answer and
   * `quoteName` the name in the quote service's answer for the code.
   */
  function BuildProfile(code: string, dto: Option<ProfileDto>, quoteName: Option<string>, now: string): FundProfile {
    if dto.Some? then
      var d := dto.value;
      FundProfile(code, d.name, if d.fundType != "" then d.fundType else if d.isEtf then "ETF" else "",
                  d.isEtf, d.isQdii, d.trackIndex, "json_map", Some(now))
    else
      FundProfile(code, quoteName.GetOr(""), if GuessIsEtf(code) then "ETF" else "",
                  GuessIsEtf(code), GuessIsQdii(code), None, "gsz_fallback", Some(now))
  }

  /**
   * A provider answer wins and is marked `json_map`, with fund type `ETF`
   * when it gives none for an ETF; without one the profile is a
   * `gsz_fallback` whose ETF flag and type follow the code guess, never
   * QDII and without a tracked index.
   */
  lemma BuildProfileSpec(code: string, dto: Option<ProfileDto>, quoteName: Option<string>, now: string)
    ensures var p := BuildProfile(code, dto, quoteName, now);
            p.code == code && p.updatedAt == Some(now) &&
            (dto.Some? ==> p.source == "json_map" && p.name == dto.value.name && p.isEtf == dto.value.isEtf &&
                           p.isQdii == dto.value.isQdii && p.trackIndex == dto.value.trackIndex &&
                           (dto.value.fundType != "" ==> p.fundType == dto.value.fundType) &&
                           (dto.value.fundType == "" ==> (p.fundType == "ETF" <==> dto.value.isEtf) && (p.fundType == "" <==> !dto.value.isEtf))) &&
            (dto.None? ==> p.source == "gsz_fallback" && !p.isQdii && p.trackIndex == None &&
                           (p.isEtf <==> GuessIsEtf(code)) && (p.fundType == "ETF" <==> p.isEtf) &&
                           (p.fundType == "" <==> !p.isEtf) &&
                           p.name == (if quoteName.Some? then quoteName.value else ""))
  {
  }

  /** The profile cache document: profiles as dictionaries, by code. */
  datatype CacheDoc = CacheDoc(items: map<string, Json>, updatedAt: Option<string>)

  /** `fund_cache_get`: the cached profile of a code, if it holds a non-empty dictionary for it. */
  function CacheGet(doc: CacheDoc, code: string): Option<FundProfile> {
    var c := Strip(code);
    if c == "" || c !in doc.items then None
    else
      var obj := doc.items[c];
      if !obj.Obj? || obj.fields == map[] then None
      else
        var p := FromDict(obj.fields);
        if p.Err? then None else Some(p.value)
  }

  /** The updater of `_save_profile_to_cache`: the profile's dictionary under its code; nothing else changes. */
  function SaveUpdater(doc: CacheDoc, p: FundProfile, now: string): CacheDoc {
    CacheDoc(doc.items[p.code := Obj(ToDict(p))], Some(now))
  }

  /**
   * Once a profile with a stripped code is saved, the cache hits for that
   * code with the profile as `from_dict` reads it back (the profile itself
   * when it is clean).
   */
  lemma SaveThenHit(doc: CacheDoc, p: FundProfile, now: string)
    requires p.code != "" && Stripped(p.code)
    ensures CacheGet(SaveUpdater(doc, p, now), p.code) == Some(FromDict(ToDict(p)).value)
    ensures Clean(p) ==> CacheGet(SaveUpdater(doc, p, now), p.code) == Some(p)
  {
    RoundTripCode(p);
    if Clean(p) {
      RoundTrip(p);
    }
  }

  /** Saving a profile leaves the answer for every other code as it was. */
  lemma SaveKeepsOthers(doc: CacheDoc, p: FundProfile, now: string, other: string)
    requires Strip(other) != p.code
    ensures CacheGet(SaveUpdater(doc, p, now), other) == CacheGet(doc, other)
  {
  }

  /** The profile cache file. */
  class FundCacheFile {
    var doc: CacheDoc

    constructor ()
      ensures doc == CacheDoc(map[], None)
    {
      doc := CacheDoc(map[], None);
    }

    /** `_save_profile_to_cache`: a profile without a code is refused and nothing is written. */
    method SaveProfile(p: FundProfile, now: string) returns (r: Result<CacheDoc>)
      modifies this
      ensures r.Err? <==> Strip(p.code) == ""
      ensures r.Err? ==> doc == old(doc)
      ensures r.Ok? ==> doc == SaveUpdater(old(doc), p, now) && r.value == doc
    {
      var v := ValidateBasic(p);
      if v.Err? {
        return Err(v.error);
      }
      doc := SaveUpdater(doc, p, now);
      r := Ok(doc);
    }

    /**
     * `get_fund_profile`: a blank code is refused; a cache hit is returned
     * unless a refresh is forced; otherwise the built profile is stored
     * and returned.
     */
    method GetFundProfile(code: string, forceRefresh: bool, dto: Option<ProfileDto>, quoteName: Option<string>, now: string)
      returns (r: Result<FundProfile>)
      modifies this
      ensures r.Err? <==> Strip(code) == ""
      ensures r.Err? ==> doc == old(doc)
      ensures r.Ok? && !forceRefresh && CacheGet(old(doc), code).Some? ==>
                r.value == CacheGet(old(doc), code).value && doc == old(doc)
      ensures r.Ok? && (forceRefresh || CacheGet(old(doc), code).None?) ==>
                r.value == BuildProfile(Strip(code), dto, quoteName, now) &&
                doc == SaveUpdater(old(doc), r.value, now)
    {
      var c := Strip(code);
      if c == "" {
        return Err("get_fund_profile: code is required");
      }
      StripIdempotent(code);
      if !forceRefresh {
        var cached := CacheGet(doc, c);
        if cached.Some? {
          return Ok(cached.value);
        }
      }
      var profile := BuildProfile(c, dto, quoteName, now);
      var saved := SaveProfile(profile, now);
      r := Ok(profile);
    }
  }

  /** After a miss stores a profile, the next lookup of the same code hits. */
  lemma NextLookupHits(doc: CacheDoc, code: string, dto: Option<ProfileDto>, quoteName: Option<string>, now: string)
    requires Strip(code) != ""
    ensures var p := BuildProfile(Strip(code), dto, quoteName, now);
            CacheGet(SaveUpdater(doc, p, now), code).Some? &&
            CacheGet(SaveUpdater(doc, p, now), code).value.code == Strip(code)
  {
    var c := Strip(code);
    StripIdempotent(code);
    var p := BuildProfile(c, dto, quoteName, now);
    assert p.code == c;
    SaveThenHit(doc, p, now);
    RoundTripCode(p);
  }
}
