/**
 * VersionManager: the Data Dragon version and language lists, each read
 * through the application cache, and the membership checks and the
 * selection report built on them.
 */
module Versions {
  import opened Base
  import opened OrderedMap

  const VersionsUrl: string := "https://ddragon.leagueoflegends.com/api/versions.json"
  const LanguagesUrl: string := "https://ddragon.leagueoflegends.com/cdn/languages.json"
  const VersionsKey: string := "riot_versions"
  const LanguagesKey: string := "riot_languages"
  /** Ten minutes for the versions, thirty days for the languages. */
  const VersionsTtl: int := 600
  const LanguagesTtl: int := 2592000
  const VersionsError: string := "Erreur lors de la récupération des versions Riot"
  const LanguagesError: string := "Erreur lors de la récupération des langues Riot"

  /** What Data Dragon answers at each URL: the decoded list, or None when the request or its decoding throws. */
  datatype Feeds = Feeds(versions: Option<seq<string>>, languages: Option<seq<string>>)

  /** The cache pool: the stored lists, the lifetime each was stored with, the requests sent and the errors logged. */
  datatype Memo = Memo(cache: map<string, seq<string>>, ttls: map<string, int>, requests: seq<string>, log: seq<string>)

  const EmptyMemo: Memo := Memo(map[], map[], [], [])

  /**
   * `$cache->get($key, fn)`: a stored value is returned as it is; otherwise
   * the request is sent, its list (or [] after logging the failure) is stored
   * with the lifetime and returned.
   */
  function Cached(m: Memo, key: string, url: string, ttl: int, feed: Option<seq<string>>, error: string): (Memo, seq<string>) {
    if key in m.cache then (m, m.cache[key])
    else
      var v := feed.GetOr([]);
      (Memo(m.cache[key := v], m.ttls[key := ttl], m.requests + [url], if feed.None? then m.log + [error] else m.log), v)
  }

  function GetVersionsSpec(f: Feeds, m: Memo): (Memo, seq<string>) {
    Cached(m, VersionsKey, VersionsUrl, VersionsTtl, f.versions, VersionsError)
  }

  function GetLanguagesSpec(f: Feeds, m: Memo): (Memo, seq<string>) {
    Cached(m, LanguagesKey, LanguagesUrl, LanguagesTtl, f.languages, LanguagesError)
  }

  /** The list a read of key answers from m: the stored one, or the feed's (empty when it fails). */
  function Known(m: Memo, key: string, feed: Option<seq<string>>): seq<string> {
    if key in m.cache then m.cache[key] else feed.GetOr([])
  }

  /** getLanguageLabels: the language codes the site knows, with their French names. */
  function LanguageLabels(): (labels: OMap<string, string>)
    ensures |labels| == 28 && labels[1] == ("en_US", "Anglais (États-Unis)")
  {
    [ ("ar_AE", "Arabe (Émirats Arabes Unis)"),
      ("en_US", "Anglais (États-Unis)"),
      ("cs_CZ", "Tchèque"),
      ("de_DE", "Allemand"),
      ("el_GR", "Grec"),
      ("en_AU", "Anglais (Australie)"),
      ("en_GB", "Anglais (Royaume-Uni)"),
      ("en_PH", "Anglais (Philippines)"),
      ("en_SG", "Anglais (Singapour)"),
      ("es_AR", "Espagnol (Argentine)"),
      ("es_ES", "Espagnol (Espagne)"),
      ("es_MX", "Espagnol (Mexique)"),
      ("fr_FR", "Français"),
      ("hu_HU", "Hongrois"),
      ("id_ID", "Indonésien"),
      ("it_IT", "Italien"),
      ("ja_JP", "Japonais"),
      ("ko_KR", "Coréen"),
      ("pl_PL", "Polonais"),
      ("pt_BR", "Portugais (Brésil)"),
      ("ro_RO", "Roumain"),
      ("ru_RU", "Russe"),
      ("th_TH", "Thaï"),
      ("tr_TR", "Turc"),
      ("vi_VN", "Vietnamien"),
      ("zh_CN", "Chinois simplifié"),
      ("zh_MY", "Chinois (Malaisie)"),
      ("zh_TW", "Chinois traditionnel") ]
  }

  /** `array_keys($this->getLanguageLabels())`. */
  function LabelCodes(): seq<string> {
    Keys(LanguageLabels())
  }

  /** The languages languageExists accepts: the list read, or the label codes when that list is empty. */
  function Accepted(languages: seq<string>): seq<string> {
    if languages == [] then LabelCodes() else languages
  }

  /** versionExists: no lookup at all for a missing or empty version. */
  function VersionExistsSpec(f: Feeds, m: Memo, version: Option<string>): (Memo, bool) {
    if version.None? || version.value == "" then (m, false)
    else
      var (m1, vs) := GetVersionsSpec(f, m);
      (m1, version.value in vs)
  }

  function LanguageExistsSpec(f: Feeds, m: Memo, language: Option<string>): (Memo, bool) {
    if language.None? || language.value == "" then (m, false)
    else
      var (m1, ls) := GetLanguagesSpec(f, m);
      (m1, language.value in Accepted(ls))
  }

  /** `['ok' => bool, 'errors' => array<string, string>]`. */
  datatype Report = Report(ok: bool, errors: OMap<string, string>)

  predicate Given(s: Option<string>) {
    s.Some? && s.value != ""
  }

  /** validateSelection: the version is checked first, then the language; only given values are checked. */
  function ValidateSelectionSpec(f: Feeds, m: Memo, version: Option<string>, language: Option<string>): (Memo, Report) {
    var (m1, vOk) := if Given(version) then VersionExistsSpec(f, m, version) else (m, true);
    var e1: OMap<string, string> := if vOk then [] else [("version", "Version inconnue : " + version.value)];
    var (m2, lOk) := if Given(language) then LanguageExistsSpec(f, m1, language) else (m1, true);
    var e2 := if lOk then e1 else Put(e1, "language", "Langue non supportée : " + language.value);
    (m2, Report(e2 == [], e2))
  }

  class VersionManager {
    const feeds: Feeds
    var memo: Memo

    constructor (feeds: Feeds)
      ensures this.feeds == feeds && memo == EmptyMemo
    {
      this.feeds := feeds;
      memo := EmptyMemo;
    }

    method GetVersions() returns (r: seq<string>)
      modifies this
      ensures (memo, r) == GetVersionsSpec(feeds, old(memo))
    {
      if VersionsKey in memo.cache {
        return memo.cache[VersionsKey];
      }
      r := feeds.versions.GetOr([]);
      var log := memo.log;
      if feeds.versions.None? {
        log := log + [VersionsError];
      }
      memo := Memo(memo.cache[VersionsKey := r], memo.ttls[VersionsKey := VersionsTtl], memo.requests + [VersionsUrl], log);
    }

    method GetLanguages() returns (r: seq<string>)
      modifies this
      ensures (memo, r) == GetLanguagesSpec(feeds, old(memo))
    {
      if LanguagesKey in memo.cache {
        return memo.cache[LanguagesKey];
      }
      r := feeds.languages.GetOr([]);
      var log := memo.log;
      if feeds.languages.None? {
        log := log + [LanguagesError];
      }
      memo := Memo(memo.cache[LanguagesKey := r], memo.ttls[LanguagesKey := LanguagesTtl], memo.requests + [LanguagesUrl], log);
    }

    method VersionExists(version: Option<string>) returns (r: bool)
      modifies this
      ensures (memo, r) == VersionExistsSpec(feeds, old(memo), version)
    {
      if version.None? || version.value == "" {
        return false;
      }
      var vs := GetVersions();
      r := version.value in vs;
    }

    method LanguageExists(language: Option<string>) returns (r: bool)
      modifies this
      ensures (memo, r) == LanguageExistsSpec(feeds, old(memo), language)
    {
      if language.None? || language.value == "" {
        return false;
      }
      var ls := GetLanguages();
      if ls == [] {
        ls := LabelCodes();
      }
      r := language.value in ls;
    }

    method ValidateSelection(version: Option<string>, language: Option<string>) returns (r: Report)
      modifies this
      ensures (memo, r) == ValidateSelectionSpec(feeds, old(memo), version, language)
    {
      var errors: OMap<string, string> := [];
      if Given(version) {
        var ok := VersionExists(version);
        if !ok {
          errors := [("version", "Version inconnue : " + version.value)];
        }
      }
      if Given(language) {
        var ok := LanguageExists(language);
        if !ok {
          errors := Put(errors, "language", "Langue non supportée : " + language.value);
        }
      }
      r := Report(errors == [], errors);
    }
  }

  // ---------------------------------------------------------------- the cache

  /** A read answers the known list, stores it, and leaves every other key as it was. */
  lemma CachedIsKnown(m: Memo, key: string, url: string, ttl: int, feed: Option<seq<string>>, error: string, other: string, otherFeed: Option<seq<string>>)
    ensures var (m1, r) := Cached(m, key, url, ttl, feed, error);
      r == Known(m, key, feed) && key in m1.cache && m1.cache[key] == r
      && (other != key ==> Known(m1, other, otherFeed) == Known(m, other, otherFeed))
  {
  }

  /** The first read sends one request and stores the list with its lifetime; a failed one logs once and stores []. */
  lemma FirstReadFetchesOnce(m: Memo, key: string, url: string, ttl: int, feed: Option<seq<string>>, error: string)
    requires key !in m.cache
    ensures var (m1, r) := Cached(m, key, url, ttl, feed, error);
      m1.requests == m.requests + [url] && m1.ttls[key] == ttl
      && (feed.Some? ==> r == feed.value && m1.log == m.log)
      && (feed.None? ==> r == [] && m1.log == m.log + [error])
  {
  }

  /** A second read comes from the cache: the same list, no request, nothing changed. */
  lemma SecondReadIsCached(m: Memo, key: string, url: string, ttl: int, feed: Option<seq<string>>, error: string)
    ensures var (m1, r1) := Cached(m, key, url, ttl, feed, error);
      Cached(m1, key, url, ttl, feed, error) == (m1, r1)
  {
  }

  /** getVersions twice from an empty cache: one request to versions.json, a ten-minute lifetime, the same list. */
  lemma VersionsCachedTenMinutes(f: Feeds)
    ensures var (m1, a1) := GetVersionsSpec(f, EmptyMemo);
      var (m2, a2) := GetVersionsSpec(f, m1);
      a1 == f.versions.GetOr([]) && a2 == a1 && m2 == m1
      && m1.requests == [VersionsUrl] && m1.ttls[VersionsKey] == 600
      && (f.versions.None? <==> m1.log == [VersionsError])
  {
    FirstReadFetchesOnce(EmptyMemo, VersionsKey, VersionsUrl, VersionsTtl, f.versions, VersionsError);
    SecondReadIsCached(EmptyMemo, VersionsKey, VersionsUrl, VersionsTtl, f.versions, VersionsError);
  }

  /** getLanguages twice from an empty cache: one request to languages.json, a thirty-day lifetime, the same list. */
  lemma LanguagesCachedOneMonth(f: Feeds)
    ensures var (m1, a1) := GetLanguagesSpec(f, EmptyMemo);
      var (m2, a2) := GetLanguagesSpec(f, m1);
      a1 == f.languages.GetOr([]) && a2 == a1 && m2 == m1
      && m1.requests == [LanguagesUrl] && m1.ttls[LanguagesKey] == 2592000
      && (f.languages.None? <==> m1.log == [LanguagesError])
  {
    FirstReadFetchesOnce(EmptyMemo, LanguagesKey, LanguagesUrl, LanguagesTtl, f.languages, LanguagesError);
    SecondReadIsCached(EmptyMemo, LanguagesKey, LanguagesUrl, LanguagesTtl, f.languages, LanguagesError);
  }

  // ---------------------------------------------------------------- membership

  /**
   * versionExists holds exactly for a non-empty version in the known list;
   * the known lists are the same afterwards, and a missing or empty version
   * touches nothing.
   */
  lemma VersionExistsIsMembership(f: Feeds, m: Memo, version: Option<string>)
    ensures var (m1, r) := VersionExistsSpec(f, m, version);
      (r <==> Given(version) && version.value in Known(m, VersionsKey, f.versions))
      && Known(m1, VersionsKey, f.versions) == Known(m, VersionsKey, f.versions)
      && Known(m1, LanguagesKey, f.languages) == Known(m, LanguagesKey, f.languages)
      && (!Given(version) ==> m1 == m)
  {
    CachedIsKnown(m, VersionsKey, VersionsUrl, VersionsTtl, f.versions, VersionsError, LanguagesKey, f.languages);
  }

  /** languageExists holds exactly for a non-empty code in the known list, or among the label codes when that list is empty. */
  lemma LanguageExistsIsMembership(f: Feeds, m: Memo, language: Option<string>)
    ensures var (m1, r) := LanguageExistsSpec(f, m, language);
      (r <==> Given(language) && language.value in Accepted(Known(m, LanguagesKey, f.languages)))
      && Known(m1, VersionsKey, f.versions) == Known(m, VersionsKey, f.versions)
      && Known(m1, LanguagesKey, f.languages) == Known(m, LanguagesKey, f.languages)
      && (!Given(language) ==> m1 == m)
  {
    CachedIsKnown(m, LanguagesKey, LanguagesUrl, LanguagesTtl, f.languages, LanguagesError, VersionsKey, f.versions);
  }

  /** When the language request fails, the label codes decide: fr_FR and en_US are accepted, xx_YY is not. */
  lemma LanguagesFallBackToLabels(f: Feeds, language: string)
    requires f.languages.None?
    ensures LanguageExistsSpec(f, EmptyMemo, Some(language)).1 <==> language != "" && language in LabelCodes()
    ensures LanguageExistsSpec(f, EmptyMemo, Some("fr_FR")).1 && LanguageExistsSpec(f, EmptyMemo, Some("en_US")).1
    ensures !LanguageExistsSpec(f, EmptyMemo, Some("xx_YY")).1
  {
    LanguageExistsIsMembership(f, EmptyMemo, Some(language));
    LanguageExistsIsMembership(f, EmptyMemo, Some("fr_FR"));
    LanguageExistsIsMembership(f, EmptyMemo, Some("en_US"));
    LanguageExistsIsMembership(f, EmptyMemo, Some("xx_YY"));
    assert LabelCodes()[12] == "fr_FR" && LabelCodes()[1] == "en_US";
    assert "xx_YY" !in LabelCodes() by {
      forall i | 0 <= i < |LabelCodes()| ensures LabelCodes()[i] != "xx_YY" {
        assert LabelCodes()[i][0] != 'x';
      }
    }
  }

  // ---------------------------------------------------------------- the report

  /**
   * The report is ok exactly when it holds no error; it names the version
   * exactly when a given version is unknown, and the language exactly when
   * a given language is not accepted, with the version first.
   */
  lemma ValidationReportsEachUnknown(f: Feeds, m: Memo, version: Option<string>, language: Option<string>)
    ensures var r := ValidateSelectionSpec(f, m, version, language).1;
      var vBad := Given(version) && version.value !in Known(m, VersionsKey, f.versions);
      var lBad := Given(language) && language.value !in Accepted(Known(m, LanguagesKey, f.languages));
      (r.ok <==> r.errors == []) && (r.ok <==> !vBad && !lBad)
      && |r.errors| <= 2 && UniqueKeys(r.errors)
      && (vBad <==> Get(r.errors, "version") == Some("Version inconnue : " + version.GetOr("")))
      && (!vBad <==> !HasKey(r.errors, "version"))
      && (lBad <==> Get(r.errors, "language") == Some("Langue non supportée : " + language.GetOr("")))
      && (!lBad <==> !HasKey(r.errors, "language"))
      && (vBad ==> r.errors[0].0 == "version")
  {
    var (m1, vOk) := if Given(version) then VersionExistsSpec(f, m, version) else (m, true);
    VersionExistsIsMembership(f, m, version);
    LanguageExistsIsMembership(f, m1, language);
    var e1: OMap<string, string> := if vOk then [] else [("version", "Version inconnue : " + version.value)];
    var msg := "Langue non supportée : " + language.GetOr("");
    PutShape(e1, "language", msg);
    GetPut(e1, "language", msg, "version");
    GetPut(e1, "language", msg, "language");
  }
}
