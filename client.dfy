/**
 * ClientManager: the visitor's language and Data Dragon version, kept in the
 * session, restored from the "remember" cookie, read from the query string
 * and checked against the VersionManager lists.
 */
module Client {
  import opened Base
  import opened OrderedMap
  import opened Json
  import opened Text
  import opened Versions

  const LocaleKey: string := "_locale"
  const VersionKey: string := "dd_version"
  /** The default value of the constructor's injected locale. */
  const DefaultLocale: string := "en_US"

  /**
   * The signed "remember" cookie as hydrateSessionFromRememberCookie reads it:
   * NoCookie when it is absent, has no '|', is not base64, fails its HMAC
   * check or does not decode to an array; otherwise its 'l' and 'v' entries.
   */
  datatype Cookie = NoCookie | Remembered(l: Option<string>, v: Option<string>)

  /** The current request: its query string (`$request->query`) and its remember cookie. */
  datatype Request = Request(query: map<string, string>, cookie: Cookie)

  type Session = map<string, Value>

  datatype Prefs = Prefs(locale: Option<string>, version: Option<string>)

  /** A value filled into `getParams`' result: `true`/`false`, a string or an int. */
  datatype Param = PBool(b: bool) | PStr(s: string) | PInt(n: int)

  /** What a handler answers: one key and its value, or the message of `['param' => false, 'message' => ...]`. */
  datatype Outcome = Valid(key: string, value: Param) | Invalid(message: string)

  datatype Need = NeedVersion | NeedLang | NeedNumpage | NeedItemperpage

  /** `['version' => ..., 'lang' => ...]` as getSession returns it. */
  datatype Selection = Selection(version: Option<string>, lang: Option<string>)

  // ---------------------------------------------------------------- the session

  /** `is_string($v) && $v !== '' ? $v : null` for the session entry k. */
  function SessionText(s: Session, k: string): (r: Option<string>)
    ensures r.Some? <==> k in s && s[k].Str? && s[k].s != ""
    ensures r.Some? ==> s[k] == Str(r.value)
  {
    if k in s && s[k].Str? && s[k].s != "" then Some(s[k].s) else None
  }

  /** `$this->requestStack->getSession()?->set($k, $v)`: nothing happens without a session. */
  function SetIn(sess: Option<Session>, k: string, v: string): Option<Session> {
    if sess.None? then None else Some(sess.value[k := Str(v)])
  }

  /** setPreferencesInSession: null and empty values are skipped. */
  function SetPreferencesSpec(sess: Option<Session>, locale: Option<string>, version: Option<string>): Option<Session> {
    var s1 := if Given(locale) then SetIn(sess, LocaleKey, locale.value) else sess;
    if Given(version) then SetIn(s1, VersionKey, version.value) else s1
  }

  function PreferencesOf(sess: Option<Session>): Prefs {
    if sess.None? then Prefs(None, None)
    else Prefs(SessionText(sess.value, LocaleKey), SessionText(sess.value, VersionKey))
  }

  /**
   * hydrateSessionFromRememberCookie: without a request or a session, with
   * both keys already present (whatever their values), or without a valid
   * cookie nothing changes; otherwise each non-empty cookie entry is written.
   */
  function HydrateSpec(req: Option<Request>, sess: Option<Session>): Option<Session> {
    if req.None? || sess.None? then sess
    else if LocaleKey in sess.value && VersionKey in sess.value then sess
    else match req.value.cookie
      case NoCookie => sess
      case Remembered(l, v) =>
        var s1 := if l.Some? && TruthyStr(l.value) then sess.value[LocaleKey := Str(l.value)] else sess.value;
        var s2 := if v.Some? && TruthyStr(v.value) then s1[VersionKey := Str(v.value)] else s1;
        Some(s2)
  }

  /** getOrHydratePreferences: complete preferences come from the session; otherwise the cookie is tried first. */
  function GetOrHydrateSpec(req: Option<Request>, sess: Option<Session>): (Option<Session>, Prefs) {
    if sess.None? then (sess, Prefs(None, None))
    else
      var p := PreferencesOf(sess);
      if p.locale.Some? && p.version.Some? then (sess, p)
      else
        var s1 := HydrateSpec(req, sess);
        (s1, PreferencesOf(s1))
  }

  /** The payload makeRememberCookie signs: `['l' => $locale, 'v' => $version]`. */
  function RememberPayload(locale: string, version: Option<string>): Cookie {
    Remembered(Some(locale), version)
  }

  // ---------------------------------------------------------------- the (int) cast

  const MaxInt: int := 0x7FFF_FFFF_FFFF_FFFF
  const MinInt: int := -0x8000_0000_0000_0000

  /** The whitespace PHP skips before a numeric string. */
  predicate IsSpace(c: char) {
    c == ' ' || c == '\t' || c == '\n' || c == '\r' || c == '\U{000B}' || c == '\U{000C}'
  }

  function SkipSpace(s: string): (r: string)
    ensures r != [] ==> !IsSpace(r[0])
  {
    if s != [] && IsSpace(s[0]) then SkipSpace(s[1..]) else s
  }

  /** The longest prefix of s made of digits. */
  function DigitPrefix(s: string): (r: string)
    ensures |r| <= |s| && r == s[..|r|]
    ensures forall i :: 0 <= i < |r| ==> IsDigit(r[i])
    ensures |r| < |s| ==> !IsDigit(s[|r|])
  {
    if s != [] && IsDigit(s[0]) then [s[0]] + DigitPrefix(s[1..]) else []
  }

  /** A 64-bit conversion saturates at the ends of the range. */
  function Cap(n: int): (r: int)
    ensures MinInt <= r <= MaxInt
    ensures MinInt <= n <= MaxInt ==> r == n
  {
    if n > MaxInt then MaxInt else if n < MinInt then MinInt else n
  }

  /** An optional sign and the leading digits; no digits give 0. */
  function Signed(t: string): int {
    if t != [] && t[0] == '-' then Cap(-(DigitsValue(DigitPrefix(t[1..])) as int))
    else if t != [] && t[0] == '+' then Cap(DigitsValue(DigitPrefix(t[1..])))
    else Cap(DigitsValue(DigitPrefix(t)))
  }

  /**
   * `(int) $s` on a string: leading whitespace, an optional sign and the
   * leading digits; no digits give 0, and a value past the 64-bit range is
   * capped at its end.
   */
  function IntCast(s: string): (r: int)
    ensures MinInt <= r <= MaxInt
  {
    Signed(SkipSpace(s))
  }

  // ---------------------------------------------------------------- getParams

  const FullNeeds: seq<string> := ["version", "lang", "numpage", "itemperpage"]

  /** `in_array('full', $needs, true)` replaces the list by the four parameters. */
  function Expand(needs: seq<string>): seq<string> {
    if "full" in needs then FullNeeds else needs
  }

  /**
   * `method_exists($this, 'handle' . ucfirst($need))`: PHP method names ignore
   * ASCII case, so any casing of a handler's name finds it.
   */
  function HandlerOf(need: string): Option<Need> {
    var n := Lower(need);
    if n == "version" then Some(NeedVersion)
    else if n == "lang" then Some(NeedLang)
    else if n == "numpage" then Some(NeedNumpage)
    else if n == "itemperpage" then Some(NeedItemperpage)
    else None
  }

  /** `(string) $request->query->get($k)`: an absent parameter reads as "". */
  function QueryText(req: Request, k: string): string {
    if k in req.query then req.query[k] else ""
  }

  function Positive(n: int, key: string, message: string): Outcome {
    if n <= 0 then Invalid(message) else Valid(key, PInt(n))
  }

  /** handleVersion, handleLang, handleNumpage and handleItemperpage. */
  function HandleSpec(f: Feeds, m: Memo, req: Request, h: Need): (Memo, Outcome) {
    match h
    case NeedVersion =>
      var v := QueryText(req, "version");
      var (m1, ok) := VersionExistsSpec(f, m, Some(v));
      (m1, if ok then Valid("version", PStr(v)) else Invalid("Version inexistante"))
    case NeedLang =>
      var l := QueryText(req, "lang");
      var (m1, ok) := LanguageExistsSpec(f, m, Some(l));
      (m1, if ok then Valid("lang", PStr(l)) else Invalid("Langue inexistante"))
    case NeedNumpage =>
      (m, Positive(IntCast(QueryText(req, "numpage")), "numPage", "Numéro de page impossible"))
    case NeedItemperpage =>
      (m, Positive(IntCast(QueryText(req, "itemperpage")), "itemPerPage", "Nombre objet par page impossible"))
  }

  function ErrorArray(message: string): OMap<string, Param> {
    [("param", PBool(false)), ("message", PStr(message))]
  }

  function UnknownMessage(need: string): string {
    "Paramètre inconnu : " + need
  }

  /** The foreach of getParams: the first error array is returned as it is; each answer is merged into acc. */
  function RunNeeds(f: Feeds, m: Memo, req: Option<Request>, needs: seq<string>, acc: OMap<string, Param>)
    : (Memo, Result<OMap<string, Param>>)
    decreases |needs|
  {
    if needs == [] then (m, Ok(acc))
    else match HandlerOf(needs[0])
      case None => (m, Ok(ErrorArray(UnknownMessage(needs[0]))))
      case Some(h) =>
        if req.None? then (m, Err(NoRequest))
        else
          var (m1, out) := HandleSpec(f, m, req.value, h);
          if out.Invalid? then (m1, Ok(ErrorArray(out.message)))
          else RunNeeds(f, m1, req, needs[1..], Put(acc, out.key, out.value))
  }

  function GetParamsSpec(f: Feeds, m: Memo, req: Option<Request>, needs: seq<string>): (Memo, Result<OMap<string, Param>>) {
    RunNeeds(f, m, req, Expand(needs), [("param", PBool(true))])
  }

  // ---------------------------------------------------------------- getSession

  /**
   * getSession: the stored preferences when the language and the version are
   * both known; otherwise the newest version and the default locale.
   */
  function GetSessionSpec(f: Feeds, m: Memo, req: Option<Request>, sess: Option<Session>, defaultLocale: string)
    : (Memo, Option<Session>, Selection)
  {
    var (s1, p) := GetOrHydrateSpec(req, sess);
    var (m1, lOk) := LanguageExistsSpec(f, m, p.locale);
    var (m2, vOk) := if lOk then VersionExistsSpec(f, m1, p.version) else (m1, false);
    if lOk && vOk then (m2, s1, Selection(p.version, p.locale))
    else
      var (m3, vs) := GetVersionsSpec(f, m2);
      (m3, s1, Selection(if vs == [] then None else Some(vs[0]), Some(defaultLocale)))
  }

  class ClientManager {
    const request: Option<Request>
    const defaultLocale: string
    const versions: VersionManager
    var session: Option<Session>

    /** The default locale is injected by the service configuration. */
    constructor (request: Option<Request>, session: Option<Session>, defaultLocale: string, versions: VersionManager)
      ensures this.request == request && this.session == session && this.versions == versions
      ensures this.defaultLocale == defaultLocale
    {
      this.request := request;
      this.session := session;
      this.versions := versions;
      this.defaultLocale := defaultLocale;
    }

    /** getLangue. */
    function GetLangue(): (r: string)
      ensures r == defaultLocale
    {
      defaultLocale
    }

    method SetLocaleInSession(locale: string)
      modifies this
      ensures session == SetIn(old(session), LocaleKey, locale)
    {
      if session.Some? {
        session := Some(session.value[LocaleKey := Str(locale)]);
      }
    }

    method SetVersionInSession(version: string)
      modifies this
      ensures session == SetIn(old(session), VersionKey, version)
    {
      if session.Some? {
        session := Some(session.value[VersionKey := Str(version)]);
      }
    }

    method SetPreferencesInSession(locale: Option<string>, version: Option<string>)
      modifies this
      ensures session == SetPreferencesSpec(old(session), locale, version)
    {
      if session.None? {
        return;
      }
      if Given(locale) {
        session := Some(session.value[LocaleKey := Str(locale.value)]);
      }
      if Given(version) {
        session := Some(session.value[VersionKey := Str(version.value)]);
      }
    }

    /** getLocaleFromSession: a non-empty string stored under '_locale', or null. */
    function GetLocaleFromSession(): (r: Option<string>)
      reads this
      ensures r.Some? <==> session.Some? && LocaleKey in session.value && session.value[LocaleKey].Str? && session.value[LocaleKey].s != ""
      ensures r.Some? ==> session.value[LocaleKey] == Str(r.value)
    {
      if session.None? then None else SessionText(session.value, LocaleKey)
    }

    /** getVersionFromSession: a non-empty string stored under 'dd_version', or null. */
    function GetVersionFromSession(): (r: Option<string>)
      reads this
      ensures r.Some? <==> session.Some? && VersionKey in session.value && session.value[VersionKey].Str? && session.value[VersionKey].s != ""
      ensures r.Some? ==> session.value[VersionKey] == Str(r.value)
    {
      if session.None? then None else SessionText(session.value, VersionKey)
    }

    function GetPreferencesFromSession(): (r: Prefs)
      reads this
      ensures r == Prefs(GetLocaleFromSession(), GetVersionFromSession())
    {
      PreferencesOf(session)
    }

    method HydrateSessionFromRememberCookie()
      modifies this
      ensures session == HydrateSpec(request, old(session))
    {
      if request.None? || session.None? {
        return;
      }
      var s := session.value;
      if LocaleKey in s && VersionKey in s {
        return;
      }
      match request.value.cookie {
        case NoCookie =>
          return;
        case Remembered(l, v) =>
          if l.Some? && TruthyStr(l.value) {
            s := s[LocaleKey := Str(l.value)];
          }
          if v.Some? && TruthyStr(v.value) {
            s := s[VersionKey := Str(v.value)];
          }
          session := Some(s);
      }
    }

    method GetOrHydratePreferences() returns (r: Prefs)
      modifies this
      ensures (session, r) == GetOrHydrateSpec(request, old(session))
    {
      if session.None? {
        return Prefs(None, None);
      }
      var loc := SessionText(session.value, LocaleKey);
      var ver := SessionText(session.value, VersionKey);
      if loc.Some? && ver.Some? {
        return Prefs(loc, ver);
      }
      HydrateSessionFromRememberCookie();
      r := PreferencesOf(session);
    }

    method Handle(req: Request, h: Need) returns (out: Outcome)
      modifies versions
      ensures (versions.memo, out) == HandleSpec(versions.feeds, old(versions.memo), req, h)
    {
      match h {
        case NeedVersion =>
          var v := QueryText(req, "version");
          var ok := versions.VersionExists(Some(v));
          out := if ok then Valid("version", PStr(v)) else Invalid("Version inexistante");
        case NeedLang =>
          var l := QueryText(req, "lang");
          var ok := versions.LanguageExists(Some(l));
          out := if ok then Valid("lang", PStr(l)) else Invalid("Langue inexistante");
        case NeedNumpage =>
          out := Positive(IntCast(QueryText(req, "numpage")), "numPage", "Numéro de page impossible");
        case NeedItemperpage =>
          out := Positive(IntCast(QueryText(req, "itemperpage")), "itemPerPage", "Nombre objet par page impossible");
      }
    }

    method GetParams(needs: seq<string>) returns (r: Result<OMap<string, Param>>)
      modifies versions
      ensures (versions.memo, r) == GetParamsSpec(versions.feeds, old(versions.memo), request, needs)
    {
      var ns := if "full" in needs then FullNeeds else needs;
      var acc: OMap<string, Param> := [("param", PBool(true))];
      var i := 0;
      while i < |ns|
        invariant 0 <= i <= |ns|
        invariant GetParamsSpec(versions.feeds, old(versions.memo), request, needs)
          == RunNeeds(versions.feeds, versions.memo, request, ns[i..], acc)
      {
        assert ns[i..][0] == ns[i] && ns[i..][1..] == ns[i + 1..];
        var h := HandlerOf(ns[i]);
        if h.None? {
          return Ok(ErrorArray(UnknownMessage(ns[i])));
        }
        if request.None? {
          return Err(NoRequest);
        }
        var out := Handle(request.value, h.value);
        if out.Invalid? {
          return Ok(ErrorArray(out.message));
        }
        acc := Put(acc, out.key, out.value);
        i := i + 1;
      }
      r := Ok(acc);
    }

    method GetSession() returns (r: Selection)
      modifies this, versions
      ensures (versions.memo, session, r) == GetSessionSpec(versions.feeds, old(versions.memo), request, old(session), defaultLocale)
    {
      var p := GetOrHydratePreferences();
      var lOk := versions.LanguageExists(p.locale);
      var vOk := false;
      if lOk {
        vOk := versions.VersionExists(p.version);
      }
      if lOk && vOk {
        return Selection(p.version, p.locale);
      }
      var vs := versions.GetVersions();
      r := Selection(if vs == [] then None else Some(vs[0]), Some(GetLangue()));
    }
  }

  // ---------------------------------------------------------------- the session, read back

  /** A setter followed by the matching getter reads the value back when it is non-empty, and leaves the other entry alone. */
  lemma SettersAreReadBack(s: Session, locale: string, version: string)
    ensures PreferencesOf(SetIn(Some(s), LocaleKey, locale))
      == Prefs(if locale != "" then Some(locale) else None, SessionText(s, VersionKey))
    ensures PreferencesOf(SetIn(Some(s), VersionKey, version))
      == Prefs(SessionText(s, LocaleKey), if version != "" then Some(version) else None)
    ensures SetIn(None, LocaleKey, locale) == None && SetIn(None, VersionKey, version) == None
  {
  }

  /** setPreferencesInSession writes exactly the given values; a skipped one keeps what the session held. */
  lemma PreferencesAreWrittenWhenGiven(s: Session, locale: Option<string>, version: Option<string>)
    ensures var p := PreferencesOf(SetPreferencesSpec(Some(s), locale, version));
      p.locale == (if Given(locale) then locale else SessionText(s, LocaleKey))
      && p.version == (if Given(version) then version else SessionText(s, VersionKey))
    ensures SetPreferencesSpec(None, locale, version) == None
  {
  }

  /** Hydrating from the cookie touches no entry of the session but the two preferences. */
  lemma HydrateTouchesOnlyPreferences(req: Option<Request>, sess: Option<Session>, k: string)
    requires k != LocaleKey && k != VersionKey
    ensures var s1 := HydrateSpec(req, sess);
      s1.Some? == sess.Some?
      && (sess.Some? ==> (k in s1.value <==> k in sess.value) && (k in sess.value ==> s1.value[k] == sess.value[k]))
  {
  }

  /** Complete preferences are answered from the session, which stays as it was. */
  lemma CompletePreferencesSkipTheCookie(req: Option<Request>, s: Session)
    requires SessionText(s, LocaleKey).Some? && SessionText(s, VersionKey).Some?
    ensures GetOrHydrateSpec(req, Some(s)) == (Some(s), PreferencesOf(Some(s)))
  {
  }

  /**
   * The cookie makeRememberCookie writes restores what it remembered: a
   * session lacking either preference reads back the cookie's locale and
   * version.
   */
  lemma RememberCookieRestoresPreferences(s: Session, locale: string, version: string, query: map<string, string>)
    requires TruthyStr(locale) && TruthyStr(version)
    requires !(LocaleKey in s && VersionKey in s)
    ensures GetOrHydrateSpec(Some(Request(query, RememberPayload(locale, Some(version)))), Some(s)).1
      == Prefs(Some(locale), Some(version))
  {
    assert !(SessionText(s, LocaleKey).Some? && SessionText(s, VersionKey).Some?);
  }

  // ---------------------------------------------------------------- the cast reads decimals back

  lemma {:induction false} DecimalValue(n: nat)
    ensures DigitsValue(Decimal(n)) == n
    decreases n
  {
    var d := ['0' + (n % 10) as char];
    if n >= 10 {
      DecimalValue(n / 10);
      var r := Decimal(n / 10) + d;
      assert r[..|r| - 1] == Decimal(n / 10);
    }
  }

  lemma {:induction false} DigitPrefixOfDigits(s: string)
    requires forall i :: 0 <= i < |s| ==> IsDigit(s[i])
    ensures DigitPrefix(s) == s
    decreases |s|
  {
    if s != [] {
      DigitPrefixOfDigits(s[1..]);
    }
  }

  /** On a run of digits the cast is the digits' value. */
  lemma IntCastOfDigits(t: string)
    requires t != [] && forall i :: 0 <= i < |t| ==> IsDigit(t[i])
    requires DigitsValue(t) <= MaxInt
    ensures IntCast(t) == DigitsValue(t)
  {
    DigitPrefixOfDigits(t);
    assert !IsSpace(t[0]) && t[0] != '-' && t[0] != '+';
    assert SkipSpace(t) == t;
    assert Signed(t) == Cap(DigitsValue(t));
  }

  lemma IntCastOfNegatedDigits(t: string)
    requires t != [] && forall i :: 0 <= i < |t| ==> IsDigit(t[i])
    requires DigitsValue(t) <= MaxInt
    ensures IntCast("-" + t) == -(DigitsValue(t) as int)
  {
    var neg := ['-'] + t;
    assert neg[0] == '-' && neg[1..] == t;
    assert SkipSpace(neg) == neg;
    DigitPrefixOfDigits(neg[1..]);
    var n := DigitsValue(t) as int;
    assert Signed(neg) == Cap(-n);
    assert MinInt <= -n <= MaxInt;
  }

  /** Leading blanks are skipped. */
  lemma IntCastSkipsBlank(t: string)
    ensures IntCast(" " + t) == IntCast(t)
  {
    var sp := " " + t;
    assert sp[1..] == t;
    assert SkipSpace(sp) == SkipSpace(t);
  }

  /** `(int)` reads back the decimal writing of every int: positive, negative, after leading blanks. */
  lemma IntCastReadsDecimal(n: nat)
    requires n <= MaxInt
    ensures IntCast(Decimal(n)) == n
    ensures IntCast("-" + Decimal(n)) == -(n as int)
    ensures IntCast(" " + Decimal(n)) == n
  {
    DecimalValue(n);
    IntCastOfDigits(Decimal(n));
    IntCastOfNegatedDigits(Decimal(n));
    IntCastSkipsBlank(Decimal(n));
  }

  /** A missing or non-numeric parameter reads as 0, so numpage and itemperpage refuse it. */
  lemma NonNumericIsZero(s: string)
    requires s == [] || (!IsSpace(s[0]) && !IsDigit(s[0]) && s[0] != '-' && s[0] != '+')
    ensures IntCast(s) == 0
  {
  }

  // ---------------------------------------------------------------- getParams, read against the lists

  /** The key each handler fills in. */
  function KeyName(h: Need): string {
    match h
    case NeedVersion => "version"
    case NeedLang => "lang"
    case NeedNumpage => "numPage"
    case NeedItemperpage => "itemPerPage"
  }

  /**
   * What a handler answers, given the version list vs and the language list
   * ls the VersionManager reads: a reference free of the cache.
   */
  function Verdict(vs: seq<string>, ls: seq<string>, req: Request, h: Need): (r: Outcome)
    ensures r.Valid? ==> r.key == KeyName(h)
  {
    match h
    case NeedVersion =>
      var v := QueryText(req, "version");
      if v != "" && v in vs then Valid("version", PStr(v)) else Invalid("Version inexistante")
    case NeedLang =>
      var l := QueryText(req, "lang");
      if l != "" && l in Accepted(ls) then Valid("lang", PStr(l)) else Invalid("Langue inexistante")
    case NeedNumpage =>
      Positive(IntCast(QueryText(req, "numpage")), "numPage", "Numéro de page impossible")
    case NeedItemperpage =>
      Positive(IntCast(QueryText(req, "itemperpage")), "itemPerPage", "Nombre objet par page impossible")
  }

  predicate Accepts(vs: seq<string>, ls: seq<string>, req: Option<Request>, need: string) {
    HandlerOf(need).Some? && req.Some? && Verdict(vs, ls, req.value, HandlerOf(need).value).Valid?
  }

  predicate AllAccept(vs: seq<string>, ls: seq<string>, req: Option<Request>, ns: seq<string>) {
    forall i :: 0 <= i < |ns| ==> Accepts(vs, ls, req, ns[i])
  }

  /** ns[i] is the first need refused. */
  predicate FirstRefusal(vs: seq<string>, ls: seq<string>, req: Option<Request>, ns: seq<string>, i: int) {
    0 <= i < |ns| && !Accepts(vs, ls, req, ns[i]) && forall j :: 0 <= j < i ==> Accepts(vs, ls, req, ns[j])
  }

  /** What getParams answers for a refused need: unknown name, missing request, or the handler's message. */
  function Refusal(vs: seq<string>, ls: seq<string>, req: Option<Request>, need: string): Result<OMap<string, Param>>
    requires !Accepts(vs, ls, req, need)
  {
    if HandlerOf(need).None? then Ok(ErrorArray(UnknownMessage(need)))
    else if req.None? then Err(NoRequest)
    else Ok(ErrorArray(Verdict(vs, ls, req.value, HandlerOf(need).value).message))
  }

  /** The answers of accepted needs merged in order into acc. */
  function Collected(vs: seq<string>, ls: seq<string>, req: Option<Request>, ns: seq<string>, acc: OMap<string, Param>)
    : OMap<string, Param>
    decreases |ns|
  {
    if ns == [] || req.None? || HandlerOf(ns[0]).None? then acc
    else
      var out := Verdict(vs, ls, req.value, HandlerOf(ns[0]).value);
      Collected(vs, ls, req, ns[1..], if out.Valid? then Put(acc, out.key, out.value) else acc)
  }

  lemma HandleReadsTheLists(f: Feeds, m: Memo, req: Request, h: Need)
    ensures var (m1, out) := HandleSpec(f, m, req, h);
      out == Verdict(Known(m, VersionsKey, f.versions), Known(m, LanguagesKey, f.languages), req, h)
      && Known(m1, VersionsKey, f.versions) == Known(m, VersionsKey, f.versions)
      && Known(m1, LanguagesKey, f.languages) == Known(m, LanguagesKey, f.languages)
  {
    VersionExistsIsMembership(f, m, Some(QueryText(req, "version")));
    LanguageExistsIsMembership(f, m, Some(QueryText(req, "lang")));
  }

  /**
   * The foreach of getParams against the lists: when every need is accepted
   * the answers are merged; otherwise the answer is the first refusal's.
   */
  lemma {:induction false} RunNeedsReadsTheLists(f: Feeds, m: Memo, req: Option<Request>, ns: seq<string>, acc: OMap<string, Param>)
    ensures var vs := Known(m, VersionsKey, f.versions);
      var ls := Known(m, LanguagesKey, f.languages);
      var (m1, r) := RunNeeds(f, m, req, ns, acc);
      Known(m1, VersionsKey, f.versions) == vs && Known(m1, LanguagesKey, f.languages) == ls
      && (AllAccept(vs, ls, req, ns) ==> r == Ok(Collected(vs, ls, req, ns, acc)))
      && (!AllAccept(vs, ls, req, ns) ==> exists i :: FirstRefusal(vs, ls, req, ns, i) && r == Refusal(vs, ls, req, ns[i]))
    decreases |ns|
  {
    var vs := Known(m, VersionsKey, f.versions);
    var ls := Known(m, LanguagesKey, f.languages);
    if ns != [] {
      if !Accepts(vs, ls, req, ns[0]) {
        if HandlerOf(ns[0]).Some? && req.Some? {
          HandleReadsTheLists(f, m, req.value, HandlerOf(ns[0]).value);
        }
        assert FirstRefusal(vs, ls, req, ns, 0);
      } else {
        var h := HandlerOf(ns[0]).value;
        HandleReadsTheLists(f, m, req.value, h);
        var (m1, out) := HandleSpec(f, m, req.value, h);
        var acc' := Put(acc, out.key, out.value);
        RunNeedsReadsTheLists(f, m1, req, ns[1..], acc');
        if AllAccept(vs, ls, req, ns[1..]) {
          assert AllAccept(vs, ls, req, ns) by {
            forall i | 0 <= i < |ns| ensures Accepts(vs, ls, req, ns[i]) {
              if i > 0 { assert ns[i] == ns[1..][i - 1]; }
            }
          }
        } else {
          var i :| FirstRefusal(vs, ls, req, ns[1..], i) && RunNeeds(f, m1, req, ns[1..], acc').1 == Refusal(vs, ls, req, ns[1..][i]);
          assert FirstRefusal(vs, ls, req, ns, i + 1) by {
            forall j | 0 <= j < i + 1 ensures Accepts(vs, ls, req, ns[j]) {
              if j > 0 { assert ns[j] == ns[1..][j - 1]; }
            }
          }
          assert !AllAccept(vs, ls, req, ns) by {
            assert ns[i + 1] == ns[1..][i];
          }
        }
      }
    }
  }

  /** A key no accepted need fills in keeps its value from acc. */
  lemma {:induction false} CollectedKeepsOthers(vs: seq<string>, ls: seq<string>, req: Option<Request>, ns: seq<string>, acc: OMap<string, Param>, k: string)
    requires forall i :: 0 <= i < |ns| && HandlerOf(ns[i]).Some? ==> KeyName(HandlerOf(ns[i]).value) != k
    ensures Get(Collected(vs, ls, req, ns, acc), k) == Get(acc, k)
    decreases |ns|
  {
    if ns != [] && req.Some? && HandlerOf(ns[0]).Some? {
      var out := Verdict(vs, ls, req.value, HandlerOf(ns[0]).value);
      var acc' := if out.Valid? then Put(acc, out.key, out.value) else acc;
      if out.Valid? { GetPut(acc, out.key, out.value, k); }
      forall i | 0 <= i < |ns| - 1 && HandlerOf(ns[1..][i]).Some? ensures KeyName(HandlerOf(ns[1..][i]).value) != k {
        assert ns[1..][i] == ns[i + 1];
      }
      CollectedKeepsOthers(vs, ls, req, ns[1..], acc', k);
    }
  }

  lemma AllAcceptTail(vs: seq<string>, ls: seq<string>, req: Option<Request>, ns: seq<string>)
    requires ns != [] && AllAccept(vs, ls, req, ns)
    ensures Accepts(vs, ls, req, ns[0]) && AllAccept(vs, ls, req, ns[1..])
  {
    forall j | 0 <= j < |ns| - 1 ensures Accepts(vs, ls, req, ns[1..][j]) {
      assert ns[1..][j] == ns[j + 1];
    }
  }

  lemma CollectedStep(vs: seq<string>, ls: seq<string>, req: Option<Request>, ns: seq<string>, acc: OMap<string, Param>)
    requires ns != [] && Accepts(vs, ls, req, ns[0])
    ensures var out := Verdict(vs, ls, req.value, HandlerOf(ns[0]).value);
      out.Valid? && Collected(vs, ls, req, ns, acc) == Collected(vs, ls, req, ns[1..], Put(acc, out.key, out.value))
  {
  }

  lemma KeyNameIsInjective(h1: Need, h2: Need)
    ensures KeyName(h1) == KeyName(h2) ==> h1 == h2
  {
    if h1 != h2 {
      assert KeyName(h1)[0] != KeyName(h2)[0] || |KeyName(h1)| != |KeyName(h2)|;
    }
  }

  /** The answer of the last need naming h is what stays under its key. */
  lemma CollectedLastAnswer(vs: seq<string>, ls: seq<string>, req: Option<Request>, ns: seq<string>, acc: OMap<string, Param>, h: Need)
    requires ns != [] && Accepts(vs, ls, req, ns[0]) && HandlerOf(ns[0]) == Some(h)
    requires forall j :: 0 <= j < |ns| - 1 ==> HandlerOf(ns[1..][j]) != Some(h)
    ensures Get(Collected(vs, ls, req, ns, acc), KeyName(h)) == Some(Verdict(vs, ls, req.value, h).value)
  {
    CollectedStep(vs, ls, req, ns, acc);
    var out := Verdict(vs, ls, req.value, h);
    var acc' := Put(acc, out.key, out.value);
    GetPut(acc, out.key, out.value, KeyName(h));
    var tail := ns[1..];
    forall j | 0 <= j < |tail| && HandlerOf(tail[j]).Some? ensures KeyName(HandlerOf(tail[j]).value) != KeyName(h) {
      KeyNameIsInjective(HandlerOf(tail[j]).value, h);
    }
    CollectedKeepsOthers(vs, ls, req, tail, acc', KeyName(h));
  }

  /** When all needs are accepted, each handler named among them has its answer's value under its key. */
  lemma {:induction false} CollectedHasEachAnswer(vs: seq<string>, ls: seq<string>, req: Option<Request>, ns: seq<string>, acc: OMap<string, Param>, h: Need, i: int)
    requires AllAccept(vs, ls, req, ns)
    requires 0 <= i < |ns| && HandlerOf(ns[i]) == Some(h)
    ensures Get(Collected(vs, ls, req, ns, acc), KeyName(h)) == Some(Verdict(vs, ls, req.value, h).value)
    decreases |ns|
  {
    AllAcceptTail(vs, ls, req, ns);
    CollectedStep(vs, ls, req, ns, acc);
    var out := Verdict(vs, ls, req.value, HandlerOf(ns[0]).value);
    var acc' := Put(acc, out.key, out.value);
    var tail := ns[1..];
    if i > 0 {
      assert tail[i - 1] == ns[i];
      CollectedHasEachAnswer(vs, ls, req, tail, acc', h, i - 1);
    } else if j :| 0 <= j < |tail| && HandlerOf(tail[j]) == Some(h) {
      CollectedHasEachAnswer(vs, ls, req, tail, acc', h, j);
    } else {
      CollectedLastAnswer(vs, ls, req, ns, acc, h);
    }
  }

  /**
   * getParams succeeds ('param' is true) exactly when every need is a known
   * handler accepting its query parameter; the result then holds each
   * answer under its key, and otherwise it is the first refusal's answer.
   */
  lemma GetParamsReport(f: Feeds, m: Memo, req: Option<Request>, needs: seq<string>)
    ensures var vs := Known(m, VersionsKey, f.versions);
      var ls := Known(m, LanguagesKey, f.languages);
      var ns := Expand(needs);
      var r := GetParamsSpec(f, m, req, needs).1;
      ((r.Ok? && Get(r.value, "param") == Some(PBool(true))) <==> AllAccept(vs, ls, req, ns))
      && (AllAccept(vs, ls, req, ns) ==> forall i :: 0 <= i < |ns| ==>
            Get(r.value, KeyName(HandlerOf(ns[i]).value)) == Some(Verdict(vs, ls, req.value, HandlerOf(ns[i]).value).value))
      && (!AllAccept(vs, ls, req, ns) ==> exists i :: FirstRefusal(vs, ls, req, ns, i) && r == Refusal(vs, ls, req, ns[i]))
  {
    var vs := Known(m, VersionsKey, f.versions);
    var ls := Known(m, LanguagesKey, f.languages);
    var ns := Expand(needs);
    var acc: OMap<string, Param> := [("param", PBool(true))];
    RunNeedsReadsTheLists(f, m, req, ns, acc);
    if AllAccept(vs, ls, req, ns) {
      CollectedKeepsOthers(vs, ls, req, ns, acc, "param");
      forall i | 0 <= i < |ns|
        ensures Get(Collected(vs, ls, req, ns, acc), KeyName(HandlerOf(ns[i]).value))
          == Some(Verdict(vs, ls, req.value, HandlerOf(ns[i]).value).value)
      {
        assert Accepts(vs, ls, req, ns[i]);
        CollectedHasEachAnswer(vs, ls, req, ns, acc, HandlerOf(ns[i]).value, i);
      }
    }
  }

  // ---------------------------------------------------------------- getSession

  /**
   * getSession keeps the stored preferences exactly when both are known;
   * otherwise it answers the newest version and the default locale. Either
   * way a version it answers is one Data Dragon lists.
   */
  lemma SessionFallsBackToDefaults(f: Feeds, m: Memo, req: Option<Request>, sess: Option<Session>, d: string)
    ensures var vs := Known(m, VersionsKey, f.versions);
      var ls := Known(m, LanguagesKey, f.languages);
      var (s1, p) := GetOrHydrateSpec(req, sess);
      var (m1, s2, r) := GetSessionSpec(f, m, req, sess, d);
      var known := Given(p.locale) && p.locale.value in Accepted(ls) && Given(p.version) && p.version.value in vs;
      s2 == s1
      && (known ==> r == Selection(p.version, p.locale))
      && (!known ==> r == Selection(if vs == [] then None else Some(vs[0]), Some(d)))
      && (r.version.Some? ==> r.version.value in vs)
      && (r.lang == Some(d) || (r.lang.Some? && r.lang.value in Accepted(ls)))
  {
    var (s1, p) := GetOrHydrateSpec(req, sess);
    LanguageExistsIsMembership(f, m, p.locale);
    var (m1, lOk) := LanguageExistsSpec(f, m, p.locale);
    VersionExistsIsMembership(f, m1, p.version);
    var (m2, vOk) := if lOk then VersionExistsSpec(f, m1, p.version) else (m1, false);
    CachedIsKnown(m2, VersionsKey, VersionsUrl, VersionsTtl, f.versions, VersionsError, LanguagesKey, f.languages);
  }
}
