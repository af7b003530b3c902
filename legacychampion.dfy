/**
 * The legacy ChampionManager: it keeps champion.json as raw text, hands out
 * that text, decodes it again to list the champions sorted by name, and
 * downloads the portraits in its own loop, keyed by champion id.
 */
module LegacyChampion {
  import opened Base
  import opened OrderedMap
  import opened Json
  import opened Paths
  import opened Store
  import opened Catalog
  import opened CatalogFacts
  import opened NameSort
  import ApiCatalog

  const ChampionKind: string := "champion"
  const ChampionsFile: string := "champion.json"

  /** The download base of fetchChampionImages. */
  function PortraitBase(version: string): string { Cdn + version + "/img/champion/" }

  /** buildChampionsPath: upload/{version}/{lang}/champion/champion.json, its directory created by buildDir. */
  function ChampionsPath(env: Env, version: string, lang: string): FilePath {
    Paths.BuildPath(Paths.BuildDir(env.baseDir, version, lang, ChampionKind, false), ChampionsFile)
  }

  /**
   * getChampions: a readable, truthy champion.json is returned as it is;
   * otherwise the DDragon document is fetched and decoded (malformed text is
   * an error), saved re-encoded, and the re-encoded text is returned.
   */
  function ChampionsJsonSpec(env: Env, w: World, version: string, lang: string): (World, Result<Bytes>) {
    var dir := Paths.BuildDir(env.baseDir, version, lang, ChampionKind, false);
    var p := Paths.BuildPath(dir, ChampionsFile);
    var w1 := Mkdir(w, dir.absDir);
    match ReadIfExists(w1, p.absPath)
    case Err(e) => (w1, Err(e))
    case Ok(cached) =>
      if cached.Some? && TruthyBytes(cached.value) then (w1, Ok(cached.value))
      else
        var (w2, body) := Fetch(env, w1, JsonUrl(version, lang, ChampionsFile));
        if body.Err? then (w2, Err(body.error))
        else
          match env.codec.decode(body.value)
          case None => (w2, Err(DecodeFailure))
          case Some(data) =>
            (DumpFile(Mkdir(w2, dir.absDir), dir.absDir + "/" + ChampionsFile, env.codec.encode(data)), Ok(env.codec.encode(data)))
  }

  method ChampionsJson(m: Manager, version: string, lang: string) returns (r: Result<Bytes>)
    modifies m
    ensures (m.st, r) == ChampionsJsonSpec(m.env, old(m.st), version, lang)
  {
    var dir := m.BuildDir(version, lang, ChampionKind, false);
    var file := m.FileIsExisting(Join(dir.absDir, ChampionsFile));
    if file.Err? {
      return Err(file.error);
    }
    if file.value.Some? && TruthyBytes(file.value.value) {
      return Ok(file.value.value);
    }
    var body := m.Call(JsonUrl(version, lang, ChampionsFile));
    if body.Err? {
      return Err(body.error);
    }
    var data := m.env.codec.decode(body.value);
    if data.None? {
      return Err(DecodeFailure);
    }
    m.SaveJson(dir.absDir, ChampionsFile, data.value);
    return Ok(m.env.codec.encode(data.value));
  }

  /** parseChampions: decode (throwing on malformed text), take the values of 'data' (none when absent), sort by name. */
  function ParseChampions(c: Codec, json: Bytes): (r: Result<seq<Value>>)
    ensures c.decode(json).None? ==> r == Err(DecodeFailure)
    ensures r.Ok? ==> c.decode(json).Some? && ValuesOrEmpty(Field(c.decode(json).value, "data")).Ok?
    ensures r.Ok? ==> SortedByName(r.value)
    ensures r.Ok? ==> multiset(r.value) == multiset(ValuesOrEmpty(Field(c.decode(json).value, "data")).value)
    ensures c.decode(json).Some? && ValuesOrEmpty(Field(c.decode(json).value, "data")).Ok? ==>
      var xs := ValuesOrEmpty(Field(c.decode(json).value, "data")).value;
      (r.Err? <==> |xs| >= 2 && !AllComparable(xs)) && (r.Err? ==> r.error == TypeFailure)
  {
    match c.decode(json)
    case None => Err(DecodeFailure)
    case Some(doc) =>
      match ValuesOrEmpty(Field(doc, "data"))
      case Err(e) => Err(e)
      case Ok(xs) =>
        SortByNameSortsAndPermutes(xs);
        SortEntries(xs)
  }

  /** usort is stable: champions whose names fold to the same string keep their document order. */
  lemma ParseChampionsIsStable(c: Codec, json: Bytes, n: string)
    requires ParseChampions(c, json).Ok?
    ensures WithName(ParseChampions(c, json).value, n) == WithName(ValuesOrEmpty(Field(c.decode(json).value, "data")).value, n)
  {
    SortByNameIsStable(ValuesOrEmpty(Field(c.decode(json).value, "data")).value, n);
  }

  /** getChampionsParsed: getChampions, then parseChampions. */
  function ChampionsParsedSpec(env: Env, w: World, version: string, lang: string): (World, Result<seq<Value>>) {
    var (w1, json) := ChampionsJsonSpec(env, w, version, lang);
    if json.Err? then (w1, Err(json.error)) else (w1, ParseChampions(env.codec, json.value))
  }

  method ChampionsParsed(m: Manager, version: string, lang: string) returns (r: Result<seq<Value>>)
    modifies m
    ensures (m.st, r) == ChampionsParsedSpec(m.env, old(m.st), version, lang)
  {
    var json := ChampionsJson(m, version, lang);
    if json.Err? {
      return Err(json.error);
    }
    r := ParseChampions(m.env.codec, json.value);
  }

  /**
   * fetchChampionImages: the champions of getChampions, the portrait directory
   * created, then a loop that keys each portrait's relative path by the
   * champion id. Its body is the flat image step: a present file is kept
   * unless forced, otherwise fetched and linked or written. The step's own
   * mkdir repeats the loop's and changes nothing.
   */
  function ChampionImagesSpec(env: Env, w: World, version: string, lang: string, force: bool): (World, Result<OMap<Key, string>>) {
    var (w1, json) := ChampionsJsonSpec(env, w, version, lang);
    if json.Err? then (w1, Err(json.error))
    else
      match env.codec.decode(json.value)
      case None => (w1, Err(DecodeFailure))
      case Some(doc) =>
        match ValuesOrEmpty(Field(doc, "data"))
        case Err(e) => (w1, Err(e))
        case Ok(spells) =>
          var dir := Paths.BuildDir(env.baseDir, version, lang, ChampionKind, true);
          FlatManifest(env, Mkdir(w1, dir.absDir), spells, dir, PortraitBase(version), ChampionKind, force, Keyed("id"))
  }

  method FetchChampionImages(m: Manager, version: string, lang: string, force: bool) returns (r: Result<OMap<Key, string>>)
    modifies m
    ensures (m.st, r) == ChampionImagesSpec(m.env, old(m.st), version, lang, force)
  {
    var json := ChampionsJson(m, version, lang);
    if json.Err? {
      return Err(json.error);
    }
    var doc := m.env.codec.decode(json.value);
    if doc.None? {
      return Err(DecodeFailure);
    }
    var spells := ValuesOrEmpty(Field(doc.value, "data"));
    if spells.Err? {
      return Err(spells.error);
    }
    var dir := m.BuildDir(version, lang, ChampionKind, true);
    r := FlatImages(m, spells.value, dir, PortraitBase(version), ChampionKind, force, Keyed("id"));
  }

  // ---------------------------------------------------------------- properties

  /** The legacy cache file is the file the API generation's getData reads and writes for champions. */
  lemma SharedChampionCache(env: Env, version: string, lang: string)
    ensures ChampionsPath(env, version, lang).absPath == JsonFile(env, version, lang, ChampionKind, None)
    ensures ChampionsPath(env, version, lang).absPath == Paths.BuildDir(env.baseDir, version, lang, ChampionKind, false).absDir + "/" + ChampionsFile
    ensures PortraitBase(version) == ApiCatalog.ChampionImageBase(version)
  {
    assert DefaultName(ChampionKind, None) == ChampionsFile;
  }

  /** A cache hit returns the stored text as it is, without a request or a write. */
  lemma ChampionsJsonHit(env: Env, w: World, version: string, lang: string)
    requires var p := ChampionsPath(env, version, lang).absPath;
      p in w.files && p !in w.unreadable && TruthyBytes(w.files[p])
    ensures var (w', r) := ChampionsJsonSpec(env, w, version, lang);
      r == Ok(w.files[ChampionsPath(env, version, lang).absPath]) && w'.files == w.files && w'.fetched == w.fetched
  {
  }

  /** On a miss, the text returned is the text stored, and exactly the DDragon URL was requested. */
  lemma ChampionsJsonStoresWhatItReturns(env: Env, w: World, version: string, lang: string)
    requires var p := ChampionsPath(env, version, lang).absPath;
      !(p in w.files && TruthyBytes(w.files[p]))
    requires ChampionsJsonSpec(env, w, version, lang).1.Ok?
    ensures var (w', r) := ChampionsJsonSpec(env, w, version, lang);
      var p := ChampionsPath(env, version, lang).absPath;
      p in w'.files && w'.files[p] == r.value && p !in w'.unreadable
      && w'.fetched == w.fetched + [JsonUrl(version, lang, ChampionsFile)]
      && env.codec.decode(env.net(JsonUrl(version, lang, ChampionsFile)).value).Some?
      && r.value == env.codec.encode(env.codec.decode(env.net(JsonUrl(version, lang, ChampionsFile)).value).value)
  {
    SharedChampionCache(env, version, lang);
  }

  /** A call that returned truthy text leaves it cached: the next call returns the same text from disk. */
  lemma ChampionsJsonSecondCallHits(env: Env, w: World, version: string, lang: string)
    requires ChampionsJsonSpec(env, w, version, lang).1.Ok?
    requires TruthyBytes(ChampionsJsonSpec(env, w, version, lang).1.value)
    ensures var (w1, r1) := ChampionsJsonSpec(env, w, version, lang);
      var (w2, r2) := ChampionsJsonSpec(env, w1, version, lang);
      r2 == r1 && w2.files == w1.files && w2.fetched == w1.fetched
  {
    var p := ChampionsPath(env, version, lang).absPath;
    if !(p in w.files && TruthyBytes(w.files[p])) {
      ChampionsJsonStoresWhatItReturns(env, w, version, lang);
    }
    var (w1, r1) := ChampionsJsonSpec(env, w, version, lang);
    ChampionsJsonHit(env, w1, version, lang);
  }

  /** A fetched document that is an array is stored as truthy text, so the cache holds from then on. */
  lemma FetchedArraysStayCached(env: Env, w: World, version: string, lang: string)
    requires ArraysEncodeTruthy(env.codec)
    requires var p := ChampionsPath(env, version, lang).absPath;
      !(p in w.files && TruthyBytes(w.files[p]))
    requires ChampionsJsonSpec(env, w, version, lang).1.Ok?
    requires env.codec.decode(env.net(JsonUrl(version, lang, ChampionsFile)).value).value.Arr?
    ensures TruthyBytes(ChampionsJsonSpec(env, w, version, lang).1.value)
  {
    ChampionsJsonStoresWhatItReturns(env, w, version, lang);
    var data := env.codec.decode(env.net(JsonUrl(version, lang, ChampionsFile)).value).value;
    assert TruthyBytes(env.codec.encode(Arr(data.entries)));
  }

  /**
   * With a lossless codec, re-encoding before returning is invisible to the
   * parser: after a miss, getChampionsParsed sorts the fetched document's champions.
   */
  lemma ParsedAfterFetchSortsDocument(env: Env, w: World, version: string, lang: string)
    requires Lossless(env.codec)
    requires var p := ChampionsPath(env, version, lang).absPath;
      !(p in w.files && TruthyBytes(w.files[p]))
    requires ChampionsJsonSpec(env, w, version, lang).1.Ok?
    ensures var doc := env.codec.decode(env.net(JsonUrl(version, lang, ChampionsFile)).value).value;
      ChampionsParsedSpec(env, w, version, lang).1 ==
        (match ValuesOrEmpty(Field(doc, "data"))
         case Err(e) => Err(e)
         case Ok(xs) => SortEntries(xs))
  {
    ChampionsJsonStoresWhatItReturns(env, w, version, lang);
    var doc := env.codec.decode(env.net(JsonUrl(version, lang, ChampionsFile)).value).value;
    assert env.codec.decode(env.codec.encode(doc)) == Some(doc);
  }

  /**
   * Unlike the API generation's positional list, the legacy portraits are keyed
   * by champion id: one key per champion with an id and an image, each mapped
   * to the image path of the last champion kept under that id.
   */
  lemma ChampionImagesKeyedById(env: Env, w: World, version: string, lang: string, force: bool)
    requires ChampionImagesSpec(env, w, version, lang, force).1.Ok?
    ensures var (w1, json) := ChampionsJsonSpec(env, w, version, lang);
      var spells := ValuesOrEmpty(Field(env.codec.decode(json.value).value, "data")).value;
      var res := ChampionImagesSpec(env, w, version, lang, force).1.value;
      var k := Kept(spells, EntryOf("id"));
      UniqueKeys(res)
      && (forall key :: HasKey(res, key) <==> KeptKey(k, key))
      && (forall key, v :: Get(res, key) == Some(v) ==> KeptPath(k, RelDir(version, lang, ChampionKind, true), key, v))
      && (forall key :: Get(res, key) == LastKept(k, RelDir(version, lang, ChampionKind, true), key))
  {
    var (w1, json) := ChampionsJsonSpec(env, w, version, lang);
    var spells := ValuesOrEmpty(Field(env.codec.decode(json.value).value, "data")).value;
    var dir := Paths.BuildDir(env.baseDir, version, lang, ChampionKind, true);
    KeyedManifest(env, Mkdir(w1, dir.absDir), spells, dir, PortraitBase(version), ChampionKind, force, "id");
  }
}
