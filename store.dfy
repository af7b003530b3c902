/**
 * The outside world of the catalog engine: the public upload store (files,
 * unreadable files, directories), the log of HTTP requests made, and the
 * read-through and image-materialisation rules expressed as pure functions
 * from an old world to a new world and a result.
 */
module Store {
  import opened Base
  import opened Json
  import opened Paths

  datatype World = World(
    files: map<string, Bytes>,
    unreadable: set<string>,
    dirs: set<string>,
    fetched: seq<string>)

  /**
   * What a manager is constructed with: the project base directory, the
   * process working directory (against which the relative paths of the version
   * scan and of link() resolve), the HTTP oracle, the JSON codec, and the
   * version list VersionManager::getVersions serves.
   */
  datatype Env = Env(
    baseDir: string,
    workDir: string,
    net: string -> Option<Bytes>,
    codec: Codec,
    versions: seq<string>)

  const Cdn: string := "https://ddragon.leagueoflegends.com/cdn/"

  /** Filesystem::mkdir. */
  function Mkdir(w: World, d: string): World {
    w.(dirs := w.dirs + {d})
  }

  /** Filesystem::dumpFile writes through a temporary file, so it never aliases a hard link. */
  function DumpFile(w: World, p: string, b: Bytes): (w': World)
    ensures w'.files == w.files[p := b] && p !in w'.unreadable
    ensures w'.fetched == w.fetched && w'.dirs == w.dirs
  {
    w.(files := w.files[p := b], unreadable := w.unreadable - {p})
  }

  /** @link(src, dst): fails silently when dst exists or src does not. */
  function LinkFile(w: World, src: string, dst: string): (w': World)
    ensures dst !in w.files && src in w.files ==> w'.files == w.files[dst := w.files[src]]
    ensures !(dst !in w.files && src in w.files) ==> w' == w
    ensures w'.fetched == w.fetched && w'.dirs == w.dirs
  {
    if dst !in w.files && src in w.files then
      w.(files := w.files[dst := w.files[src]],
         unreadable := if src in w.unreadable then w.unreadable + {dst} else w.unreadable - {dst})
    else w
  }

  /** fileIsExisting: absent, readable, or a read failure. */
  function ReadIfExists(w: World, p: string): (r: Result<Option<Bytes>>)
    ensures r == Ok(None) <==> p !in w.files
    ensures r.Ok? && r.value.Some? <==> p in w.files && p !in w.unreadable
    ensures r.Ok? && r.value.Some? ==> r.value.value == w.files[p]
    ensures r.Err? ==> r.error == ReadFailure(p)
  {
    if p !in w.files then Ok(None)
    else if p in w.unreadable then Err(ReadFailure(p))
    else Ok(Some(w.files[p]))
  }

  /** APICaller::call: every request is logged; a failed one raises. */
  function Fetch(env: Env, w: World, url: string): (res: (World, Result<Bytes>))
    ensures res.0 == w.(fetched := w.fetched + [url])
    ensures res.1.Err? <==> env.net(url).None?
    ensures res.1.Ok? ==> Some(res.1.value) == env.net(url)
    ensures res.1.Err? ==> res.1.error == FetchFailure(url)
  {
    (w.(fetched := w.fetched + [url]),
     match env.net(url)
     case Some(b) => Ok(b)
     case None => Err(FetchFailure(url)))
  }

  /** json_decode(..., true): malformed text decodes to null. */
  function DecodeOrNull(c: Codec, b: Bytes): Value {
    match c.decode(b)
    case Some(v) => v
    case None => Null
  }

  /** A declared `: array` return type: anything else is a TypeError. */
  function AsArray(v: Value): (r: Result<Value>)
    ensures r.Ok? <==> v.Arr?
    ensures r.Ok? ==> r.value == v
  {
    if v.Arr? then Ok(v) else Err(TypeFailure)
  }

  // ---------------------------------------------------------------- JSON read-through

  function JsonUrl(version: string, lang: string, fileName: string): string {
    Cdn + version + "/data/" + lang + "/" + fileName
  }

  /**
   * getData / getJson: build the paths (creating the directory); a readable,
   * truthy file is decoded; otherwise the DDragon document is fetched, decoded
   * (null when malformed), saved by UploadManager::saveJson and returned.
   */
  function GetJsonSpec(env: Env, w: World, version: string, lang: string, kind: string, name: Option<string>): (World, Result<Value>) {
    var fileName := DefaultName(kind, name);
    var dir := BuildDir(env.baseDir, version, lang, kind, false);
    var p := BuildPath(dir, fileName);
    var w1 := Mkdir(w, dir.absDir);
    match ReadIfExists(w1, p.absPath)
    case Err(e) => (w1, Err(e))
    case Ok(cached) =>
      if cached.Some? && TruthyBytes(cached.value) then (w1, AsArray(DecodeOrNull(env.codec, cached.value)))
      else
        var (w2, body) := Fetch(env, w1, JsonUrl(version, lang, fileName));
        if body.Err? then (w2, Err(body.error))
        else
          var data := DecodeOrNull(env.codec, body.value);
          (DumpFile(Mkdir(w2, dir.absDir), dir.absDir + "/" + fileName, env.codec.encode(data)), AsArray(data))
  }

  /** The file getJson reads for a key. */
  function JsonFile(env: Env, version: string, lang: string, kind: string, name: Option<string>): string {
    BuildPath(BuildDir(env.baseDir, version, lang, kind, false), DefaultName(kind, name)).absPath
  }

  predicate JsonCached(env: Env, w: World, version: string, lang: string, kind: string, name: Option<string>) {
    var p := JsonFile(env, version, lang, kind, name);
    p in w.files && p !in w.unreadable && TruthyBytes(w.files[p])
  }

  /** Cache hit: the stored document is decoded and nothing is fetched or written. */
  lemma JsonHitNoFetch(env: Env, w: World, version: string, lang: string, kind: string, name: Option<string>)
    requires JsonCached(env, w, version, lang, kind, name)
    ensures var (w', r) := GetJsonSpec(env, w, version, lang, kind, name);
      w'.files == w.files && w'.fetched == w.fetched
      && r == AsArray(DecodeOrNull(env.codec, w.files[JsonFile(env, version, lang, kind, name)]))
  {
  }

  /** Cache miss: exactly the DDragon URL is requested; on success the encoded document is stored at the read path. */
  lemma JsonMissFetchesAndStores(env: Env, w: World, version: string, lang: string, kind: string, name: Option<string>)
    requires JsonFile(env, version, lang, kind, name) !in w.unreadable
    requires !JsonCached(env, w, version, lang, kind, name)
    ensures var (w', r) := GetJsonSpec(env, w, version, lang, kind, name);
      var url := JsonUrl(version, lang, DefaultName(kind, name));
      var p := JsonFile(env, version, lang, kind, name);
      w'.fetched == w.fetched + [url]
      && (env.net(url).None? ==> r == Err(FetchFailure(url)) && w'.files == w.files)
      && (env.net(url).Some? ==>
            var data := DecodeOrNull(env.codec, env.net(url).value);
            w'.files == w.files[p := env.codec.encode(data)] && r == AsArray(data))
  {
  }

  /**
   * Read-through is idempotent: after any successful call, a second call for
   * the same key returns the same document without a request and without a write.
   */
  lemma JsonSecondCallHits(env: Env, w: World, version: string, lang: string, kind: string, name: Option<string>)
    requires Lossless(env.codec) && ArraysEncodeTruthy(env.codec)
    requires GetJsonSpec(env, w, version, lang, kind, name).1.Ok?
    ensures var (w1, r1) := GetJsonSpec(env, w, version, lang, kind, name);
      var (w2, r2) := GetJsonSpec(env, w1, version, lang, kind, name);
      r2 == r1 && w2.files == w1.files && w2.fetched == w1.fetched
  {
    var (w1, r1) := GetJsonSpec(env, w, version, lang, kind, name);
    var p := JsonFile(env, version, lang, kind, name);
    if !JsonCached(env, w, version, lang, kind, name) {
      var url := JsonUrl(version, lang, DefaultName(kind, name));
      var data := DecodeOrNull(env.codec, env.net(url).value);
      assert data.Arr?;
      assert w1.files[p] == env.codec.encode(data);
      assert env.codec.decode(env.codec.encode(data)) == Some(data);
      assert JsonCached(env, w1, version, lang, kind, name);
    }
  }

  // ---------------------------------------------------------------- duplicate scan

  /** The relative path binaryExisting probes for one version. */
  function Candidate(version: string, kind: string, name: string): string {
    "upload/" + version + "/" + kind + "_img/" + name
  }

  /** The probe is the relative image path buildPath gives for that version. */
  lemma CandidateIsImagePath(baseDir: string, version: string, lang: string, kind: string, name: string)
    ensures Candidate(version, kind, name) == BuildPath(BuildDir(baseDir, version, lang, kind, true), name).relPath
  {
  }

  /** One iteration of the scan: Ok(true) when that version stores the same bytes. */
  function Probe(env: Env, w: World, version: string, bin: Bytes, name: string, kind: string): Result<bool> {
    match ReadIfExists(w, Join(env.workDir, Candidate(version, kind, name)))
    case Err(e) => Err(e)
    case Ok(None) => Ok(false)
    case Ok(Some(f)) => Ok(TruthyBytes(f) && |bin| == |f| && bin == f)
  }

  /** The stored file behind a relative path is readable and holds exactly bin. */
  predicate StoredCopy(env: Env, w: World, rel: string, bin: Bytes) {
    var p := Join(env.workDir, rel);
    p in w.files && p !in w.unreadable && w.files[p] == bin
  }

  /** The version loop of binaryExisting, in list order, stopping at the first match or read failure. */
  function FirstDuplicate(env: Env, w: World, vs: seq<string>, bin: Bytes, name: string, kind: string): (r: Result<Option<string>>)
    ensures r.Ok? && r.value.Some? ==> exists i :: 0 <= i < |vs| && r.value.value == Candidate(vs[i], kind, name)
    ensures r.Ok? && r.value.Some? ==> StoredCopy(env, w, r.value.value, bin)
    decreases |vs|
  {
    if vs == [] then Ok(None)
    else
      match Probe(env, w, vs[0], bin, name, kind)
      case Err(e) => Err(e)
      case Ok(hit) =>
        if hit then Ok(Some(Candidate(vs[0], kind, name)))
        else
          var r := FirstDuplicate(env, w, vs[1..], bin, name, kind);
          assert r.Ok? && r.value.Some? ==> exists i :: 1 <= i < |vs| && r.value.value == Candidate(vs[i], kind, name) by {
            if r.Ok? && r.value.Some? {
              var i :| 0 <= i < |vs[1..]| && r.value.value == Candidate(vs[1..][i], kind, name);
              assert vs[1..][i] == vs[i + 1];
            }
          }
          r
  }

  /** binaryExisting: a falsy binary is never looked up. */
  function BinaryExistingSpec(env: Env, w: World, bin: Bytes, name: string, kind: string): (r: Result<Option<string>>)
    ensures !TruthyBytes(bin) ==> r == Ok(None)
    ensures r.Ok? && r.value.Some? ==> StoredCopy(env, w, r.value.value, bin)
  {
    if !TruthyBytes(bin) then Ok(None) else FirstDuplicate(env, w, env.versions, bin, name, kind)
  }

  /** The scan returns version i's path when i is the first version whose probe matches. */
  lemma {:induction false} FirstDuplicateFindsFirst(env: Env, w: World, vs: seq<string>, bin: Bytes, name: string, kind: string, i: nat)
    requires i < |vs| && Probe(env, w, vs[i], bin, name, kind) == Ok(true)
    requires forall j :: 0 <= j < i ==> Probe(env, w, vs[j], bin, name, kind) == Ok(false)
    ensures FirstDuplicate(env, w, vs, bin, name, kind) == Ok(Some(Candidate(vs[i], kind, name)))
    decreases i
  {
    if i > 0 {
      assert Probe(env, w, vs[0], bin, name, kind) == Ok(false);
      forall j | 0 <= j < i - 1
        ensures Probe(env, w, vs[1..][j], bin, name, kind) == Ok(false)
      {
        assert vs[1..][j] == vs[j + 1];
      }
      FirstDuplicateFindsFirst(env, w, vs[1..], bin, name, kind, i - 1);
    }
  }

  /** The scan finds nothing exactly when every version's probe is a clean miss. */
  lemma {:induction false} FirstDuplicateNone(env: Env, w: World, vs: seq<string>, bin: Bytes, name: string, kind: string)
    ensures FirstDuplicate(env, w, vs, bin, name, kind) == Ok(None)
        <==> forall j :: 0 <= j < |vs| ==> Probe(env, w, vs[j], bin, name, kind) == Ok(false)
    decreases |vs|
  {
    if vs != [] {
      FirstDuplicateNone(env, w, vs[1..], bin, name, kind);
      if forall j :: 0 <= j < |vs| ==> Probe(env, w, vs[j], bin, name, kind) == Ok(false) {
        forall j | 0 <= j < |vs| - 1
          ensures Probe(env, w, vs[1..][j], bin, name, kind) == Ok(false)
        {
          assert vs[1..][j] == vs[j + 1];
        }
      }
      if Probe(env, w, vs[0], bin, name, kind) == Ok(false)
         && forall j :: 0 <= j < |vs| - 1 ==> Probe(env, w, vs[1..][j], bin, name, kind) == Ok(false) {
        forall j | 0 <= j < |vs|
          ensures Probe(env, w, vs[j], bin, name, kind) == Ok(false)
        {
          if j > 0 { assert vs[j] == vs[1..][j - 1]; }
        }
      }
    }
  }

  /** A read failure is reported only for a version reached before any match. */
  lemma {:induction false} FirstDuplicateError(env: Env, w: World, vs: seq<string>, bin: Bytes, name: string, kind: string)
    requires FirstDuplicate(env, w, vs, bin, name, kind).Err?
    ensures exists i :: (0 <= i < |vs| && Probe(env, w, vs[i], bin, name, kind).Err?
      && FirstDuplicate(env, w, vs, bin, name, kind).error == Probe(env, w, vs[i], bin, name, kind).error
      && forall j :: 0 <= j < i ==> Probe(env, w, vs[j], bin, name, kind) == Ok(false))
    decreases |vs|
  {
    if Probe(env, w, vs[0], bin, name, kind).Err? {
      assert 0 < |vs|;
    } else {
      FirstDuplicateError(env, w, vs[1..], bin, name, kind);
      var i :| 0 <= i < |vs[1..]| && Probe(env, w, vs[1..][i], bin, name, kind).Err?
        && FirstDuplicate(env, w, vs[1..], bin, name, kind).error == Probe(env, w, vs[1..][i], bin, name, kind).error
        && forall j :: 0 <= j < i ==> Probe(env, w, vs[1..][j], bin, name, kind) == Ok(false);
      assert vs[1..][i] == vs[i + 1];
      forall j | 0 <= j < i + 1
        ensures Probe(env, w, vs[j], bin, name, kind) == Ok(false)
      {
        if j > 0 { assert vs[j] == vs[1..][j - 1]; }
      }
    }
  }

  // ---------------------------------------------------------------- image materialisation

  /**
   * getImage after its directory is known: a present file short-circuits
   * unless forced; otherwise the binary is fetched, and hard-linked from a
   * byte-identical copy of another version or written.
   */
  function ImageSpec(env: Env, w: World, dir: Dir, name: string, url: string, kind: string, force: bool): (World, Result<string>) {
    var p := BuildPath(dir, name);
    var w1 := Mkdir(w, dir.absDir);
    if !force && p.absPath in w1.files then (w1, Ok(p.relPath))
    else
      var (w2, bin) := Fetch(env, w1, url);
      if bin.Err? then (w2, Err(bin.error))
      else
        match BinaryExistingSpec(env, w2, bin.value, name, kind)
        case Err(e) => (w2, Err(e))
        case Ok(src) =>
          if src.Some? then (LinkFile(w2, Join(env.workDir, src.value), p.absPath), Ok(p.relPath))
          else (DumpFile(w2, p.absPath, bin.value), Ok(p.relPath))
  }

  /** Every success returns the image's relative path. */
  lemma ImageReturnsRelPath(env: Env, w: World, dir: Dir, name: string, url: string, kind: string, force: bool)
    ensures var r := ImageSpec(env, w, dir, name, url, kind, force).1;
      r.Ok? ==> r.value == Join(dir.relDir, name)
  {
  }

  /** Cache hit: no request, no write, the relative path is returned. */
  lemma ImageHitNoFetch(env: Env, w: World, dir: Dir, name: string, url: string, kind: string)
    requires BuildPath(dir, name).absPath in w.files
    ensures var (w', r) := ImageSpec(env, w, dir, name, url, kind, false);
      r == Ok(BuildPath(dir, name).relPath) && w'.files == w.files && w'.fetched == w.fetched
  {
  }

  /** Any outcome makes at most the one request for url. */
  lemma ImageFetchLog(env: Env, w: World, dir: Dir, name: string, url: string, kind: string, force: bool)
    ensures var w' := ImageSpec(env, w, dir, name, url, kind, force).0;
      w'.fetched == w.fetched || w'.fetched == w.fetched + [url]
  {
  }

  /** After success the target exists, so a second unforced call is a hit and makes no request. */
  lemma ImageSecondCallHits(env: Env, w: World, dir: Dir, name: string, url: string, kind: string, force: bool)
    requires ImageSpec(env, w, dir, name, url, kind, force).1.Ok?
    ensures var (w1, r1) := ImageSpec(env, w, dir, name, url, kind, force);
      var (w2, r2) := ImageSpec(env, w1, dir, name, url, kind, false);
      BuildPath(dir, name).absPath in w1.files && r2 == r1 && w2.files == w1.files && w2.fetched == w1.fetched
  {
  }

  /** A freshly materialised image holds exactly the fetched bytes, whether written or linked. */
  lemma ImageFreshContent(env: Env, w: World, dir: Dir, name: string, url: string, kind: string, force: bool)
    requires BuildPath(dir, name).absPath !in w.files
    requires ImageSpec(env, w, dir, name, url, kind, force).1.Ok?
    ensures var w1 := ImageSpec(env, w, dir, name, url, kind, force).0;
      env.net(url).Some? && w1.files[BuildPath(dir, name).absPath] == env.net(url).value
  {
  }

  /**
   * A link is made only to a stored copy: with the store rooted at the working
   * directory, its source is the image file of one of the known versions.
   */
  lemma ImageLinkSource(env: Env, w: World, bin: Bytes, name: string, kind: string, lang: string)
    requires env.workDir == env.baseDir
    requires BinaryExistingSpec(env, w, bin, name, kind).Ok? && BinaryExistingSpec(env, w, bin, name, kind).value.Some?
    ensures var src := BinaryExistingSpec(env, w, bin, name, kind).value.value;
      exists v :: v in env.versions
        && Join(env.workDir, src) == BuildPath(BuildDir(env.baseDir, v, lang, kind, true), name).absPath
        && w.files[Join(env.workDir, src)] == bin
  {
    var src := BinaryExistingSpec(env, w, bin, name, kind).value.value;
    var i :| 0 <= i < |env.versions| && src == Candidate(env.versions[i], kind, name);
    CandidateIsImagePath(env.baseDir, env.versions[i], lang, kind, name);
  }

  /**
   * A forced refresh over an existing file that another version stores
   * byte-identically keeps the old bytes: the link fails and nothing is written.
   */
  lemma ImageForcedRefreshKeepsExisting(env: Env, w: World, dir: Dir, name: string, url: string, kind: string)
    requires BuildPath(dir, name).absPath in w.files
    requires env.net(url).Some?
    requires BinaryExistingSpec(env, w.(fetched := w.fetched + [url]).(dirs := w.dirs + {dir.absDir}), env.net(url).value, name, kind).Ok?
    requires BinaryExistingSpec(env, w.(fetched := w.fetched + [url]).(dirs := w.dirs + {dir.absDir}), env.net(url).value, name, kind).value.Some?
    ensures ImageSpec(env, w, dir, name, url, kind, true).0.files == w.files
  {
  }
}
