/**
 * The helpers both AbstractManager generations share (buildDir, buildPath,
 * buildDirAndPath, fileIsExisting, binaryExisting) and the generic read-through
 * and image operations, as methods of a manager that owns the world state.
 * Every method's new state and result are those of the Store specification.
 */
module Catalog {
  import opened Base
  import opened OrderedMap
  import opened Json
  import opened Paths
  import opened Store

  /** A foreach whose body may change the world and may throw: the first error stops the loop. */
  function FoldSteps<X, A>(step: (World, A, X) -> (World, Result<A>), w: World, acc: A, xs: seq<X>): (World, Result<A>)
    decreases |xs|
  {
    if xs == [] then (w, Ok(acc))
    else
      var (w1, r1) := step(w, acc, xs[0]);
      if r1.Err? then (w1, r1) else FoldSteps(step, w1, r1.value, xs[1..])
  }

  /** One turn of a loop that runs FoldSteps: the remaining work after step i has run. */
  lemma FoldStepsAt<X, A>(step: (World, A, X) -> (World, Result<A>), w: World, acc: A, xs: seq<X>, i: int,
                          w1: World, r1: Result<A>)
    requires 0 <= i < |xs| && (w1, r1) == step(w, acc, xs[i])
    ensures r1.Err? ==> FoldSteps(step, w, acc, xs[i..]) == (w1, r1)
    ensures r1.Ok? ==> FoldSteps(step, w, acc, xs[i..]) == FoldSteps(step, w1, r1.value, xs[i + 1..])
  {
    assert xs[i..][0] == xs[i] && xs[i..][1..] == xs[i + 1..];
  }

  class Manager {
    const env: Env
    var st: World

    constructor (env: Env, st: World)
      ensures this.env == env && this.st == st
    {
      this.env := env;
      this.st := st;
    }

    /** buildDir: the relative and absolute directory, created on disk. */
    method BuildDir(version: string, lang: string, kind: string, img: bool) returns (d: Dir)
      modifies this
      ensures d == Paths.BuildDir(env.baseDir, version, lang, kind, img)
      ensures st == Mkdir(old(st), d.absDir)
    {
      var rel := if img then "upload/" + version + "/" + kind + "_img" else "upload/" + version + "/" + lang + "/" + kind;
      d := Dir(rel, Join(env.baseDir, rel));
      st := Mkdir(st, d.absDir);
    }

    /** buildPath: the file paths inside a directory, which is created again. */
    method BuildPath(dir: Dir, name: string) returns (p: FilePath)
      modifies this
      ensures p == Paths.BuildPath(dir, name)
      ensures st == Mkdir(old(st), dir.absDir)
    {
      p := FilePath(Join(dir.relDir, name), Join(dir.absDir, name), name);
      st := Mkdir(st, dir.absDir);
    }

    /** buildDirAndPath: a falsy name defaults to "{type}.json". */
    method BuildDirAndPath(version: string, lang: string, kind: string, name: Option<string>, img: bool) returns (dir: Dir, p: FilePath)
      modifies this
      ensures dir == Paths.BuildDir(env.baseDir, version, lang, kind, img)
      ensures p == Paths.BuildPath(dir, DefaultName(kind, name))
      ensures st == Mkdir(old(st), dir.absDir)
    {
      var fileName := if name.Some? && TruthyStr(name.value) then name.value else kind + ".json";
      dir := BuildDir(version, lang, kind, img);
      p := BuildPath(dir, fileName);
    }

    /** fileIsExisting. */
    method FileIsExisting(path: string) returns (r: Result<Option<Bytes>>)
      ensures r == ReadIfExists(st, path)
    {
      if path !in st.files {
        return Ok(None);
      }
      if path in st.unreadable {
        return Err(ReadFailure(path));
      }
      return Ok(Some(st.files[path]));
    }

    /** APICaller::call. */
    method Call(url: string) returns (r: Result<Bytes>)
      modifies this
      ensures (st, r) == Fetch(env, old(st), url)
    {
      st := st.(fetched := st.fetched + [url]);
      var body := env.net(url);
      if body.None? {
        return Err(FetchFailure(url));
      }
      return Ok(body.value);
    }

    /** binaryExisting: the version loop, with its `continue`s and early return. */
    method BinaryExisting(bin: Bytes, name: string, kind: string) returns (r: Result<Option<string>>)
      ensures r == BinaryExistingSpec(env, st, bin, name, kind)
    {
      if !TruthyBytes(bin) {
        return Ok(None);
      }
      var versions := env.versions;
      var i := 0;
      while i < |versions|
        invariant 0 <= i <= |versions|
        invariant FirstDuplicate(env, st, versions, bin, name, kind) == FirstDuplicate(env, st, versions[i..], bin, name, kind)
      {
        assert versions[i..][0] == versions[i] && versions[i..][1..] == versions[i + 1..];
        var path := "upload/" + versions[i] + "/" + kind + "_img/" + name;
        var file := FileIsExisting(Join(env.workDir, path));
        if file.Err? {
          return Err(file.error);
        }
        if file.value.None? || !TruthyBytes(file.value.value) {
          i := i + 1;
          continue;
        }
        if |bin| != |file.value.value| {
          i := i + 1;
          continue;
        }
        if bin == file.value.value {
          return Ok(Some(path));
        }
        i := i + 1;
      }
      return Ok(None);
    }

    /** UploadManager::saveJson with an unencoded payload. */
    method SaveJson(dir: string, fileName: string, data: Value)
      modifies this
      ensures st == DumpFile(Mkdir(old(st), dir), dir + "/" + fileName, env.codec.encode(data))
    {
      st := Mkdir(st, dir);
      st := DumpFile(st, dir + "/" + fileName, env.codec.encode(data));
    }

    /** getData / getJson: read-through of one DDragon document. */
    method GetJson(version: string, lang: string, kind: string, name: Option<string>) returns (r: Result<Value>)
      modifies this
      ensures (st, r) == GetJsonSpec(env, old(st), version, lang, kind, name)
    {
      var dir, path := BuildDirAndPath(version, lang, kind, name, false);
      var file := FileIsExisting(path.absPath);
      if file.Err? {
        return Err(file.error);
      }
      if file.value.Some? && TruthyBytes(file.value.value) {
        return AsArray(DecodeOrNull(env.codec, file.value.value));
      }
      var body := Call(JsonUrl(version, lang, path.fileName));
      if body.Err? {
        return Err(body.error);
      }
      var data := DecodeOrNull(env.codec, body.value);
      SaveJson(dir.absDir, path.fileName, data);
      return AsArray(data);
    }

    /** The body of every getImage once its directory is known. */
    method Materialize(dir: Dir, name: string, url: string, kind: string, force: bool) returns (r: Result<string>)
      modifies this
      ensures (st, r) == ImageSpec(env, old(st), dir, name, url, kind, force)
    {
      var path := BuildPath(dir, name);
      if !force && path.absPath in st.files {
        return Ok(path.relPath);
      }
      var bin := Call(url);
      if bin.Err? {
        return Err(bin.error);
      }
      var src := BinaryExisting(bin.value, name, kind);
      if src.Err? {
        return Err(src.error);
      }
      if src.value.Some? {
        st := LinkFile(st, Join(env.workDir, src.value.value), path.absPath);
      } else {
        st := DumpFile(st, path.absPath, bin.value);
      }
      return Ok(path.relPath);
    }
  }

  // ---------------------------------------------------------------- getImage

  /**
   * Every getImage: an empty `$dir` is replaced by the type's image directory
   * (created), then the image is materialised from `urlBase . $name`.
   */
  function GetImageSpec(env: Env, w: World, name: string, version: string, dir: Option<Dir>, force: bool,
                        lang: string, kind: string, urlBase: string): (World, Result<string>)
  {
    var d := if dir.Some? then dir.value else Paths.BuildDir(env.baseDir, version, lang, kind, true);
    var w1 := if dir.Some? then w else Mkdir(w, d.absDir);
    ImageSpec(env, w1, d, name, urlBase + name, kind, force)
  }

  method GetImage(m: Manager, name: string, version: string, dir: Option<Dir>, force: bool,
                  lang: string, kind: string, urlBase: string) returns (r: Result<string>)
    modifies m
    ensures (m.st, r) == GetImageSpec(m.env, old(m.st), name, version, dir, force, lang, kind, urlBase)
  {
    var d: Dir;
    if dir.Some? {
      d := dir.value;
    } else {
      d := m.BuildDir(version, lang, kind, true);
    }
    r := m.Materialize(d, name, urlBase + name, kind, force);
  }

  /** RiotManager::getImage builds its default directory with buildDirAndPath, which creates it twice. */
  method GetImageViaDirAndPath(m: Manager, name: string, version: string, dir: Option<Dir>, force: bool,
                               lang: string, kind: string, urlBase: string) returns (r: Result<string>)
    modifies m
    ensures (m.st, r) == GetImageSpec(m.env, old(m.st), name, version, dir, force, lang, kind, urlBase)
  {
    var d: Dir;
    if dir.Some? {
      d := dir.value;
    } else {
      var p;
      d, p := m.BuildDirAndPath(version, lang, kind, Some(name), true);
    }
    r := m.Materialize(d, name, urlBase + name, kind, force);
  }

  /** Without a directory the image lands at upload/{version}/{type}_img/{name}, the very path the version scan probes. */
  lemma DefaultImagePath(env: Env, w: World, name: string, version: string, force: bool, lang: string, kind: string, urlBase: string)
    ensures var r := GetImageSpec(env, w, name, version, None, force, lang, kind, urlBase).1;
      r.Ok? ==> r.value == Candidate(version, kind, name)
  {
    ImageReturnsRelPath(env, Mkdir(w, Paths.BuildDir(env.baseDir, version, lang, kind, true).absDir),
                        Paths.BuildDir(env.baseDir, version, lang, kind, true), name, urlBase + name, kind, force);
  }

  // ---------------------------------------------------------------- flat image manifests

  /** How a flat manifest records an image: `$result[$id] = ...` or `$result[] = ...`. */
  datatype Slot = Keyed(idKey: string) | Positional(idKey: string)

  /** One iteration of a flat getImages loop: entries without a truthy id or image.full are skipped. */
  function FlatStep(env: Env, dir: Dir, urlBase: string, kind: string, force: bool, slot: Slot)
    : (World, OMap<Key, string>, Value) -> (World, Result<OMap<Key, string>>)
  {
    (w: World, acc: OMap<Key, string>, d: Value) =>
      var id := TextField(d, slot.idKey);
      var img := ImageFull(d);
      if id.None? || img.None? then (w, Ok(acc))
      else
        var (w1, r) := ImageSpec(env, w, dir, img.value, urlBase + img.value, kind, force);
        if r.Err? then (w1, Err(r.error))
        else (w1, Ok(if slot.Keyed? then Put(acc, KeyOf(id.value), r.value) else acc + [(IntKey(|acc|), r.value)]))
  }

  function FlatManifest(env: Env, w: World, data: seq<Value>, dir: Dir, urlBase: string, kind: string, force: bool, slot: Slot)
    : (World, Result<OMap<Key, string>>)
  {
    FoldSteps(FlatStep(env, dir, urlBase, kind, force, slot), w, [], data)
  }

  /** The body of that foreach for one entry. */
  method FlatEntry(m: Manager, dir: Dir, urlBase: string, kind: string, force: bool, slot: Slot,
                   acc: OMap<Key, string>, d: Value) returns (r: Result<OMap<Key, string>>)
    modifies m
    ensures (m.st, r) == FlatStep(m.env, dir, urlBase, kind, force, slot)(old(m.st), acc, d)
  {
    var id := TextField(d, slot.idKey);
    var img := ImageFull(d);
    if id.None? || img.None? {
      return Ok(acc);
    }
    var p := m.Materialize(dir, img.value, urlBase + img.value, kind, force);
    if p.Err? {
      return Err(p.error);
    }
    return Ok(if slot.Keyed? then Put(acc, KeyOf(id.value), p.value) else acc + [(IntKey(|acc|), p.value)]);
  }

  /** The foreach of a flat getImages. */
  method FlatImages(m: Manager, data: seq<Value>, dir: Dir, urlBase: string, kind: string, force: bool, slot: Slot)
    returns (r: Result<OMap<Key, string>>)
    modifies m
    ensures (m.st, r) == FlatManifest(m.env, old(m.st), data, dir, urlBase, kind, force, slot)
  {
    ghost var step := FlatStep(m.env, dir, urlBase, kind, force, slot);
    var acc: OMap<Key, string> := [];
    var i := 0;
    while i < |data|
      invariant 0 <= i <= |data|
      invariant FlatManifest(m.env, old(m.st), data, dir, urlBase, kind, force, slot) == FoldSteps(step, m.st, acc, data[i..])
    {
      ghost var w0 := m.st;
      var s := FlatEntry(m, dir, urlBase, kind, force, slot, acc, data[i]);
      FoldStepsAt(step, w0, acc, data, i, m.st, s);
      if s.Err? {
        return s;
      }
      acc := s.value;
      i := i + 1;
    }
    return Ok(acc);
  }

  /** `array_values($doc['data'] ?? [])`: absent gives [], a non-array is a TypeError. */
  function ValuesOrEmpty(v: Option<Value>): (r: Result<seq<Value>>)
    ensures v.None? ==> r == Ok([])
    ensures r.Ok? && v.Some? ==> v.value.Arr? && r.value == Values(v.value.entries)
  {
    match v
    case None => Ok([])
    case Some(x) => if x.Arr? then Ok(Values(x.entries)) else Err(TypeFailure)
  }

  /**
   * A flat getImages: with no entries given, every entry of the type's
   * document is processed; the image directory is created before the loop.
   */
  function ImagesSpec(env: Env, w: World, version: string, lang: string, force: bool, data: seq<Value>,
                      kind: string, slot: Slot, urlBase: string): (World, Result<OMap<Key, string>>)
  {
    var (w1, entries) :=
      if data != [] then (w, Ok(data))
      else
        var (w0, doc) := GetJsonSpec(env, w, version, lang, kind, None);
        (w0, if doc.Err? then Err(doc.error) else ValuesOrEmpty(Field(doc.value, "data")));
    if entries.Err? then (w1, Err(entries.error))
    else
      var dir := Paths.BuildDir(env.baseDir, version, lang, kind, true);
      FlatManifest(env, Mkdir(w1, dir.absDir), entries.value, dir, urlBase, kind, force, slot)
  }

  method GetImages(m: Manager, version: string, lang: string, force: bool, data: seq<Value>,
                   kind: string, slot: Slot, urlBase: string) returns (r: Result<OMap<Key, string>>)
    modifies m
    ensures (m.st, r) == ImagesSpec(m.env, old(m.st), version, lang, force, data, kind, slot, urlBase)
  {
    var entries := data;
    if data == [] {
      var doc := m.GetJson(version, lang, kind, None);
      if doc.Err? {
        return Err(doc.error);
      }
      var all := ValuesOrEmpty(Field(doc.value, "data"));
      if all.Err? {
        return Err(all.error);
      }
      entries := all.value;
    }
    var dir := m.BuildDir(version, lang, kind, true);
    r := FlatImages(m, entries, dir, urlBase, kind, force, slot);
  }
}

module CatalogFacts {
  import opened Base
  import opened OrderedMap
  import opened Json
  import opened Paths
  import opened Store
  import opened Catalog

  /** The (id, image.full) pair a flat manifest keeps for an entry, if any. */
  function Entry(d: Value, idKey: string): (e: Option<(string, string)>)
    ensures e.Some? <==> TextField(d, idKey).Some? && ImageFull(d).Some?
  {
    var id := TextField(d, idKey);
    var img := ImageFull(d);
    if id.Some? && img.Some? then Some((id.value, img.value)) else None
  }

  /** Entry as a function value, so that the manifest lemmas can treat it as given. */
  function EntryOf(idKey: string): Value -> Option<(string, string)> {
    d => Entry(d, idKey)
  }

  /** The pairs a flat manifest keeps, in data order. */
  function Kept(data: seq<Value>, entry: Value -> Option<(string, string)>): (k: seq<(string, string)>)
    ensures |k| <= |data|
  {
    if data == [] then []
    else (if entry(data[0]).Some? then [entry(data[0]).value] else []) + Kept(data[1..], entry)
  }

  lemma HasKeyPut<K, V>(m: OMap<K, V>, k: K, v: V, k': K)
    ensures HasKey(Put(m, k, v), k') <==> k' == k || HasKey(m, k')
  {
    GetPut(m, k, v, k');
  }

  /** What one step does to the accumulated manifest: a skipped entry leaves it alone, a kept one records its path. */
  ghost predicate Records(step: (World, OMap<Key, string>, Value) -> (World, Result<OMap<Key, string>>),
                          entry: Value -> Option<(string, string)>, relDir: string, keyed: bool,
                          w: World, acc: OMap<Key, string>, d: Value)
  {
    var r1 := step(w, acc, d).1;
    var e := entry(d);
    (e.None? ==> r1 == Ok(acc))
    && (e.Some? && r1.Ok? ==>
          r1.value == (if keyed then Put(acc, KeyOf(e.value.0), Join(relDir, e.value.1))
                       else acc + [(IntKey(|acc|), Join(relDir, e.value.1))]))
  }

  lemma FlatStepRecords(env: Env, dir: Dir, urlBase: string, kind: string, force: bool, slot: Slot)
    ensures forall w, acc, d :: Records(FlatStep(env, dir, urlBase, kind, force, slot), EntryOf(slot.idKey), dir.relDir, slot.Keyed?, w, acc, d)
  {
    forall w, acc, d ensures Records(FlatStep(env, dir, urlBase, kind, force, slot), EntryOf(slot.idKey), dir.relDir, slot.Keyed?, w, acc, d) {
      var img := ImageFull(d);
      if img.Some? {
        ImageReturnsRelPath(env, w, dir, img.value, urlBase + img.value, kind, force);
      }
    }
  }

  lemma {:induction false} FoldPositional(step: (World, OMap<Key, string>, Value) -> (World, Result<OMap<Key, string>>),
                                          entry: Value -> Option<(string, string)>,
                                          relDir: string, w: World, acc: OMap<Key, string>, data: seq<Value>)
    requires forall w', acc', d :: Records(step, entry, relDir, false, w', acc', d)
    requires FoldSteps(step, w, acc, data).1.Ok?
    ensures var res := FoldSteps(step, w, acc, data).1.value;
      var k := Kept(data, entry);
      |res| == |acc| + |k| && res[..|acc|] == acc
      && forall j :: 0 <= j < |k| ==> res[|acc| + j] == (IntKey(|acc| + j), Join(relDir, k[j].1))
    decreases |data|
  {
    if data != [] {
      var (w1, r1) := step(w, acc, data[0]);
      assert Records(step, entry, relDir, false, w, acc, data[0]);
      var e := entry(data[0]);
      var k := Kept(data, entry);
      var k1 := Kept(data[1..], entry);
      FoldPositional(step, entry, relDir, w1, r1.value, data[1..]);
      assert FoldSteps(step, w, acc, data) == FoldSteps(step, w1, r1.value, data[1..]);
      var res := FoldSteps(step, w1, r1.value, data[1..]).1.value;
      if e.Some? {
        assert r1.value == acc + [(IntKey(|acc|), Join(relDir, e.value.1))];
        assert k == [e.value] + k1;
        PositionalCons(acc, e.value, k1, relDir, res);
      } else {
        assert k == k1;
      }
    }
  }

  /** The positional layout of a manifest extends by one kept pair at the front of the remaining data. */
  lemma PositionalCons(acc: OMap<Key, string>, e: (string, string), k1: seq<(string, string)>,
                       relDir: string, res: OMap<Key, string>)
    requires var acc1 := acc + [(IntKey(|acc|), Join(relDir, e.1))];
      |res| == |acc1| + |k1| && res[..|acc1|] == acc1
      && forall j :: 0 <= j < |k1| ==> res[|acc1| + j] == (IntKey(|acc1| + j), Join(relDir, k1[j].1))
    ensures var k := [e] + k1;
      |res| == |acc| + |k| && res[..|acc|] == acc
      && forall j :: 0 <= j < |k| ==> res[|acc| + j] == (IntKey(|acc| + j), Join(relDir, k[j].1))
  {
    var acc1 := acc + [(IntKey(|acc|), Join(relDir, e.1))];
    var k := [e] + k1;
    assert res[..|acc|] == res[..|acc1|][..|acc|];
    assert res[..|acc|] == acc;
    forall j | 0 <= j < |k|
      ensures res[|acc| + j] == (IntKey(|acc| + j), Join(relDir, k[j].1))
    {
      if j > 0 {
        assert k[j] == k1[j - 1];
        assert res[|acc1| + (j - 1)] == (IntKey(|acc1| + (j - 1)), Join(relDir, k1[j - 1].1));
      } else {
        assert res[|acc|] == res[..|acc1|][|acc|];
      }
    }
  }

  /** Some kept pair has an id that normalises to key. */
  predicate KeptKey(k: seq<(string, string)>, key: Key) {
    exists j :: 0 <= j < |k| && KeyOf(k[j].0) == key
  }

  /** Some kept pair with an id normalising to key has the image stored at v. */
  predicate KeptPath(k: seq<(string, string)>, relDir: string, key: Key, v: string) {
    exists j :: 0 <= j < |k| && KeyOf(k[j].0) == key && v == Join(relDir, k[j].1)
  }

  /** The path `$result[$id] = ...` leaves for key: that of the last kept pair whose id normalises to key. */
  function LastKept(k: seq<(string, string)>, relDir: string, key: Key): (r: Option<string>)
    ensures r.Some? ==> KeptPath(k, relDir, key, r.value)
    ensures r.None? <==> !KeptKey(k, key)
    decreases |k|
  {
    if k == [] then None
    else
      var rest := LastKept(k[1..], relDir, key);
      KeptCons(k[0], k[1..], relDir, key, if rest.Some? then rest.value else Join(relDir, k[0].1));
      assert k == [k[0]] + k[1..];
      if rest.Some? then rest
      else if KeyOf(k[0].0) == key then Some(Join(relDir, k[0].1))
      else None
  }

  lemma KeptCons(e: (string, string), k1: seq<(string, string)>, relDir: string, key: Key, v: string)
    ensures KeptKey([e] + k1, key) <==> KeyOf(e.0) == key || KeptKey(k1, key)
    ensures KeptPath([e] + k1, relDir, key, v) <==> (KeyOf(e.0) == key && v == Join(relDir, e.1)) || KeptPath(k1, relDir, key, v)
  {
    var k := [e] + k1;
    if KeptKey(k1, key) {
      var j :| 0 <= j < |k1| && KeyOf(k1[j].0) == key;
      assert k[j + 1] == k1[j];
    }
    if KeptPath(k1, relDir, key, v) {
      var j :| 0 <= j < |k1| && KeyOf(k1[j].0) == key && v == Join(relDir, k1[j].1);
      assert k[j + 1] == k1[j];
    }
    if KeptKey(k, key) {
      var j :| 0 <= j < |k| && KeyOf(k[j].0) == key;
      if j > 0 { assert k1[j - 1] == k[j]; }
    }
    if KeptPath(k, relDir, key, v) {
      var j :| 0 <= j < |k| && KeyOf(k[j].0) == key && v == Join(relDir, k[j].1);
      if j > 0 { assert k1[j - 1] == k[j]; }
    }
    assert k[0] == e;
  }

  lemma {:induction false} FoldKeyedKeys(step: (World, OMap<Key, string>, Value) -> (World, Result<OMap<Key, string>>),
                                     entry: Value -> Option<(string, string)>,
                                     relDir: string, w: World, acc: OMap<Key, string>, data: seq<Value>)
    requires forall w', acc', d :: Records(step, entry, relDir, true, w', acc', d)
    requires FoldSteps(step, w, acc, data).1.Ok?
    ensures var res := FoldSteps(step, w, acc, data).1.value;
      forall key :: HasKey(res, key) <==> HasKey(acc, key) || KeptKey(Kept(data, entry), key)
    decreases |data|
  {
    if data != [] {
      var (w1, r1) := step(w, acc, data[0]);
      assert Records(step, entry, relDir, true, w, acc, data[0]);
      var e := entry(data[0]);
      var k := Kept(data, entry);
      var k1 := Kept(data[1..], entry);
      FoldKeyedKeys(step, entry, relDir, w1, r1.value, data[1..]);
      assert FoldSteps(step, w, acc, data) == FoldSteps(step, w1, r1.value, data[1..]);
      var res := FoldSteps(step, w1, r1.value, data[1..]).1.value;
      if e.Some? {
        var key0 := KeyOf(e.value.0);
        var path := Join(relDir, e.value.1);
        assert r1.value == Put(acc, key0, path);
        assert k == [e.value] + k1;
        forall key
          ensures HasKey(res, key) <==> HasKey(acc, key) || KeptKey(k, key)
        {
          HasKeyPut(acc, key0, path, key);
          KeptCons(e.value, k1, relDir, key, path);
        }
      } else {
        assert k == k1;
      }
    }
  }

  lemma {:induction false} FoldKeyedPaths(step: (World, OMap<Key, string>, Value) -> (World, Result<OMap<Key, string>>),
                                     entry: Value -> Option<(string, string)>,
                                     relDir: string, w: World, acc: OMap<Key, string>, data: seq<Value>)
    requires forall w', acc', d :: Records(step, entry, relDir, true, w', acc', d)
    requires FoldSteps(step, w, acc, data).1.Ok?
    ensures var res := FoldSteps(step, w, acc, data).1.value;
      forall key, v :: Get(res, key) == Some(v) ==> Get(acc, key) == Some(v) || KeptPath(Kept(data, entry), relDir, key, v)
    decreases |data|
  {
    if data != [] {
      var (w1, r1) := step(w, acc, data[0]);
      assert Records(step, entry, relDir, true, w, acc, data[0]);
      var e := entry(data[0]);
      var k := Kept(data, entry);
      var k1 := Kept(data[1..], entry);
      FoldKeyedPaths(step, entry, relDir, w1, r1.value, data[1..]);
      assert FoldSteps(step, w, acc, data) == FoldSteps(step, w1, r1.value, data[1..]);
      var res := FoldSteps(step, w1, r1.value, data[1..]).1.value;
      if e.Some? {
        var key0 := KeyOf(e.value.0);
        var path := Join(relDir, e.value.1);
        assert r1.value == Put(acc, key0, path);
        assert k == [e.value] + k1;
        forall key, v | Get(res, key) == Some(v)
          ensures Get(acc, key) == Some(v) || KeptPath(k, relDir, key, v)
        {
          GetPut(acc, key0, path, key);
          KeptCons(e.value, k1, relDir, key, v);
        }
      } else {
        assert k == k1;
      }
    }
  }

  lemma {:induction false} FoldKeyedLast(step: (World, OMap<Key, string>, Value) -> (World, Result<OMap<Key, string>>),
                                        entry: Value -> Option<(string, string)>,
                                        relDir: string, w: World, acc: OMap<Key, string>, data: seq<Value>, key: Key)
    requires forall w', acc', d :: Records(step, entry, relDir, true, w', acc', d)
    requires FoldSteps(step, w, acc, data).1.Ok?
    ensures var res := FoldSteps(step, w, acc, data).1.value;
      var last := LastKept(Kept(data, entry), relDir, key);
      Get(res, key) == if last.Some? then last else Get(acc, key)
    decreases |data|
  {
    if data != [] {
      var (w1, r1) := step(w, acc, data[0]);
      assert Records(step, entry, relDir, true, w, acc, data[0]);
      var e := entry(data[0]);
      var k := Kept(data, entry);
      var k1 := Kept(data[1..], entry);
      FoldKeyedLast(step, entry, relDir, w1, r1.value, data[1..], key);
      assert FoldSteps(step, w, acc, data) == FoldSteps(step, w1, r1.value, data[1..]);
      if e.Some? {
        var key0 := KeyOf(e.value.0);
        var path := Join(relDir, e.value.1);
        assert r1.value == Put(acc, key0, path);
        assert k == [e.value] + k1;
        assert k[0] == e.value && k[1..] == k1;
        GetPut(acc, key0, path, key);
      } else {
        assert k == k1;
      }
    }
  }

  lemma {:induction false} FoldKeyedUnique(step: (World, OMap<Key, string>, Value) -> (World, Result<OMap<Key, string>>),
                                     entry: Value -> Option<(string, string)>,
                                     relDir: string, w: World, acc: OMap<Key, string>, data: seq<Value>)
    requires forall w', acc', d :: Records(step, entry, relDir, true, w', acc', d)
    requires FoldSteps(step, w, acc, data).1.Ok?
    ensures var res := FoldSteps(step, w, acc, data).1.value;
      UniqueKeys(acc) ==> UniqueKeys(res)
    decreases |data|
  {
    if data != [] {
      var (w1, r1) := step(w, acc, data[0]);
      assert Records(step, entry, relDir, true, w, acc, data[0]);
      var e := entry(data[0]);
      var k := Kept(data, entry);
      var k1 := Kept(data[1..], entry);
      FoldKeyedUnique(step, entry, relDir, w1, r1.value, data[1..]);
      assert FoldSteps(step, w, acc, data) == FoldSteps(step, w1, r1.value, data[1..]);
      var res := FoldSteps(step, w1, r1.value, data[1..]).1.value;
      if e.Some? {
        var key0 := KeyOf(e.value.0);
        var path := Join(relDir, e.value.1);
        assert r1.value == Put(acc, key0, path);
        assert k == [e.value] + k1;
        if UniqueKeys(acc) { PutUnique(acc, key0, path); }
      } else {
        assert k == k1;
      }
    }
  }

  /** A positional manifest lists the kept images' relative paths in data order, keyed 0, 1, 2, ... */
  lemma PositionalManifest(env: Env, w: World, data: seq<Value>, dir: Dir, urlBase: string, kind: string, force: bool, idKey: string)
    requires FlatManifest(env, w, data, dir, urlBase, kind, force, Positional(idKey)).1.Ok?
    ensures var res := FlatManifest(env, w, data, dir, urlBase, kind, force, Positional(idKey)).1.value;
      var k := Kept(data, EntryOf(idKey));
      |res| == |k| && forall j :: 0 <= j < |k| ==> res[j] == (IntKey(j), Join(dir.relDir, k[j].1))
  {
    FlatStepRecords(env, dir, urlBase, kind, force, Positional(idKey));
    FoldPositional(FlatStep(env, dir, urlBase, kind, force, Positional(idKey)), EntryOf(idKey), dir.relDir, w, [], data);
  }

  /**
   * A keyed manifest has one key per kept id and no other, and each value is
   * the path of the image of the last entry kept under that id.
   */
  lemma KeyedManifest(env: Env, w: World, data: seq<Value>, dir: Dir, urlBase: string, kind: string, force: bool, idKey: string)
    requires FlatManifest(env, w, data, dir, urlBase, kind, force, Keyed(idKey)).1.Ok?
    ensures var res := FlatManifest(env, w, data, dir, urlBase, kind, force, Keyed(idKey)).1.value;
      var k := Kept(data, EntryOf(idKey));
      UniqueKeys(res)
      && (forall key :: HasKey(res, key) <==> KeptKey(k, key))
      && (forall key, v :: Get(res, key) == Some(v) ==> KeptPath(k, dir.relDir, key, v))
      && (forall key :: Get(res, key) == LastKept(k, dir.relDir, key))
  {
    FlatStepRecords(env, dir, urlBase, kind, force, Keyed(idKey));
    var step := FlatStep(env, dir, urlBase, kind, force, Keyed(idKey));
    FoldKeyedKeys(step, EntryOf(idKey), dir.relDir, w, [], data);
    FoldKeyedPaths(step, EntryOf(idKey), dir.relDir, w, [], data);
    FoldKeyedUnique(step, EntryOf(idKey), dir.relDir, w, [], data);
    forall key ensures Get(FlatManifest(env, w, data, dir, urlBase, kind, force, Keyed(idKey)).1.value, key)
                       == LastKept(Kept(data, EntryOf(idKey)), dir.relDir, key) {
      FoldKeyedLast(step, EntryOf(idKey), dir.relDir, w, [], data, key);
    }
  }

  /** What one unforced step does on a warm cache: no request and no write. */
  ghost predicate WarmStep(step: (World, OMap<Key, string>, Value) -> (World, Result<OMap<Key, string>>),
                           entry: Value -> Option<(string, string)>, absDir: string,
                           w: World, acc: OMap<Key, string>, d: Value)
  {
    var (w1, r1) := step(w, acc, d);
    (entry(d).None? || Join(absDir, entry(d).value.1) in w.files) ==>
      r1.Ok? && w1.files == w.files && w1.fetched == w.fetched
  }

  lemma FlatStepWarm(env: Env, dir: Dir, urlBase: string, kind: string, slot: Slot)
    ensures forall w, acc, d :: WarmStep(FlatStep(env, dir, urlBase, kind, false, slot), EntryOf(slot.idKey), dir.absDir, w, acc, d)
  {
    forall w, acc, d ensures WarmStep(FlatStep(env, dir, urlBase, kind, false, slot), EntryOf(slot.idKey), dir.absDir, w, acc, d) {
      var img := ImageFull(d);
      if img.Some? && Join(dir.absDir, img.value) in w.files {
        ImageHitNoFetch(env, w, dir, img.value, urlBase + img.value, kind);
      }
    }
  }

  lemma {:induction false} FoldWarm(step: (World, OMap<Key, string>, Value) -> (World, Result<OMap<Key, string>>),
                                    entry: Value -> Option<(string, string)>, absDir: string,
                                    w: World, acc: OMap<Key, string>, data: seq<Value>)
    requires forall w', acc', d :: WarmStep(step, entry, absDir, w', acc', d)
    requires forall j :: 0 <= j < |Kept(data, entry)| ==> Join(absDir, Kept(data, entry)[j].1) in w.files
    ensures var (w', r) := FoldSteps(step, w, acc, data);
      r.Ok? && w'.files == w.files && w'.fetched == w.fetched
    decreases |data|
  {
    if data != [] {
      var (w1, r1) := step(w, acc, data[0]);
      assert WarmStep(step, entry, absDir, w, acc, data[0]);
      var k := Kept(data, entry);
      var k1 := Kept(data[1..], entry);
      if entry(data[0]).Some? {
        assert k == [entry(data[0]).value] + k1;
        assert Join(absDir, k[0].1) in w.files;
        forall j | 0 <= j < |k1| ensures Join(absDir, k1[j].1) in w1.files {
          assert k[j + 1] == k1[j];
        }
      } else {
        assert k == k1;
      }
      FoldWarm(step, entry, absDir, w1, r1.value, data[1..]);
    }
  }

  /** When every kept image is already on disk, an unforced manifest succeeds without a request or a write. */
  lemma WarmManifestNoFetch(env: Env, w: World, data: seq<Value>, dir: Dir, urlBase: string, kind: string, slot: Slot)
    requires forall j :: 0 <= j < |Kept(data, EntryOf(slot.idKey))| ==>
      Join(dir.absDir, Kept(data, EntryOf(slot.idKey))[j].1) in w.files
    ensures var (w', r) := FlatManifest(env, w, data, dir, urlBase, kind, false, slot);
      r.Ok? && w'.files == w.files && w'.fetched == w.fetched
  {
    FlatStepWarm(env, dir, urlBase, kind, slot);
    FoldWarm(FlatStep(env, dir, urlBase, kind, false, slot), EntryOf(slot.idKey), dir.absDir, w, [], data);
  }
}
