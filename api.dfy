/**
 * The API generation's SummonerManager and ChampionManager: each fixes its
 * type, its image URL base and how getImages records a path, and otherwise
 * runs the shared read-through, search, image and pagination operations.
 */
module ApiCatalog {
  import opened Base
  import opened OrderedMap
  import opened Json
  import opened Paths
  import opened Store
  import opened Catalog
  import opened CatalogFacts
  import opened Lookup
  import opened Search
  import opened Paging

  const SummonerKind: string := "summoner"
  const ChampionKind: string := "champion"

  /** Summoner spell icons live under img/spell/, champion portraits under img/champion/. */
  function SummonerImageBase(version: string): string { Cdn + version + "/img/spell/" }
  function ChampionImageBase(version: string): string { Cdn + version + "/img/" + ChampionKind + "/" }

  // ---------------------------------------------------------------- SummonerManager

  /** getData: the summoner document through the read-through cache, with the default file name. */
  method SummonerData(m: Manager, version: string, lang: string) returns (r: Result<Value>)
    modifies m
    ensures (m.st, r) == GetJsonSpec(m.env, old(m.st), version, lang, SummonerKind, None)
  {
    r := m.GetJson(version, lang, SummonerKind, None);
  }

  /** getByName: the first spell of 'data' whose id is the name. */
  function SummonerByNameSpec(env: Env, w: World, name: string, version: string, lang: string): (World, Result<Value>) {
    var (w1, doc) := GetJsonSpec(env, w, version, lang, SummonerKind, None);
    if doc.Err? then (w1, Err(doc.error))
    else (w1, FirstWith(Members(Field(doc.value, "data")), "id", name))
  }

  method SummonerByName(m: Manager, name: string, version: string, lang: string) returns (r: Result<Value>)
    modifies m
    ensures (m.st, r) == SummonerByNameSpec(m.env, old(m.st), name, version, lang)
  {
    var doc := m.GetJson(version, lang, SummonerKind, None);
    if doc.Err? {
      return Err(doc.error);
    }
    r := FindFirst(Members(Field(doc.value, "data")), "id", name);
  }

  /** A spell found by name is an array in the document's 'data' whose id is that name, and none before it has that id. */
  lemma SummonerByNameFindsFirst(env: Env, w: World, name: string, version: string, lang: string)
    requires SummonerByNameSpec(env, w, name, version, lang).1.Ok?
    ensures var doc := GetJsonSpec(env, w, version, lang, SummonerKind, None).1.value;
      var es := Members(Field(doc, "data"));
      var d := SummonerByNameSpec(env, w, name, version, lang).1.value;
      d.Arr? && Field(d, "id") == Some(Str(name))
      && exists i :: 0 <= i < |es| && es[i] == d && forall j :: 0 <= j < i ==> !HasField(es[j], "id", name)
  {
    var doc := GetJsonSpec(env, w, version, lang, SummonerKind, None).1.value;
    FirstWithIsFirst(Members(Field(doc, "data")), "id", name);
  }

  /** getImages: keyed by the spell id. */
  method SummonerImages(m: Manager, version: string, lang: string, force: bool, data: seq<Value>)
    returns (r: Result<OMap<Key, string>>)
    modifies m
    ensures (m.st, r) == ImagesSpec(m.env, old(m.st), version, lang, force, data, SummonerKind, Keyed("id"), SummonerImageBase(version))
  {
    r := GetImages(m, version, lang, force, data, SummonerKind, Keyed("id"), SummonerImageBase(version));
  }

  method SummonerImage(m: Manager, name: string, version: string, dir: Option<Dir>, force: bool, lang: string)
    returns (r: Result<string>)
    modifies m
    ensures (m.st, r) == GetImageSpec(m.env, old(m.st), name, version, dir, force, lang, SummonerKind, SummonerImageBase(version))
  {
    r := GetImage(m, name, version, dir, force, lang, SummonerKind, SummonerImageBase(version));
  }

  method SummonerSearch(m: Manager, name: string, version: string, lang: string, max: int) returns (r: Result<seq<Value>>)
    modifies m
    ensures (m.st, r) == SearchSpec(m.env, old(m.st), name, version, lang, SummonerKind, ByIdOrName, max)
  {
    r := SearchByName(m, name, version, lang, SummonerKind, ByIdOrName, max);
  }

  /** paginate: the whole list is one page when nb is 0 or too large. */
  method SummonerPaginate(m: Manager, version: string, lang: string, nb: int, page: int)
    returns (r: Result<Page<OMap<Key, string>>>)
    modifies m
    ensures (m.st, r) == FlatPaginateSpec(m.env, old(m.st), version, lang, SummonerKind, false, nb, page, false, Keyed("id"), SummonerImageBase(version))
  {
    r := FlatPaginate(m, version, lang, SummonerKind, false, nb, page, false, Keyed("id"), SummonerImageBase(version));
  }

  // ---------------------------------------------------------------- ChampionManager

  /** getData: the champion document through the read-through cache, with the default file name. */
  method ChampionData(m: Manager, version: string, lang: string) returns (r: Result<Value>)
    modifies m
    ensures (m.st, r) == GetJsonSpec(m.env, old(m.st), version, lang, ChampionKind, None)
  {
    r := m.GetJson(version, lang, ChampionKind, None);
  }

  /** getByName: `$data[$name]`, the champion stored under that key. */
  function ChampionByNameSpec(env: Env, w: World, name: string, version: string, lang: string): (World, Result<Value>) {
    var (w1, doc) := GetJsonSpec(env, w, version, lang, ChampionKind, None);
    if doc.Err? then (w1, Err(doc.error))
    else (w1, KeyedEntry(Field(doc.value, "data"), name))
  }

  method ChampionByName(m: Manager, name: string, version: string, lang: string) returns (r: Result<Value>)
    modifies m
    ensures (m.st, r) == ChampionByNameSpec(m.env, old(m.st), name, version, lang)
  {
    var doc := m.GetJson(version, lang, ChampionKind, None);
    if doc.Err? {
      return Err(doc.error);
    }
    r := KeyedEntry(Field(doc.value, "data"), name);
  }

  /** getImages: a list of paths, keyed 0, 1, 2, ... in data order; entries need a name and an image. */
  method ChampionImages(m: Manager, version: string, lang: string, force: bool, data: seq<Value>)
    returns (r: Result<OMap<Key, string>>)
    modifies m
    ensures (m.st, r) == ImagesSpec(m.env, old(m.st), version, lang, force, data, ChampionKind, Positional("name"), ChampionImageBase(version))
  {
    r := GetImages(m, version, lang, force, data, ChampionKind, Positional("name"), ChampionImageBase(version));
  }

  method ChampionImage(m: Manager, name: string, version: string, dir: Option<Dir>, force: bool, lang: string)
    returns (r: Result<string>)
    modifies m
    ensures (m.st, r) == GetImageSpec(m.env, old(m.st), name, version, dir, force, lang, ChampionKind, ChampionImageBase(version))
  {
    r := GetImage(m, name, version, dir, force, lang, ChampionKind, ChampionImageBase(version));
  }

  method ChampionSearch(m: Manager, name: string, version: string, lang: string, max: int) returns (r: Result<seq<Value>>)
    modifies m
    ensures (m.st, r) == SearchSpec(m.env, old(m.st), name, version, lang, ChampionKind, ByIdOrName, max)
  {
    r := SearchByName(m, name, version, lang, ChampionKind, ByIdOrName, max);
  }

  /** paginate: nb 0 or too large becomes the total, but at most 20. */
  method ChampionPaginate(m: Manager, version: string, lang: string, nb: int, page: int)
    returns (r: Result<Page<OMap<Key, string>>>)
    modifies m
    ensures (m.st, r) == FlatPaginateSpec(m.env, old(m.st), version, lang, ChampionKind, false, nb, page, true, Positional("name"), ChampionImageBase(version))
  {
    r := FlatPaginate(m, version, lang, ChampionKind, false, nb, page, true, Positional("name"), ChampionImageBase(version));
  }

  /** A champion page lists the portraits of its champions that have a name and an image, in page order. */
  lemma ChampionPageImagesInOrder(env: Env, w: World, version: string, lang: string, nb: int, page: int)
    requires nb >= 0
    requires FlatPaginateSpec(env, w, version, lang, ChampionKind, false, nb, page, true, Positional("name"), ChampionImageBase(version)).1.Ok?
    ensures var p := FlatPaginateSpec(env, w, version, lang, ChampionKind, false, nb, page, true, Positional("name"), ChampionImageBase(version)).1.value;
      var k := Kept(Values(p.items), EntryOf("name"));
      (nb == 0 ==> p.meta.itemPerPage <= 20) && p.items != []
      && |p.images| == |k|
      && forall j :: 0 <= j < |k| ==> p.images[j] == (IntKey(j), Join(RelDir(version, lang, ChampionKind, true), k[j].1))
  {
    PageImagesInOrder(env, w, version, lang, ChampionKind, false, nb, page, true, "name", ChampionImageBase(version));
    PageSizeIsClamped(env, w, version, lang, ChampionKind, false, nb, page, true, Positional("name"), ChampionImageBase(version));
  }
}
