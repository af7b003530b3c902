/**
 * The legacy generation: RiotManager, the generic DDragon reader shared by the
 * legacy summoner and item managers. Its helper calls (buildDirAndPath,
 * buildDir, buildPath, binaryExisting, splitJson on Utils) are modelled as the
 * AbstractManager helpers of the same name, whose code they name.
 */
module Riot {
  import opened Base
  import opened OrderedMap
  import opened Json
  import opened Paths
  import opened Store
  import opened Catalog
  import opened Lookup
  import opened Paging

  /** getJson: the read-through of `{type}.json`, or of the given file name when it is truthy. */
  method RiotJson(m: Manager, version: string, lang: string, kind: string, fileName: Option<string>) returns (r: Result<Value>)
    modifies m
    ensures (m.st, r) == GetJsonSpec(m.env, old(m.st), version, lang, kind, fileName)
  {
    r := m.GetJson(version, lang, kind, fileName);
  }

  /**
   * getDataByKey: with an empty key, `$data['data'][$name]`; otherwise the
   * first entry whose key field is the name, scanning 'data' or, with noData,
   * the document itself.
   */
  function DataByKeySpec(env: Env, w: World, name: string, version: string, lang: string, key: string, kind: string, noData: bool)
    : (World, Result<Value>)
  {
    var (w1, doc) := GetJsonSpec(env, w, version, lang, kind, None);
    if doc.Err? then (w1, Err(doc.error))
    else if key == "" then (w1, DirectEntry(Field(doc.value, "data"), name))
    else (w1, FirstWith(Members(if noData then Some(doc.value) else Field(doc.value, "data")), key, name))
  }

  method DataByKey(m: Manager, name: string, version: string, lang: string, key: string, kind: string, noData: bool)
    returns (r: Result<Value>)
    modifies m
    ensures (m.st, r) == DataByKeySpec(m.env, old(m.st), name, version, lang, key, kind, noData)
  {
    var doc := m.GetJson(version, lang, kind, None);
    if doc.Err? {
      return Err(doc.error);
    }
    if key == "" {
      return DirectEntry(Field(doc.value, "data"), name);
    }
    var scanned := if noData then Some(doc.value) else Field(doc.value, "data");
    r := FindFirst(Members(scanned), key, name);
  }

  /**
   * A scan by a non-empty key returns the first scanned entry whose key field is
   * the name, and NotFound exactly when there is none.
   */
  lemma DataByKeyFindsFirst(env: Env, w: World, name: string, version: string, lang: string, key: string, kind: string, noData: bool)
    requires key != ""
    requires GetJsonSpec(env, w, version, lang, kind, None).1.Ok?
    ensures var doc := GetJsonSpec(env, w, version, lang, kind, None).1.value;
      var es := Members(if noData then Some(doc) else Field(doc, "data"));
      var r := DataByKeySpec(env, w, name, version, lang, key, kind, noData).1;
      (r.Ok? <==> exists i :: 0 <= i < |es| && HasField(es[i], key, name))
      && (r.Err? ==> r.error == NotFound(name))
      && (r.Ok? ==> exists i :: 0 <= i < |es| && es[i] == r.value && HasField(es[i], key, name)
                      && forall j :: 0 <= j < i ==> !HasField(es[j], key, name))
  {
    var doc := GetJsonSpec(env, w, version, lang, kind, None).1.value;
    FirstWithIsFirst(Members(if noData then Some(doc) else Field(doc, "data")), key, name);
  }

  /** The download base: the given URL when truthy, else img/spell/ for summoner spells and img/{type}/ for the rest. */
  function RiotImageBase(version: string, kind: string, baseUrl: Option<string>): (u: string)
    ensures baseUrl.Some? && TruthyStr(baseUrl.value) ==> u == baseUrl.value
    ensures !(baseUrl.Some? && TruthyStr(baseUrl.value)) ==>
      u == Cdn + version + "/img/" + (if kind == "summoner" then "spell" else kind) + "/"
  {
    if baseUrl.Some? && TruthyStr(baseUrl.value) then baseUrl.value
    else if kind == "summoner" then Cdn + version + "/img/spell/"
    else Cdn + version + "/img/" + kind + "/"
  }

  /** getImage: an empty `$dir` is built with buildDirAndPath. */
  method RiotImage(m: Manager, name: string, version: string, dir: Option<Dir>, force: bool, lang: string,
                   kind: string, baseUrl: Option<string>) returns (r: Result<string>)
    modifies m
    ensures (m.st, r) == GetImageSpec(m.env, old(m.st), name, version, dir, force, lang, kind, RiotImageBase(version, kind, baseUrl))
  {
    var base := RiotImageBase(version, kind, baseUrl);
    r := GetImageViaDirAndPath(m, name, version, dir, force, lang, kind, base);
  }

  /** getImages: keyed by the given field, each image fetched from the type's default base. */
  method RiotImages(m: Manager, version: string, lang: string, force: bool, kind: string, key: string, data: seq<Value>)
    returns (r: Result<OMap<Key, string>>)
    modifies m
    ensures (m.st, r) == ImagesSpec(m.env, old(m.st), version, lang, force, data, kind, Keyed(key), RiotImageBase(version, kind, None))
  {
    r := GetImages(m, version, lang, force, data, kind, Keyed(key), RiotImageBase(version, kind, None));
  }

  /** paginate: the 'data' list, whole when nb is 0 or too large, without the cap of 20. */
  method RiotPaginate(m: Manager, version: string, lang: string, kind: string, key: string, nb: int, page: int)
    returns (r: Result<Page<OMap<Key, string>>>)
    modifies m
    ensures (m.st, r) == FlatPaginateSpec(m.env, old(m.st), version, lang, kind, false, nb, page, false, Keyed(key), RiotImageBase(version, kind, None))
  {
    r := FlatPaginate(m, version, lang, kind, false, nb, page, false, Keyed(key), RiotImageBase(version, kind, None));
  }
}

/** The legacy SummonerManager and ItemManager: thin delegations to RiotManager, plus their searches and the sort. */
module LegacyManagers {
  import opened Base
  import opened OrderedMap
  import opened Json
  import opened Paths
  import opened Store
  import opened Catalog
  import opened Lookup
  import opened Search
  import opened Paging
  import opened Text
  import opened NameSort
  import opened Merge
  import opened Riot
  import ApiCatalog

  const SummonerKind: string := "summoner"
  const ItemKind: string := "item"

  // ---------------------------------------------------------------- SummonerManager

  method Summoners(m: Manager, version: string, lang: string) returns (r: Result<Value>)
    modifies m
    ensures (m.st, r) == GetJsonSpec(m.env, old(m.st), version, lang, SummonerKind, None)
  {
    r := RiotJson(m, version, lang, SummonerKind, None);
  }

  method SummonerByName(m: Manager, name: string, version: string, lang: string) returns (r: Result<Value>)
    modifies m
    ensures (m.st, r) == DataByKeySpec(m.env, old(m.st), name, version, lang, "id", SummonerKind, false)
  {
    r := DataByKey(m, name, version, lang, "id", SummonerKind, false);
  }

  method SearchSummoners(m: Manager, name: string, version: string, lang: string, max: int) returns (r: Result<seq<Value>>)
    modifies m
    ensures (m.st, r) == SearchSpec(m.env, old(m.st), name, version, lang, SummonerKind, ByIdOrName, max)
  {
    r := SearchByName(m, name, version, lang, SummonerKind, ByIdOrName, max);
  }

  method SummonersImages(m: Manager, version: string, lang: string, force: bool, sums: seq<Value>)
    returns (r: Result<OMap<Key, string>>)
    modifies m
    ensures (m.st, r) == ImagesSpec(m.env, old(m.st), version, lang, force, sums, SummonerKind, Keyed("id"), RiotImageBase(version, SummonerKind, None))
  {
    r := RiotImages(m, version, lang, force, SummonerKind, "id", sums);
  }

  method SummonerImage(m: Manager, name: string, version: string, dir: Option<Dir>, force: bool, lang: string)
    returns (r: Result<string>)
    modifies m
    ensures (m.st, r) == GetImageSpec(m.env, old(m.st), name, version, dir, force, lang, SummonerKind, RiotImageBase(version, SummonerKind, None))
  {
    r := RiotImage(m, name, version, dir, force, lang, SummonerKind, None);
  }

  method PaginateSummoners(m: Manager, version: string, lang: string, nb: int, page: int)
    returns (r: Result<Page<OMap<Key, string>>>)
    modifies m
    ensures (m.st, r) == FlatPaginateSpec(m.env, old(m.st), version, lang, SummonerKind, false, nb, page, false, Keyed("id"), RiotImageBase(version, SummonerKind, None))
  {
    r := RiotPaginate(m, version, lang, SummonerKind, "id", nb, page);
  }

  /** orderAcsSummoners: the values of 'data' (none when absent), sorted by name. */
  function OrderAcsSummoners(json: OMap<Key, Value>): (r: Result<seq<Value>>)
    ensures r.Ok? ==> SortedByName(r.value)
    ensures r.Ok? ==> exists xs :: ValuesOrEmpty(Field(Arr(json), "data")) == Ok(xs) && multiset(r.value) == multiset(xs)
    ensures r.Err? <==> ValuesOrEmpty(Field(Arr(json), "data")).Err?
                        || (var xs := ValuesOrEmpty(Field(Arr(json), "data")).value; |xs| >= 2 && !AllComparable(xs))
  {
    match ValuesOrEmpty(Field(Arr(json), "data"))
    case Err(e) => Err(e)
    case Ok(xs) =>
      SortByNameSortsAndPermutes(xs);
      SortEntries(xs)
  }

  /** The two generations agree on summoner spells: same lookups, images and pages, on the same store. */
  lemma SummonerGenerationsAgree(env: Env, w: World, name: string, version: string, lang: string,
                                 force: bool, data: seq<Value>, nb: int, page: int, dir: Option<Dir>)
    ensures DataByKeySpec(env, w, name, version, lang, "id", SummonerKind, false) == ApiCatalog.SummonerByNameSpec(env, w, name, version, lang)
    ensures RiotImageBase(version, SummonerKind, None) == ApiCatalog.SummonerImageBase(version)
    ensures ImagesSpec(env, w, version, lang, force, data, SummonerKind, Keyed("id"), RiotImageBase(version, SummonerKind, None))
         == ImagesSpec(env, w, version, lang, force, data, SummonerKind, Keyed("id"), ApiCatalog.SummonerImageBase(version))
    ensures FlatPaginateSpec(env, w, version, lang, SummonerKind, false, nb, page, false, Keyed("id"), RiotImageBase(version, SummonerKind, None))
         == FlatPaginateSpec(env, w, version, lang, SummonerKind, false, nb, page, false, Keyed("id"), ApiCatalog.SummonerImageBase(version))
  {
  }

  // ---------------------------------------------------------------- getSummonersByName, getSummonersParsed

  /**
   * getSummonersByName as written: getSummoners returns the decoded array, and
   * json_decode, handed an array, raises a TypeError whatever the document holds.
   */
  function SummonersByNameAsWritten(env: Env, w: World, name: string, version: string, lang: string): (World, Result<Value>) {
    var (w1, doc) := GetJsonSpec(env, w, version, lang, SummonerKind, None);
    if doc.Err? then (w1, Err(doc.error)) else (w1, Err(TypeFailure))
  }

  /**
   * getSummonersByName as intended: 'data' must be an array; every spell whose
   * id is the name is merged into the result, which is returned when non-empty.
   */
  function SummonersByNameSpec(env: Env, w: World, name: string, version: string, lang: string): (World, Result<Value>) {
    var (w1, doc) := GetJsonSpec(env, w, version, lang, SummonerKind, None);
    if doc.Err? then (w1, Err(doc.error))
    else
      match Field(doc.value, "data")
      case Some(Arr(es)) =>
        var merged := MergeMatches([], Values(es), name);
        (w1, if merged != [] then Ok(Arr(merged)) else Err(NotFound(name)))
      case _ => (w1, Err(BadFormat))
  }

  method SummonersByName(m: Manager, name: string, version: string, lang: string) returns (r: Result<Value>)
    modifies m
    ensures (m.st, r) == SummonersByNameSpec(m.env, old(m.st), name, version, lang)
  {
    var doc := m.GetJson(version, lang, SummonerKind, None);
    if doc.Err? {
      return Err(doc.error);
    }
    var data := Field(doc.value, "data");
    if data.None? || !data.value.Arr? {
      return Err(BadFormat);
    }
    var merged := MergeLoop(Values(data.value.entries), name);
    if merged != [] {
      return Ok(Arr(merged));
    }
    return Err(NotFound(name));
  }

  /** Whenever a spell with the requested id exists, the code as written still fails. */
  lemma SummonersByNameAsWrittenFails(env: Env, w: World, name: string, version: string, lang: string)
    requires SummonersByNameSpec(env, w, name, version, lang).1.Ok?
    ensures SummonersByNameAsWritten(env, w, name, version, lang).1 == Err(TypeFailure)
  {
  }

  /**
   * The intended getSummonersByName: a missing or non-array 'data' is a format
   * error; otherwise it succeeds exactly when some spell has the id, the result
   * then carries that id, and NotFound is raised otherwise.
   */
  lemma SummonersByNameMerges(env: Env, w: World, name: string, version: string, lang: string)
    requires GetJsonSpec(env, w, version, lang, SummonerKind, None).1.Ok?
    ensures var data := Field(GetJsonSpec(env, w, version, lang, SummonerKind, None).1.value, "data");
      var r := SummonersByNameSpec(env, w, name, version, lang).1;
      (!(data.Some? && data.value.Arr?) ==> r == Err(BadFormat))
      && (data.Some? && data.value.Arr? ==>
            var spells := Values(data.value.entries);
            (r.Ok? <==> exists i :: 0 <= i < |spells| && HasField(spells[i], "id", name))
            && (r.Err? ==> r.error == NotFound(name))
            && (r.Ok? && MatchesWellFormed(spells, name) ==>
                  r.value.Arr? && Get(r.value.entries, StrKey("id")) == Some(Str(name))))
  {
    var data := Field(GetJsonSpec(env, w, version, lang, SummonerKind, None).1.value, "data");
    if data.Some? && data.value.Arr? {
      var spells := Values(data.value.entries);
      MergeMatchesNonEmpty([], spells, name);
      if MatchesWellFormed(spells, name) {
        MergedIdIsName([], spells, name);
      }
    }
  }

  /** getSummonersParsed as written: the same json_decode of an array. */
  function SummonersParsedAsWritten(env: Env, w: World, version: string, lang: string): (World, Result<Value>) {
    var (w1, doc) := GetJsonSpec(env, w, version, lang, SummonerKind, None);
    if doc.Err? then (w1, Err(doc.error)) else (w1, Err(TypeFailure))
  }

  /**
   * getSummonersParsed as its documentation describes it: the summoner document
   * fetched through the cache, then parsed and sorted by orderAcsSummoners.
   */
  function SummonersParsedSpec(env: Env, w: World, version: string, lang: string): (World, Result<seq<Value>>) {
    var (w1, doc) := GetJsonSpec(env, w, version, lang, SummonerKind, None);
    if doc.Err? then (w1, Err(doc.error))
    else
      match doc.value
      case Arr(es) => (w1, OrderAcsSummoners(es))
      case _ => (w1, Err(TypeFailure))
  }

  method SummonersParsed(m: Manager, version: string, lang: string) returns (r: Result<seq<Value>>)
    modifies m
    ensures (m.st, r) == SummonersParsedSpec(m.env, old(m.st), version, lang)
  {
    var doc := m.GetJson(version, lang, SummonerKind, None);
    if doc.Err? {
      return Err(doc.error);
    }
    if !doc.value.Arr? {
      return Err(TypeFailure);
    }
    r := OrderAcsSummoners(doc.value.entries);
  }

  lemma SummonersParsedAsWrittenFails(env: Env, w: World, version: string, lang: string)
    requires SummonersParsedSpec(env, w, version, lang).1.Ok?
    ensures SummonersParsedAsWritten(env, w, version, lang).1 == Err(TypeFailure)
  {
  }

  /**
   * The intended getSummonersParsed returns the values of the document's 'data'
   * sorted by name and as a permutation, none when 'data' is absent, and a
   * type error when 'data' is not an array or, among two or more values, holds
   * one that is not an array or whose name is an array.
   */
  lemma SummonersParsedSorts(env: Env, w: World, version: string, lang: string)
    requires GetJsonSpec(env, w, version, lang, SummonerKind, None).1.Ok?
    ensures var doc := GetJsonSpec(env, w, version, lang, SummonerKind, None).1.value;
      var xs := ValuesOrEmpty(Field(doc, "data"));
      var r := SummonersParsedSpec(env, w, version, lang).1;
      (r.Ok? <==> xs.Ok? && (|xs.value| < 2 || AllComparable(xs.value)))
      && (r.Err? ==> r.error == TypeFailure)
      && (r.Ok? ==> SortedByName(r.value) && multiset(r.value) == multiset(xs.value))
      && (Field(doc, "data").None? ==> r == Ok([]))
  {
    var doc := GetJsonSpec(env, w, version, lang, SummonerKind, None).1.value;
    var xs := ValuesOrEmpty(Field(doc, "data"));
    if xs.Ok? {
      SortByNameSortsAndPermutes(xs.value);
    }
  }

  // ---------------------------------------------------------------- ItemManager

  method Objects(m: Manager, version: string, lang: string) returns (r: Result<Value>)
    modifies m
    ensures (m.st, r) == GetJsonSpec(m.env, old(m.st), version, lang, ItemKind, None)
  {
    r := RiotJson(m, version, lang, ItemKind, None);
  }

  /** getObjectByName: items are keyed by their id in 'data', so the lookup is direct. */
  method ObjectByName(m: Manager, name: string, version: string, lang: string) returns (r: Result<Value>)
    modifies m
    ensures (m.st, r) == DataByKeySpec(m.env, old(m.st), name, version, lang, "", ItemKind, false)
  {
    r := DataByKey(m, name, version, lang, "", ItemKind, false);
  }

  /** An item is found exactly when 'data' holds an array under its key; anything else is a TypeError, never NotFound. */
  lemma ObjectByNameIsKeyLookup(env: Env, w: World, name: string, version: string, lang: string)
    requires GetJsonSpec(env, w, version, lang, ItemKind, None).1.Ok?
    ensures var doc := GetJsonSpec(env, w, version, lang, ItemKind, None).1.value;
      var r := DataByKeySpec(env, w, name, version, lang, "", ItemKind, false).1;
      (r.Ok? <==> exists items :: Field(doc, "data") == Some(Arr(items)) && Get(items, KeyOf(name)).Some? && Get(items, KeyOf(name)).value.Arr?)
      && (r.Ok? ==> Get(Field(doc, "data").value.entries, KeyOf(name)) == Some(r.value))
      && (r.Err? ==> r.error == TypeFailure)
  {
    var doc := GetJsonSpec(env, w, version, lang, ItemKind, None).1.value;
    var data := Field(doc, "data");
    if data.Some? && data.value.Arr? {
      var items := data.value.entries;
      if Get(items, KeyOf(name)).Some? {
        var x := Get(items, KeyOf(name)).value;
        assert x != Null ==> Field(data.value, name) == Some(x);
      }
    }
  }

  method SearchObjects(m: Manager, name: string, version: string, lang: string, max: int) returns (r: Result<seq<Value>>)
    modifies m
    ensures (m.st, r) == SearchSpec(m.env, old(m.st), name, version, lang, ItemKind, ByName, max)
  {
    r := SearchByName(m, name, version, lang, ItemKind, ByName, max);
  }

  method ObjectsImages(m: Manager, version: string, lang: string, force: bool, items: seq<Value>)
    returns (r: Result<OMap<Key, string>>)
    modifies m
    ensures (m.st, r) == ImagesSpec(m.env, old(m.st), version, lang, force, items, ItemKind, Keyed("name"), RiotImageBase(version, ItemKind, None))
  {
    r := RiotImages(m, version, lang, force, ItemKind, "name", items);
  }

  method ObjectImage(m: Manager, name: string, version: string, dir: Option<Dir>, force: bool, lang: string)
    returns (r: Result<string>)
    modifies m
    ensures (m.st, r) == GetImageSpec(m.env, old(m.st), name, version, dir, force, lang, ItemKind, RiotImageBase(version, ItemKind, None))
  {
    r := RiotImage(m, name, version, dir, force, lang, ItemKind, None);
  }

  method PaginateItems(m: Manager, version: string, lang: string, nb: int, page: int)
    returns (r: Result<Page<OMap<Key, string>>>)
    modifies m
    ensures (m.st, r) == FlatPaginateSpec(m.env, old(m.st), version, lang, ItemKind, false, nb, page, false, Keyed("name"), RiotImageBase(version, ItemKind, None))
  {
    r := RiotPaginate(m, version, lang, ItemKind, "name", nb, page);
  }

  /** Every item an item search returns carries its document key as 'id' and keeps its name. */
  lemma ItemResultsCarryKeys(env: Env, w: World, name: string, version: string, lang: string, max: int)
    requires SearchSpec(env, w, name, version, lang, ItemKind, ByName, max).1.Ok?
    ensures var doc := GetJsonSpec(env, w, version, lang, ItemKind, None).1.value;
      var rs := SearchSpec(env, w, name, version, lang, ItemKind, ByName, max).1.value;
      forall v :: v in rs ==> ItemOf(Field(doc, "data").value.entries, v, name)
  {
    SearchResultsMatch(env, w, name, version, lang, ItemKind, ByName, max);
    var doc := GetJsonSpec(env, w, version, lang, ItemKind, None).1.value;
    var es := Field(doc, "data").value.entries;
    var rs := SearchSpec(env, w, name, version, lang, ItemKind, ByName, max).1.value;
    forall v | v in rs
      ensures ItemOf(es, v, name)
    {
      var e: (Key, Value) :| e in es && Hit(ByName, e.0, e.1, Lower(name)) == Some(v);
      ItemHitCarriesKey(e.1.entries, e.0, "name");
    }
  }

  /** v is the result for an entry of es whose name contains the query: that entry with its key as 'id'. */
  ghost predicate ItemOf(es: OMap<Key, Value>, v: Value, name: string) {
    exists e: (Key, Value) :: e in es && e.1.Arr? && FieldMatches(e.1, "name", Lower(name))
      && v == Arr(MergeId(e.1.entries, e.0))
      && Get(v.entries, StrKey("id")) == Some(KeyValue(e.0))
      && Get(v.entries, StrKey("name")) == Get(e.1.entries, StrKey("name"))
  }
}
