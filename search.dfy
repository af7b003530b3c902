/**
 * The name search every manager offers (searchByName, searchSummonersByName,
 * searchObjectsByName): a case-insensitive substring match over the entries
 * of the type's 'data' array, in document order, stopped after `max` hits.
 */
module Search {
  import opened Base
  import opened OrderedMap
  import opened Json
  import opened Text
  import opened Store
  import opened Catalog

  /** `mb_strlen($name)` between 2 and 50; anything else is an InvalidArgumentException. */
  predicate ValidQuery(name: string) {
    2 <= |name| <= 50
  }

  /** `isset($d[field]) && str_contains(mb_strtolower($d[field]), $search)`. */
  predicate FieldMatches(d: Value, field: string, search: string) {
    match Field(d, field)
    case Some(Str(s)) => Contains(Lower(s), search)
    case _ => false
  }

  /** Champions and summoner spells match on id or name; items match on name and carry their key as 'id'. */
  datatype Selector = ByIdOrName | ByName

  /** array_values-style renumbering of the integer keys, as array_merge does to its first argument. */
  function Renumber(m: OMap<Key, Value>, n: int): (r: OMap<Key, Value>)
    ensures |r| == |m|
  {
    if m == [] then []
    else if m[0].0.IntKey? then [(IntKey(n), m[0].1)] + Renumber(m[1..], n + 1)
    else [m[0]] + Renumber(m[1..], n)
  }

  /** `array_merge($item, ['id' => $key])`. */
  function MergeId(item: OMap<Key, Value>, key: Key): OMap<Key, Value> {
    Put(Renumber(item, 0), StrKey("id"), KeyValue(key))
  }

  /** What one entry contributes to the results, if it matches. */
  function Hit(sel: Selector, key: Key, d: Value, search: string): (h: Option<Value>)
    ensures sel.ByIdOrName? ==> h == (if FieldMatches(d, "id", search) || FieldMatches(d, "name", search) then Some(d) else None)
    ensures sel.ByName? && h.Some? ==> FieldMatches(d, "name", search) && d.Arr? && h.value == Arr(MergeId(d.entries, key))
    ensures sel.ByName? && FieldMatches(d, "name", search) ==> h.Some?
  {
    match sel
    case ByIdOrName =>
      if FieldMatches(d, "id", search) || FieldMatches(d, "name", search) then Some(d) else None
    case ByName =>
      if FieldMatches(d, "name", search) then Some(Arr(MergeId(d.entries, key))) else None
  }

  /** Every hit, in document order. */
  function Matches(entries: OMap<Key, Value>, sel: Selector, search: string): (r: seq<Value>)
    ensures |r| <= |entries|
  {
    if entries == [] then []
    else
      var h := Hit(sel, entries[0].0, entries[0].1, search);
      (if h.Some? then [h.value] else []) + Matches(entries[1..], sel, search)
  }

  /** The `$max` rule: 0 keeps everything, a negative bound stops before the first entry. */
  function Cap<T>(xs: seq<T>, max: int): (r: seq<T>)
  {
    if max == 0 then xs
    else if max < 0 then []
    else xs[..if max < |xs| then max else |xs|]
  }

  lemma {:induction false} MatchesAppend(a: OMap<Key, Value>, b: OMap<Key, Value>, sel: Selector, search: string)
    ensures Matches(a + b, sel, search) == Matches(a, sel, search) + Matches(b, sel, search)
    decreases |a|
  {
    if a != [] {
      assert (a + b)[0] == a[0] && (a + b)[1..] == a[1..] + b;
      MatchesAppend(a[1..], b, sel, search);
      var h := Hit(sel, a[0].0, a[0].1, search);
      var hs := if h.Some? then [h.value] else [];
      assert Matches(a + b, sel, search) == hs + Matches(a[1..] + b, sel, search);
      assert Matches(a, sel, search) == hs + Matches(a[1..], sel, search);
    } else {
      assert a + b == b;
    }
  }

  lemma MatchesSnoc(entries: OMap<Key, Value>, i: int, sel: Selector, search: string)
    requires 0 <= i < |entries|
    ensures var h := Hit(sel, entries[i].0, entries[i].1, search);
      Matches(entries[..i + 1], sel, search) == Matches(entries[..i], sel, search) + (if h.Some? then [h.value] else [])
  {
    assert entries[..i + 1] == entries[..i] + [entries[i]];
    MatchesAppend(entries[..i], [entries[i]], sel, search);
  }

  /** The foreach with its early break. */
  method SearchLoop(entries: OMap<Key, Value>, sel: Selector, search: string, max: int) returns (results: seq<Value>)
    ensures results == Cap(Matches(entries, sel, search), max)
  {
    results := [];
    var i := 0;
    while i < |entries|
      invariant 0 <= i <= |entries|
      invariant results == Matches(entries[..i], sel, search)
      invariant max > 0 ==> |results| <= max
      invariant max < 0 ==> i == 0
    {
      if max != 0 && |results| >= max {
        break;
      }
      MatchesSnoc(entries, i, sel, search);
      var h := Hit(sel, entries[i].0, entries[i].1, search);
      if h.Some? {
        results := results + [h.value];
      }
      i := i + 1;
    }
    assert entries == entries[..i] + entries[i..];
    MatchesAppend(entries[..i], entries[i..], sel, search);
  }

  /** A whole search: the length guard, the type's document, its 'data' array, then the matches. */
  function SearchSpec(env: Env, w: World, name: string, version: string, lang: string, kind: string,
                      sel: Selector, max: int): (World, Result<seq<Value>>)
  {
    if !ValidQuery(name) then (w, Err(InvalidQuery))
    else
      var (w1, doc) := GetJsonSpec(env, w, version, lang, kind, None);
      if doc.Err? then (w1, Err(doc.error))
      else
        match Field(doc.value, "data")
        case Some(Arr(es)) => (w1, Ok(Cap(Matches(es, sel, Lower(name)), max)))
        case _ => (w1, Err(BadFormat))
  }

  method SearchByName(m: Manager, name: string, version: string, lang: string, kind: string, sel: Selector, max: int)
    returns (r: Result<seq<Value>>)
    modifies m
    ensures (m.st, r) == SearchSpec(m.env, old(m.st), name, version, lang, kind, sel, max)
  {
    if |name| < 2 || |name| > 50 {
      return Err(InvalidQuery);
    }
    var doc := m.GetJson(version, lang, kind, None);
    if doc.Err? {
      return Err(doc.error);
    }
    var data := Field(doc.value, "data");
    if data.None? || !data.value.Arr? {
      return Err(BadFormat);
    }
    var results := SearchLoop(data.value.entries, sel, Lower(name), max);
    return Ok(results);
  }

  // ---------------------------------------------------------------- properties

  /** Every result is the hit of some entry, and every entry's hit is among the results (the uncapped case). */
  lemma {:induction false} MatchesAreHits(entries: OMap<Key, Value>, sel: Selector, search: string)
    ensures forall v :: v in Matches(entries, sel, search) <==>
      exists i :: 0 <= i < |entries| && Hit(sel, entries[i].0, entries[i].1, search) == Some(v)
    decreases |entries|
  {
    if entries != [] {
      MatchesAreHits(entries[1..], sel, search);
      var rest := entries[1..];
      forall v ensures v in Matches(entries, sel, search) <==>
        exists i :: 0 <= i < |entries| && Hit(sel, entries[i].0, entries[i].1, search) == Some(v)
      {
        if exists i :: 0 <= i < |rest| && Hit(sel, rest[i].0, rest[i].1, search) == Some(v) {
          var i :| 0 <= i < |rest| && Hit(sel, rest[i].0, rest[i].1, search) == Some(v);
          assert entries[i + 1] == rest[i];
        }
        if exists i :: 0 <= i < |entries| && Hit(sel, entries[i].0, entries[i].1, search) == Some(v) {
          var i :| 0 <= i < |entries| && Hit(sel, entries[i].0, entries[i].1, search) == Some(v);
          if i > 0 { assert rest[i - 1] == entries[i]; }
        }
      }
    }
  }

  /** The `$max` rule: unbounded at 0, empty below 0, otherwise the first `max` hits. */
  lemma CapRule<T>(xs: seq<T>, max: int)
    ensures max == 0 ==> Cap(xs, max) == xs
    ensures max < 0 ==> Cap(xs, max) == []
    ensures max > 0 ==> |Cap(xs, max)| == (if max < |xs| then max else |xs|) && Cap(xs, max) == xs[..|Cap(xs, max)|]
  {
  }

  /** Every result of a search matches the query, and there are at most `max` of them when `max` is positive. */
  lemma SearchResultsMatch(env: Env, w: World, name: string, version: string, lang: string, kind: string,
                           sel: Selector, max: int)
    requires SearchSpec(env, w, name, version, lang, kind, sel, max).1.Ok?
    ensures var rs := SearchSpec(env, w, name, version, lang, kind, sel, max).1.value;
      ValidQuery(name)
      && (max > 0 ==> |rs| <= max)
      && (max < 0 ==> rs == [])
      && forall v :: v in rs ==> exists e: (Key, Value) ::
           e in Field(GetJsonSpec(env, w, version, lang, kind, None).1.value, "data").value.entries && Hit(sel, e.0, e.1, Lower(name)) == Some(v)
  {
    var doc := GetJsonSpec(env, w, version, lang, kind, None).1.value;
    var es := Field(doc, "data").value.entries;
    var all := Matches(es, sel, Lower(name));
    MatchesAreHits(es, sel, Lower(name));
    var rs := Cap(all, max);
    forall v | v in rs
      ensures exists e: (Key, Value) :: e in es && Hit(sel, e.0, e.1, Lower(name)) == Some(v)
    {
      assert v in all;
      var i :| 0 <= i < |es| && Hit(sel, es[i].0, es[i].1, Lower(name)) == Some(v);
      assert es[i] in es;
    }
  }

  /** A matched item keeps its string-keyed fields except 'id', which becomes its key in the document. */
  lemma {:induction false} RenumberKeepsNames(m: OMap<Key, Value>, n: int, s: string)
    ensures Get(Renumber(m, n), StrKey(s)) == Get(m, StrKey(s))
    decreases |m|
  {
    if m != [] {
      if m[0].0.IntKey? {
        RenumberKeepsNames(m[1..], n + 1, s);
      } else {
        RenumberKeepsNames(m[1..], n, s);
      }
    }
  }

  lemma ItemHitCarriesKey(item: OMap<Key, Value>, key: Key, s: string)
    ensures Get(MergeId(item, key), StrKey("id")) == Some(KeyValue(key))
    ensures s != "id" ==> Get(MergeId(item, key), StrKey(s)) == Get(item, StrKey(s))
  {
    GetPut(Renumber(item, 0), StrKey("id"), KeyValue(key), StrKey("id"));
    GetPut(Renumber(item, 0), StrKey("id"), KeyValue(key), StrKey(s));
    RenumberKeepsNames(item, 0, s);
  }

  /** The query is lower-cased before matching, so queries differing only in case find the same entries. */
  lemma LowerIdempotent(s: string)
    ensures Lower(Lower(s)) == Lower(s)
  {
  }

  lemma SearchIgnoresCase(env: Env, w: World, a: string, b: string, version: string, lang: string, kind: string,
                          sel: Selector, max: int)
    requires Lower(a) == Lower(b)
    ensures SearchSpec(env, w, a, version, lang, kind, sel, max) == SearchSpec(env, w, b, version, lang, kind, sel, max)
  {
    assert |a| == |Lower(a)| == |Lower(b)| == |b|;
  }

  /** A rejected query reads nothing and writes nothing. */
  lemma InvalidQueryTouchesNothing(env: Env, w: World, name: string, version: string, lang: string, kind: string,
                                   sel: Selector, max: int)
    requires !ValidQuery(name)
    ensures SearchSpec(env, w, name, version, lang, kind, sel, max) == (w, Err(InvalidQuery))
  {
  }
}
