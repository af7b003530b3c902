/**
 * paginate() of the flat catalog types: read the type's document, count its
 * list, fix the window, slice it with splitJson, materialise the images of
 * the slice, and report the page with its metadata.
 */
module Paging {
  import opened Base
  import opened OrderedMap
  import opened Json
  import opened Paths
  import opened Store
  import opened Catalog
  import opened CatalogFacts
  import opened Pagination

  /** The 'meta' array of a page. */
  datatype Meta = Meta(currentPage: int, nombrePage: int, itemPerPage: int, totalItem: int, kind: string)

  /** `[$type.'s' => $json, 'images' => $images, 'meta' => [...]]`. */
  datatype Page<I> = Page(listKey: string, items: OMap<Key, Value>, images: I, meta: Meta)

  /** One page of the list before its images: the window and the slice. */
  datatype Cut = Cut(window: Window, total: nat, items: OMap<Key, Value>)

  /** The list paginate() counts: the document itself or its 'data' member; count() of anything else is a TypeError. */
  function Listing(doc: Value, topLevel: bool): (r: Result<OMap<Key, Value>>)
    ensures topLevel && doc.Arr? ==> r == Ok(doc.entries)
    ensures !topLevel ==> (r.Ok? <==> Field(doc, "data").Some? && Field(doc, "data").value.Arr?)
    ensures !topLevel && r.Ok? ==> r.value == Field(doc, "data").value.entries
    ensures r.Err? ==> r.error == TypeFailure
  {
    var list := if topLevel then Some(doc) else Field(doc, "data");
    if list.Some? && list.value.Arr? then Ok(list.value.entries) else Err(TypeFailure)
  }

  function CutOf(entries: OMap<Key, Value>, nb: int, page: int, cap20: bool): Result<Cut> {
    match PageWindow(|entries|, nb, page, cap20)
    case Err(e) => Err(e)
    case Ok(win) => Ok(Cut(win, |entries|, ArraySlice(entries, win.offset, win.nb)))
  }

  function CutSpec(env: Env, w: World, version: string, lang: string, kind: string, topLevel: bool,
                   nb: int, page: int, cap20: bool): (World, Result<Cut>)
  {
    var (w1, doc) := GetJsonSpec(env, w, version, lang, kind, None);
    if doc.Err? then (w1, Err(doc.error))
    else
      match Listing(doc.value, topLevel)
      case Err(e) => (w1, Err(e))
      case Ok(entries) => (w1, CutOf(entries, nb, page, cap20))
  }

  method CutPage(m: Manager, version: string, lang: string, kind: string, topLevel: bool,
                 nb: int, page: int, cap20: bool) returns (r: Result<Cut>)
    modifies m
    ensures (m.st, r) == CutSpec(m.env, old(m.st), version, lang, kind, topLevel, nb, page, cap20)
  {
    var doc := m.GetJson(version, lang, kind, None);
    if doc.Err? {
      return Err(doc.error);
    }
    var entries := Listing(doc.value, topLevel);
    if entries.Err? {
      return Err(entries.error);
    }
    var win := PageWindow(|entries.value|, nb, page, cap20);
    if win.Err? {
      return Err(win.error);
    }
    return Ok(Cut(win.value, |entries.value|, ArraySlice(entries.value, win.value.offset, win.value.nb)));
  }

  function MetaOf(cut: Cut, kind: string): Meta {
    Meta(cut.window.page, cut.window.pageCount, cut.window.nb, cut.total, kind)
  }

  /** A flat paginate(): the cut, then getImages on the slice. */
  function FlatPaginateSpec(env: Env, w: World, version: string, lang: string, kind: string, topLevel: bool,
                            nb: int, page: int, cap20: bool, slot: Slot, urlBase: string)
    : (World, Result<Page<OMap<Key, string>>>)
  {
    var (w1, cut) := CutSpec(env, w, version, lang, kind, topLevel, nb, page, cap20);
    if cut.Err? then (w1, Err(cut.error))
    else
      var (w2, images) := ImagesSpec(env, w1, version, lang, false, Values(cut.value.items), kind, slot, urlBase);
      if images.Err? then (w2, Err(images.error))
      else (w2, Ok(Page(kind + "s", cut.value.items, images.value, MetaOf(cut.value, kind))))
  }

  method FlatPaginate(m: Manager, version: string, lang: string, kind: string, topLevel: bool,
                      nb: int, page: int, cap20: bool, slot: Slot, urlBase: string)
    returns (r: Result<Page<OMap<Key, string>>>)
    modifies m
    ensures (m.st, r) == FlatPaginateSpec(m.env, old(m.st), version, lang, kind, topLevel, nb, page, cap20, slot, urlBase)
  {
    var cut := CutPage(m, version, lang, kind, topLevel, nb, page, cap20);
    if cut.Err? {
      return Err(cut.error);
    }
    var images := GetImages(m, version, lang, false, Values(cut.value.items), kind, slot, urlBase);
    if images.Err? {
      return Err(images.error);
    }
    return Ok(Page(kind + "s", cut.value.items, images.value, MetaOf(cut.value, kind)));
  }

  // ---------------------------------------------------------------- properties

  /**
   * With a non-negative page size a cut is a real page: the page-aligned run
   * entries[offset .. offset + nb) of the list, never empty, and the metadata
   * reports the clamp, the page count and the total.
   */
  lemma CutIsPageOfList(entries: OMap<Key, Value>, nb: int, page: int, cap20: bool)
    requires |entries| > 0 && nb >= 0
    ensures CutOf(entries, nb, page, cap20).Ok?
    ensures var c := CutOf(entries, nb, page, cap20).value;
      var n := Clamp(|entries|, nb, cap20);
      c.total == |entries| && c.window.nb == n
      && c.window.pageCount == CeilDiv(|entries|, n)
      && 0 <= c.window.offset < |entries|
      && c.items == entries[c.window.offset..Min(c.window.offset + n, |entries|)]
      && c.items != []
  {
    WindowInRange(|entries|, nb, page, cap20);
    var c := CutOf(entries, nb, page, cap20).value;
    SliceIsContiguous(entries, c.window.offset, c.window.nb);
  }

  /** An empty list divides by zero, as `ceil(0 / 0)` does. */
  lemma EmptyListFails(env: Env, w: World, version: string, lang: string, kind: string, topLevel: bool,
                       nb: int, page: int, cap20: bool)
    requires nb >= 0
    requires var (w1, doc) := GetJsonSpec(env, w, version, lang, kind, None);
      doc.Ok? && Listing(doc.value, topLevel) == Ok([])
    ensures CutSpec(env, w, version, lang, kind, topLevel, nb, page, cap20).1 == Err(DivisionByZero)
  {
    EmptyDatasetDividesByZero(nb, page, cap20);
  }

  /**
   * On a keyed flat type with a non-negative size, the images of a page are
   * keyed by exactly the ids of that page's entries that have an id and an
   * image: the slice is never empty, so getImages never falls back to the
   * whole document.
   */
  lemma PageImagesMatchItems(env: Env, w: World, version: string, lang: string, kind: string, topLevel: bool,
                             nb: int, page: int, cap20: bool, idKey: string, urlBase: string)
    requires nb >= 0
    requires FlatPaginateSpec(env, w, version, lang, kind, topLevel, nb, page, cap20, Keyed(idKey), urlBase).1.Ok?
    ensures var p := FlatPaginateSpec(env, w, version, lang, kind, topLevel, nb, page, cap20, Keyed(idKey), urlBase).1.value;
      var k := Kept(Values(p.items), EntryOf(idKey));
      p.items != [] && UniqueKeys(p.images)
      && (forall key :: HasKey(p.images, key) <==> KeptKey(k, key))
      && (forall key, v :: Get(p.images, key) == Some(v) ==> KeptPath(k, RelDir(version, lang, kind, true), key, v))
      && (forall key :: Get(p.images, key) == LastKept(k, RelDir(version, lang, kind, true), key))
  {
    var (w1, cut) := CutSpec(env, w, version, lang, kind, topLevel, nb, page, cap20);
    var (w0, doc) := GetJsonSpec(env, w, version, lang, kind, None);
    var entries := Listing(doc.value, topLevel).value;
    if |entries| == 0 {
      EmptyDatasetDividesByZero(nb, page, cap20);
    } else {
      CutIsPageOfList(entries, nb, page, cap20);
      var data := Values(cut.value.items);
      assert data != [];
      var dir := Paths.BuildDir(env.baseDir, version, lang, kind, true);
      KeyedManifest(env, Mkdir(w1, dir.absDir), data, dir, urlBase, kind, false, idKey);
    }
  }

  /**
   * On a positional flat type with a non-negative size, the images of a page
   * are the paths of that page's entries that have a name and an image, in
   * page order, numbered from 0.
   */
  lemma PageImagesInOrder(env: Env, w: World, version: string, lang: string, kind: string, topLevel: bool,
                          nb: int, page: int, cap20: bool, idKey: string, urlBase: string)
    requires nb >= 0
    requires FlatPaginateSpec(env, w, version, lang, kind, topLevel, nb, page, cap20, Positional(idKey), urlBase).1.Ok?
    ensures var p := FlatPaginateSpec(env, w, version, lang, kind, topLevel, nb, page, cap20, Positional(idKey), urlBase).1.value;
      var k := Kept(Values(p.items), EntryOf(idKey));
      p.items != [] && |p.images| == |k|
      && forall j :: 0 <= j < |k| ==> p.images[j] == (IntKey(j), Join(RelDir(version, lang, kind, true), k[j].1))
  {
    var (w1, cut) := CutSpec(env, w, version, lang, kind, topLevel, nb, page, cap20);
    var (w0, doc) := GetJsonSpec(env, w, version, lang, kind, None);
    var entries := Listing(doc.value, topLevel).value;
    if |entries| == 0 {
      EmptyDatasetDividesByZero(nb, page, cap20);
    } else {
      CutIsPageOfList(entries, nb, page, cap20);
      var data := Values(cut.value.items);
      assert data != [];
      var dir := Paths.BuildDir(env.baseDir, version, lang, kind, true);
      PositionalManifest(env, Mkdir(w1, dir.absDir), data, dir, urlBase, kind, false, idKey);
    }
  }

  /** The reported page size is nb, or the default (the total, at most 20 on a capped type) when nb is 0 or above the total. */
  lemma PageSizeIsClamped(env: Env, w: World, version: string, lang: string, kind: string, topLevel: bool,
                          nb: int, page: int, cap20: bool, slot: Slot, urlBase: string)
    requires nb >= 0
    requires FlatPaginateSpec(env, w, version, lang, kind, topLevel, nb, page, cap20, slot, urlBase).1.Ok?
    ensures var p := FlatPaginateSpec(env, w, version, lang, kind, topLevel, nb, page, cap20, slot, urlBase).1.value;
      1 <= p.meta.itemPerPage <= p.meta.totalItem
      && (nb == 0 || nb > p.meta.totalItem ==>
            p.meta.itemPerPage == (if cap20 && p.meta.totalItem > 20 then 20 else p.meta.totalItem))
      && (0 < nb <= p.meta.totalItem ==> p.meta.itemPerPage == nb)
      && p.meta.nombrePage == CeilDiv(p.meta.totalItem, p.meta.itemPerPage)
  {
    var (w0, doc) := GetJsonSpec(env, w, version, lang, kind, None);
    var entries := Listing(doc.value, topLevel).value;
    if |entries| == 0 {
      EmptyDatasetDividesByZero(nb, page, cap20);
    } else {
      CutIsPageOfList(entries, nb, page, cap20);
      ClampRule(|entries|, nb, cap20);
    }
  }
}
