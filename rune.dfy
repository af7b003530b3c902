/**
 * The API RuneManager. Its document (runesReforged.json) is a top-level list
 * of rune trees; each tree has an icon, a key and slots, each slot a list of
 * runes with their own icon and key. getImages builds a nested manifest:
 * `$result[treeKey]['icon']` and `$result[treeKey]['slots'][slotIndex][runeKey]`.
 */
module Runes {
  import opened Base
  import opened OrderedMap
  import opened Json
  import opened Paths
  import opened Store
  import opened Catalog
  import opened Lookup
  import opened Pagination
  import opened Paging

  const RuneKind: string := "runesReforged"

  /** Rune icons are served outside any version directory. */
  const RuneImageBase: string := "https://ddragon.leagueoflegends.com/cdn/img/"

  /** `$result[$key]`: the tree icon, once set, and the slots holding rune paths by rune key. */
  datatype TreeImages = TreeImages(icon: Option<string>, slots: OMap<Key, OMap<Key, string>>)

  type RuneManifest = OMap<Key, TreeImages>

  /** How an absent `$result[$key]` reads when a nested assignment creates it. */
  const NoTree: TreeImages := TreeImages(None, [])

  /** `$result[$key]['icon'] = $path`: an existing tree keeps its slots. */
  function SetIcon(acc: RuneManifest, k: Key, path: string): (r: RuneManifest)
    ensures Get(r, k) == Some(Get(acc, k).GetOr(NoTree).(icon := Some(path)))
  {
    GetPut(acc, k, Get(acc, k).GetOr(NoTree).(icon := Some(path)), k);
    Put(acc, k, Get(acc, k).GetOr(NoTree).(icon := Some(path)))
  }

  /** `$result[$key]['slots'][$index][$runeKey] = $path`. */
  function SetRune(acc: RuneManifest, k: Key, index: Key, rk: Key, path: string): RuneManifest {
    var t := Get(acc, k).GetOr(NoTree);
    var slot := Get(t.slots, index).GetOr([]);
    Put(acc, k, t.(slots := Put(t.slots, index, Put(slot, rk, path))))
  }

  /** The slots a tree's foreach visits, with their keys; none when 'slots' is absent, null or a scalar. */
  function Slots(d: Value): OMap<Key, Value> {
    match Field(d, "slots")
    case Some(Arr(es)) => es
    case _ => []
  }

  /** The tree key or rune key an entry is recorded under, when it has a truthy icon and key. */
  function TreeKey(d: Value): (k: Option<Key>)
    ensures k.Some? <==> TextField(d, "icon").Some? && TextField(d, "key").Some?
  {
    var icon := TextField(d, "icon");
    var key := TextField(d, "key");
    if icon.Some? && key.Some? then Some(KeyOf(key.value)) else None
  }

  // ---------------------------------------------------------------- the three nested loops

  /** One rune of a slot. */
  function RuneStep(env: Env, version: string, dir: Dir, force: bool, k: Key, index: Key,
                    w: World, acc: RuneManifest, rune: Value): (World, Result<RuneManifest>)
  {
    var icon := TextField(rune, "icon");
    var key := TextField(rune, "key");
    if icon.None? || key.None? then (w, Ok(acc))
    else
      var (w1, p) := GetImageSpec(env, w, icon.value, version, Some(dir), force, "", RuneKind, RuneImageBase);
      if p.Err? then (w1, Err(p.error)) else (w1, Ok(SetRune(acc, k, index, KeyOf(key.value), p.value)))
  }

  function RuneStepOf(env: Env, version: string, dir: Dir, force: bool, k: Key, index: Key)
    : (World, RuneManifest, Value) -> (World, Result<RuneManifest>)
  {
    (w: World, acc: RuneManifest, rune: Value) => RuneStep(env, version, dir, force, k, index, w, acc, rune)
  }

  /** One slot of a tree: every rune of its 'runes' list. */
  function SlotStep(env: Env, version: string, dir: Dir, force: bool, k: Key,
                    w: World, acc: RuneManifest, slot: (Key, Value)): (World, Result<RuneManifest>)
  {
    FoldSteps(RuneStepOf(env, version, dir, force, k, slot.0), w, acc, Members(Field(slot.1, "runes")))
  }

  function SlotStepOf(env: Env, version: string, dir: Dir, force: bool, k: Key)
    : (World, RuneManifest, (Key, Value)) -> (World, Result<RuneManifest>)
  {
    (w: World, acc: RuneManifest, slot: (Key, Value)) => SlotStep(env, version, dir, force, k, w, acc, slot)
  }

  /** One tree: its icon, then its slots; a tree without a truthy icon and key is skipped whole. */
  function TreeStep(env: Env, version: string, dir: Dir, force: bool,
                    w: World, acc: RuneManifest, d: Value): (World, Result<RuneManifest>)
  {
    var icon := TextField(d, "icon");
    var key := TextField(d, "key");
    if icon.None? || key.None? then (w, Ok(acc))
    else
      var (w1, p) := GetImageSpec(env, w, icon.value, version, Some(dir), force, "", RuneKind, RuneImageBase);
      if p.Err? then (w1, Err(p.error))
      else FoldSteps(SlotStepOf(env, version, dir, force, KeyOf(key.value)), w1, SetIcon(acc, KeyOf(key.value), p.value), Slots(d))
  }

  function TreeStepOf(env: Env, version: string, dir: Dir, force: bool)
    : (World, RuneManifest, Value) -> (World, Result<RuneManifest>)
  {
    (w: World, acc: RuneManifest, d: Value) => TreeStep(env, version, dir, force, w, acc, d)
  }

  function RuneManifestOf(env: Env, w: World, version: string, dir: Dir, force: bool, data: seq<Value>)
    : (World, Result<RuneManifest>)
  {
    FoldSteps(TreeStepOf(env, version, dir, force), w, [], data)
  }

  /** getImages: with no trees given, every tree of the document; the image directory is created first. */
  function RuneImagesSpec(env: Env, w: World, version: string, lang: string, force: bool, data: seq<Value>)
    : (World, Result<RuneManifest>)
  {
    var (w1, trees) :=
      if data != [] then (w, Ok(data))
      else
        var (w0, doc) := GetJsonSpec(env, w, version, lang, RuneKind, None);
        (w0, if doc.Err? then Err(doc.error) else Ok(Members(Some(doc.value))));
    if trees.Err? then (w1, Err(trees.error))
    else
      var dir := Paths.BuildDir(env.baseDir, version, lang, RuneKind, true);
      RuneManifestOf(env, Mkdir(w1, dir.absDir), version, dir, force, trees.value)
  }

  // ---------------------------------------------------------------- RuneManager

  /** getImage: icons are fetched from the unversioned image base. */
  method RuneImage(m: Manager, name: string, version: string, dir: Option<Dir>, force: bool, lang: string)
    returns (r: Result<string>)
    modifies m
    ensures (m.st, r) == GetImageSpec(m.env, old(m.st), name, version, dir, force, lang, RuneKind, RuneImageBase)
  {
    r := GetImage(m, name, version, dir, force, lang, RuneKind, RuneImageBase);
  }

  /** The body of the innermost foreach: one rune without icon or key is skipped, otherwise its icon is fetched. */
  method PlaceRune(m: Manager, version: string, dir: Dir, force: bool, k: Key, index: Key,
                   acc: RuneManifest, rune: Value) returns (r: Result<RuneManifest>)
    modifies m
    ensures (m.st, r) == RuneStep(m.env, version, dir, force, k, index, old(m.st), acc, rune)
  {
    var icon := TextField(rune, "icon");
    var key := TextField(rune, "key");
    if icon.None? || key.None? {
      return Ok(acc);
    }
    var p := RuneImage(m, icon.value, version, Some(dir), force, "");
    if p.Err? {
      return Err(p.error);
    }
    return Ok(SetRune(acc, k, index, KeyOf(key.value), p.value));
  }

  /** The innermost foreach: the runes of one slot. */
  method SlotRunes(m: Manager, version: string, dir: Dir, force: bool, k: Key, index: Key,
                   runes: seq<Value>, acc0: RuneManifest) returns (r: Result<RuneManifest>)
    modifies m
    ensures (m.st, r) == FoldSteps(RuneStepOf(m.env, version, dir, force, k, index), old(m.st), acc0, runes)
  {
    ghost var step := RuneStepOf(m.env, version, dir, force, k, index);
    var acc := acc0;
    var i := 0;
    while i < |runes|
      invariant 0 <= i <= |runes|
      invariant FoldSteps(step, old(m.st), acc0, runes) == FoldSteps(step, m.st, acc, runes[i..])
    {
      ghost var w0 := m.st;
      var s := PlaceRune(m, version, dir, force, k, index, acc, runes[i]);
      FoldStepsAt(step, w0, acc, runes, i, m.st, s);
      if s.Err? {
        return s;
      }
      acc := s.value;
      i := i + 1;
    }
    return Ok(acc);
  }

  /** The body of the middle foreach: every rune of one slot. */
  method Slot(m: Manager, version: string, dir: Dir, force: bool, k: Key, acc: RuneManifest, slot: (Key, Value))
    returns (r: Result<RuneManifest>)
    modifies m
    ensures (m.st, r) == SlotStep(m.env, version, dir, force, k, old(m.st), acc, slot)
  {
    r := SlotRunes(m, version, dir, force, k, slot.0, Members(Field(slot.1, "runes")), acc);
  }

  /** The middle foreach: the slots of one tree. */
  method TreeSlots(m: Manager, version: string, dir: Dir, force: bool, k: Key,
                   slots: OMap<Key, Value>, acc0: RuneManifest) returns (r: Result<RuneManifest>)
    modifies m
    ensures (m.st, r) == FoldSteps(SlotStepOf(m.env, version, dir, force, k), old(m.st), acc0, slots)
  {
    ghost var step := SlotStepOf(m.env, version, dir, force, k);
    var acc := acc0;
    var i := 0;
    while i < |slots|
      invariant 0 <= i <= |slots|
      invariant FoldSteps(step, old(m.st), acc0, slots) == FoldSteps(step, m.st, acc, slots[i..])
    {
      ghost var w0 := m.st;
      var s := Slot(m, version, dir, force, k, acc, slots[i]);
      FoldStepsAt(step, w0, acc, slots, i, m.st, s);
      if s.Err? {
        return s;
      }
      acc := s.value;
      i := i + 1;
    }
    return Ok(acc);
  }

  /** The body of the outer foreach: one tree's icon, then its slots. */
  method Tree(m: Manager, version: string, dir: Dir, force: bool, acc: RuneManifest, d: Value)
    returns (r: Result<RuneManifest>)
    modifies m
    ensures (m.st, r) == TreeStep(m.env, version, dir, force, old(m.st), acc, d)
  {
    var icon := TextField(d, "icon");
    var key := TextField(d, "key");
    if icon.None? || key.None? {
      return Ok(acc);
    }
    var p := RuneImage(m, icon.value, version, Some(dir), force, "");
    if p.Err? {
      return Err(p.error);
    }
    r := TreeSlots(m, version, dir, force, KeyOf(key.value), Slots(d), SetIcon(acc, KeyOf(key.value), p.value));
  }

  /** The outer foreach over the trees. */
  method Trees(m: Manager, version: string, dir: Dir, force: bool, data: seq<Value>) returns (r: Result<RuneManifest>)
    modifies m
    ensures (m.st, r) == RuneManifestOf(m.env, old(m.st), version, dir, force, data)
  {
    ghost var step := TreeStepOf(m.env, version, dir, force);
    var acc: RuneManifest := [];
    var i := 0;
    while i < |data|
      invariant 0 <= i <= |data|
      invariant RuneManifestOf(m.env, old(m.st), version, dir, force, data) == FoldSteps(step, m.st, acc, data[i..])
    {
      ghost var w0 := m.st;
      var s := Tree(m, version, dir, force, acc, data[i]);
      FoldStepsAt(step, w0, acc, data, i, m.st, s);
      if s.Err? {
        return s;
      }
      acc := s.value;
      i := i + 1;
    }
    return Ok(acc);
  }

  method RuneImages(m: Manager, version: string, lang: string, force: bool, data: seq<Value>)
    returns (r: Result<RuneManifest>)
    modifies m
    ensures (m.st, r) == RuneImagesSpec(m.env, old(m.st), version, lang, force, data)
  {
    var trees := data;
    if data == [] {
      var doc := m.GetJson(version, lang, RuneKind, None);
      if doc.Err? {
        return Err(doc.error);
      }
      trees := Members(Some(doc.value));
    }
    var dir := m.BuildDir(version, lang, RuneKind, true);
    r := Trees(m, version, dir, force, trees);
  }

  /** getData: the runesReforged document through the read-through cache, with the default file name. */
  method RuneData(m: Manager, version: string, lang: string) returns (r: Result<Value>)
    modifies m
    ensures (m.st, r) == GetJsonSpec(m.env, old(m.st), version, lang, RuneKind, None)
  {
    r := m.GetJson(version, lang, RuneKind, None);
  }

  /** getByName: the first tree of the document whose key is the name. */
  function RuneByNameSpec(env: Env, w: World, name: string, version: string, lang: string): (World, Result<Value>) {
    var (w1, doc) := GetJsonSpec(env, w, version, lang, RuneKind, None);
    if doc.Err? then (w1, Err(doc.error))
    else (w1, FirstWith(Members(Some(doc.value)), "key", name))
  }

  method RuneByName(m: Manager, name: string, version: string, lang: string) returns (r: Result<Value>)
    modifies m
    ensures (m.st, r) == RuneByNameSpec(m.env, old(m.st), name, version, lang)
  {
    var doc := m.GetJson(version, lang, RuneKind, None);
    if doc.Err? {
      return Err(doc.error);
    }
    r := FindFirst(Members(Some(doc.value)), "key", name);
  }

  /** paginate: the top-level list of trees, a default size of at most 20, then the nested images of the page. */
  function RunePaginateSpec(env: Env, w: World, version: string, lang: string, nb: int, page: int)
    : (World, Result<Page<RuneManifest>>)
  {
    var (w1, cut) := CutSpec(env, w, version, lang, RuneKind, true, nb, page, true);
    if cut.Err? then (w1, Err(cut.error))
    else
      var (w2, images) := RuneImagesSpec(env, w1, version, lang, false, Values(cut.value.items));
      if images.Err? then (w2, Err(images.error))
      else (w2, Ok(Page(RuneKind + "s", cut.value.items, images.value, MetaOf(cut.value, RuneKind))))
  }

  method RunePaginate(m: Manager, version: string, lang: string, nb: int, page: int)
    returns (r: Result<Page<RuneManifest>>)
    modifies m
    ensures (m.st, r) == RunePaginateSpec(m.env, old(m.st), version, lang, nb, page)
  {
    var cut := CutPage(m, version, lang, RuneKind, true, nb, page, true);
    if cut.Err? {
      return Err(cut.error);
    }
    var images := RuneImages(m, version, lang, false, Values(cut.value.items));
    if images.Err? {
      return Err(images.error);
    }
    return Ok(Page(RuneKind + "s", cut.value.items, images.value, MetaOf(cut.value, RuneKind)));
  }
}

/** What the nested rune manifest is: one entry per tree key, each with its icon set. */
module RuneFacts {
  import opened Base
  import opened OrderedMap
  import opened Json
  import opened Paths
  import opened Store
  import opened Catalog
  import opened Pagination
  import opened Paging
  import opened Runes
  import opened CatalogFacts

  /** A well-formed manifest: no tree key twice, and every tree recorded with its icon. */
  ghost predicate RuneShape(acc: RuneManifest) {
    UniqueKeys(acc) && forall key :: Get(acc, key).Some? ==> Get(acc, key).value.icon.Some?
  }

  /** Some tree of the data has a truthy icon and a key normalising to key. */
  ghost predicate TreeKeyIn(data: seq<Value>, key: Key) {
    exists i :: 0 <= i < |data| && TreeKey(data[i]) == Some(key)
  }

  lemma TreeKeyInCons(data: seq<Value>, key: Key)
    requires data != []
    ensures TreeKeyIn(data, key) <==> TreeKey(data[0]) == Some(key) || TreeKeyIn(data[1..], key)
  {
    if TreeKeyIn(data[1..], key) {
      var i :| 0 <= i < |data[1..]| && TreeKey(data[1..][i]) == Some(key);
      assert data[i + 1] == data[1..][i];
    }
    if TreeKeyIn(data, key) {
      var i :| 0 <= i < |data| && TreeKey(data[i]) == Some(key);
      if i > 0 { assert data[1..][i - 1] == data[i]; }
    }
  }

  /** Recording a rune under an existing tree changes no key and keeps the shape. */
  lemma SetRuneKeeps(acc: RuneManifest, k: Key, index: Key, rk: Key, path: string)
    requires HasKey(acc, k)
    ensures Keys(SetRune(acc, k, index, rk, path)) == Keys(acc)
    ensures RuneShape(acc) ==> RuneShape(SetRune(acc, k, index, rk, path))
  {
    var t := Get(acc, k).value;
    var t' := t.(slots := Put(t.slots, index, Put(Get(t.slots, index).GetOr([]), rk, path)));
    PutShape(acc, k, t');
    if RuneShape(acc) {
      PutUnique(acc, k, t');
      forall key ensures Get(SetRune(acc, k, index, rk, path), key).Some? ==> Get(SetRune(acc, k, index, rk, path), key).value.icon.Some? {
        GetPut(acc, k, t', key);
      }
    }
  }

  /** Setting a tree icon adds that tree's key and keeps the shape. */
  lemma SetIconKeeps(acc: RuneManifest, k: Key, path: string)
    ensures forall key :: HasKey(SetIcon(acc, k, path), key) <==> key == k || HasKey(acc, key)
    ensures RuneShape(acc) ==> RuneShape(SetIcon(acc, k, path))
  {
    var t' := Get(acc, k).GetOr(NoTree).(icon := Some(path));
    forall key ensures HasKey(SetIcon(acc, k, path), key) <==> key == k || HasKey(acc, key) {
      HasKeyPut(acc, k, t', key);
    }
    if RuneShape(acc) {
      PutUnique(acc, k, t');
      forall key ensures Get(SetIcon(acc, k, path), key).Some? ==> Get(SetIcon(acc, k, path), key).value.icon.Some? {
        GetPut(acc, k, t', key);
      }
    }
  }

  lemma {:induction false} RunesKeep(env: Env, version: string, dir: Dir, force: bool, k: Key, index: Key,
                                     w: World, acc: RuneManifest, runes: seq<Value>)
    requires HasKey(acc, k)
    requires FoldSteps(RuneStepOf(env, version, dir, force, k, index), w, acc, runes).1.Ok?
    ensures var res := FoldSteps(RuneStepOf(env, version, dir, force, k, index), w, acc, runes).1.value;
      Keys(res) == Keys(acc) && (RuneShape(acc) ==> RuneShape(res))
    decreases |runes|
  {
    if runes != [] {
      var step := RuneStepOf(env, version, dir, force, k, index);
      var (w1, r1) := step(w, acc, runes[0]);
      assert FoldSteps(step, w, acc, runes) == FoldSteps(step, w1, r1.value, runes[1..]);
      var key := TextField(runes[0], "key");
      if TextField(runes[0], "icon").Some? && key.Some? {
        var p := GetImageSpec(env, w, TextField(runes[0], "icon").value, version, Some(dir), force, "", RuneKind, RuneImageBase).1;
        SetRuneKeeps(acc, k, index, KeyOf(key.value), p.value);
        SameKeys(acc, r1.value);
      }
      RunesKeep(env, version, dir, force, k, index, w1, r1.value, runes[1..]);
    }
  }

  lemma {:induction false} SlotsKeep(env: Env, version: string, dir: Dir, force: bool, k: Key,
                                     w: World, acc: RuneManifest, slots: OMap<Key, Value>)
    requires HasKey(acc, k)
    requires FoldSteps(SlotStepOf(env, version, dir, force, k), w, acc, slots).1.Ok?
    ensures var res := FoldSteps(SlotStepOf(env, version, dir, force, k), w, acc, slots).1.value;
      Keys(res) == Keys(acc) && (RuneShape(acc) ==> RuneShape(res))
    decreases |slots|
  {
    if slots != [] {
      var step := SlotStepOf(env, version, dir, force, k);
      var (w1, r1) := step(w, acc, slots[0]);
      assert FoldSteps(step, w, acc, slots) == FoldSteps(step, w1, r1.value, slots[1..]);
      RunesKeep(env, version, dir, force, k, slots[0].0, w, acc, Members(Field(slots[0].1, "runes")));
      SameKeys(acc, r1.value);
      SlotsKeep(env, version, dir, force, k, w1, r1.value, slots[1..]);
    }
  }

  lemma {:induction false} TreesKeys(env: Env, version: string, dir: Dir, force: bool,
                                     w: World, acc: RuneManifest, data: seq<Value>)
    requires RuneShape(acc)
    requires FoldSteps(TreeStepOf(env, version, dir, force), w, acc, data).1.Ok?
    ensures var res := FoldSteps(TreeStepOf(env, version, dir, force), w, acc, data).1.value;
      RuneShape(res) && forall key :: HasKey(res, key) <==> HasKey(acc, key) || TreeKeyIn(data, key)
    decreases |data|
  {
    if data != [] {
      var step := TreeStepOf(env, version, dir, force);
      var (w1, r1) := step(w, acc, data[0]);
      assert FoldSteps(step, w, acc, data) == FoldSteps(step, w1, r1.value, data[1..]);
      var icon := TextField(data[0], "icon");
      var key := TextField(data[0], "key");
      if icon.Some? && key.Some? {
        var k := KeyOf(key.value);
        var (wi, p) := GetImageSpec(env, w, icon.value, version, Some(dir), force, "", RuneKind, RuneImageBase);
        var acc1 := SetIcon(acc, k, p.value);
        SetIconKeeps(acc, k, p.value);
        SlotsKeep(env, version, dir, force, k, wi, acc1, Slots(data[0]));
        SameKeys(acc1, r1.value);
      }
      TreesKeys(env, version, dir, force, w1, r1.value, data[1..]);
      forall key ensures TreeKeyIn(data, key) <==> TreeKey(data[0]) == Some(key) || TreeKeyIn(data[1..], key) {
        TreeKeyInCons(data, key);
      }
    }
  }

  /**
   * A rune manifest has exactly one entry per tree key of the data that has a
   * truthy icon and key, and every entry has its icon recorded.
   */
  lemma RuneManifestKeys(env: Env, w: World, version: string, dir: Dir, force: bool, data: seq<Value>)
    requires RuneManifestOf(env, w, version, dir, force, data).1.Ok?
    ensures var res := RuneManifestOf(env, w, version, dir, force, data).1.value;
      RuneShape(res) && forall key :: HasKey(res, key) <==> TreeKeyIn(data, key)
  {
    TreesKeys(env, version, dir, force, w, [], data);
  }

  /** A rune page with a non-negative size has images for exactly the trees of that page. */
  lemma RunePageImagesMatchTrees(env: Env, w: World, version: string, lang: string, nb: int, page: int)
    requires nb >= 0
    requires RunePaginateSpec(env, w, version, lang, nb, page).1.Ok?
    ensures var p := RunePaginateSpec(env, w, version, lang, nb, page).1.value;
      p.items != [] && RuneShape(p.images)
      && forall key :: HasKey(p.images, key) <==> TreeKeyIn(Values(p.items), key)
  {
    var (w1, cut) := CutSpec(env, w, version, lang, RuneKind, true, nb, page, true);
    var doc := GetJsonSpec(env, w, version, lang, RuneKind, None).1.value;
    var entries := Listing(doc, true).value;
    if |entries| == 0 {
      EmptyDatasetDividesByZero(nb, page, true);
    } else {
      CutIsPageOfList(entries, nb, page, true);
      var data := Values(cut.value.items);
      assert data != [];
      var dir := Paths.BuildDir(env.baseDir, version, lang, RuneKind, true);
      RuneManifestKeys(env, Mkdir(w1, dir.absDir), version, dir, false, data);
    }
  }

  // ---------------------------------------------------------------- where runes land

  /** `$result[$k]['slots'][$index][$rk] ?? null`. */
  function RuneAt(acc: RuneManifest, k: Key, index: Key, rk: Key): Option<string> {
    match Get(acc, k)
    case None => None
    case Some(t) =>
      match Get(t.slots, index)
      case None => None
      case Some(slot) => Get(slot, rk)
  }

  /** Some slot with key index lists a rune with a truthy icon and a key normalising to rk. */
  ghost predicate SlotHasRune(slots: OMap<Key, Value>, index: Key, rk: Key)
    decreases |slots|
  {
    slots != [] &&
    ((slots[0].0 == index && TreeKeyIn(Members(Field(slots[0].1, "runes")), rk)) || SlotHasRune(slots[1..], index, rk))
  }

  /** Some tree kept under key k has such a rune in a slot with key index. */
  ghost predicate TreeHasRune(data: seq<Value>, k: Key, index: Key, rk: Key)
    decreases |data|
  {
    data != [] &&
    ((TreeKey(data[0]) == Some(k) && SlotHasRune(Slots(data[0]), index, rk)) || TreeHasRune(data[1..], k, index, rk))
  }

  /** Recording a rune sets exactly that cell, creating the tree and the slot when absent. */
  lemma RuneAtSetRune(acc: RuneManifest, k: Key, index: Key, rk: Key, path: string, k': Key, i': Key, rk': Key)
    ensures RuneAt(SetRune(acc, k, index, rk, path), k', i', rk')
      == if k' == k && i' == index && rk' == rk then Some(path) else RuneAt(acc, k', i', rk')
  {
    var t := Get(acc, k).GetOr(NoTree);
    var slot := Get(t.slots, index).GetOr([]);
    GetPut(acc, k, t.(slots := Put(t.slots, index, Put(slot, rk, path))), k');
    if k' == k {
      GetPut(t.slots, index, Put(slot, rk, path), i');
      if i' == index {
        GetPut(slot, rk, path, rk');
      }
    }
  }

  /** Setting a tree icon leaves every rune cell as it was. */
  lemma RuneAtSetIcon(acc: RuneManifest, k: Key, path: string, k': Key, i': Key, rk': Key)
    ensures RuneAt(SetIcon(acc, k, path), k', i', rk') == RuneAt(acc, k', i', rk')
  {
    GetPut(acc, k, Get(acc, k).GetOr(NoTree).(icon := Some(path)), k');
  }

  lemma {:induction false} RunesPlace(env: Env, version: string, dir: Dir, force: bool, k: Key, index: Key,
                                      w: World, acc: RuneManifest, runes: seq<Value>, k': Key, i': Key, rk': Key)
    requires FoldSteps(RuneStepOf(env, version, dir, force, k, index), w, acc, runes).1.Ok?
    ensures var res := FoldSteps(RuneStepOf(env, version, dir, force, k, index), w, acc, runes).1.value;
      RuneAt(res, k', i', rk').Some? <==> RuneAt(acc, k', i', rk').Some? || (k' == k && i' == index && TreeKeyIn(runes, rk'))
    decreases |runes|
  {
    if runes != [] {
      var step := RuneStepOf(env, version, dir, force, k, index);
      var (w1, r1) := step(w, acc, runes[0]);
      assert FoldSteps(step, w, acc, runes) == FoldSteps(step, w1, r1.value, runes[1..]);
      var key := TextField(runes[0], "key");
      if TextField(runes[0], "icon").Some? && key.Some? {
        var p := GetImageSpec(env, w, TextField(runes[0], "icon").value, version, Some(dir), force, "", RuneKind, RuneImageBase).1;
        RuneAtSetRune(acc, k, index, KeyOf(key.value), p.value, k', i', rk');
      }
      RunesPlace(env, version, dir, force, k, index, w1, r1.value, runes[1..], k', i', rk');
      TreeKeyInCons(runes, rk');
    }
  }

  lemma {:induction false} SlotsPlace(env: Env, version: string, dir: Dir, force: bool, k: Key,
                                      w: World, acc: RuneManifest, slots: OMap<Key, Value>, k': Key, i': Key, rk': Key)
    requires FoldSteps(SlotStepOf(env, version, dir, force, k), w, acc, slots).1.Ok?
    ensures var res := FoldSteps(SlotStepOf(env, version, dir, force, k), w, acc, slots).1.value;
      RuneAt(res, k', i', rk').Some? <==> RuneAt(acc, k', i', rk').Some? || (k' == k && SlotHasRune(slots, i', rk'))
    decreases |slots|
  {
    if slots != [] {
      var step := SlotStepOf(env, version, dir, force, k);
      var (w1, r1) := step(w, acc, slots[0]);
      assert FoldSteps(step, w, acc, slots) == FoldSteps(step, w1, r1.value, slots[1..]);
      RunesPlace(env, version, dir, force, k, slots[0].0, w, acc, Members(Field(slots[0].1, "runes")), k', i', rk');
      SlotsPlace(env, version, dir, force, k, w1, r1.value, slots[1..], k', i', rk');
    }
  }

  lemma {:induction false} TreesPlace(env: Env, version: string, dir: Dir, force: bool,
                                      w: World, acc: RuneManifest, data: seq<Value>, k': Key, i': Key, rk': Key)
    requires FoldSteps(TreeStepOf(env, version, dir, force), w, acc, data).1.Ok?
    ensures var res := FoldSteps(TreeStepOf(env, version, dir, force), w, acc, data).1.value;
      RuneAt(res, k', i', rk').Some? <==> RuneAt(acc, k', i', rk').Some? || TreeHasRune(data, k', i', rk')
    decreases |data|
  {
    if data != [] {
      var step := TreeStepOf(env, version, dir, force);
      var (w1, r1) := step(w, acc, data[0]);
      assert FoldSteps(step, w, acc, data) == FoldSteps(step, w1, r1.value, data[1..]);
      var icon := TextField(data[0], "icon");
      var key := TextField(data[0], "key");
      if icon.Some? && key.Some? {
        var k := KeyOf(key.value);
        var (wi, p) := GetImageSpec(env, w, icon.value, version, Some(dir), force, "", RuneKind, RuneImageBase);
        RuneAtSetIcon(acc, k, p.value, k', i', rk');
        SlotsPlace(env, version, dir, force, k, wi, SetIcon(acc, k, p.value), Slots(data[0]), k', i', rk');
      }
      TreesPlace(env, version, dir, force, w1, r1.value, data[1..], k', i', rk');
    }
  }

  /**
   * A rune manifest has a path at `[tree key]['slots'][slot index][rune key]`
   * exactly when some kept tree with that key has, in a slot with that index,
   * a rune with a truthy icon and that key.
   */
  lemma RuneManifestPlacesRunes(env: Env, w: World, version: string, dir: Dir, force: bool, data: seq<Value>,
                                k: Key, index: Key, rk: Key)
    requires RuneManifestOf(env, w, version, dir, force, data).1.Ok?
    ensures var res := RuneManifestOf(env, w, version, dir, force, data).1.value;
      RuneAt(res, k, index, rk).Some? <==> TreeHasRune(data, k, index, rk)
  {
    TreesPlace(env, version, dir, force, w, [], data, k, index, rk);
  }

  // ---------------------------------------------------------------- what the rune cells hold

  /** The icon of the last rune of the list kept under rune key rk. */
  function LastRuneIcon(runes: seq<Value>, rk: Key): Option<string>
    decreases |runes|
  {
    if runes == [] then None
    else
      var rest := LastRuneIcon(runes[1..], rk);
      if rest.Some? then rest
      else if TreeKey(runes[0]) == Some(rk) then TextField(runes[0], "icon")
      else None
  }

  /** The icon of the last such rune over the slots with key index, in slot order. */
  function LastSlotIcon(slots: OMap<Key, Value>, index: Key, rk: Key): Option<string>
    decreases |slots|
  {
    if slots == [] then None
    else
      var rest := LastSlotIcon(slots[1..], index, rk);
      if rest.Some? then rest
      else if slots[0].0 == index then LastRuneIcon(Members(Field(slots[0].1, "runes")), rk)
      else None
  }

  /** The icon of the last such rune over the trees kept under key k, in document order. */
  function LastTreeIcon(data: seq<Value>, k: Key, index: Key, rk: Key): Option<string>
    decreases |data|
  {
    if data == [] then None
    else
      var rest := LastTreeIcon(data[1..], k, index, rk);
      if rest.Some? then rest
      else if TreeKey(data[0]) == Some(k) then LastSlotIcon(Slots(data[0]), index, rk)
      else None
  }

  /** The cell a later step leaves, given what the remaining loop writes there. */
  function Overlay(icon: Option<string>, dir: Dir, before: Option<string>): Option<string> {
    if icon.Some? then Some(Join(dir.relDir, icon.value)) else before
  }

  /** One rune step writes `{relDir}/{icon}` to its own cell and nothing else. */
  lemma RuneStepStore(env: Env, version: string, dir: Dir, force: bool, k: Key, index: Key,
                      w: World, acc: RuneManifest, rune: Value, k': Key, i': Key, rk': Key)
    requires RuneStep(env, version, dir, force, k, index, w, acc, rune).1.Ok?
    ensures var here := if k' == k && i' == index && TreeKey(rune) == Some(rk') then TextField(rune, "icon") else None;
      RuneAt(RuneStep(env, version, dir, force, k, index, w, acc, rune).1.value, k', i', rk') == Overlay(here, dir, RuneAt(acc, k', i', rk'))
  {
    var icon := TextField(rune, "icon");
    var key := TextField(rune, "key");
    if icon.Some? && key.Some? {
      var p := GetImageSpec(env, w, icon.value, version, Some(dir), force, "", RuneKind, RuneImageBase).1;
      ImageReturnsRelPath(env, w, dir, icon.value, RuneImageBase + icon.value, RuneKind, force);
      RuneAtSetRune(acc, k, index, KeyOf(key.value), p.value, k', i', rk');
    }
  }

  lemma {:induction false} RunesStore(env: Env, version: string, dir: Dir, force: bool, k: Key, index: Key,
                                      w: World, acc: RuneManifest, runes: seq<Value>, k': Key, i': Key, rk': Key)
    requires FoldSteps(RuneStepOf(env, version, dir, force, k, index), w, acc, runes).1.Ok?
    ensures var res := FoldSteps(RuneStepOf(env, version, dir, force, k, index), w, acc, runes).1.value;
      RuneAt(res, k', i', rk') == Overlay(if k' == k && i' == index then LastRuneIcon(runes, rk') else None, dir, RuneAt(acc, k', i', rk'))
    decreases |runes|
  {
    if runes != [] {
      var step := RuneStepOf(env, version, dir, force, k, index);
      var (w1, r1) := step(w, acc, runes[0]);
      assert (w1, r1) == RuneStep(env, version, dir, force, k, index, w, acc, runes[0]);
      assert FoldSteps(step, w, acc, runes) == FoldSteps(step, w1, r1.value, runes[1..]);
      RuneStepStore(env, version, dir, force, k, index, w, acc, runes[0], k', i', rk');
      RunesStore(env, version, dir, force, k, index, w1, r1.value, runes[1..], k', i', rk');
    }
  }

  lemma {:induction false} SlotsStore(env: Env, version: string, dir: Dir, force: bool, k: Key,
                                      w: World, acc: RuneManifest, slots: OMap<Key, Value>, k': Key, i': Key, rk': Key)
    requires FoldSteps(SlotStepOf(env, version, dir, force, k), w, acc, slots).1.Ok?
    ensures var res := FoldSteps(SlotStepOf(env, version, dir, force, k), w, acc, slots).1.value;
      RuneAt(res, k', i', rk') == Overlay(if k' == k then LastSlotIcon(slots, i', rk') else None, dir, RuneAt(acc, k', i', rk'))
    decreases |slots|
  {
    if slots != [] {
      var step := SlotStepOf(env, version, dir, force, k);
      var (w1, r1) := step(w, acc, slots[0]);
      assert FoldSteps(step, w, acc, slots) == FoldSteps(step, w1, r1.value, slots[1..]);
      RunesStore(env, version, dir, force, k, slots[0].0, w, acc, Members(Field(slots[0].1, "runes")), k', i', rk');
      SlotsStore(env, version, dir, force, k, w1, r1.value, slots[1..], k', i', rk');
    }
  }

  lemma {:induction false} TreesStore(env: Env, version: string, dir: Dir, force: bool,
                                      w: World, acc: RuneManifest, data: seq<Value>, k': Key, i': Key, rk': Key)
    requires FoldSteps(TreeStepOf(env, version, dir, force), w, acc, data).1.Ok?
    ensures var res := FoldSteps(TreeStepOf(env, version, dir, force), w, acc, data).1.value;
      RuneAt(res, k', i', rk') == Overlay(LastTreeIcon(data, k', i', rk'), dir, RuneAt(acc, k', i', rk'))
    decreases |data|
  {
    if data != [] {
      var step := TreeStepOf(env, version, dir, force);
      var (w1, r1) := step(w, acc, data[0]);
      assert FoldSteps(step, w, acc, data) == FoldSteps(step, w1, r1.value, data[1..]);
      var icon := TextField(data[0], "icon");
      var key := TextField(data[0], "key");
      if icon.Some? && key.Some? {
        var k := KeyOf(key.value);
        var (wi, p) := GetImageSpec(env, w, icon.value, version, Some(dir), force, "", RuneKind, RuneImageBase);
        RuneAtSetIcon(acc, k, p.value, k', i', rk');
        SlotsStore(env, version, dir, force, k, wi, SetIcon(acc, k, p.value), Slots(data[0]), k', i', rk');
      }
      TreesStore(env, version, dir, force, w1, r1.value, data[1..], k', i', rk');
    }
  }

  /**
   * Each rune cell of a manifest holds `{relDir}/{icon}` for the icon of the
   * last rune written there: over the kept trees with that key in document
   * order, their slots with that index in order, and their runes with that key.
   */
  lemma RuneManifestStoresLastIcon(env: Env, w: World, version: string, dir: Dir, force: bool, data: seq<Value>,
                                   k: Key, index: Key, rk: Key)
    requires RuneManifestOf(env, w, version, dir, force, data).1.Ok?
    ensures var res := RuneManifestOf(env, w, version, dir, force, data).1.value;
      var icon := LastTreeIcon(data, k, index, rk);
      RuneAt(res, k, index, rk) == if icon.Some? then Some(Join(dir.relDir, icon.value)) else None
  {
    TreesStore(env, version, dir, force, w, [], data, k, index, rk);
  }
}
