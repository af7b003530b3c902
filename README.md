# LeagueOfDataBase catalog engine and request rules, in Dafny

This project models the homemade core of LeagueOfDataBase, a Symfony site
that serves the Riot "Data Dragon" (DDragon) catalog: summoner spells,
champions, items and rune trees, per game version and language.

**The catalog engine.** The model covers both generations of managers:
- the current `App\Service\API\*` managers, over `API/AbstractManager`;
- the legacy `RiotManager` with its `SummonerManager`, `ItemManager` and
  `ChampionManager` wrappers, over `Service/AbstractManager`.

For each (type, version, language) the engine works as follows:
- It builds the directories: `upload/{version}/{lang}/{type}` for JSON and
  `upload/{version}/{type}_img` for images.
- It reads JSON through a disk cache. On a miss it fetches from DDragon,
  saves the decoded document and returns it.
- It materialises images. On a miss it fetches the bytes. A byte-identical
  copy already stored under another known version is hard-linked;
  otherwise the bytes are written.
- It answers lookups by name, case-insensitive searches and image
  manifests.
- It paginates with the page-size clamp, the ceiling page count and the
  reset to page 1.

**The request rules.**
- `VersionManager`: the memoised version and language lists, membership
  tests, and the selection report.
- `ClientManager`: the session preferences, the remember-me hydration rule,
  the `getParams` validator chain and the `getSession` fallback to
  defaults.
- The two `UrlGenerator` copies: query-string rewriting and the safe
  back-URL.

**How the world is represented.**
- The disk is a `World`: files as bytes, unreadable paths, created
  directories and the log of fetched URLs.
- The DDragon network is an oracle `string -> Option<Bytes>`, held with the
  base directories and the known versions in an `Env`.
- A PHP array is an ordered map (`OMap`, a sequence of key/value pairs).
- `json_encode`/`json_decode` are an abstract `Codec`. `parse_url`,
  `parse_str` and `http_build_query` are an abstract `UrlCodec`. The router
  is an abstract `Router`.

**How the model is built.**
- Each manager instance is a class whose methods change its state, for
  example `Catalog.Manager` with its `st: World`.
- Every state-changing method ensures `(state, result) == Spec(old(state),
  ...)`.
- Each loop of the source is a `while` loop carrying the "remaining work"
  invariant against that specification.
- The properties the source promises are proved as lemmas about the
  specification functions.
- Exceptions are the `Failure` cases of a `Result`.

Files:
- `base.dfy`: Option, Result and the failures; PHP truthiness.
- `omap.dfy`: ordered maps.
- `json.dfy`: decoded values.
- `text.dfy`: lower-casing and the name order.
- `paths.dfy`: directory and path rules.
- `store.dfy`: disk, fetch, read-through JSON, the duplicate scan, images.
- `catalog.dfy`: the shared manager class and the image manifests.
- `pagination.dfy`, `paging.dfy`: the slice, the clamp and the paginators.
- `lookup.dfy`: lookups by name.
- `search.dfy`: searches.
- `api.dfy`: the API summoner and champion managers.
- `rune.dfy`: the rune manager.
- `legacy.dfy`, `legacychampion.dfy`, `namesort.dfy`, `merge.dfy`: the legacy
  managers.
- `versions.dfy`: `VersionManager`.
- `client.dfy`: `ClientManager`.
- `urls.dfy`: `UrlGenerator`.

## Model

| member | source | states |
|---|---|---|
| Paths.BuildDir | app/src/Service/API/AbstractManager.php:40-50 | the absolute directory is the base directory joined with the relative one |
| Paths.ImageDirIgnoresLang | app/src/Service/API/AbstractManager.php:41-43 | an image directory is `upload/{version}/{type}_img` whatever the language |
| Paths.JsonDirInjective | app/src/Service/API/AbstractManager.php:41-43 | JSON directories `upload/{v}/{lang}/{type}` of slash-free parts are equal only for equal version, language and type |
| Paths.ImageAndJsonDirsDisjoint | app/src/Service/AbstractManager.php:138-140 | no image directory equals any JSON directory |
| Paths.BuildPath | app/src/Service/API/AbstractManager.php:60-69 | the file name of a built path is the name given |
| Paths.AbsPathIsBaseJoinRel | app/src/Service/API/AbstractManager.php:60-68 | the absolute file path is the base directory joined with the relative path |
| Paths.DefaultName | app/src/Service/API/AbstractManager.php:88-95 | a missing or falsy name becomes `{type}.json`; a truthy name is kept |
| Catalog.Manager.constructor | app/src/Service/API/AbstractManager.php:15-22 | the manager starts over the given environment and disk |
| Catalog.Manager.BuildDir | app/src/Service/API/AbstractManager.php:40-50 | returns the directory rule's result and only creates that directory |
| Catalog.Manager.BuildPath | app/src/Service/API/AbstractManager.php:60-69 | returns the path rule's result and only creates its directory |
| Catalog.Manager.BuildDirAndPath | app/src/Service/API/AbstractManager.php:88-95 | the directory, then the path with the `{type}.json` default name |
| Store.ReadIfExists | app/src/Service/API/AbstractManager.php:105-115 | absent gives null; readable gives the contents; present but unreadable gives a read failure, in both directions |
| Catalog.Manager.FileIsExisting | app/src/Service/AbstractManager.php:202-212 | the legacy copy reads the disk by the same three-way rule and changes nothing |
| Store.Fetch | app/src/Service/Tools/APICaller.php:1-32 | a call logs the URL; it fails exactly when the oracle has no answer, otherwise it returns the oracle's bytes |
| Catalog.Manager.Call | app/src/Service/Tools/APICaller.php:1-32 | the manager's state after a call is the fetch rule's |
| Store.FirstDuplicate | app/src/Service/API/AbstractManager.php:132-146 | a returned path is the image candidate of one of the versions, and its stored bytes equal the input |
| Store.FirstDuplicateFindsFirst | app/src/Service/API/AbstractManager.php:132-146 | the scan returns the candidate of the first version, in list order, whose copy equals the input |
| Store.FirstDuplicateNone | app/src/Service/API/AbstractManager.php:132-146 | the scan gives null if and only if no version holds an equal copy |
| Store.FirstDuplicateError | app/src/Service/API/AbstractManager.php:132-146 | a scan failure is the read failure of the first probe that failed, with no match before it |
| Store.BinaryExistingSpec | app/src/Service/API/AbstractManager.php:128-147 | falsy input (empty or "0") gives null; any returned path holds bytes equal to the input |
| Catalog.Manager.BinaryExisting | app/src/Service/AbstractManager.php:225-244 | the legacy copy computes the same duplicate scan and changes nothing |
| Store.CandidateIsImagePath | app/src/Service/API/AbstractManager.php:136-139 | the scanned path of a version is that version's image path for the name |
| Pagination.ArraySlice | app/src/Service/API/AbstractManager.php:160-162 | `array_slice` never returns more entries than it was given |
| Pagination.SliceIsContiguous | app/src/Service/AbstractManager.php:257-259 | for non-negative arguments the slice is `a[start .. min(start+nb, length))`, keys included |
| Pagination.NegativeSizeTrimsTail | app/src/Service/API/AbstractManager.php:160-162 | a negative page size gives offset 0 and drops that many trailing entries |
| Store.DumpFile | app/src/Service/Tools/UploadManager.php:31-63 | writing a file sets exactly that path to the bytes and makes it readable |
| Catalog.Manager.SaveJson | app/src/Service/Tools/UploadManager.php:31-63 | creates the directory, then writes the encoded document at dir/file |
| Store.LinkFile | app/src/Service/API/SummonerManager.php:185-187 | `@link` copies the source only when the target is absent and the source exists, and otherwise changes nothing |
| Store.JsonHitNoFetch | app/src/Service/API/SummonerManager.php:33-35 | on a cache hit the decoded file is returned with no fetch and no write |
| Store.JsonMissFetchesAndStores | app/src/Service/API/SummonerManager.php:37-42 | on a miss the DDragon data URL is fetched once; a failure writes nothing; a success stores the encoded document and returns it |
| Store.JsonSecondCallHits | app/src/Service/API/SummonerManager.php:27-43 | after a successful call, a second identical call returns the same document with no fetch and no write |
| Store.AsArray | app/src/Service/API/SummonerManager.php:34 | the `array` return type accepts exactly array documents |
| Catalog.Manager.GetJson | app/src/Service/API/SummonerManager.php:27-43 | the read-through cache as one state change |
| Store.ImageReturnsRelPath | app/src/Service/API/SummonerManager.php:192 | a successful getImage returns `relDir/name` |
| Store.ImageHitNoFetch | app/src/Service/API/SummonerManager.php:180-182 | without force, an existing file is returned with no fetch and no write |
| Store.ImageFetchLog | app/src/Service/API/SummonerManager.php:184 | getImage makes at most one DataDragon asset request, for the image URL |
| Store.ImageSecondCallHits | app/src/Service/API/SummonerManager.php:174-193 | after a successful call the file exists, and a second call without force is a hit |
| Store.ImageFreshContent | app/src/Service/API/SummonerManager.php:184-190 | a new image file holds exactly the fetched bytes, linked or written |
| Store.ImageLinkSource | app/src/Service/API/SummonerManager.php:185-187 | a link source is the same image stored under one of the known versions, with equal bytes |
| Store.ImageForcedRefreshKeepsExisting | app/src/Service/API/SummonerManager.php:185-187 | a forced refresh that finds a duplicate leaves the disk unchanged, since `@link` onto an existing file fails silently |
| Catalog.Manager.Materialize | app/src/Service/API/SummonerManager.php:178-192 | the hit-or-fetch-then-link-or-write step as one state change |
| Catalog.GetImage | app/src/Service/API/SummonerManager.php:174-193 | getImage, with the directory built when none is given |
| Catalog.GetImageViaDirAndPath | app/src/Service/RiotManager.php:116-140 | the legacy getImage route computes the same state and result |
| Catalog.DefaultImagePath | app/src/Service/API/SummonerManager.php:177-179 | with no directory given, the returned path is `upload/{version}/{type}_img/{name}` |
| Catalog.FlatImages | app/src/Service/API/SummonerManager.php:141-150 | the manifest loop over the entries |
| Catalog.FlatEntry | app/src/Service/API/SummonerManager.php:142-148 | one entry: skipped without a truthy id or `image.full`, else its image is materialised and recorded under `id`, or appended |
| Catalog.ValuesOrEmpty | app/src/Service/API/SummonerManager.php:133-135 | a missing `data` gives no entries; otherwise `data` must be an array and gives its values |
| Catalog.GetImages | app/src/Service/API/SummonerManager.php:131-153 | getImages loads the data when none is given, builds the directory, then runs the manifest loop |
| CatalogFacts.Entry | app/src/Service/API/SummonerManager.php:142-147 | an entry is kept exactly when it has a truthy id and `image.full` |
| CatalogFacts.Kept | app/src/Service/API/ChampionManager.php:138-150 | the kept entries are never more than the input |
| CatalogFacts.KeyedManifest | app/src/Service/API/SummonerManager.php:141-150 | a keyed manifest has unique keys, a key exactly for each kept id, and each value is the image path of the last entry kept under that id |
| CatalogFacts.PositionalManifest | app/src/Service/API/ChampionManager.php:138-150 | a positional manifest lists the kept entries' image paths in order under 0, 1, 2, … |
| CatalogFacts.FoldKeyedUnique | app/src/Service/API/SummonerManager.php:146-148 | assigning `result[id]` keeps the keys unique |
| CatalogFacts.FoldKeyedLast | app/src/Service/API/SummonerManager.php:148 | after the loop, `result[id]` is the path of the last kept entry with that id, or what it held before when there is none |
| Json.KeyOf | app/src/Service/API/SummonerManager.php:148 | `$result[$id]` addresses an integer key exactly for a canonical decimal id within the 64-bit range; any other id stays a string key |
| CatalogFacts.WarmManifestNoFetch | app/src/Service/API/SummonerManager.php:180-182 | when every kept image is on disk, a manifest without force succeeds with no fetch and no write |
| Pagination.CeilDivIsCeiling | app/src/Service/API/SummonerManager.php:227 | the integer page count is the ceiling of total / nb |
| Pagination.ClampRule | app/src/Service/API/SummonerManager.php:224-226 | nb = 0 or nb > total becomes total, or min(total, 20) with the cap; otherwise nb is kept; with data, 1 ≤ nb ≤ total |
| Pagination.PageWindow | app/src/Service/API/SummonerManager.php:224-236 | the window fails, with division by zero, exactly when the clamped size is 0 |
| Pagination.EmptyDatasetDividesByZero | app/src/Service/API/SummonerManager.php:223-227 | an empty dataset divides by zero |
| Pagination.WindowInRange | app/src/Service/API/SummonerManager.php:227-236 | out-of-range pages reset to 1; the offset is nb·(page−1), or 0 for page ≤ 1, and lies inside the data |
| Pagination.PagesArePrefix | app/src/Service/API/SummonerManager.php:224-249 | the first `count` pages laid end to end are the first nb·count entries |
| Pagination.PagesCoverData | app/src/Service/API/SummonerManager.php:224-249 | the pages of a clamped size, up to the page count, are the whole data |
| Paging.Listing | app/src/Service/API/SummonerManager.php:221 | the listing is `data` (an array, else a type error), or the top level for runes |
| Paging.CutPage | app/src/Service/API/SummonerManager.php:219-238 | the paginator's load-clamp-slice part as one state change |
| Paging.CutIsPageOfList | app/src/Service/API/ChampionManager.php:212-225 | a non-empty list gives a non-empty page-aligned contiguous slice of the clamped size |
| Paging.EmptyListFails | app/src/Service/API/SummonerManager.php:221-227 | an empty list makes paginate fail with division by zero |
| Paging.FlatPaginate | app/src/Service/API/SummonerManager.php:219-250 | paginate as one state change |
| Paging.PageImagesMatchItems | app/src/Service/API/SummonerManager.php:238-249 | the keyed page manifest covers exactly the kept entries of the page slice, each key holding the last such entry's image path |
| Paging.PageImagesInOrder | app/src/Service/API/ChampionManager.php:227-239 | the positional page manifest lists the page slice's kept images in order |
| Paging.PageSizeIsClamped | app/src/Service/API/ChampionManager.php:212-239 | `meta.itemPerPage` is the clamped nb, and `meta.nombrePage` is the ceiling |
| Lookup.FirstWith | app/src/Service/API/SummonerManager.php:65-71 | a failed lookup is "not found" for that name |
| Lookup.FindFirst | app/src/Service/API/SummonerManager.php:65-71 | the loop returns the same entry as the lookup rule |
| Lookup.FirstWithIsFirst | app/src/Service/API/SummonerManager.php:65-71 | found iff some entry has `key === name`, and then it is the first such entry |
| Lookup.FirstWithIsArray | app/src/Service/API/SummonerManager.php:60 | a found entry is an array, as the return type demands |
| Lookup.KeyedEntry | app/src/Service/API/ChampionManager.php:64-68 | `data[name]` is returned iff present and an array; absent gives "not found" |
| Lookup.DirectEntry | app/src/Service/RiotManager.php:83-84 | `data[name]` is returned iff present and an array; otherwise a type error |
| Search.Hit | app/src/Service/API/SummonerManager.php:105-110 | a hit is an entry whose id or name contains the query, or for items its name, returned with `id` set to its key |
| Search.Matches | app/src/Service/API/SummonerManager.php:101-111 | there are never more matches than entries |
| Search.SearchLoop | app/src/Service/API/SummonerManager.php:98-113 | the loop with `break` returns the capped list of matches |
| Search.SearchByName | app/src/Service/API/SummonerManager.php:87-114 | searchByName as one state change |
| Search.MatchesAreHits | app/src/Service/API/SummonerManager.php:101-111 | a value is matched iff some entry is a hit giving it |
| Search.CapRule | app/src/Service/AbstractManager.php:52 | max = 0 returns every match; max > 0 keeps the first min(max, n) |
| Search.SearchResultsMatch | app/src/Service/API/SummonerManager.php:89-113 | results obey the length guard and the cap, and each relates to an entry of `data` by the case-insensitive hit rule |
| Search.SearchIgnoresCase | app/src/Service/API/SummonerManager.php:99-106 | queries equal after lower-casing give the same result |
| Search.InvalidQueryTouchesNothing | app/src/Service/API/SummonerManager.php:89-91 | a query shorter than 2 or longer than 50 fails before any load, fetch or write |
| Search.Renumber | app/src/Service/ItemManager.php:133 | renumbering keeps the number of entries |
| Search.RenumberKeepsNames | app/src/Service/ItemManager.php:133 | renumbering keeps every string-keyed field |
| Search.ItemHitCarriesKey | app/src/Service/ItemManager.php:133 | the merged item's `id` is its JSON key and every other field is unchanged |
| ApiCatalog.SummonerData | app/src/Service/API/SummonerManager.php:27-43 | getData reads `summoner.json` through the cache |
| ApiCatalog.SummonerByName | app/src/Service/API/SummonerManager.php:60-72 | getByName as one state change |
| ApiCatalog.SummonerByNameFindsFirst | app/src/Service/API/SummonerManager.php:65-71 | the found spell is the first in `data` whose `id === name` |
| ApiCatalog.SummonerSearch | app/src/Service/API/SummonerManager.php:87-114 | the search on type summoner by id or name |
| ApiCatalog.SummonerImages | app/src/Service/API/SummonerManager.php:131-153 | getImages keyed by id from `img/spell/` |
| ApiCatalog.SummonerImage | app/src/Service/API/SummonerManager.php:174-193 | getImage from `.../cdn/{v}/img/spell/` |
| ApiCatalog.SummonerPaginate | app/src/Service/API/SummonerManager.php:219-250 | paginate with the uncapped clamp |
| ApiCatalog.ChampionData | app/src/Service/API/ChampionManager.php:26-42 | getData reads `champion.json` through the cache |
| ApiCatalog.ChampionByName | app/src/Service/API/ChampionManager.php:60-69 | getByName is the direct key lookup |
| ApiCatalog.ChampionSearch | app/src/Service/API/ChampionManager.php:87-114 | the search on type champion by id or name |
| ApiCatalog.ChampionImages | app/src/Service/API/ChampionManager.php:129-151 | getImages as a positional list over entries with a name |
| ApiCatalog.ChampionImage | app/src/Service/API/ChampionManager.php:168-187 | getImage from `.../cdn/{v}/img/champion/` |
| ApiCatalog.ChampionPaginate | app/src/Service/API/ChampionManager.php:207-240 | paginate with the cap-20 clamp |
| ApiCatalog.ChampionPageImagesInOrder | app/src/Service/API/ChampionManager.php:212-239 | nb = 0 gives at most 20 per page; the manifest lists the page's kept portraits in order |
| Runes.RuneData | app/src/Service/API/RuneManager.php:9-26 | getData reads `runesReforged.json` through the cache |
| Runes.RuneByName | app/src/Service/API/RuneManager.php:28-39 | getByName searches the top-level list of trees by key |
| Runes.RuneImage | app/src/Service/API/RuneManager.php:41-60 | images come from the version-less `.../cdn/img/` and are stored under `upload/{v}/runesReforged_img` |
| Runes.SetIcon | app/src/Service/API/RuneManager.php:78 | `result[key]['icon']` is set and the tree's slots are kept |
| Runes.TreeKey | app/src/Service/API/RuneManager.php:73-77 | a tree is kept exactly when it has a truthy icon and key |
| Runes.SlotRunes | app/src/Service/API/RuneManager.php:81-88 | the innermost loop over the runes of a slot |
| Runes.PlaceRune | app/src/Service/API/RuneManager.php:82-87 | one rune: skipped without icon or key, else its icon is fetched and recorded at `[tree]["slots"][index][key]` |
| Runes.TreeSlots | app/src/Service/API/RuneManager.php:80-89 | the middle loop over the slots of a tree |
| Runes.Slot | app/src/Service/API/RuneManager.php:80-88 | one slot: the innermost loop over that slot's `runes` |
| Runes.Tree | app/src/Service/API/RuneManager.php:73-89 | one tree: skipped without icon or key, else its icon and then its slots |
| Runes.Trees | app/src/Service/API/RuneManager.php:71-90 | the outer loop over the trees |
| Runes.RuneImages | app/src/Service/API/RuneManager.php:62-92 | getImages loads the trees when none are given, builds the directory, then the nested loops |
| Runes.RunePaginate | app/src/Service/API/RuneManager.php:94-132 | paginate with the cap-20 clamp over the top-level list |
| RuneFacts.RuneManifestKeys | app/src/Service/API/RuneManager.php:73-78 | the manifest has a key exactly for each tree with icon and key, each holding an icon |
| RuneFacts.SlotsKeep | app/src/Service/API/RuneManager.php:80-89 | the slot loops add no tree keys and keep every tree's icon |
| RuneFacts.RuneAtSetRune | app/src/Service/API/RuneManager.php:87 | the nested assignment sets exactly one rune cell, creating the tree and the slot when absent |
| RuneFacts.RuneAtSetIcon | app/src/Service/API/RuneManager.php:78 | setting a tree icon changes no rune cell |
| RuneFacts.RunesPlace | app/src/Service/API/RuneManager.php:81-88 | the rune loop of a slot fills a cell exactly for each of its runes with icon and key |
| RuneFacts.SlotsPlace | app/src/Service/API/RuneManager.php:80-89 | the slot loop of a tree fills a cell exactly for each rune of each of its slots |
| RuneFacts.TreesPlace | app/src/Service/API/RuneManager.php:71-90 | the tree loop fills a cell exactly for each rune of each kept tree |
| RuneFacts.RuneManifestPlacesRunes | app/src/Service/API/RuneManager.php:71-90 | `result[tree]["slots"][index][rune]` is set exactly when a kept tree with that key has a rune with icon and that key in a slot with that index |
| RuneFacts.RunesStore | app/src/Service/API/RuneManager.php:81-88 | after a slot's rune loop a cell holds `{relDir}/{icon}` of the last rune written there, or what it held before |
| RuneFacts.SlotsStore | app/src/Service/API/RuneManager.php:80-89 | the same over the slots of a tree, later slots with the same index winning |
| RuneFacts.TreesStore | app/src/Service/API/RuneManager.php:71-90 | the same over the trees, later trees with the same key winning, since setting an icon keeps the slots |
| RuneFacts.RuneManifestStoresLastIcon | app/src/Service/API/RuneManager.php:71-90 | each rune cell holds the relative image path of the icon of the last rune written to it, and is absent when no rune is |
| RuneFacts.RunePageImagesMatchTrees | app/src/Service/API/RuneManager.php:99-131 | the page manifest is built from the page's trees only |
| Riot.RiotJson | app/src/Service/RiotManager.php:41-60 | getJson defaults the file name and reads through the cache |
| Riot.DataByKey | app/src/Service/RiotManager.php:79-98 | getDataByKey as one state change |
| Riot.DataByKeyFindsFirst | app/src/Service/RiotManager.php:85-97 | with a key, the first entry of `data`, or of the top level under noData, with `d[key] === name`, else "not found" |
| Riot.RiotImageBase | app/src/Service/RiotManager.php:117-123 | a given base URL wins; otherwise `img/spell/` for summoner and `img/{type}/` for other types |
| Riot.RiotImage | app/src/Service/RiotManager.php:116-140 | getImage with the type→URL table |
| Riot.RiotImages | app/src/Service/RiotManager.php:157-180 | getImages keyed by `d[key]` |
| Riot.RiotPaginate | app/src/Service/RiotManager.php:207-238 | paginate with the uncapped clamp |
| LegacyManagers.Summoners | app/src/Service/SummonerManager.php:42-45 | getSummoners is getJson on type summoner |
| LegacyManagers.SummonerByName | app/src/Service/SummonerManager.php:62-64 | the lookup keys on `id` |
| LegacyManagers.SearchSummoners | app/src/Service/SummonerManager.php:121-148 | the 2..50 guard, the id-or-name case-insensitive match and the cap |
| LegacyManagers.SummonersImages | app/src/Service/SummonerManager.php:165-168 | manifest keyed by id |
| LegacyManagers.SummonerImage | app/src/Service/SummonerManager.php:188-190 | getImage on type summoner |
| LegacyManagers.PaginateSummoners | app/src/Service/SummonerManager.php:247-249 | paginate keyed by id, uncapped |
| LegacyManagers.SummonerGenerationsAgree | app/src/Service/SummonerManager.php:44-248 | the legacy lookup, image base, manifest and paginator agree with the API summoner manager |
| LegacyManagers.OrderAcsSummoners | app/src/Service/SummonerManager.php:200-208 | the result is sorted by case-insensitive name, as strcasecmp casts it, and is a permutation of the `data` values (none when `data` is absent); it fails exactly when `data` is not an array or, among two or more values, one is not an array or has an array name |
| NameSort.SortByNameSortsAndPermutes | app/src/Service/SummonerManager.php:203-207 | the sort orders by case-insensitive name as strcasecmp receives it (an integer as its decimal text, true as `'1'`, false, null or a missing name as `''`) and permutes its input |
| NameSort.SortByNameIsStable | app/src/Service/ChampionManager.php:181-185 | entries with equal folded names keep their relative order |
| NameSort.SortBySortsAndPermutes | app/src/Service/SummonerManager.php:203-207 | insertion sort by any string key, folded to lower case, orders and permutes its input |
| NameSort.SortByIsStable | app/src/Service/ChampionManager.php:181-185 | that sort keeps the relative order of entries with equal folded keys |
| NameSort.SortEntries | app/src/Service/SummonerManager.php:203-207 | sorting fails with a type error exactly when two or more values are present and one is not an array or has an array-valued name; otherwise the result is sorted by the cast name and a permutation |
| NameSort.IntNameSortsAsDecimal | app/src/Service/SummonerManager.php:203-207 | the integer name 5 compares as `'5'`, so it sorts after `'0'` in either input order |
| NameSort.ScalarNamesCast | app/src/Service/SummonerManager.php:203-207 | true compares as `'1'`, false as `''`, -3 as `'-3'` |
| NameSort.ArrayNameFails | app/src/Service/SummonerManager.php:203-207 | an array-valued name is a type error among two entries, and a lone entry is never compared |
| LegacyManagers.SummonersByNameAsWrittenFails | app/src/Service/SummonerManager.php:81-106 | as written, `json_decode` of an array always fails |
| LegacyManagers.SummonersByName | app/src/Service/SummonerManager.php:81-106 | the corrected getSummonersByName as one state change |
| LegacyManagers.SummonersByNameMerges | app/src/Service/SummonerManager.php:88-105 | corrected: found iff a spell has `id === name`; the merged result keeps that id |
| Merge.MergeLoop | app/src/Service/SummonerManager.php:94-98 | the merge loop returns the specified merge of every matching spell |
| Merge.MergeMatchesNonEmpty | app/src/Service/SummonerManager.php:100-105 | the merge is empty exactly when no spell matches, so the throw fires exactly then |
| Merge.ArrayMergeNonEmpty | app/src/Service/SummonerManager.php:96 | `array_merge` is empty only for two empty arrays |
| Merge.MergedIdIsName | app/src/Service/SummonerManager.php:94-98 | merging matching spells keeps `id` equal to the name |
| LegacyManagers.SummonersParsedAsWrittenFails | app/src/Service/SummonerManager.php:218-221 | as written, `json_decode` of an array always fails |
| LegacyManagers.SummonersParsed | app/src/Service/SummonerManager.php:210-221 | the corrected getSummonersParsed (fetch through the cache, then orderAcsSummoners) as one state change |
| LegacyManagers.SummonersParsedSorts | app/src/Service/SummonerManager.php:200-221 | corrected: the values of `data` sorted by case-insensitive name and a permutation of them, none without `data`, a type error exactly when `data` is not an array or, among two or more values, one is not an array or has an array-valued name |
| LegacyManagers.Objects | app/src/Service/ItemManager.php:37-40 | getObjects is getJson on type item |
| LegacyManagers.ObjectByName | app/src/Service/ItemManager.php:51-53 | getObjectByName delegates with key `''` |
| LegacyManagers.ObjectByNameIsKeyLookup | app/src/Service/ItemManager.php:52 | key `''` is a direct lookup of `data[name]` |
| LegacyManagers.SearchObjects | app/src/Service/ItemManager.php:111-138 | the search on items by name only |
| LegacyManagers.ItemResultsCarryKeys | app/src/Service/ItemManager.php:126-135 | every result is an item of `data` whose name matches, with `id` set to its JSON key |
| LegacyManagers.ObjectsImages | app/src/Service/ItemManager.php:65-68 | manifest keyed by name |
| LegacyManagers.ObjectImage | app/src/Service/ItemManager.php:81-83 | getImage on type item |
| LegacyManagers.PaginateItems | app/src/Service/ItemManager.php:107-109 | paginate keyed by name, uncapped |
| LegacyChampion.ChampionsJson | app/src/Service/ChampionManager.php:39-61 | getChampions as one state change |
| LegacyChampion.SharedChampionCache | app/src/Service/ChampionManager.php:83-104 | the intended champion paths are the API manager's JSON file and portrait base |
| LegacyChampion.ChampionsJsonHit | app/src/Service/ChampionManager.php:44-46 | a truthy cached file is returned raw with no fetch |
| LegacyChampion.ChampionsJsonStoresWhatItReturns | app/src/Service/ChampionManager.php:49-60 | a miss fetches once, decodes, stores and returns the re-encoded document |
| LegacyChampion.ChampionsJsonSecondCallHits | app/src/Service/ChampionManager.php:39-61 | after a truthy result a second call returns it with no fetch |
| LegacyChampion.FetchedArraysStayCached | app/src/Service/ChampionManager.php:49-60 | a fetched array document is stored truthy, so it is cached |
| LegacyChampion.ParseChampions | app/src/Service/ChampionManager.php:177-188 | undecodable input fails; otherwise the result is sorted by the cast name and a permutation of the `data` values, and a decoded `data` list fails, with a type error, exactly when two or more values hold one that is not an array or has an array-valued name |
| LegacyChampion.ParseChampionsIsStable | app/src/Service/ChampionManager.php:181-185 | equal names keep their document order |
| LegacyChampion.ChampionsParsed | app/src/Service/ChampionManager.php:198-202 | getChampionsParsed as one state change |
| LegacyChampion.ParsedAfterFetchSortsDocument | app/src/Service/ChampionManager.php:198-202 | after a miss, the parsed list is the sorted `data` of the fetched document |
| LegacyChampion.FetchChampionImages | app/src/Service/ChampionManager.php:121-166 | the per-entry decision loop as one state change |
| LegacyChampion.ChampionImagesKeyedById | app/src/Service/ChampionManager.php:140-162 | the manifest has unique keys, one for each entry with id and image, each holding the relPath of the last such entry |
| Versions.VersionManager.constructor | app/src/Service/VersionManager.php:14-18 | the manager starts over the given feeds with an empty cache |
| Versions.VersionManager.GetVersions | app/src/Service/VersionManager.php:25-39 | getVersions as one state change of the memo |
| Versions.VersionManager.GetLanguages | app/src/Service/VersionManager.php:48-67 | getLanguages as one state change of the memo |
| Versions.FirstReadFetchesOnce | app/src/Service/VersionManager.php:27-37 | a cold read requests the URL once and stores the answer; a failure stores and returns `[]` and logs the error |
| Versions.SecondReadIsCached | app/src/Service/VersionManager.php:27-31 | a second read returns the same list with no request |
| Versions.CachedIsKnown | app/src/Service/VersionManager.php:27-37 | the list returned is the one held in the cache |
| Versions.VersionsCachedTenMinutes | app/src/Service/VersionManager.php:27-37 | versions are cached under `riot_versions` for 600 seconds, and a second call makes no request |
| Versions.LanguagesCachedOneMonth | app/src/Service/VersionManager.php:50-66 | languages are cached under `riot_languages` for 2592000 seconds, and a failure gives `[]` |
| Versions.LanguageLabels | app/src/Service/VersionManager.php:74-106 | the built-in table has 28 languages, `en_US` labelled "Anglais (États-Unis)" |
| Versions.VersionManager.VersionExists | app/src/Service/VersionManager.php:111-118 | versionExists as one state change of the memo |
| Versions.VersionExistsIsMembership | app/src/Service/VersionManager.php:113-117 | false for null or `''`, otherwise membership in the version list |
| Versions.VersionManager.LanguageExists | app/src/Service/VersionManager.php:123-133 | languageExists as one state change of the memo |
| Versions.LanguageExistsIsMembership | app/src/Service/VersionManager.php:125-132 | false for null or `''`; membership in the fetched list, or in the label codes when it is empty |
| Versions.LanguagesFallBackToLabels | app/src/Service/VersionManager.php:125-132 | with no fetched languages, `fr_FR` and `en_US` are accepted and `xx_YY` is not |
| Versions.VersionManager.ValidateSelection | app/src/Service/VersionManager.php:140-156 | validateSelection as one state change of the memo |
| Versions.ValidationReportsEachUnknown | app/src/Service/VersionManager.php:142-155 | ok iff no errors iff no given value is unknown; errors are keyed `version` then `language` with their messages |
| Client.ClientManager.constructor | app/src/Service/ClientManager.php:16-22 | the manager holds the request, its session, the injected default locale and the version manager |
| Client.ClientManager.GetLangue | app/src/Service/ClientManager.php:27-30 | always the injected default locale (`en_US` when the configuration gives none) |
| Client.SessionText | app/src/Service/ClientManager.php:87-88 | a session value reads back only when it is a non-empty string |
| Client.ClientManager.SetLocaleInSession | app/src/Service/ClientManager.php:41-44 | sets `_locale` in the session; a missing session follows the code's null-safe call and changes nothing |
| Client.ClientManager.SetVersionInSession | app/src/Service/ClientManager.php:51-54 | sets `dd_version` in the session; a missing session follows the code's null-safe call and changes nothing |
| Client.ClientManager.SetPreferencesInSession | app/src/Service/ClientManager.php:63-76 | writes only the non-empty values; a missing session follows the code's `if (!$sess)` and writes nothing |
| Client.ClientManager.GetLocaleFromSession | app/src/Service/ClientManager.php:85-89 | a non-string or empty `_locale` reads as null |
| Client.ClientManager.GetVersionFromSession | app/src/Service/ClientManager.php:96-100 | a non-string or empty `dd_version` reads as null |
| Client.ClientManager.GetPreferencesFromSession | app/src/Service/ClientManager.php:107-113 | the pair of the two getters |
| Client.SettersAreReadBack | app/src/Service/ClientManager.php:41-100 | a non-empty value set is read back, and the other key is untouched |
| Client.PreferencesAreWrittenWhenGiven | app/src/Service/ClientManager.php:65-75 | null or `''` values are not written; other values are; other keys are untouched |
| Client.ClientManager.HydrateSessionFromRememberCookie | app/src/Service/ClientManager.php:198-223 | hydration as one state change of the session |
| Client.HydrateTouchesOnlyPreferences | app/src/Service/ClientManager.php:198-223 | hydration changes no key other than the two preferences |
| Client.CompletePreferencesSkipTheCookie | app/src/Service/ClientManager.php:202-206 | with both preferences stored the cookie is ignored |
| Client.RememberCookieRestoresPreferences | app/src/Service/ClientManager.php:130-223 | a valid remember cookie restores exactly its non-empty locale and version |
| Client.ClientManager.GetOrHydratePreferences | app/src/Service/ClientManager.php:232-261 | reads, hydrates when needed, re-reads; a missing session follows the code's null check and gives both null |
| Client.Cap | app/src/Service/ClientManager.php:326-347 | the `(int)` cast saturates at the 64-bit bounds and keeps values inside them |
| Client.IntCast | app/src/Service/ClientManager.php:326-347 | the cast stays within the 64-bit range |
| Client.IntCastReadsDecimal | app/src/Service/ClientManager.php:326-347 | decimals read back as their value, signed or with leading blanks |
| Client.NonNumericIsZero | app/src/Service/ClientManager.php:326-347 | text without a leading number casts to 0 |
| Client.ClientManager.Handle | app/src/Service/ClientManager.php:298-347 | one validator as one state change |
| Client.HandleReadsTheLists | app/src/Service/ClientManager.php:298-347 | version and language are checked against the lists; a page or page size ≤ 0 is refused, with the French messages |
| Client.Verdict | app/src/Service/ClientManager.php:298-347 | an accepted value is filed under its handler's key |
| Client.ClientManager.GetParams | app/src/Service/ClientManager.php:270-291 | the validator loop as one state change |
| Client.RunNeedsReadsTheLists | app/src/Service/ClientManager.php:270-291 | the chain is the list-based reference run over the expanded names |
| Client.GetParamsReport | app/src/Service/ClientManager.php:272-290 | `param = true` iff every validator accepts, with each value under its key; otherwise the first refusal unchanged, or `param = false` for an unknown name |
| Client.ClientManager.GetSession | app/src/Service/ClientManager.php:360-367 | getSession as one state change of the session and the memo |
| Client.SessionFallsBackToDefaults | app/src/Service/ClientManager.php:362-365 | known preferences are kept; otherwise both become the newest version and the default locale |
| Urls.UrlGenerator.constructor | app/src/Service/Tools/UrlGenerator.php:10-13 | the generator holds the request, router, codec and root rule |
| Urls.RemoveAllGet | app/src/Service/Tools/UrlGenerator.php:108-110 | removed keys are absent; other keys keep their values |
| Urls.ApplyOverridesGet | app/src/Service/Tools/UrlGenerator.php:112-119 | a null override deletes, another sets, and unmentioned keys keep their values |
| Urls.RewriteParamsGet | app/src/Service/Tools/UrlGenerator.php:102-119 | removal then overrides: the outcome for each key |
| Urls.RewriteParamsUnique | app/src/Service/Tools/UrlGenerator.php:102-119 | the rewritten query has no duplicate keys |
| Urls.UrlGenerator.RewriteQueryParams | app/src/Service/Tools/UrlGenerator.php:85-129 | the two mutating loops compute the rewrite rule |
| Urls.SkippedPathsAreUntouched | app/src/Service/Tools/UrlGenerator.php:97-99 | a URL whose path, or `/` when missing, is listed is returned unchanged |
| Urls.RewriteKeepsPathAndFragment | app/src/Service/Tools/UrlGenerator.php:122-128 | the output starts with the path; a `?` follows exactly when the rebuilt query is non-empty, and it ends with `#frag` exactly when the fragment is non-empty; with both empty it is the path alone |
| Urls.MalformedUrlEndsWithHash | app/src/Service/Tools/UrlGenerator.php:90-128 | an unparsable URL gives the rewritten bare query followed by `#` |
| Urls.UrlGenerator.GenerateBackurl | app/src/Service/Tools/UrlGenerator.php:39-73 | no request or an empty referer gives the fallback; under sameHostOnly a referer off the request's host (or with no host) gives exactly the fallback; an accepted referer gives `app_home` when the root rule applies and it points at `/`, and otherwise the referer itself |
| Urls.SameHostRefererIsKept | app/src/Service/UrlGenerator.php:29-47 | a same-host, non-root referer is returned exactly |
| Urls.BackUrlGenerationsDiffer | app/src/Service/UrlGenerator.php:19-48 | the two copies differ only on an accepted root referer; on every accepted root referer the tools copy answers `app_home` and the older copy the referer, so they differ unless the referer is `app_home`'s own URL |

## Left out

- I/O is abstract. The disk is a value, the network is an oracle, and HttpClient, the Filesystem component and `@link` failures other than "target exists" or "source missing" are not modelled.
- `json_encode` and `json_decode` are an abstract codec. The lemmas that need it ask for a lossless codec.
- `json_encode`, `mkdir` and `dumpFile` failures are not modelled: a write always succeeds.
- `Path::join` is concatenation with `/`. Canonicalisation of `..` and duplicate slashes is not modelled.
- Lower-casing covers ASCII only. `mb_strtolower` on other scripts is not modelled.
- IDs and names are compared as strings, as `===` does. The conversion of integer-like array keys is modelled by Json.KeyOf. The loose `==` and numeric-string comparisons PHP also has are not used by the modelled code.
- JSON numbers are integers (`Num(n: int)`). The floats DataDragon documents contain, such as champion stats, cannot be represented, and the lossless-codec assumption of the cache lemmas covers integer documents only. No modelled branch reads a number field as a number.
- The VersionManager cache has no clock, so expiry after the TTL is not modelled. The TTL is recorded with each entry.
- The remember-me cookie's HMAC signature, base64 and JSON body, its expiry time, the body of `makeRememberCookie` and `makeForgetCookie` are not modelled. A cookie is either absent or a valid pair of optional values.
- Client.IntCast: does not model the exponent and float forms of PHP numeric strings (`"1e3"`, `"2.5"`). It reads a leading decimal integer with saturation.
- A query value that is an array (`InputBag` throws) is not modelled. Query values are strings.
- `parse_url`, `parse_str` and `http_build_query` are abstract. Nested query arrays and integer-like keys are left to them.
- The Go workers, the controllers, the commands, the event listeners and the front end are not part of this model.
- `Utils.php` lacks the helpers the legacy RiotManager calls, such as `buildDirAndPath` and `binaryExisting`. The model uses the legacy AbstractManager's helpers, which have the same code.
- The legacy `ChampionManager::buildChampionsPath` calls an undefined `utils->buildDir`. The model uses the intended champion JSON and image directories, as LegacyChampion.SharedChampionCache states.
- The UploadManager image upload (`saveImage`) is not part of this model.
- Client.ClientManager.SetLocaleInSession: a missing session follows the code's null-safe `?->` and changes nothing. Symfony's `RequestStack::getSession()` is declared to return a session and throws `SessionNotFoundException` instead, and that exception is not modelled.
- Client.ClientManager.SetVersionInSession: the same. A missing session is a no-op here, where `getSession()` throws `SessionNotFoundException`.
- Client.ClientManager.SetPreferencesInSession: the same. A missing session writes nothing, following `if (!$sess)`, where `getSession()` throws `SessionNotFoundException`.
- Client.ClientManager.GetOrHydratePreferences: the same. A missing session gives both preferences null, following the code's null check, where `getSession()` throws `SessionNotFoundException`.
- Client.ClientManager.HydrateSessionFromRememberCookie: the same. A missing session leaves everything as it was, where `getSession()` throws `SessionNotFoundException`.
- Client.ClientManager.GetSession: the same. A missing session reads as no preferences and falls back to the defaults, where `getSession()` throws `SessionNotFoundException`.
- Catalog.FlatEntry: `id` and `image.full` count only when they are strings. A non-string field reads as absent, so a truthy number such as `123` skips the entry, where PHP (without strict types) keeps it under `$result[123]` and casts the image name to a string. An array-valued image name, a TypeError in PHP, is also treated as absent. DataDragon writes these fields as strings.
- CatalogFacts.Entry: the same string-only reading of `id` and `image.full`. A numeric id drops the entry, and PHP's scalar-to-string cast and its TypeError on arrays are not modelled.
- Search.Hit: `id` and `name` match only when they are strings. A numeric field never matches, where `mb_strtolower` casts it to its decimal text. An array-valued field reports no match, where PHP throws a TypeError.
- Runes.TreeKey: a tree's `icon` and `key` count only when they are strings. A truthy non-string value skips the tree, where PHP keeps it and casts the value. An array value, a TypeError in PHP, is treated as absent.
- Runes.PlaceRune: the same string-only reading of a rune's `icon` and `key`. A non-string value skips the rune, and PHP's cast and its TypeError on arrays are not modelled.
- The list of known versions that binaryExisting scans is a constant of `Env`. The memoised `getVersions()` request that a cold version cache makes inside getImage is not recorded in `fetched`, and the API copy's `App\Service\Client\VersionManager` is not part of this model.

## Findings

| source | as written | input that shows it | evidently intended | confidence | as-written member | corrected member |
|---|---|---|---|---|---|---|
| app/src/Service/SummonerManager.php:81-106 | `getSummonersByName` passes the array returned by `getJson` to `json_decode`, which needs a string | any name and any cached `summoner.json` | merge every spell of `data` whose id is the name, throwing when there is none | not executed | LegacyManagers.SummonersByNameAsWrittenFails | LegacyManagers.SummonersByNameMerges |
| app/src/Service/SummonerManager.php:218-221 | `getSummonersParsed` passes the array returned by `getJson` to `json_decode` | any version and language | fetch the summoner document, then parse and sort it as orderAcsSummoners does, returning the indexed list its documentation promises (lines 210-216) | not executed | LegacyManagers.SummonersParsedAsWrittenFails | LegacyManagers.SummonersParsedSorts |
