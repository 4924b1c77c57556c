# kata: cache-aside containers, the in-memory cache, the schema planner and asset tags

This project models the core of `kata`, a small Python web toolkit, in Dafny.

- **Cache (`cache.dfy`, module `Cache`).** The in-memory backend `Memory` is a class.
  - Its field `data` maps each key to an `Entry`: a value, which may be `None`, and an optional absolute expiry.
  - `get` expires entries lazily. An entry whose expiry is set and lies in the past is removed on read, and `get` reports `None` for it.
  - `set`, `delete` and their bulk forms update the dictionary.
  - `Redis._key` is a `RedisNamespace` that prepends its fixed prefix.
- **Containers (`container.dfy`, module `Container`).** Containers are cache-aside views over a `Memory` store.
  - They write through the corrected `Memory.set`. Over `Memory` as written, every expiring container write raises `NameError` (see Findings, kata/cache.py:90).
  - `Simple` caches one value under one key.
  - `Attribute` resolves a batch of items. It does one bulk read, makes at most one `pull` for exactly the distinct items that missed, and bulk-writes what was pulled. Its answer is the pulled map with the cached hits laid over it.
  - The data source behind `pull` is a `DataSource` object. It answers through a fixed function and logs every request, so that "called once, with exactly these items" is a postcondition.
- **Schema planner (`schema.dfy`, module `Schema`).**
  - The SQL string builders `_index_string` and `_alter_table_string`.
  - The plan inside `apply`:
    - put `id` first and the first `…dt` column second;
    - alter the columns that differ, drop the columns that are no longer declared, add the missing ones in the reordered order;
    - rebuild the indexes that changed, drop the unused ones and create the missing ones.
  - The planner returns the statements it would hand to `_handle`, with empty statements skipped.
  - The column plan takes the builder it calls as a parameter of type `Builder`. With `AsWritten` (lines 11-44 as they stand) it returns exactly what `apply` hands to `_handle`. With `Corrected` it uses the builder with the two slips listed under Findings fixed.
- **Asset tags (`page.dfy`, module `Page`).**
  - `_asset_tags`: in debug mode local assets are linked one by one. In build mode they are replaced by one hashed bundle.
  - The `_css_tag` and `_js_tag` builders.
  - `_hash_assets`, with md5 as an uninterpreted function.

Supporting modules:
- `Wrappers`: `Option` and `Result`.
- `Seqs`: the elements of a sequence, and `Gather`, the list a loop builds by appending one piece per element, with its membership and position facts.
- `Strings`: prefix, suffix and substring tests, ASCII lower-casing, `join`, and decimal rendering.

Time is an integer parameter `now` wherever the source reads the clock.

## Model

| member | source | states |
|---|---|---|
| Cache.Memory.constructor | kata/cache.py:67-68 | a new store is empty |
| Cache.Memory.Delete | kata/cache.py:70-71 | removes exactly the key; deleting an absent key changes nothing |
| Cache.Memory.DeleteMulti | kata/cache.py:73-75 | equals deleting each key in turn, and removes exactly the listed keys from the store |
| Cache.DeleteEachIsBulkDelete | kata/cache.py:73-75 | deleting the keys one by one equals removing the set of those keys at once |
| Cache.Memory.Get | kata/cache.py:77-84 | returns the stored value unless the entry is missing or its expiry has passed; an expired entry is removed and nothing else changes |
| Cache.Memory.GetMulti | kata/cache.py:86-87 | returns a list as long as the keys whose i-th element is what `get` of the i-th key reads; only expired entries among the keys are removed |
| Cache.EvictAll | kata/cache.py:79-82 | bulk eviction removes an entry exactly when it is among the keys and has expired, and keeps every other entry unchanged |
| Cache.EvictionUnobservable | kata/cache.py:79-84 | evicting expired entries never changes what `get` reads |
| Cache.EvictAllUnion | kata/cache.py:86-87 | evicting over two key sets in sequence equals evicting over their union |
| Cache.Memory.Set | kata/cache.py:89-90 | stores the value with absolute expiry `now + expire` when `expire` is truthy, and with none otherwise (the import the line lacks is supplied) |
| Cache.ReadYourWrite | kata/cache.py:77-90 | after a set without expiry, `get` returns the value at any later time |
| Cache.ExpiryWindow | kata/cache.py:79-90 | after a set with expiry `e`, `get` returns the value until `now + e` and `None` after it |
| Cache.DeleteForgets | kata/cache.py:70-84 | after `delete(k)`, `get(k)` is `None`; other keys read as before; deleting an absent key leaves the store equal |
| Cache.StoredNoneLooksAbsent | kata/cache.py:79-84 | a stored `None` reads exactly like an absent key |
| Cache.SetTouchesOneKey | kata/cache.py:89-90 | writing one key changes what no other key reads |
| Cache.Memory.SetMulti | kata/cache.py:92-94 | every key of the map is stamped with its value and the shared expiry; unmentioned keys are untouched |
| Cache.SetEachIsSetAll | kata/cache.py:92-94 | setting distinct pairs one at a time equals the bulk update with the map they form |
| Cache.PairsMap | kata/cache.py:92-94 | distinct pairs form a map with exactly their keys, each mapped to its own value |
| Cache.PairsMapCons | kata/cache.py:92-94 | the map of a sequence of pairs is the map of its tail updated with its head |
| Cache.SetAllExtend | kata/cache.py:92-94 | a bulk update with one more pair equals the bulk update followed by a single set of that pair |
| Cache.SetAllOver | kata/cache.py:92-94 | writing a key the bulk update does not mention commutes with the bulk update |
| Cache.SetAsWritten | kata/cache.py:89-90 | as written, `set` fails exactly when `expire` is truthy and otherwise stores the value with no expiry |
| Cache.ExpiringSetRaisesAsWritten | kata/cache.py:89-90 | as written, `set` with `expire=3600` (what every container passes) fails |
| Cache.RedisNamespace.Key | kata/cache.py:108-109 | the key is the prefix followed by the caller's key |
| Cache.RedisKeyInjective | kata/cache.py:108-109 | two keys under one prefix collide only if the caller's keys are equal |
| Cache.RedisNamespacesIsolated | kata/cache.py:97-109 | namespaces whose prefixes are not prefixes of one another never share a key |
| Container.DataSource.Pull | kata/container.py:99-100 | stands for a subclass's `pull`: answers with the source's function and logs exactly one request |
| Container.Simple.constructor | kata/container.py:68-70 | binds the store, the key and the source |
| Container.Simple.Dirty | kata/container.py:78-79 | removes exactly the container's key |
| Container.SimpleGet | kata/container.py:84-94 | `pull` is asked exactly when the key misses; a hit returns the cached value and leaves the store alone; a miss returns the answer, which `get` then reads back |
| Container.Simple.Get | kata/container.py:84-94 | reads through the cache; `pull` is logged once exactly when the key missed; the store and the result are those of the `get` step |
| Container.Simple.Refresh | kata/container.py:102-104 | is `dirty` then `get`: `pull` is logged exactly once |
| Container.SimpleHitSkipsPull | kata/container.py:84-88 | a cached non-`None` value is returned without calling `pull` and without changing the store |
| Container.SimpleMissPullsOnce | kata/container.py:81-94 | a miss calls `pull` and returns its answer; a non-`None` answer stays readable for `expire()` = 3600 seconds; a `None` answer leaves nothing readable |
| Container.SimpleGetTouchesOneKey | kata/container.py:84-94 | `get` changes what no other key reads |
| Container.SimpleSecondGetHits | kata/container.py:84-94 | a second `get` within `expire()` seconds of a miss hits and does not call `pull` |
| Container.SimpleDirtyForcesPull | kata/container.py:78-90 | after `dirty`, the next `get` calls `pull` |
| Container.SimpleExpiryForcesPull | kata/container.py:81-90 | once `expire()` seconds have passed after a miss, `get` calls `pull` again |
| Container.SimpleRefreshRepopulates | kata/container.py:102-104 | `refresh` always calls `pull` and leaves the key readable whenever `pull` answered a value |
| Container.Attribute.constructor | kata/container.py:2-4 | binds the store, an injective key function and the source |
| Container.Attribute.Dirty | kata/container.py:12-18 | a scalar is treated as a singleton and duplicates collapse; exactly the keys of the given items are deleted, nothing else |
| Container.Attribute.Get | kata/container.py:23-55 | with no misses, `pull` is not called; otherwise `pull` is called once with exactly the distinct missed items. The store gains every pulled pair with `expire()`, the result is the pull map overlaid with the cached hits, and `one` yields a value of that map or an `IndexError` when it is empty |
| Container.AttributeData | kata/container.py:33-45 | after a miss every pulled pair is stored under its item's key with `expire()`; every other entry is an old one, unchanged; only expired entries of requested keys disappear |
| Container.AttributeValues | kata/container.py:37-50 | every cached requested item maps to its cached value; any other item in the answer was pulled, after a miss, and carries the pulled value |
| Container.KeyList | kata/container.py:33 | the bulk-read key list has the i-th item's key at position i |
| Container.KeyListIsKeysOf | kata/container.py:33-34 | the bulk-read keys are exactly the keys of the requested items |
| Container.Keyed | kata/container.py:45 | the `set_multi` map holds exactly the pulled items' keys, each with its pulled value |
| Container.KeysOfInjective | kata/container.py:12-18 | with an injective key function, an item's key is among the keys of a set exactly when the item is in the set |
| Container.MissesAreMissSet | kata/container.py:34-36 | the items collected while scanning the bulk reply are exactly the distinct requested items whose cached value is `None` |
| Container.HitMapIsHits | kata/container.py:38-50 | the hits collected from the bulk reply are exactly the requested items with a non-`None` cached value |
| Container.ListOf | kata/container.py:28-32 | lists each element of the requested set exactly once |
| Container.MergeHits | kata/container.py:47-50 | the merge loop yields the pulled map overlaid with every cached hit |
| Container.Pick | kata/container.py:39-55 | `one` returns a value of the map, or fails with `IndexError` exactly when the map is empty; otherwise the whole map |
| Container.FullHitReturnsCached | kata/container.py:37-41 | when every requested item is cached, the store is unchanged and the answer maps each requested item to its cached value |
| Container.MergePrefersCache | kata/container.py:47-50 | after a pull, a cached non-`None` value wins over the pulled one; other requested items carry the pulled value; items absent from both are omitted |
| Container.PulledPairsCached | kata/container.py:43-45 | every pulled pair is readable under its item's key for `expire()` seconds |
| Container.SecondGetSkipsPull | kata/container.py:28-45 | when `pull` answered a value for every miss, the same request right after has no misses |
| Container.SelectiveDirty | kata/container.py:12-36 | after `dirty`, the dirtied requested items miss in addition to the old misses, and every other item reads as before |
| Container.PartialHitPullsOnlyMisses | kata/container.py:28-36 | with 1, 2, 3 cached and 4 not, requesting 1, 2, 4 misses exactly 4 |
| Schema.IndexString | kata/schema.py:61-68 | starts with `CREATE UNIQUE INDEX ` exactly when unique; is `CREATE [UNIQUE ]INDEX <index> ON <table> USING btree (`, then the columns joined by `, `, then `)`, and nothing more |
| Schema.UniqueOpening | kata/schema.py:62-66 | the opening of a unique index starts with `CREATE UNIQUE INDEX `; that of any other index has `I` where `UNIQUE` would begin |
| Schema.TypeString | kata/schema.py:12-14 | the type text starts with the data type and gains `(<length>)` exactly when the lower-cased type contains `character` |
| Schema.AlterTableStringAsWritten | kata/schema.py:11-44 | the builder exactly as written (see Findings) |
| Schema.AlterTableString | kata/schema.py:11-44 | the corrected builder writes what the source writes when creating a column not declared `NOT NULL`; when altering, it writes the same exactly when the default is falsy |
| Schema.NullableIgnoredAsWritten | kata/schema.py:20-44 | as written, the output does not depend on `nullable` at all |
| Schema.NotNullDroppedAsWritten | kata/schema.py:20-36 | as written, `nullable='NO'` creates the column exactly as the corrected builder would without `NOT NULL` |
| Schema.DefaultAlwaysDoubledAsWritten | kata/schema.py:16-42 | as written, any truthy default yields ` SET DEFAULT DEFAULT ` |
| Schema.NotNullEmitted | kata/schema.py:20-36 | the corrected builder puts `NOT NULL` into the `ADD COLUMN` statement when `nullable='NO'` |
| Schema.DefaultSetOnce | kata/schema.py:41-42 | the corrected builder ends with ` SET DEFAULT <default> ;` |
| Schema.AddColumnShape | kata/schema.py:28-36 | with either builder and `create`, the result is one `ALTER TABLE t ADD COLUMN c …` statement ending in ` ;` |
| Schema.AlterColumnShape | kata/schema.py:38-44 | with either builder and without `create`, the TYPE clause comes first exactly when the type is not `bigserial`, and the result is empty exactly when the type is `bigserial` and the default is falsy; a falsy default adds no `SET DEFAULT` statement, leaving the TYPE statement alone |
| Schema.AlterTextShape | kata/schema.py:38-44 | for any type text and any `SET DEFAULT` statement or none, the TYPE clause leads exactly for non-`bigserial` types and the text is empty exactly when neither clause is present |
| Schema.ContainsMiddle | kata/schema.py:42 | a text contains whatever is placed in its middle |
| Schema.FirstWith | kata/schema.py:123-134 | finds the first column with the role (`id`, or a name ending in `dt`), and none exists when it finds none |
| Schema.FirstWithUnique | kata/schema.py:123-134 | a column with the role preceded by none is the one found |
| Schema.ToFront | kata/schema.py:125-126 | pop at i then insert at 0 permutes the columns, with the chosen one first and the others in order |
| Schema.ToSecond | kata/schema.py:132-133 | pop at k then insert at 1 permutes the columns, with the chosen one second and the first kept when k ≥ 1 |
| Schema.FirstDtAfterIdFirst | kata/schema.py:123-134 | moving `id` first keeps the first `dt` column the same one, after position 0 |
| Schema.ToFrontKeepsFirst | kata/schema.py:123-134 | moving a column without the role to the front shifts the first column with the role by at most one place and keeps it the first |
| Schema.ReorderedNames | kata/schema.py:122-134 | reordering is a permutation of the declared columns |
| Schema.ReorderedIdFirst | kata/schema.py:122-127 | if `id` is declared, it comes first |
| Schema.ReorderedDtSecond | kata/schema.py:129-134 | the first declared `dt` column comes second |
| Schema.MoveIdFirst | kata/schema.py:123-127 | the `id` loop yields the `id`-first order |
| Schema.MoveDtSecond | kata/schema.py:130-134 | the `dt` loop yields the `dt`-second order |
| Schema.ReorderColumns | kata/schema.py:122-134 | both loops together yield the reordered columns |
| Schema.DeclaredNames | kata/schema.py:115-120 | collects exactly the declared column names |
| Schema.Handle | kata/schema.py:75-77 | a statement is emitted exactly when it is not empty |
| Schema.Differs | kata/schema.py:143-147 | without a `nullable` declaration a column differs exactly when its type, length or default does; as the database reports `is_nullable` as `YES` or `NO`, both truthy, a column declared `nullable: NO` always differs |
| Schema.AlterOneMeaning | kata/schema.py:141-156 | every statement one existing column yields is the non-empty alteration text of a declaration with its name that differs from it, and every such declaration with a non-empty text yields its statement |
| Schema.AlterOneAbsent | kata/schema.py:141-142 | an existing column that no declaration names yields no statement |
| Schema.AlterOneMatch | kata/schema.py:141-156 | with distinct declared names, an existing column yields its declaration's alteration text when it differs, and nothing otherwise |
| Schema.AlterStatementsSound | kata/schema.py:137-156 | every alteration of the table is non-empty and is the alteration text of a declaration for an existing column with its name that differs from it |
| Schema.AlterStatementsComplete | kata/schema.py:137-156 | every existing column and declaration with its name that differs from it, with a non-empty text, puts that text among the alterations |
| Schema.AlterOneLoop | kata/schema.py:141-156 | the inner loop yields only non-empty alteration texts of differing declarations with the column's name, and each of them |
| Schema.AlterLoop | kata/schema.py:137-156 | the outer loop yields only non-empty alteration texts of differing (existing, declared) pairs with one name, and each such text; it collects the existing names |
| Schema.DropStatements | kata/schema.py:160-161 | one `DROP COLUMN` statement per dropped column, in order |
| Schema.DropLoop | kata/schema.py:158-161 | drops each unused column exactly once |
| Schema.Kept | kata/schema.py:163-166 | keeps, in reordered order, exactly the columns whose names are missing |
| Schema.AddStatementsOnePerColumn | kata/schema.py:163-177 | one statement per missing column, in order: the chosen builder's `ADD COLUMN` text for it |
| Schema.AddLoop | kata/schema.py:163-177 | the add loop yields the chosen builder's `ADD COLUMN` statements for exactly the missing columns, in reordered order |
| Schema.PlanColumns | kata/schema.py:110-177 | with the chosen builder: `CREATE TABLE` only for a table with no columns, then the alter statements, then a drop for each column in existing − declared, then an add for each column in declared − existing, in reordered order |
| Schema.AddedAreMissing | kata/schema.py:163-177 | the added columns are exactly declared − existing, one statement each |
| Schema.UpToDateIndexesKept | kata/schema.py:197-212 | when every declared existing index already has its rebuilt definition, no index is rebuilt |
| Schema.RebuildSound | kata/schema.py:197-212 | every rebuild statement drops or recreates an existing index that is declared and whose rebuilt text differs from its definition |
| Schema.RebuildComplete | kata/schema.py:197-212 | each such outdated index is dropped by a statement immediately followed by its `CREATE` text |
| Schema.DropIndexStatements | kata/schema.py:216-217 | one `DROP INDEX` statement per unused index |
| Schema.CreateIndexStatements | kata/schema.py:220-228 | one `CREATE INDEX` statement per missing index, built from its declaration |
| Schema.ListOf | kata/schema.py:215-221 | lists each element of an index-name set exactly once |
| Schema.RebuildLoop | kata/schema.py:196-212 | yields the drop-and-recreate pairs for the changed indexes, and collects the existing index names |
| Schema.PlanIndexes | kata/schema.py:179-228 | indexes dropped are existing − declared and added are declared − existing, each once; changed indexes are dropped and recreated first |
| Page.HashAssets | kata/page.py:89-90 | the bundle name is md5 of the concatenated paths followed by `.<asset type>` |
| Page.HashSeesOnlyConcatenation | kata/page.py:89-90 | path lists with the same concatenation get the same bundle name |
| Page.AssetTagsOf | kata/page.py:59-80 | `''` exactly when there are no assets; otherwise at least one entry and no more entries than assets |
| Page.EachAssetPlacedOnce | kata/page.py:68-75 | every asset goes to exactly one of the kept entries and the bundle paths |
| Page.AssetTags | kata/page.py:59-80 | the loop yields `AssetTagsOf` for the mode's path directory; in debug mode that directory reaches no tag, since every local asset becomes `prefix + asset` and nothing is bundled |
| Page.Prefixed | kata/page.py:75 | each path gets the prefix, in order |
| Page.FiltersSnoc | kata/page.py:68-75 | splitting assets by `':'` distributes over appending one asset |
| Page.BuildModeSplitsAssets | kata/page.py:68-75 | in build mode the kept entries are the `':'` assets in order, and the bundle holds the prefixed build paths of the rest |
| Page.DebugModePrefixesAssets | kata/page.py:68-73 | in debug mode every asset keeps its place, prefixed unless it contains `':'`, and nothing goes to the bundle |
| Page.LocalsNonEmpty | kata/page.py:77 | some asset goes to the bundle exactly when some asset lacks `':'` |
| Page.NoAssetsBlank | kata/page.py:60-61 | no assets yields `''` |
| Page.DebugTags | kata/page.py:68-80 | in debug mode, whatever the path directory, the result has one entry per asset in place, `prefix + asset` unless the asset contains `':'`, and no bundle |
| Page.BuildTags | kata/page.py:68-80 | in build mode the `':'` assets come first, followed by exactly one bundle entry, present exactly when some asset lacks `':'` |
| Page.CssTag | kata/page.py:82-87 | the link opens with rel `stylesheet/less` exactly for `.less` paths and `stylesheet` otherwise, and ends with the path and the closing `" />` |
| Page.JsTag | kata/page.py:92-93 | the script tag is the fixed opening, the path and the fixed closing, and nothing more |
| Page.LessTagRoundTrip | kata/page.py:82-87 | a `.less` path gets rel `stylesheet/less` and the path reads back from the tag |
| Page.CssTagRoundTrip | kata/page.py:82-87 | any other path gets rel `stylesheet` and the path reads back from the tag |
| Page.JsTagRoundTrip | kata/page.py:92-93 | the script `src` reads back as the path, verbatim |

## Left out

- Memcached, the Redis network methods and the pickle codec (kata/cache.py:1-13, 34-64, 111-151) are foreign calls to network stores. Only `Redis._key` is modelled.
- The `_Cache` interface (kata/cache.py:15-32) only raises `NotImplementedError`; `Memory` is modelled directly as the store the containers use.
- `initialize` and the module-level `_cache`/`_database` globals are configuration plumbing. The store is passed to each container.
- Memory clock: `time.time()` floats become an integer `now` parameter. Expiries are whole seconds.
- `expire()` is fixed at 3600, the only definition in the source.
- Container.Attribute.Get: with `one`, the source returns the first value in dict insertion order. The model promises some value of the map; insertion order is not modelled.
- Container.Pick: with `one`, `list(result.values())[0]` returns the first value in dict insertion order. `Pick` promises some value of the map; insertion order is not modelled.
- Container.Attribute.Get: iterating a Python `set` has no defined order, so the order of the bulk key list and of the `pull` argument is an arbitrary listing of the set.
- Container.Attribute.Get: the key function is required to be injective. With a colliding key function the source's `set_multi` dict silently keeps one of the values.
- Container.Simple.Get: `pull` and `key` are oracles, so a source that answers differently on the second call is not modelled.
- The default `Attribute.pull` (kata/container.py:60-62) delegates to the database (`db.get_in`). It is replaced by the `DataSource` oracle.
- Dependency cascades: the source has no `dependencies()` method and no cascading dirty, so none is modelled.
- `get_multi` returns a positional list, as `Attribute.get` expects.
- Schema I/O: yaml loading, `os.listdir`, `kata.db.query`, `print` and `kata.db.execute` inside `apply` are left out. The planner returns the statements that would be handed on. `_dump`, `create_database` and `drop_entire_database_and_lose_all_data` shell out and are left out.
- Schema.TypeString: `lower()` is modelled on ASCII letters only; Unicode case mapping is not modelled.
- Schema.TypeString: a missing `type` (where `None.lower()` raises) is not modelled; the data type is a string.
- Schema.TypeString: a column with no `length` renders it as `None`, as `'%s' % None` does.
- Schema.DefaultString: YAML defaults are strings here; numeric defaults rendered by `%s` are not modelled separately.
- Cache.RedisNamespace.Key: keys are strings, so the `str(key)` conversion of non-string keys at kata/cache.py:109 is not modelled.
- Schema.PlanIndexes: the rebinding of `table` to the index row's table name at kata/schema.py:198 is modelled as the row belonging to the same table, which the query guarantees.
- Page: `Page.get` templating and `_register_assets` are left out; the latter refers to an undefined `_asset_registry`.
- Page.AssetTags: `kata.config.data` is read from parameters `debug`, `prefix`, `srcPrefix` and `buildPrefix`.
- Page.HashAssets: md5 is an uninterpreted function parameter, and UTF-8 encoding is folded into it.
- Framework plumbing (HTTP resources, Sentry, statsd, webpack, gunicorn, config, routing) and `kata/db.py` are not part of this model.

## Findings

| source | as written | input that shows it | evidently intended | confidence | as-written member | corrected member |
|---|---|---|---|---|---|---|
| kata/cache.py:90 | `Memory.set` calls `time.time()`, but `cache.py` never imports `time`, so a truthy `expire` raises `NameError` | `Memory().set('k', 1, expire=3600)`, which every container write does | store absolute expiry `time.time() + expire` | not executed | Cache.ExpiringSetRaisesAsWritten | Cache.Memory.Set |
| kata/schema.py:20-22 | `'NOT NULL'` is appended to `nullable`, not `nullable_string`, so it never reaches the statement | `_alter_table_string('t', 'c', 'text', None, None, 'NO', create=True)` yields no `NOT NULL` | `nullable_string += 'NOT NULL'` | not executed | Schema.NotNullDroppedAsWritten | Schema.NotNullEmitted |
| kata/schema.py:42 | `default_string` already holds `'DEFAULT x'` and is put after `SET DEFAULT` | `_alter_table_string('t', 'c', 'text', None, 'x', None)` yields `… SET DEFAULT DEFAULT x ;` | `SET DEFAULT x` | not executed | Schema.DefaultAlwaysDoubledAsWritten | Schema.DefaultSetOnce |
