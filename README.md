# infogami in Dafny

A model of the core of infogami, a structured wiki engine in Python, and of Infobase, the
database layer under it. Infobase stores *things*: JSON-like dictionaries with a key, a type
and a revision history. It answers queries over them, records every write in a transaction
log, and serves all of this over HTTP to the wiki. The model covers these parts:

- Infobase:
  - the LRU and thing caches;
  - the per-request cache layers;
  - the common datatypes and their JSON tagging;
  - the read-query and write-query compilers;
  - permissions;
  - the bulk uploader;
  - the SQL store's key, schema, index, save and read logic (tables as maps);
  - accounts;
  - the transaction logger and log reader;
  - the JSON store and sequences;
  - the client's request shaping, the server's argument handling, and the bootstrap
    objects.
- The older tdb layer: its log format and its thing objects.
- The wiki core:
  - template helpers;
  - `thingutil` data defaults;
  - page actions in `core/code.py`;
  - diffs and database upgrades;
  - storage dictionaries, the i18n strings, feature flags, flash messages, and the request
    path rules of `app.py`.
- The plugins:
  - i18n;
  - the JSON API;
  - wiki templates;
  - pushing and pulling pages;
  - backlinks.

Each Dafny module models one source file; its name is given in the module's doc comment.

Python dictionaries become either Dafny maps or association lists (`seq<(string, V)>`). An
association list is used wherever the source depends on insertion order or nesting.
Exceptions become `Result`/`Option` values carrying the exception's text. Objects whose
fields the source updates in place become classes whose methods state their whole new
state. Several modules take I/O, the database connection, randomness, the clock, regular
expressions and library routines (`difflib`, `os.path.normpath`) as function parameters.

## Model

| member | source | states |
|---|---|---|
| `Lru.Queue.constructor` | infogami/infobase/lru.py:50-54 | a new queue is empty: its sentinel links to itself |
| `Lru.Queue.Clear` | infogami/infobase/lru.py:56-57 | the queue is empty afterwards |
| `Lru.Queue.Insert` | infogami/infobase/lru.py:59-64 | the node goes at the tail: the new order is the old one plus the node, and only links change |
| `Lru.Queue.Peek` | infogami/infobase/lru.py:66-70 | the head node; "Queue is empty" on an empty queue |
| `Lru.Queue.Unlink` | infogami/infobase/lru.py:77-78 | joining the neighbours removes exactly that position from the order; the node keeps its own links |
| `Lru.Queue.Remove` | infogami/infobase/lru.py:72-79 | removes the given node, or the head when none is given, and the others keep their order; an empty queue raises "Queue is empty" and is unchanged |
| `Lru.Queue.List` | infogami/infobase/lru.py:86-90 | walking the `next` links from the sentinel gives exactly the queue's nodes in order |
| `Lru.SetSpecWellFormed` | infogami/infobase/lru.py:182-185 | after any set, every key appears once and the cache holds at most `capacity` keys |
| `Lru.SetEvictsLeastRecent` | infogami/infobase/lru.py:159-163 | setting a new key into a full cache evicts exactly the least recently used key |
| `Lru.GetSpecMovesToEnd` | infogami/infobase/lru.py:169-173 | reading a key moves it to the most recently used end and changes no value |
| `Lru.DelSpecWellFormed` | infogami/infobase/lru.py:187-192 | after a delete the cache stays well formed and the key is gone |
| `Lru.DelAbsent` | infogami/infobase/lru.py:194-199 | `delete` of a missing key changes nothing |
| `Lru.DelManyClosedForm` | infogami/infobase/lru.py:201-205 | deleting keys one by one removes all of them from the order and from the values |
| `Lru.DoctestOrdering` | infogami/infobase/lru.py:120-136 | the orderings of the class doctest for capacity 3: [1,3,2], [3,2,1], [2,1,4], [2,4], [4,2] |
| `Lru.LRU.constructor` | infogami/infobase/lru.py:139-142 | a new cache is empty and has the given capacity |
| `Lru.LRU.Contains` | infogami/infobase/lru.py:165-167 | true exactly when the key is cached |
| `Lru.LRU.RemoveNode` | infogami/infobase/lru.py:225-229 | removes the given key, or the least recently used one, from both the order and the values; an empty queue raises "Queue is empty" |
| `Lru.LRU.Touch` | infogami/infobase/lru.py:153-157 | the key moves to the most recently used end |
| `Lru.LRU.Prune` | infogami/infobase/lru.py:159-163 | keeps exactly the `capacity` most recently used keys and their values |
| `Lru.LRU.GetItem` | infogami/infobase/lru.py:169-173 | the cached value, with the key moved to the most recently used end; KeyError and no change for a missing key |
| `Lru.LRU.Get` | infogami/infobase/lru.py:175-180 | the value, or `default` for a missing key; a hit is touched |
| `Lru.LRU.Store` | infogami/infobase/lru.py:144-151 | `getnode(key).value = v`: the key is created or moved to the end and holds `v` |
| `Lru.LRU.SetItem` | infogami/infobase/lru.py:182-185 | the new state is the abstract set: store at the most recently used end, then evict from the front down to `capacity` |
| `Lru.LRU.DelItem` | infogami/infobase/lru.py:187-192 | removes a cached key; KeyError and no change for a missing one |
| `Lru.LRU.Delete` | infogami/infobase/lru.py:194-199 | removes the key when cached and ignores it otherwise |
| `Lru.LRU.DeleteMany` | infogami/infobase/lru.py:201-205 | removes every listed key from the order and the values, leaving the rest in order |
| `Lru.LRU.Update` | infogami/infobase/lru.py:207-210 | sets each pair in turn, equal to folding the abstract set over the items |
| `Lru.LRU.Keys` | infogami/infobase/lru.py:212-214 | every cached key exactly once |
| `Lru.LRU.Items` | infogami/infobase/lru.py:216-218 | exactly the cached (key, value) pairs, one per key |
| `Lru.LRU.Clear` | infogami/infobase/lru.py:220-223 | empties both the values and the order |
| `Lru.Memoized` | infogami/infobase/lru.py:238-250 | the result is `f(a)` and every cached entry is `f` of its key; with capacity 0 a fresh argument raises KeyError |
| `Lru.ThingCache.constructor` | infogami/infobase/lru.py:256-258 | an empty cache with an empty `key2id` |
| `Lru.ThingCache.Contains` | infogami/infobase/lru.py:260-264 | a (site id, key) pair is looked up in `key2id`, an id among the cached ids |
| `Lru.ThingCache.IdOf` | infogami/infobase/lru.py:266-269 | a pair resolves through `key2id`, with KeyError when it is unknown; an id stands for itself |
| `Lru.ThingCache.GetItem` | infogami/infobase/lru.py:266-269 | the thing under the resolved id, touched; KeyError otherwise |
| `Lru.ThingCache.Get` | infogami/infobase/lru.py:271-275 | the thing when the key is in the cache, otherwise None whatever default is passed |
| `Lru.ThingCache.RemoveNode` | infogami/infobase/lru.py:288-294 | the LRU removal, then deletion of the removed thing's `key2id` entry; KeyError when it is missing |
| `Lru.ThingCache.Prune` | infogami/infobase/lru.py:159-163 | evicts the least recently used things and deletes their `key2id` entries, one by one |
| `Lru.ThingCache.SetItem` | infogami/infobase/lru.py:277-281 | stores under `thing.id` whatever key is passed, evicts as the LRU does, and maps (site id, key) to the id |
| `Lru.ThingCache.DelItem` | infogami/infobase/lru.py:283-286 | resolves the key and removes that thing and its `key2id` entry; KeyError for unknown keys |
| `Lru.ThingCache.Clear` | infogami/infobase/lru.py:296-298 | empties the cache and `key2id` |
| `Lru.UnmapErrExtends` | infogami/infobase/lru.py:288-294 | once deleting an evicted thing's `key2id` entry fails, the longer eviction fails too |
| `InfobaseCache.CreateCache` | infogami/infobase/cache.py:83-85 | the registered class for a known type, `NoneDict` for any other |
| `InfobaseCache.CreateCacheDefaults` | infogami/infobase/cache.py:76-85 | 'lru' gives the LRU class, 'memcache' the memcached class, anything else `NoneDict` |
| `InfobaseCache.NoneDict.GetItem` | infogami/infobase/cache.py:40-41 | every read is a KeyError |
| `InfobaseCache.Cache.constructor` | infogami/infobase/cache.py:87-88 | an empty special cache and an empty global LRU cache of capacity 200 |
| `InfobaseCache.Cache.LoadHook` | infogami/infobase/cache.py:90-93 | empties `new_objects`, `local_cache` and `locally_added` |
| `InfobaseCache.Cache.Merged` | infogami/infobase/cache.py:97-99 | the locally added objects overridden by the new objects, key by key |
| `InfobaseCache.Cache.UnloadHook` | infogami/infobase/cache.py:95-102 | nothing is set when there is nothing to push; otherwise the global cache is the LRU update with a listing of exactly the merged pairs |
| `InfobaseCache.Cache.GetItem` | infogami/infobase/cache.py:105-115 | the first truthy value among new objects, special and local cache, changing nothing; otherwise the global value, copied into the local cache and touched; KeyError when the global cache misses |
| `InfobaseCache.Cache.Get` | infogami/infobase/cache.py:117-121 | as `cache[key]` with `default` in place of the KeyError, with the same new local and global state |
| `InfobaseCache.Cache.Contains` | infogami/infobase/cache.py:123-142 | true exactly when some layer hits, with the lookup's effect on the local and global caches |
| `InfobaseCache.Cache.SetItem` | infogami/infobase/cache.py:144-146 | writes go to the local cache and to `locally_added` only |
| `InfobaseCache.Cache.Clear` | infogami/infobase/cache.py:148-156 | the request maps are emptied; the global cache is emptied only when not `local` |
| `InfobaseCache.NewObjectsWin` | infogami/infobase/cache.py:107-109 | a truthy object created in this request hides every other layer |
| `InfobaseCache.FalsyFallsThrough` | infogami/infobase/cache.py:107-109 | a falsy value falls through to the next layer |
| `Common.Type2Datatype` | infogami/infobase/common.py:40-60 | a primitive type key gives its own tag from the table, never 'ref'; any other type gives 'ref' |
| `Common.Datatype2Type` | infogami/infobase/common.py:50-63 | a returned type is a primitive type whose tag is the given one; None exactly for tags not in the table |
| `Common.DatatypeRoundTrip` | infogami/infobase/common.py:40-63 | `datatype2type(type2datatype(t)) == t` exactly for the primitive types; every other type maps to None |
| `Common.Unthing` | infogami/infobase/common.py:98-100 | a thing becomes its key |
| `Common.Thing.constructor` | infogami/infobase/common.py:73-77 | the store, key, metadata and data are the ones given |
| `Common.Thing.GetValue` | infogami/infobase/common.py:79-88 | None for an absent name; the stored value for a non-ref datatype; a list of refs dereferenced element by element |
| `Common.Thing.Set` | infogami/infobase/common.py:97-107 | AttributeError exactly for a single 'ref' value that is not a thing (data untouched); otherwise only `name` changes, to `(datatype, stored form)` |
| `Common.Thing.Contains` | infogami/infobase/common.py:109-110 | true exactly for 'key', a metadata name or a data name |
| `Common.RefStoresKeys` | infogami/infobase/common.py:97-107 | a list of things set as 'ref' is stored as the list of their keys |
| `Common.ToJson` | infogami/infobase/common.py:123-132 | the JSON dictionary has exactly the data's keys, in order |
| `Common.FromJsonValue` | infogami/infobase/common.py:137-150 | booleans tagged 'boolean' (before int), ints 'int', floats 'float', non-dict others 'str'; an integer beyond Python 2's `sys.maxint` is a `long`, which the `int` test rejects, so it is 'str' too |
| `Common.FromJson` | infogami/infobase/common.py:134-151 | on success the tagged data has exactly the JSON keys, in order |
| `Common.RoundTripValue` | infogami/infobase/common.py:123-151 | one well-typed `(datatype, value)` survives `to_json` then `from_json`, a 'key' and an 'int' beyond `sys.maxint` (a `long` once decoded) coming back as 'str' |
| `Common.RoundTrip` | infogami/infobase/common.py:123-151 | `from_json(to_json(thing))` gives back all the data of a well-typed thing, with 'key' and every `long` 'int' retagged as 'str' |
| `Common.Retagged` | infogami/infobase/common.py:137-150 | same length; each entry keeps its key and value, and only 'key' and a `long` 'int' become 'str' |
| `Common.Query.constructor` | infogami/infobase/common.py:262-266 | the query holds the given conditions |
| `Common.Query.AddCondition` | infogami/infobase/common.py:276-277 | the new condition is appended after the earlier ones, which are unchanged |
| `Common.FirstType` | infogami/infobase/common.py:268-274 | None exactly when no condition is on 'type'; otherwise the value of the first condition on 'type' |
| `Common.GetTypeAfterAdd` | infogami/infobase/common.py:250-260 | adding a condition keeps a type already found, and a first 'type' condition sets it |
| `Common.Repr` | infogami/infobase/common.py:332-333 | the `repr` of an atom: None, True or False, the decimal integer (it reads back as the same integer; a `long` beyond `sys.maxint` has a trailing 'L'), Python 2's escaped and quoted string (it reads back as the same text), `<text: u'…'>` and `<ref: u'…'>` for `Text` and `Reference`; floats by the given function |
| `Common.QuoteFor` | infogami/infobase/common.py:333 | `repr` quotes with `"` exactly when the text holds `'` and no `"`, and with `'` otherwise |
| `Common.ReprRoundTrip` | infogami/infobase/core.py:73-81 | a string's `repr` (with the `u` prefix for unicode) starts and ends with the same quote, undoing its escapes gives back the text, and all of it is printable ASCII |
| `Common.EscapeCharPrintable` | infogami/infobase/common.py:333 | every character's escape is printable ASCII, and a character is written as itself exactly when it is printable ASCII other than the quote and the backslash |
| `Common.EscapedPrintable` | infogami/infobase/common.py:333 | the escaped body of a string's `repr` is printable ASCII |
| `Common.EscapedRoundTrip` | infogami/infobase/common.py:333 | the escaped body of a string's `repr` unescapes to the string, for either quote |
| `Common.HexRoundTrip` | infogami/infobase/common.py:333 | the fixed-width hex digits of a character code read back as that code |
| `Common.ReprPlain` | infogami/infobase/common.py:333 | a text of printable ASCII without `'` or backslash is shown as itself between single quotes (after `u` for unicode) |
| `Common.Prepr` | infogami/infobase/common.py:319-333 | lists inline, dicts one entry per line at a deeper indent in sorted key order; what it promises is stated by `Common.PreprAll`, `Common.PreprEntries` and `Common.PreprOrderFree` |
| `Common.PreprAll` | infogami/infobase/common.py:321-322 | one rendering per list element |
| `Common.PreprEntries` | infogami/infobase/common.py:325-331 | one line per key, in the order of the sorted keys |
| `Common.PreprOrderFree` | infogami/infobase/common.py:325-331 | two dictionaries with the same entries print the same whatever their insertion order, because the keys are sorted |
| `Common.SameSortedKeys` | infogami/infobase/common.py:330 | dictionaries with the same entries have the same sorted key list |
| `InfobaseCore.ClassStatus` | infogami/infobase/core.py:11-60 | the class status of each exception: 500 for the base, 404 for the two not-found kinds, 403, 400, 409 |
| `InfobaseCore.Init` | infogami/infobase/core.py:14-18 | a `status` keyword overrides the class status and is removed from the data; 'error' is always present |
| `InfobaseCore.Raise` | infogami/infobase/core.py:27-60 | a subclass that passes its own `error` together with a caller's `error` is a TypeError; NotFound keeps a caller's error, else 'notfound'; the status rule of `__init__` holds |
| `InfobaseCore.RaiseTypeMismatch` | infogami/infobase/core.py:63-67 | a caller's `message` or `error` is a TypeError; otherwise a BadData whose message names the expected and the found type |
| `InfobaseCore.Process` | infogami/infobase/core.py:90-99 | a reference becomes the thing it names; lists and dicts are processed element by element with their lengths kept |
| `InfobaseCore.ProcessUnread` | infogami/infobase/core.py:90-99 | processing loses nothing: reading the references back out gives the raw value |
| `InfobaseCore.ProcessRefFree` | infogami/infobase/core.py:90-99 | a value without references reads the same whatever the store |
| `InfobaseCore.Thing.constructor` | infogami/infobase/core.py:85-88 | the store, key and data are the ones given |
| `InfobaseCore.Thing.Contains` | infogami/infobase/core.py:101-102 | true exactly for the keys of the raw data |
| `InfobaseCore.Thing.GetItem` | infogami/infobase/core.py:104-105 | KeyError exactly for an absent name; otherwise the processed raw value |
| `InfobaseCore.Thing.GetOr` | infogami/infobase/core.py:122-126 | the default for an absent name; otherwise the processed raw value |
| `InfobaseCore.Thing.SetItem` | infogami/infobase/core.py:107-108 | the name now holds the value and every other name reads as before |
| `InfobaseCore.Thing.Copy` | infogami/infobase/core.py:131-132 | a fresh thing, equal to this one (same key and data), over the same store |
| `InfobaseCore.Thing.GetData` | infogami/infobase/core.py:134-135 | every name reads as in the thing's data |
| `InfobaseCore.Thing.GetProperty` | infogami/infobase/core.py:142-145 | a property named `name` when one exists; None exactly when none of the properties has that name |
| `InfobaseCore.FirstNamed` | infogami/infobase/core.py:143-145 | a result is one of the properties and has the name; None only when none has it |
| `InfobaseCore.FirstNamedIsFirst` | infogami/infobase/core.py:143-145 | the first property with the name wins over later ones |
| `DbStore.FormatKey` | infogami/infobase/dbstore.py:129 | a key exactly when the pattern has one `%d` and no other `%`; the key is the pattern with the number spelled in place of `%d` |
| `DbStore.FormatKeyInjective` | infogami/infobase/dbstore.py:123-131 | different sequence values give different keys |
| `DbStore.FirstFree` | infogami/infobase/dbstore.py:127-131 | a key found is free and comes from the first drawn value whose key is free; every earlier key exists; a bad pattern fails at the first draw |
| `DbStore.NewKey` | infogami/infobase/dbstore.py:122-133 | without a sequence the store's default key; with one, the loop ends exactly as the first-free specification says |
| `DbStore.FindDatatypeAsWritten` | infogami/infobase/dbstore.py:191-203 | an int or a float is filed as 'str', since the tests look at the literal 'value' |
| `DbStore.FindDatatype` | infogami/infobase/dbstore.py:191-203 | ints are 'int' and floats 'float'; a `long` beyond `sys.maxint` fails the `int` test and, like every other value, is filed as the written code files it |
| `DbStore.FindDatatypeNumbers` | infogami/infobase/dbstore.py:198-201 | for every int within `sys.maxint` and every float, the written code and the corrected one disagree |
| `DbStore.FindDatatypeAgreesWithQueries` | infogami/infobase/dbstore.py:191-203 | the corrected datatype of an int within `sys.maxint`, a float, a boolean or a reference is the one the query side looks for |
| `DbStore.Stored` | infogami/infobase/dbstore.py:213-217 | no stored value is a boolean or a reference; a boolean becomes "t" or "f"; other atoms are stored as they are |
| `DbStore.Actions` | infogami/infobase/dbstore.py:205-221 | every row is named at or below the property name and holds an atom; an atom gives at most one row, only when a table exists |
| `DbStore.ActionsListOfAtoms` | infogami/infobase/dbstore.py:206-208 | a list of atoms whose tables all exist gives one row per element, in order, with its index as ordering |
| `DbStore.HeadUnder` | infogami/infobase/dbstore.py:210-211 | a row under a top-level name without '.' starts with exactly that name |
| `DbStore.UnderDistinct` | infogami/infobase/dbstore.py:210-211 | rows of different top-level names never coincide |
| `DbStore.Strip` | infogami/infobase/dbstore.py:232-234 | the bookkeeping keys are removed and every other entry kept |
| `DbStore.OldType` | infogami/infobase/dbstore.py:229 | a KeyError exactly when the old data is non-empty and has no type |
| `DbStore.NewType` | infogami/infobase/dbstore.py:230 | a KeyError exactly when the new data has no type |
| `DbStore.KeyRows` | infogami/infobase/dbstore.py:241-245 | every row belongs to one of the given keys |
| `DbStore.UpdateTablesAsWritten` | infogami/infobase/dbstore.py:229-245 | fails exactly when a type is missing |
| `DbStore.UpdateTablesAsWrittenLosesRows` | infogami/infobase/dbstore.py:236-245 | on a type change an unchanged 'title' row is deleted and never re-inserted, so it leaves the index of the new data |
| `DbStore.UpdateTables` | infogami/infobase/dbstore.py:229-245 | fails exactly when a type is missing; on a type change every old row is deleted and every new row inserted; deletes come from the old index and inserts from the new |
| `DbStore.UpdateTablesApplies` | infogami/infobase/dbstore.py:229-245 | deleting then inserting turns the old index into exactly the new one |
| `DbStore.ApplyUpdate` | infogami/infobase/dbstore.py:238-245 | the two loops over removed and added keys compute the corrected update |
| `DbStore.Gather` | infogami/infobase/dbstore.py:241-245 | the loop collects exactly the rows of the given keys |
| `Indexer.RowOf` | infogami/infobase/_dbstore/indexer.py:34-40 | a name ending in ".key" gives a 'ref' row under the name without the suffix; text gives 'str'; an int or bool gives 'int'; nothing else is indexed, a `long` beyond `sys.maxint` included |
| `Indexer.Rows` | infogami/infobase/_dbstore/indexer.py:28-40 | every indexed pair's row is present, and every row comes from an indexed pair |
| `Indexer.RowsOfPairs` | infogami/infobase/_dbstore/indexer.py:14-40 | a 'ref' row comes from a pair named with ".key" appended; 'str' and 'int' rows carry their pair, with a value of the matching kind |
| `Indexer.RowOfParts` | infogami/infobase/_dbstore/indexer.py:34-40 | the row of one pair names where it came from: the name (less ".key" for a ref) and the value |
| `Indexer.TypeKey` | infogami/infobase/_dbstore/indexer.py:56-57 | a document without 'type' has type None |
| `Indexer.DiffIndex` | infogami/infobase/_dbstore/indexer.py:42-69 | no old document: nothing deleted, the whole new index inserted; deletes come from the old index and inserts from the new; they are disjoint unless the type changed |
| `Indexer.DiffApplies` | infogami/infobase/_dbstore/indexer.py:42-69 | deleting then inserting the rows of the diff turns the old index into exactly the new one |
| `InfobaseLogger.MakeTimestamp` | infogami/infobase/logger.py:47 | a datetime built from the fields is a valid one |
| `InfobaseLogger.ToTimestampAsWritten` | infogami/infobase/logger.py:35-47 | a result is a valid datetime |
| `InfobaseLogger.ToTimestampAsWrittenRoundTrip` | infogami/infobase/logger.py:35-47 | `to_timestamp(t.isoformat()) == t` for every valid datetime with non-zero microseconds |
| `InfobaseLogger.ToTimestampAsWrittenRejectsWholeSeconds` | infogami/infobase/logger.py:43-47 | for every datetime with zero microseconds `to_timestamp(t.isoformat())` is a ValueError |
| `InfobaseLogger.ToTimestamp` | infogami/infobase/logger.py:35-47 | a result is a valid datetime, and it agrees with the written code wherever that succeeds |
| `InfobaseLogger.ToTimestampRoundTrip` | infogami/infobase/logger.py:35-40 | the corrected reading inverts `isoformat()` on every valid datetime |
| `InfobaseLogger.IsoNumbersParse` | infogami/infobase/logger.py:44-47 | the numerals cut out of `isoformat()` read back as the datetime's fields |
| `InfobaseLogger.Event.constructor` | infogami/infobase/core.py:251-266 | an event holds the site, name, timestamp, ip, user and data given |
| `InfobaseLogger.LogEntry` | infogami/infobase/logger.py:81-99 | an entry is logged exactly for write/save/save_many, register, update_user and "store." events; register becomes new_account and update_user update_account |
| `InfobaseLogger.LogEntryData` | infogami/infobase/logger.py:83-97 | the logged data is the event's data with 'ip' set, and 'author' as well for writes and saves; store events are logged unchanged |
| `InfobaseLogger.PathJoin` | infogami/infobase/logger.py:79 | a '/' is put between the parts unless the first is empty or already ends with one |
| `InfobaseLogger.LogPath` | infogami/infobase/logger.py:76-79 | the file of a day ends with the logger's extension |
| `InfobaseLogger.Logger.constructor` | infogami/infobase/logger.py:66-74 | ".log.gz" when compressing, ".log" otherwise; nothing written yet |
| `InfobaseLogger.Logger.GetPath` | infogami/infobase/logger.py:76-79 | the file of the timestamp's day, or of today's when none is given |
| `InfobaseLogger.Logger.Write` | infogami/infobase/logger.py:103-115 | exactly one record, for the file of the timestamp's day, is appended |
| `InfobaseLogger.Logger.Call` | infogami/infobase/logger.py:81-101 | the event gets a timestamp when it had none; its data is not changed; a record is written exactly when the event is logged, with the logged action and data |
| `LogReader.NextDay` | infogami/infobase/logreader.py:16-17 | the valid date one ordinal later; OverflowError exactly on the last representable day |
| `LogReader.NextDayUnique` | infogami/infobase/logreader.py:16-17 | the next day is the only valid date one ordinal later |
| `LogReader.NextDayExamples` | infogami/infobase/logreader.py:16-17 | stepping within a month and across a month's end |
| `LogReader.DateRange` | infogami/infobase/logreader.py:19-31 | no days when the begin is after the end; otherwise every day from begin to end, consecutive, with the overflow flag exactly when the end is the last day |
| `LogReader.DateRangeMembers` | infogami/infobase/logreader.py:19-31 | a day is in the range exactly when it lies between the bounds, at its ordinal distance from the begin |
| `LogReader.DateRangeStep` | infogami/infobase/logreader.py:29-31 | the range is the first day followed by the range from the next day |
| `LogReader.DateRangeExamples` | infogami/infobase/logreader.py:19-31 | one day, two days, and nothing for swapped bounds |
| `LogReader.CollectDateRange` | infogami/infobase/logreader.py:19-31 | the loop (end defaulting to today, datetimes cut to dates) yields exactly the specified range |
| `LogReader.IJoinMember` | infogami/infobase/logreader.py:33-39 | an item is in the join exactly when one of the iterables holds it |
| `LogReader.IJoinAppend` | infogami/infobase/logreader.py:33-39 | joining two lists of iterables is joining each and concatenating |
| `LogReader.IJoinExample` | infogami/infobase/logreader.py:33-38 | the docstring's example |
| `LogReader.SplitExt` | infogami/infobase/logreader.py:171 | the two parts concatenate to the path; the extension is empty or one '.' followed by no '.' or '/' |
| `LogReader.File2Date` | infogami/infobase/logreader.py:170-173 | a result is a valid date; any failure is ValueError |
| `LogReader.File2DateRoundTrip` | infogami/infobase/logreader.py:170-176 | `file2date(date2file(d)) == d` for every root and date |
| `LogReader.FindFilelist` | infogami/infobase/logreader.py:187-195 | OverflowError exactly when the range reaches the last representable day; otherwise only existing files |
| `LogReader.FindFilelistLogFiles` | infogami/infobase/logreader.py:187-195 | every listed file is the file of a day from `from_date` through today |
| `LogReader.FindFilelistHead` | infogami/infobase/logreader.py:187-195 | the list starts with the file of the earliest day on or after `from_date` whose file exists |
| `LogReader.ParseOffset` | infogami/infobase/logreader.py:236-241 | a parsed date is valid; any failure is ValueError |
| `LogReader.ParseOffsetText` | infogami/infobase/logreader.py:236-254 | the position `tell` writes is read back as the same date and offset |
| `LogReader.TellOf` | infogami/infobase/logreader.py:248-254 | the epoch's date and offset 0 before any file is open, else the current file's date and offset |
| `LogReader.SeekTo` | infogami/infobase/logreader.py:236-246 | the cursor stays well formed; a parse error leaves it unchanged |
| `LogReader.SeekTell` | infogami/infobase/logreader.py:236-254 | `seek(tell())` returns to the same file and offset while that file exists |
| `LogReader.SeekToOwnFile` | infogami/infobase/logreader.py:242-246 | seeking to a day whose file exists opens it at the offset |
| `LogReader.SeekToLaterFile` | infogami/infobase/logreader.py:242-246 | seeking to a day without a file opens the earliest later file at offset 0 |
| `LogReader.SeekWithoutFiles` | infogami/infobase/logreader.py:242-246 | with no file open and none to open, seeking changes neither `tell()` nor the current file |
| `LogReader.LogFile.constructor` | infogami/infobase/logreader.py:143-149 | no file list and no current file; extension ".log" |
| `LogReader.LogFile.Advance` | infogami/infobase/logreader.py:178-185 | moves exactly when the file list is non-empty, to its first file |
| `LogReader.LogFile.Seek` | infogami/infobase/logreader.py:236-246 | the new state and error are those the seek specification gives |
| `LogReader.LoggerPathIsReaderPath` | infogami/infobase/logreader.py:175-176 | the logger's file of a day is the reader's, for four-digit years and uncompressed logs |
| `DbRead.ThingIds` | infogami/infobase/_dbstore/read.py:11-12 | exactly the ids of the thing rows |
| `DbRead.GetKeys` | infogami/infobase/_dbstore/read.py:9-14 | `{}` for no ids; an id is mapped exactly when it is asked for and names a thing, and to that thing's key |
| `DbRead.KeysById` | infogami/infobase/_dbstore/read.py:11-12 | the wanted ids that name a thing, each to a key some row gives it |
| `DbRead.GetThingId` | infogami/infobase/_dbstore/read.py:16-20 | None exactly when no row has the key; otherwise the id of a row with that key |
| `DbRead.OfAuthor` | infogami/infobase/_dbstore/read.py:26-34 | all rows without an author filter; otherwise only rows of that author, taken from the table |
| `DbRead.SelectWindow` | infogami/infobase/_dbstore/read.py:34 | the select gives the `limit` rows from `offset` on of the matching rows |
| `DbRead.AuthorIds` | infogami/infobase/_dbstore/read.py:36 | every truthy author id of the rows, and only those |
| `DbRead.VersionQuery` | infogami/infobase/_dbstore/read.py:42-50 | every row pairs a requested transaction id with a change |
| `DbRead.VersionQueryAsWrittenMixes` | infogami/infobase/_dbstore/read.py:45-50 | with two transactions of one change each, the written query lists both changes under the first transaction, the joined one only its own |
| `DbRead.AsWrittenAll` | infogami/infobase/_dbstore/read.py:45-50 | as written, each transaction row gets the changes of every requested transaction |
| `DbRead.AsWrittenNone` | infogami/infobase/_dbstore/read.py:45-50 | as written, an id with no transaction row gets no changes |
| `DbRead.ChangesOf` | infogami/infobase/_dbstore/read.py:52-55 | no more changes than rows |
| `DbRead.GroupVersions` | infogami/infobase/_dbstore/read.py:52-55 | each id maps to its rows' changes in row order, and only ids with rows are keys |
| `DbRead.Grouped` | infogami/infobase/_dbstore/read.py:52-55 | each id reads as its rows' changes in row order |
| `DbRead.ChangesOfQuery` | infogami/infobase/_dbstore/read.py:42-55 | with the join, a transaction's changes are exactly its own versions with their keys, in version order |
| `DbRead.Data` | infogami/infobase/_dbstore/read.py:73-80 | the decoded data column; else the decoded machine comment when it starts with "{"; else `{}` |
| `DbRead.ChangesJson` | infogami/infobase/_dbstore/read.py:54 | each change as a dict of its key and revision |
| `DbRead.ProcessTransaction` | infogami/infobase/_dbstore/read.py:57-82 | `_process_transaction` with the data column decoded; what it promises is stated by `DbRead.ProcessFields` |
| `DbRead.ProcessFields` | infogami/infobase/_dbstore/read.py:57-82 | fails exactly for an author without a key or undecodable data; otherwise id, kind, comment, time, changes and data are the transaction's, and author/ip are set as the author rule says |
| `DbRead.ProcessTransactionAsWrittenFails` | infogami/infobase/_dbstore/read.py:75-78 | as written, a transaction with a data column raises NameError, while the corrected one is shown |
| `DbRead.ProcessAll` | infogami/infobase/_dbstore/read.py:40 | succeeds exactly when every row does, with one record per row in order |
| `DbRead.UnknownAuthorIsEmpty` | infogami/infobase/_dbstore/read.py:26-29 | an author that names no thing gives `{}` |
| `DbRead.RecentChanges` | infogami/infobase/_dbstore/read.py:22-40 | `recentchanges`, with the corrected version query and data decoding (see Findings): `{}` for an author without a thing id, else one record per selected transaction; stated by `DbRead.RecentChangesShowsRows` |
| `DbRead.RecentChangesShowsRows` | infogami/infobase/_dbstore/read.py:22-40 | when every author has a key and all data decodes, the result has one record per selected row, each with its id and its own changes |
| `ReadQuery.GetTypeAsWritten` | infogami/infobase/readquery.py:28-34 | AttributeError exactly when a nested query comes before any condition on 'type' |
| `ReadQuery.GetType` | infogami/infobase/readquery.py:28-34 | a type exactly when some plain condition is on 'type', and then the value of the first one |
| `ReadQuery.GetTypeAgrees` | infogami/infobase/readquery.py:28-34 | whenever the written `get_type` returns, it returns the intended type |
| `ReadQuery.GetTypeNestedFirst` | infogami/infobase/readquery.py:31-34 | a nested query before the 'type' condition makes the written `get_type` fail while the intended one finds '/type/page' |
| `ReadQuery.AssertTypeRequired` | infogami/infobase/readquery.py:36-39 | fails exactly when some condition is on a non-common property and there is no type (or, as written, `get_type` fails); the error names the missing type |
| `ReadQuery.Query.constructor` | infogami/infobase/readquery.py:22-26 | no conditions, and no sort, limit or offset |
| `ReadQuery.Query.GetType` | infogami/infobase/readquery.py:28-34 | the loop returns what the written `get_type` specifies |
| `ReadQuery.Query.AddCondition` | infogami/infobase/readquery.py:41-42 | the condition is appended; sort, limit and offset unchanged |
| `ReadQuery.GetTypeAfterAdd` | infogami/infobase/readquery.py:28-42 | adding a condition keeps a type already found, a first 'type' condition sets it, and anything else leaves it absent |
| `ReadQuery.FirstSuffix` | infogami/infobase/readquery.py:148-152 | the first operator the key ends with, and None exactly when it ends with none |
| `ReadQuery.ParseKeyWith` | infogami/infobase/readquery.py:137-157 | the name and operator concatenate to the key, or the key is a plain name with '='; a key with no operator is accepted exactly when it is a plain name; the error names the key |
| `ReadQuery.ParseKeyShadowed` | infogami/infobase/readquery.py:148-152 | as written, '!=', '<=' and '>=' are never returned |
| `ReadQuery.ParseKeyAsWritten` | infogami/infobase/readquery.py:148-157 | `parse_key` with the operators in the written order; stated by `ReadQuery.ParseKeyLessEqual` |
| `ReadQuery.ParseKeyLessEqual` | infogami/infobase/readquery.py:148-152 | as written "name<=" parses to ("name<", "="); the intended order gives ("name", "<=") |
| `ReadQuery.ParseKeyRoundTrip` | infogami/infobase/readquery.py:137-157 | with the intended order a plain name followed by any operator parses back to the name and the operator |
| `ReadQuery.ParseKeyPlain` | infogami/infobase/readquery.py:154-157 | a plain name without operator gets '=' |
| `ReadQuery.ParseKeyAgrees` | infogami/infobase/readquery.py:148-157 | a key not ending in a two-character operator parses the same under both orders |
| `ReadQuery.ParseKey` | infogami/infobase/readquery.py:137-157 | the intended `parse_key`: `ParseKeyWith` over the operators with each two-character one first; its properties are `ParseKeyRoundTrip`, `ParseKeyPlain` and `ParseKeyAgrees` |
| `ReadQuery.ParseKeyNewline` | infogami/infobase/readquery.py:154-157 | a plain name followed by one newline passes the `^...$` test, both as written and as intended, and is returned whole with '=' |
| `ReadQuery.FindDatatype` | infogami/infobase/readquery.py:95-135 | special properties have fixed datatypes; then bool, int, float and reference values; else (a `long` beyond `sys.maxint` too) the schema's datatype of the property, 'ref' for a non-primitive type, or 'str' |
| `ReadQuery.CapLimit` | infogami/infobase/readquery.py:64-66 | an integer limit is capped at 1000; None stays None |
| `ReadQuery.EntryCondition` | infogami/infobase/readquery.py:69-76 | a non-dict value gives a plain condition with the parsed key and operator and the value, exactly when the key parses; a dict gives a nested query |
| `ReadQuery.Conditions` | infogami/infobase/readquery.py:69-76 | at most one condition per entry; as written no condition carries a shadowed operator |
| `ReadQuery.WithDatatypes` | infogami/infobase/readquery.py:83-85 | every condition, in place and order, gets its datatype |
| `ReadQuery.MakeQuerySpec` | infogami/infobase/readquery.py:53-93 | limit capped, offset kept, the type check passes at top level, every plain condition has a datatype, and as written no shadowed operator |
| `ReadQuery.SameType` | infogami/infobase/readquery.py:81-85 | filling in datatypes changes the type under neither reading |
| `ReadQuery.SameRequired` | infogami/infobase/readquery.py:83-85 | filling in datatypes does not change whether a type is required |
| `ReadQuery.AddConditions` | infogami/infobase/readquery.py:69-76 | the first loop builds exactly the specified conditions, or stops with the specified error |
| `ReadQuery.FillDatatypes` | infogami/infobase/readquery.py:83-85 | the second loop gives every condition its datatype in place |
| `ReadQuery.MakeQuery` | infogami/infobase/readquery.py:53-93 | a fresh query equal to the written specification, or its error |
| `ReadQuery.MakeQueryRangeCondition` | infogami/infobase/readquery.py:53-93 | for {'type': '/type/page', name + '<=': x} the written code makes an equality on "name<" and the intended one a '<=' on the name |
| `ReadQuery.MakeQueryNestedBeforeType` | infogami/infobase/readquery.py:53-93 | a nested query before 'type' is an AttributeError as written and the nested query then the type as intended |
| `ReadQuery.WrittenTypeError` | infogami/infobase/readquery.py:78-81 | when the written `get_type` fails on the conditions, the written `make_query` fails with AttributeError |
| `ReadQuery.VersionConditions` | infogami/infobase/readquery.py:170-174 | succeeds exactly when every non-paging key is a version column; each condition is an equality on a column |
| `ReadQuery.MakeVersionsQuery` | infogami/infobase/readquery.py:159-176 | AssertionError exactly for a key outside the columns; limit capped, offset and sort kept |
| `DbSave.KeyOf` | infogami/infobase/_dbstore/save.py:48 | the document's key when it has a text key, else an error |
| `DbSave.TypeKeyOf` | infogami/infobase/_dbstore/save.py:56 | the document's `type.key` when the type is a dict with a text key, else an error |
| `DbSave.Latest` | infogami/infobase/_dbstore/save.py:49-54 | found exactly when the key has a thing row whose latest revision has data, and then that row |
| `DbSave.Stamp` | infogami/infobase/_dbstore/save.py:73-76 | the document gets its revision, latest revision, creation and modification times, and every other field is kept |
| `DbSave.MakeRecord` | infogami/infobase/_dbstore/save.py:58-77 | fails exactly for a missing key or type or an unknown type; a new key starts from revision 0 and the timestamp, an existing one from its row; the revision is the previous one plus one and the data is the stamped document |
| `DbSave.RecordsForSave` | infogami/infobase/_dbstore/save.py:47-79 | fails exactly when some document does; otherwise one record per document, in order, each the record of its document |
| `DbSave.RecordsAreFromTable` | infogami/infobase/_dbstore/save.py:47-79 | the records agree with the thing table they were read from |
| `DbSave.RestIds` | infogami/infobase/_dbstore/save.py:103 | every record with an unchanged type and a revision above 1 is in the batch |
| `DbSave.BumpRows` | infogami/infobase/_dbstore/save.py:102-105 | the batch update bumps exactly the rows of the selected records |
| `DbSave.WithIds` | infogami/infobase/_dbstore/save.py:90-94 | the records, each new one with the id the insert gave it |
| `DbSave.UpdateRows` | infogami/infobase/_dbstore/save.py:81-105 | insert, type-change update and batch update together give the updated thing table |
| `DbSave.RowsFinal` | infogami/infobase/_dbstore/save.py:81-105 | each record's row ends with the record's id, type and revision |
| `DbSave.RowsFramed` | infogami/infobase/_dbstore/save.py:81-105 | no row disappears and only the records' rows change or appear |
| `DbSave.TypeKeys` | infogami/infobase/_dbstore/save.py:56 | succeeds exactly when every document has a type key, and then gives them in order |
| `DbSave.ThingIdsOf` | infogami/infobase/_dbstore/save.py:107-119 | exactly the asked keys that name a thing, each to its id |
| `DbSave.PlannedRecords` | infogami/infobase/_dbstore/save.py:47-79 | fails exactly when a type key is missing or a record cannot be made; one record per document |
| `DbSave.InsertsRows` | infogami/infobase/_dbstore/save.py:30-34 | the inserts add exactly the rows' keys and keep every other row |
| `DbSave.DataRows` | infogami/infobase/_dbstore/save.py:33 | one data row per record, under its id and revision, with its document |
| `DbSave.VersionsOf` | infogami/infobase/_dbstore/save.py:29 | one version row per record, all in the given transaction |
| `DbSave.Revisions` | infogami/infobase/_dbstore/save.py:42 | the key and revision of each record, in order |
| `DbSave.SaveCommits` | infogami/infobase/_dbstore/save.py:14-42 | writing the data and version rows commits the records and leaves every thing with its latest data |
| `DbSave.DataCommits` | infogami/infobase/_dbstore/save.py:33-34 | every record reads back with its new data and every row keeps its latest data |
| `DbSave.VersionsAdded` | infogami/infobase/_dbstore/save.py:29-30 | the version rows and the returned revisions are those of the records |
| `DbSave.SaveImpl.constructor` | infogami/infobase/_dbstore/save.py:10-12 | empty tables and an empty id memo |
| `DbSave.SaveImpl.GetThingIds` | infogami/infobase/_dbstore/save.py:107-119 | the ids of exactly the keys that name a thing; the memo grows by them |
| `DbSave.SaveImpl.Save` | infogami/infobase/_dbstore/save.py:14-42 | fails exactly when a record cannot be made, there are no documents or two share a key, and then nothing changes; otherwise the records are committed in one new transaction and their keys and revisions returned |
| `DbSave.SaveImpl.PlanRecords` | infogami/infobase/_dbstore/save.py:47-79 | the planned records, or the error; nothing but the memo changes |
| `DbSave.SaveImpl.Commit` | infogami/infobase/_dbstore/save.py:17-42 | fails exactly for no records, changing nothing; otherwise commits them under a new transaction |
| `DbSave.SaveImpl.WriteTransaction` | infogami/infobase/_dbstore/save.py:20-34 | one transaction row, the version rows and the data rows are added; the thing table is unchanged |
| `DbSave.SaveImpl.UpdateThingTable` | infogami/infobase/_dbstore/save.py:81-105 | IndexError for no records; otherwise the thing table is updated as specified and nothing else changes |
| `DbSave.SaveImpl.InsertNew` | infogami/infobase/_dbstore/save.py:86-94 | a row with a fresh id for each new record |
| `DbSave.SaveImpl.ChangeTypes` | infogami/infobase/_dbstore/save.py:96-100 | the rows of records whose type changed get the new type, revision and time |
| `DbSave.SaveImpl.BumpRest` | infogami/infobase/_dbstore/save.py:102-105 | the remaining rows get their revision bumped and the time set |
| `TableSchema.FirstMatch` | infogami/infobase/_dbstore/schema.py:52-63 | the table of the first entry matching the type, datatype and name (None in an entry matching anything), else "datum_" + datatype |
| `TableSchema.FirstMatchStable` | infogami/infobase/_dbstore/schema.py:56-63 | entries added after a match do not change the first match |
| `TableSchema.SeqName` | infogami/infobase/_dbstore/schema.py:37-38 | the type without its first character, '/' replaced, followed by "_seq" |
| `TableSchema.GroupEntries` | infogami/infobase/_dbstore/schema.py:41-44 | one entry per datatype, named prefix + "_" + datatype, for any property name |
| `TableSchema.Schema.constructor` | infogami/infobase/_dbstore/schema.py:21-26 | no entries, sequences, prefixes or memo |
| `TableSchema.Schema.AddEntry` | infogami/infobase/_dbstore/schema.py:28-30 | the entry goes last; nothing else changes |
| `TableSchema.Schema.AddSeq` | infogami/infobase/_dbstore/schema.py:32-33 | the type's pattern is set; nothing else changes |
| `TableSchema.Schema.GetSeq` | infogami/infobase/_dbstore/schema.py:35-39 | None exactly for an unregistered type; otherwise its type, pattern and sequence name |
| `TableSchema.Schema.AddTableGroup` | infogami/infobase/_dbstore/schema.py:41-46 | the group's entries (for the indexed datatypes when none are given) are appended and the prefix recorded |
| `TableSchema.Schema.FindTable` | infogami/infobase/_dbstore/schema.py:48-68 | None for a datatype that is not indexed; a memoised answer is returned unchanged; otherwise the first match, which is memoised |
| `TableSchema.MemoAgrees` | infogami/infobase/_dbstore/schema.py:65-68 | a memoised answer is still the first match once later entries are added |
| `TableSchema.Schema.FindTables` | infogami/infobase/_dbstore/schema.py:70-71 | one table per indexed datatype, memoised answers kept |
| `TableSchema.Schema.ListTables` | infogami/infobase/_dbstore/schema.py:87-90 | the datum group is added, and the result is every entry's table, sorted and without repeats |
| `Sequences.SequenceImpl.constructor` | infogami/infobase/_dbstore/sequence.py:6-8 | no rows and no events |
| `Sequences.SequenceImpl.GetValue` | infogami/infobase/_dbstore/sequence.py:16-22 | the stored value, 0 for a name without a row |
| `Sequences.SequenceImpl.NextValue` | infogami/infobase/_dbstore/sequence.py:24-41 | one more than the stored value (1 for a new name), stored; the increment argument is not used |
| `Sequences.SequenceImpl.SetValue` | infogami/infobase/_dbstore/sequence.py:43-58 | the value is stored and returned |
| `Sequences.SequenceImpl.FireEvent` | infogami/infobase/_dbstore/sequence.py:13-14 | the listener is told "seq.set" with the name and value, whatever event name is given |
| `JsonStore.Lowered` | infogami/infobase/_dbstore/store.py:190-191 | a boolean is indexed as "true" or "false"; other values as they are |
| `JsonStore.IndexRows` | infogami/infobase/_dbstore/store.py:181-194 | the '_key' row is always there; every row has the id and the document's type; the other rows are the kept pairs |
| `JsonStore.AddIndex` | infogami/infobase/_dbstore/store.py:181-194 | the loop builds exactly the specified rows |
| `JsonStore.AllRowsRemove` | infogami/infobase/_dbstore/store.py:146-149 | dropping a document drops exactly its index rows |
| `JsonStore.AllRowsAdd` | infogami/infobase/_dbstore/store.py:96-107 | adding a document adds exactly its index rows |
| `JsonStore.Without` | infogami/infobase/_dbstore/store.py:178-179 | exactly the index rows of other documents |
| `JsonStore.Stripped` | infogami/infobase/_dbstore/store.py:84-85 | the stored document has no '_key' or '_rev' |
| `JsonStore.WithMeta` | infogami/infobase/_dbstore/store.py:68-72 | the read document has '_key' the key and '_rev' the id as text |
| `JsonStore.WithMetaGet` | infogami/infobase/_dbstore/store.py:68-72 | reading back gives every other property as stored |
| `JsonStore.Desc` | infogami/infobase/_dbstore/store.py:159-168 | exactly the selected ids in range, strictly largest first |
| `JsonStore.Page` | infogami/infobase/_dbstore/store.py:159-168 | at most `limit` items, the window from `offset`, empty past the end |
| `JsonStore.Read` | infogami/infobase/_dbstore/store.py:64-72 | a document exactly when the key has a row, with its '_key' and '_rev' |
| `JsonStore.ReplaceKeeps` | infogami/infobase/_dbstore/store.py:89-110 | storing under a fresh id after dropping the old row keeps the tables consistent, reads the new document back and changes no other key |
| `JsonStore.DropKeeps` | infogami/infobase/_dbstore/store.py:131-149 | dropping a key's rows keeps the tables consistent and changes no other key |
| `JsonStore.Store.constructor` | infogami/infobase/_dbstore/store.py:41-44 | empty tables with the given indexer |
| `JsonStore.Store.Lookup` | infogami/infobase/_dbstore/store.py:64-66 | None exactly for an absent key; otherwise the stored document with its metadata |
| `JsonStore.Store.Delete` | infogami/infobase/_dbstore/store.py:131-144 | a conflict exactly when a revision is given and differs from the stored id, changing nothing; otherwise the key is gone, no other key changes and "store.delete" is fired |
| `JsonStore.Store.Put` | infogami/infobase/_dbstore/store.py:74-118 | a true '_delete' is a delete with the '_rev'; otherwise a save; a saved document reads back and no other key changes |
| `JsonStore.Store.Save` | infogami/infobase/_dbstore/store.py:78-118 | a conflict exactly when the key exists and '_rev' is neither None nor its id; otherwise stored under a new, largest id with its index, "store.put" fired, and every other key unchanged |
| `JsonStore.Store.Order` | infogami/infobase/_dbstore/store.py:158-168 | exactly the selected stored ids, newest first |
| `JsonStore.Store.Query` | infogami/infobase/_dbstore/store.py:151-176 | at most `limit` hits, the page of the newest-first selection, each with its key (and document when asked) |
| `JsonStore.QueryOrdered` | infogami/infobase/_dbstore/store.py:151-176 | hits are stored keys of selected documents, strictly newest first |
| `JsonStore.QueryFindsType` | infogami/infobase/_dbstore/store.py:164-165 | every document is found by a query on its type |
| `JsonStore.QueryByValue` | infogami/infobase/_dbstore/store.py:166-167 | a (name, value) query finds exactly the documents of the type whose indexer output has the pair |
| `JsonStore.QueryNewestFirst` | infogami/infobase/_dbstore/store.py:98-101 | the document written last comes first in any query that selects it |
| `JsonStore.TypewiseIndexer.constructor` | infogami/infobase/_dbstore/store.py:207-209 | no per-type indexers |
| `JsonStore.TypewiseIndexer.SetIndexer` | infogami/infobase/_dbstore/store.py:211-214 | documents of the type are now indexed by the new indexer and others as before |
| `JsonStore.TypewiseIndexer.GetIndexer` | infogami/infobase/_dbstore/store.py:216-218 | the type's indexer, else the default one |
| `JsonStore.TypewiseIndexer.Index` | infogami/infobase/_dbstore/store.py:220-223 | the pairs the document's type's indexer gives, the default one for other types |
| `Tdb.Thing.constructor` | infogami/tdb/tdb.py:14-20 | id (an integer or None), name, parent, type, `latest_revision` and `v` on the object, the data as given, not dirty, nothing saved |
| `Tdb.Thing.Get` | infogami/tdb/tdb.py:41-49 | a value is returned exactly when the name is not reserved and is in the data, and it is the data's value; an error otherwise |
| `Tdb.Thing.SetAttr` | infogami/tdb/tdb.py:57-66 | a reserved name changes only the object's own slot (and marks it dirty only for `type`); any other name changes the data and marks it dirty |
| `Tdb.Thing.SetData` | infogami/tdb/tdb.py:68-70 | the data is replaced and the thing is dirty; nothing else changes |
| `Tdb.Thing.Save` | infogami/tdb/tdb.py:72-76 | a clean thing writes nothing; a dirty one returns the rows `savedatum` writes for its entries in `items()` order and then `__type__`; on success it records a new version and becomes clean, on BadData it records nothing and stays dirty |
| `Tdb.Thing.Copy` | infogami/tdb/tdb.py:22-24 | a fresh, clean thing equal (`__eq__`) to this one, with the same id, name, parent, latest revision, version and type |
| `Tdb.ScalarRow` | infogami/tdb/tdb.py:298-310 | a string, thing, integer or float gets a row with its key, ordering and a data-type code 0-3; anything else is BadData |
| `Tdb.ItemRows` | infogami/tdb/tdb.py:294-297 | one row per list item, each under the key, numbered consecutively from the start |
| `Tdb.SaveDatum` | infogami/tdb/tdb.py:291-310 | every row of a value carries the value's key |
| `Tdb.ParseData` | infogami/tdb/tdb.py:262-281 | on success the dictionary no longer holds `__type__` |
| `Tdb.DecodeRow` | infogami/tdb/tdb.py:262-275 | a row decodes to a thing reference, an integer, a float or text by its type code; ValueError exactly for a reference or integer row whose text `int()` rejects |
| `Tdb.ParseDataLoop` | infogami/tdb/tdb.py:262-281 | the loop over the rows computes the same result as the fold `ParseData` |
| `Tdb.ScalarRowDecodes` | infogami/tdb/tdb.py:266-278 | a scalar's row decodes back to that scalar |
| `Tdb.ParseItemRows` | infogami/tdb/tdb.py:275-276 | reading a list's item rows appends the items to the list under the key |
| `Tdb.ParseDatum` | infogami/tdb/tdb.py:262-310 | one value written and read back lands under its key unchanged |
| `Tdb.ParseSaved` | infogami/tdb/tdb.py:338-339 | the rows of distinct entries read back as exactly those entries |
| `Tdb.SaveParseRoundTrip` | infogami/tdb/tdb.py:338-340 | saving a thing's data plus `__type__` and parsing the rows returns the same data and type |
| `Tdb.SaveRowsRejects` | infogami/tdb/tdb.py:298-339 | a value `savedatum` cannot write, such as None, anywhere in the data makes the save fail |
| `Tdb.SaveReadsBack` | infogami/tdb/tdb.py:72-76 | saving a dirty thing with storable values succeeds, cleans it, records its data, and the rows read back as its data and type |
| `Tdb.SaveNoneStaysDirty` | infogami/tdb/tdb.py:72-76 | saving a dirty thing that holds None fails, leaves it dirty and records nothing |
| `Tdb.Keyed` | infogami/tdb/tdb.py:412-414 | the dictionary holds exactly the keys of the things, each under the last thing with that key |
| `Tdb.Reorder` | infogami/tdb/tdb.py:411-415 | succeeds exactly when every requested key is known; the result is the keyed things in the requested order; a KeyError names a missing key |
| `Tdb.ThingCache.constructor` | infogami/tdb/tdb.py:475-477 | both caches start empty |
| `Tdb.ThingCache.Contains` | infogami/tdb/tdb.py:479-483 | a (name, parent id) pair is looked up among names, an id among ids |
| `Tdb.ThingCache.Lookup` | infogami/tdb/tdb.py:485-489 | a stored entry is found exactly when the key is contained |
| `Tdb.ThingCache.Get` | infogami/tdb/tdb.py:485-490 | a KeyError exactly when the key is absent; otherwise a fresh clean copy of what is stored |
| `Tdb.ThingCache.Set` | infogami/tdb/tdb.py:492-501 | a copy of the thing is stored under its id and under its (name, parent id), whichever key is given; by id, a thing without a parent raises AttributeError and changes nothing |
| `Tdb.CacheRoundTrip` | infogami/tdb/tdb.py:475-501 | a thing stored by id is returned equal from both its id and its (name, parent id) |
| `TdbLog.ReplaceChar` | infogami/tdb/logger.py:106-109 | a string without the character is unchanged, and a replacement without it leaves none behind |
| `TdbLog.Escaped` | infogami/tdb/logger.py:105-110 | an escaped name holds no line feed and no tab |
| `TdbLog.KeyEncode` | infogami/tdb/logger.py:105-110 | `_keyencode`; stated by `TdbLog.KeyEncodeEscaped` and `TdbLog.KeyRoundTrip` |
| `TdbLog.KeyDecode` | infogami/tdb/logger.py:112-120 | `_keydecode`; stated by `TdbLog.KeyRoundTrip`: it undoes `KeyEncode` |
| `TdbLog.KeyEncodeEscaped` | infogami/tdb/logger.py:105-110 | the chain of four `replace` calls equals escaping each character on its own |
| `TdbLog.DecodeEscaped` | infogami/tdb/logger.py:112-120 | the regular-expression decoding undoes the character-wise escape |
| `TdbLog.KeyRoundTrip` | infogami/tdb/logger.py:105-120 | `_keydecode(_keyencode(k)) == k` for every name, and the encoded name holds no line feed or tab |
| `TdbLog.EncodeInt` | infogami/tdb/logger.py:133-134 | the text of an integer is non-empty, ends in a non-space and holds no line feed |
| `TdbLog.ReprByte` | infogami/tdb/logger.py:122 | one byte's text inside a quoted `repr` is non-empty and holds no line feed |
| `TdbLog.ReprBody` | infogami/tdb/logger.py:122 | the quoted body of a byte string holds no line feed |
| `TdbLog.Encode` | infogami/tdb/logger.py:124-138 | every encoded value is a non-empty single line ending in a non-space |
| `TdbLog.EncodeItems` | infogami/tdb/logger.py:128 | the joined list items hold no line feed |
| `TdbLog.FieldLines` | infogami/tdb/logger.py:100-101 | one line per field, in order, each the field's line |
| `TdbLog.Format` | infogami/tdb/logger.py:97-103 | the loop builds the header, a line per field and a blank line, i.e. the item's text |
| `TdbLog.StripAll` | infogami/tdb/logger.py:174 | one stripped line per line read |
| `TdbLog.ParseItems` | infogami/tdb/logger.py:155-181 | the loop yields exactly the groups of non-blank lines, each closed by a blank line |
| `TdbLog.UnterminatedDropped` | infogami/tdb/logger.py:176-181 | lines after the last blank line are never yielded |
| `TdbLog.GroupsOfTerminated` | infogami/tdb/logger.py:155-181 | items without blank lines, each followed by a blank line, are read back as they were, whatever trails them |
| `TdbLog.FileLinesText` | infogami/tdb/logger.py:174 | reading and stripping the written lines returns those lines |
| `TdbLog.LogTextLines` | infogami/tdb/logger.py:97-103 | the log text is the text of each item's lines followed by a blank line |
| `TdbLog.WordsPair` | infogami/tdb/logger.py:214 | "name id" splits back into exactly those two words |
| `TdbLog.ParseHeader` | infogami/tdb/logger.py:214 | a header parses only into its two words; anything else is ValueError |
| `TdbLog.SplitField` | infogami/tdb/logger.py:208 | the two parts of a split line, joined by a colon, give the line back |
| `TdbLog.SplitFieldEscaped` | infogami/tdb/logger.py:208 | an escaped name splits off at the colon written after it |
| `TdbLog.ParseFieldAsWritten` | infogami/tdb/logger.py:208-209 | the field line split at its first colon, as written; stated by `TdbLog.ParseFieldAsWrittenLosesColonNames` |
| `TdbLog.ParseFieldAsWrittenLosesColonNames` | infogami/tdb/logger.py:208-209 | as written, a name holding a colon is read back under a different name |
| `TdbLog.ParseFieldLine` | infogami/tdb/logger.py:208-209 | with the split at the first unescaped colon, every field line reads back as its name and value text |
| `TdbLog.ParseData` | infogami/tdb/logger.py:203-211 | with the corrected field split (see Findings): the loop computes the dictionary of the field lines (the later line winning), or fails on a line without a colon |
| `TdbLog.DataRoundTrip` | infogami/tdb/logger.py:203-211 | with the corrected field split (see Findings): logged fields are read back as the dictionary they came from |
| `TdbLog.ItemRoundTrip` | infogami/tdb/logger.py:213-216 | with the corrected field split (see Findings): an item with a one-word kind parses back into its kind, id text and fields |
| `TdbLog.ParseItem` | infogami/tdb/logger.py:213-216 | with the corrected field split (see Findings): an empty item is IndexError; a parsed item's kind and id are the two words of its first line and its fields are the dictionary of the lines after it |
| `TdbLog.ParseAll` | infogami/tdb/logger.py:144-216 | one triple per item when every item parses |
| `TdbLog.ParseLog` | infogami/tdb/logger.py:144-216 | one triple per item of the log text |
| `TdbLog.AllParsed` | infogami/tdb/logger.py:213-216 | with the corrected field split (see Findings): one parsed triple per item, in order |
| `TdbLog.ParseAllItems` | infogami/tdb/logger.py:213-216 | with the corrected field split (see Findings): parsing the line groups of all items gives every item's triple, in order |
| `TdbLog.LogRoundTrip` | infogami/tdb/logger.py:144-216 | with the corrected field split (see Findings): reading a log back gives each logged item's kind, id and fields, in the order logged |
| `WriteQuery.FirstIndex` | infogami/infobase/writequery.py:254 | the position of the first occurrence of the value, which `list.remove` removes |
| `WriteQuery.RemoveFirst` | infogami/infobase/writequery.py:254 | the list loses exactly one occurrence of the value (as multisets) |
| `WriteQuery.Connect` | infogami/infobase/writequery.py:230-255 | no other name changes; an error only for insert or delete on a missing or non-list value |
| `WriteQuery.ConnectUpdate` | infogami/infobase/writequery.py:247-248 | 'update' and 'update_list' both set `data[name]` to the value |
| `WriteQuery.ConnectInsert` | infogami/infobase/writequery.py:249-251 | after an insert the value occurs as often as before, or once if it was absent, so no duplicate is created |
| `WriteQuery.ConnectInsertIdempotent` | infogami/infobase/writequery.py:249-251 | inserting twice is inserting once |
| `WriteQuery.ConnectDelete` | infogami/infobase/writequery.py:252-254 | a delete removes the first occurrence when present and leaves the data unchanged otherwise |
| `WriteQuery.ConnectInsertDelete` | infogami/infobase/writequery.py:249-254 | deleting what was just inserted into a list lacking it gives the list back |
| `WriteQuery.ConnectValue` | infogami/infobase/writequery.py:223-226 | a connect with 'key' carries a reference to it (or the falsy key itself); otherwise its 'value', and an error without one |
| `WriteQuery.ConnectAllSpec` | infogami/infobase/writequery.py:220-228 | a name that no connect of the query mentions keeps its value |
| `WriteQuery.ConnectAllNone` | infogami/infobase/writequery.py:220-228 | a query without connects leaves the data unchanged |
| `WriteQuery.ConnectAll` | infogami/infobase/writequery.py:199-228 | the loop over the query on a copy of the data computes `ConnectAllSpec` |
| `WriteQuery.RemoveConnects` | infogami/infobase/writequery.py:189-197 | the same keys in the same order; each connect is replaced by the value it carries, other entries are kept; an error exactly when some connect carries nothing |
| `WriteQuery.Pick` | infogami/infobase/writequery.py:344-347 | only entries of the dict whose key is among those asked for |
| `WriteQuery.FlatQuery` | infogami/infobase/writequery.py:321-350 | every emitted query has a 'key' |
| `WriteQuery.FlatList` | infogami/infobase/writequery.py:326-328 | one minimal value per list element; every emitted query has a 'key' |
| `WriteQuery.FlatEntries` | infogami/infobase/writequery.py:331-333 | the dict's keys are kept in order; every emitted query has a 'key' |
| `WriteQuery.FlatCount` | infogami/infobase/writequery.py:321-354 | every dict holding 'key' is emitted exactly once |
| `WriteQuery.FlatSlim` | infogami/infobase/writequery.py:335-347 | what stands in the parent for a subquery holds only connect/key/type/value (or only key inside a list), and every emitted query's values are such slim values |
| `WriteQuery.TopLast` | infogami/infobase/writequery.py:331-336 | post-order: a keyed dict is emitted after everything nested inside it |
| `WriteQuery.FlattenQuery` | infogami/infobase/writequery.py:321-350 | the recursive method appends exactly `FlatQuery`'s emitted queries and returns its minimal value |
| `WriteQuery.FlattenList` | infogami/infobase/writequery.py:326-328 | the list branch appends and returns what `FlatList` specifies |
| `WriteQuery.FlattenEntries` | infogami/infobase/writequery.py:331-333 | the dict branch appends and returns what `FlatEntries` specifies |
| `WriteQuery.Serialize` | infogami/infobase/writequery.py:257-354 | one query per keyed object, each with a key and slim values |
| `WriteQuery.Parent` | infogami/infobase/writequery.py:380-384 | as intended, on every key: None exactly for "/"; otherwise a key nearer the root, for a path a shorter path that is a prefix of it, and "/" for a key without '/' |
| `WriteQuery.ParentAsWritten` | infogami/infobase/writequery.py:380-384 | the code on any string: None exactly for "/"; it is either the intended parent or the key itself, and on a path it is the intended parent |
| `WriteQuery.ParentAsWrittenFixpoint` | infogami/infobase/writequery.py:384-394 | a non-empty key without '/' is its own parent, so the permission walk never ends |
| `WriteQuery.ParentAsWrittenLoops` | infogami/infobase/writequery.py:384 | the key "a" is its own parent |
| `WriteQuery.GetPermission` | infogami/infobase/writequery.py:378-396 | on every key the walk towards the root ends, and the result is a truthy permission or None |
| `WriteQuery.Ancestry` | infogami/infobase/writequery.py:380-384 | the key first, "/" last, each key nearer the root than the one before; for a path every element is a path prefix of the key, strictly shorter each step |
| `WriteQuery.Offers` | infogami/infobase/writequery.py:390-393 | one offer per key of the ancestry |
| `WriteQuery.FirstTruthy` | infogami/infobase/writequery.py:394 | None or one of the values |
| `WriteQuery.FirstTruthyIsFirst` | infogami/infobase/writequery.py:394 | every value before the result is falsy, and None only when all are |
| `WriteQuery.NearestPermission` | infogami/infobase/writequery.py:386-396 | on every key, the permission is the first truthy offer along the ancestry: the key's own permission, then each ancestor's child_permission or permission |
| `WriteQuery.AncestryOfName` | infogami/infobase/writequery.py:380-396 | a key without '/' is followed only by the root, so its permission is its own or the root's |
| `WriteQuery.OffersParent` | infogami/infobase/writequery.py:394 | the offers along a key's ancestry are its own followed by those along its parent's |
| `WriteQuery.RefKeys` | infogami/infobase/writequery.py:372 | at most one key per member |
| `WriteQuery.Writers` | infogami/infobase/writequery.py:365-367 | the writer groups end with the admin group |
| `WriteQuery.DecideAnonymous` | infogami/infobase/writequery.py:368-376 | an anonymous author may write exactly when the first group is '/usergroup/everyone' |
| `WriteQuery.DecideAuthor` | infogami/infobase/writequery.py:368-376 | a known author may write exactly when some group is everyone, allusers or lists the author, and every group before it exists and does not admit the author |
| `WriteQuery.Permitted` | infogami/infobase/writequery.py:356-376 | the admin may always write, and anyone may write a key with no permission on it or its ancestors |
| `WriteQuery.HasPermission` | infogami/infobase/writequery.py:356-376 | the loop over the writer groups reaches the decision `Permitted` states |
| `WriteQuery.GetProperty` | infogami/infobase/writequery.py:54-62 | fixed properties for 'type', 'permission' and 'child_permission'; otherwise the type's property of that name; an error only without a type for other names |
| `WriteQuery.FirstProperty` | infogami/infobase/writequery.py:60-62 | the first property with that name, None exactly when there is none |
| `WriteQuery.ValidateProperties` | infogami/infobase/writequery.py:64-68 | succeeds exactly when every key matches `^[a-z][a-z0-9_]*$`; otherwise BadData names the first bad key |
| `WriteQuery.TypeFound` | infogami/infobase/writequery.py:149-155 | a non-object value has its own type; an object's type is that of the stored thing, and NotFound when there is none |
| `WriteQuery.Coerce` | infogami/infobase/writequery.py:131-147 | strings convert to the expected primitive type, ints to float, strings to references for non-primitive types; errors only from a failed conversion |
| `WriteQuery.ProcessValue` | infogami/infobase/writequery.py:87-159 | "expected atom, found list" for a list on a unique property, "expected list, found atom" for an atom on a non-unique one; a list keeps its length |
| `WriteQuery.ProcessList` | infogami/infobase/writequery.py:122-124 | each element processed as a unique property, stopping at the first error |
| `WriteQuery.ProcessEntry` | infogami/infobase/writequery.py:72-81 | a blank value is dropped (exactly those); a value equal to the previous one is kept as is |
| `WriteQuery.ProcessEntries` | infogami/infobase/writequery.py:71-81 | no more entries than given, each under a key that was given |
| `WriteQuery.EntriesKeysFrom` | infogami/infobase/writequery.py:71-81 | every key returned was in the data |
| `WriteQuery.EntriesKeepFilled` | infogami/infobase/writequery.py:71-81 | every entry with a non-blank value is kept |
| `WriteQuery.EntriesDropBlank` | infogami/infobase/writequery.py:72-73 | with unique keys, every entry with a blank value is dropped |
| `WriteQuery.EntriesErrorStops` | infogami/infobase/writequery.py:71-81 | once an entry fails the rest of the loop does not run |
| `WriteQuery.ProcessDataLoop` | infogami/infobase/writequery.py:70-85 | the loop followed by setting 'type' computes `ProcessData` |
| `WriteQuery.EntriesLoop` | infogami/infobase/writequery.py:71-81 | the loop over the entries computes `ProcessEntries` |
| `WriteQuery.ProcessDataType` | infogami/infobase/writequery.py:82-83 | 'type' is set to a reference to the given type |
| `WriteQuery.RemoveAll` | infogami/infobase/writequery.py:45-47 | the read-only keys are gone and every other key keeps its value |
| `WriteQuery.PreviousData` | infogami/infobase/writequery.py:36-41 | previous data is the stored, non-empty object |
| `WriteQuery.Admit` | infogami/infobase/writequery.py:18-28 | 'key' filled in, every key a valid property name, the original entries and type kept |
| `WriteQuery.NamedType` | infogami/infobase/writequery.py:30-34 | "missing type" when no type is given; otherwise the thing named by the processed type |
| `WriteQuery.Processed` | infogami/infobase/writequery.py:30-43 | "missing type" without a type; the previous data compared against is the stored, non-empty object |
| `WriteQuery.SaveData` | infogami/infobase/writequery.py:30-52 | "missing type" without a type; fails exactly when processing fails, with its error |
| `WriteQuery.Process` | infogami/infobase/writequery.py:18-52 | valid names and permission hold on success; read-only properties are stripped; None exactly when the processed data equals the previous data once read-only properties are removed |
| `Account.ChooseSalt` | infogami/infobase/account.py:209 | a given salt is kept; an empty one is replaced by five hex digits of a random HMAC |
| `Account.GenerateSaltedHash` | infogami/infobase/account.py:208-211 | "salt$digest", the digest taken over the salt followed by the text |
| `Account.CheckSaltedHash` | infogami/infobase/account.py:213-215 | ValueError exactly when the stored hash has no '$' |
| `Account.CheckSaltedHashMeans` | infogami/infobase/account.py:213-215 | the check accepts exactly the hashes that regenerating with their own salt reproduces |
| `Account.SaltedHashRoundTrip` | infogami/infobase/account.py:208-215 | a hash generated for a text is accepted for that text, whatever random salt was drawn |
| `Account.FreshHashShape` | infogami/infobase/account.py:209-211 | a freshly salted hash holds no ',' and only its one '$' |
| `Account.UserOfTokenAsWritten` | infogami/infobase/account.py:190-200 | no token or a token without three comma-separated parts gives nobody; ValueError exactly when a three-part token's digest has no '$' |
| `Account.UserOfTokenAsWrittenRaises` | infogami/infobase/account.py:196-199 | the token "a,b,c" makes `get_user()` raise instead of finding nobody |
| `Account.UserOfToken` | infogami/infobase/account.py:190-200 | a user exactly for a three-part token whose digest checks against the key and time, and that user is the token's first part |
| `Account.AuthTokenParts` | infogami/infobase/account.py:196-205 | a token made for a key and time without ',' splits into the key, the time and the salted digest |
| `Account.AuthTokenAccepted` | infogami/infobase/account.py:196-205 | a token made by `set_auth_token` names its user, both as written and corrected |
| `Account.AcceptedTokenShape` | infogami/infobase/account.py:196-199 | an accepted token names the key it starts with and carries a valid digest of "key,time" |
| `Account.AdminOnly` | infogami/infobase/account.py:26-33 | PermissionDenied exactly unless the current user is '/user/admin' |
| `Account.UserKey` | infogami/infobase/account.py:12 | a key only when the user has a string 'key' |
| `Account.GroupDoc` | infogami/infobase/account.py:11-15 | the user's group document: key user + '/usergroup', type usergroup, the user as its only member |
| `Account.PermissionDoc` | infogami/infobase/account.py:16-22 | the permission document: everyone reads; the user's group writes and administers |
| `Account.MakeQuery` | infogami/infobase/account.py:10-25 | three documents, or TypeError exactly when the user has no string key |
| `Account.MakeQueryLinks` | infogami/infobase/account.py:10-25 | the group lists the user, the permission names the group, the user points at the permission, other fields unchanged |
| `Account.WithFieldsSets` | infogami/infobase/account.py:72 | a keyword argument of `dict(data, ...)` is what the copy holds under its name |
| `Account.WithFieldsKeeps` | infogami/infobase/account.py:72 | other fields of `data` keep their value |
| `Account.RegisterKeepsValid` | infogami/infobase/account.py:67 | registering a new key with a new email keeps accounts and the email index consistent |
| `Account.UpdateKeepsValid` | infogami/infobase/account.py:92 | updating an account's details keeps the store consistent |
| `Account.RegisterSaves` | infogami/infobase/account.py:58-66 | the user document and its group and permission are saved; TypeError when the data's key is not a string |
| `Account.AccountManager.constructor` | infogami/infobase/account.py:36-38 | the secret key and HMAC kept; empty site, store and session |
| `Account.AccountManager.CurrentUser` | infogami/infobase/account.py:190-200 | no session token gives no user |
| `Account.AccountManager.SetAuthToken` | infogami/infobase/account.py:202-206 | the session token is "key,time,salted digest", and from then on the current user is that key |
| `Account.AccountManager.CheckPassword` | infogami/infobase/account.py:217-222 | false without an account or for an inactive one; true exactly when the password's salted hash matches the stored one |
| `Account.AccountManager.GetUserEmail` | infogami/infobase/account.py:114-121 | admin only; the account's email, BadData when no account has that key |
| `Account.AccountManager.GetUserCode` | infogami/infobase/account.py:128-143 | admin only; succeeds exactly for a registered email, UserNotFound otherwise |
| `Account.AccountManager.CheckResetCode` | infogami/infobase/account.py:153-170 | ValueError without '$' or with a timestamp `int()` rejects (whitespace around the digits is skipped); BadData when expired, for an unknown user or a wrong code; success only for a registered user |
| `Account.AccountManager.ResetCodeRoundTrip` | infogami/infobase/account.py:128-170 | a code handed out for an email is accepted for that user exactly until a week after it was made |
| `Account.AccountManager.ResetPassword` | infogami/infobase/account.py:148-151 | with the store call corrected (see Findings): succeeds exactly when the code checks; then the new password is accepted and the account verified; otherwise nothing changes |
| `Account.ResetCallBinding` | infogami/infobase/account.py:151 | the store's `update_user_details(key, email, enc_password)` binds no call that passes `verified`, so `reset_password`'s call with `password` and `verified` cannot bind |
| `Account.AccountManager.ResetPasswordAsWritten` | infogami/infobase/account.py:148-151 | as written: the reset-code error when the code does not check, and otherwise always TypeError, with nothing stored |
| `Account.AccountManager.Login` | infogami/infobase/account.py:172-188 | 'admin' only from a trusted machine; with the right password the session names the user, who carries the stored bot/active/verified flags; otherwise nobody |
| `Account.AccountManager.Register1` | infogami/infobase/account.py:49-75 | BadData for an existing user or a used email, with nothing changed; otherwise the user, group, permission and account are stored, the event fired and the session set |
| `Account.AccountManager.Install` | infogami/infobase/account.py:70-73 | the site, store and events after the transaction are installed; the session is unchanged |
| `Account.AccountManager.Register` | infogami/infobase/account.py:40-47 | `register1` with a freshly salted hash, after which the password is accepted |
| `Account.AccountManager.UpdateUser` | infogami/infobase/account.py:77-96 | "Not logged in" without a user, "Invalid Password" for a wrong old password, nothing changed on error; otherwise the given email and password replace the old ones |
| `Account.UpdateCallBinding` | infogami/infobase/account.py:89-90 | the store's `update_user_details(key, email, enc_password)` accepts `email` and `enc_password` by keyword but not `password`, which `update_user1` passes |
| `Account.AccountManager.UpdateUserAsWritten` | infogami/infobase/account.py:77-90 | as written: the same "Not logged in" and "Invalid Password" errors, and otherwise always TypeError, since the store call names a parameter it does not have |
| `Account.AccountManager.EncPassword` | infogami/infobase/account.py:88 | a missing or empty password stays as it is; a given one becomes a valid salted hash of it |
| `Account.UserDoc` | infogami/infobase/account.py:61-62 | the key and type first, then the data over them; without its own key the document's key is the user's |
| `Account.RegisterEventData` | infogami/infobase/account.py:72 | the event data carries the username, email and encrypted password |
| `Account.UpdatedDetails` | infogami/infobase/account.py:91-102 | a given email and password replace the stored ones; the active, verified and bot flags are kept |
| `BulkUpload.SkipEmpty` | infogami/infobase/bulkupload.py:22-28 | the queries from the first non-empty one on; all of them when none is empty |
| `BulkUpload.SqlJoinStep` | infogami/infobase/bulkupload.py:24-27 | one more query is joined with a separator unless the result so far is empty |
| `BulkUpload.SqlJoin` | infogami/infobase/bulkupload.py:22-28 | the loop's result is the separator-join of the queries from the first non-empty one |
| `BulkUpload.Rendered` | infogami/infobase/bulkupload.py:33 | one decimal text per value, in order |
| `BulkUpload.SqlIn` | infogami/infobase/bulkupload.py:15-34 | "1 = 2" for no values, otherwise "name IN (v1, v2, ...)" |
| `BulkUpload.SqlInExample` | infogami/infobase/bulkupload.py:17-18 | the ids 1 to 4 render as "1, 2, 3, 4" |
| `BulkUpload.EscapeIsCharwise` | infogami/infobase/bulkupload.py:65-68 | because backslashes are replaced first, the four replacements escape each character on its own |
| `BulkUpload.EscapeTextRoundTrip` | infogami/infobase/bulkupload.py:61-69 | escaped text reads back as the original, holds no tab, newline or carriage return, and is never the null marker `\N` |
| `BulkUpload.DecodeEscapeCell` | infogami/infobase/bulkupload.py:61-73 | every cell (None, text, bool, number) reads back as the text it stands for and holds no separator |
| `BulkUpload.Fields` | infogami/infobase/bulkupload.py:108 | one field per column |
| `BulkUpload.Lines` | infogami/infobase/bulkupload.py:105-108 | one line per row |
| `BulkUpload.CopyLineRoundTrip` | infogami/infobase/bulkupload.py:108 | one COPY line reads back as the row's column texts and holds no newline |
| `BulkUpload.CopyRoundTrip` | infogami/infobase/bulkupload.py:105-111 | the COPY file reads back row by row and column by column |
| `BulkUpload.IdSeq` | infogami/infobase/bulkupload.py:90-91 | the table's own sequence name, `<table>_id_seq` |
| `BulkUpload.IdRange` | infogami/infobase/bulkupload.py:99 | n consecutive ids from the start |
| `BulkUpload.WithIds` | infogami/infobase/bulkupload.py:100-101 | one row per value |
| `BulkUpload.MultipleInsert` | infogami/infobase/bulkupload.py:59-113 | no values insert nothing; without a sequence no ids; with a sequence the rows get ids drawn from it; a missing sequence is an error |
| `BulkUpload.AssignIds` | infogami/infobase/bulkupload.py:100-101 | the loop sets each row's id to start + its position |
| `BulkUpload.WriteRows` | infogami/infobase/bulkupload.py:105-108 | the loop computes `Written`: the COPY lines, or the AssertionError |
| `BulkUpload.Written` | infogami/infobase/bulkupload.py:105-113 | an AssertionError exactly when some row's keys are not the table's columns |
| `BulkUpload.MultipleInsertIds` | infogami/infobase/bulkupload.py:96-101 | ids are consecutive from one past the sequence's last value, in row order, each row carries its id, and the sequence advances by the number of rows |
| `BulkUpload.KeyMatchesAsWrittenAdmitsNewline` | infogami/infobase/bulkupload.py:187 | the regular expression as written accepts "/a\n", which the intended check rejects |
| `BulkUpload.KeyMatchesSound` | infogami/infobase/bulkupload.py:187 | the intended check accepts only what the written one accepts, differing only on a trailing newline; accepted keys hold no space, tab or newline |
| `BulkUpload.KeysOf` | infogami/infobase/bulkupload.py:179-191 | with the corrected key check (see Findings): every key collected matches the pattern, and a dict's own key comes first; a key may be any string-like value (`str`, `Text` or `Reference`) |
| `BulkUpload.Then` | infogami/infobase/bulkupload.py:184-190 | the keys of the first walk then the second; the first error stops the walk |
| `BulkUpload.KeysOfList` | infogami/infobase/bulkupload.py:184-185 | with the corrected key check (see Findings): every key collected from a list matches the pattern |
| `BulkUpload.KeysOfEntries` | infogami/infobase/bulkupload.py:189-190 | with the corrected key check (see Findings): every key collected from a dict's values matches the pattern |
| `BulkUpload.FindKeys` | infogami/infobase/bulkupload.py:179-191 | with the corrected key check (see Findings): the recursive method appends exactly what `KeysOf` collects, or stops with its error |
| `BulkUpload.FindKeysList` | infogami/infobase/bulkupload.py:184-185 | with the corrected key check (see Findings): the list loop appends what `KeysOfList` collects |
| `BulkUpload.FindKeysEntries` | infogami/infobase/bulkupload.py:189-190 | with the corrected key check (see Findings): the dict loop appends what `KeysOfEntries` collects |
| `BulkUpload.CreatesOf` | infogami/infobase/bulkupload.py:193-209 | comments are only added, and every created key found has its comments noted; keys and types that are `Text` or `Reference` count as strings |
| `BulkUpload.CreatesOfList` | infogami/infobase/bulkupload.py:199-201 | the list keeps its length; comments noted for every key found |
| `BulkUpload.CreatesOfEntries` | infogami/infobase/bulkupload.py:205 | the dict keeps its keys in order; comments noted for every key found |
| `BulkUpload.CreatesPopsComments` | infogami/infobase/bulkupload.py:203-208 | a created dict contributes its key first and loses its comment and machine_comment |
| `BulkUpload.Tag` | infogami/infobase/bulkupload.py:234 | a typed value is tagged with its type's code, and an error exactly for an unknown type |
| `BulkUpload.Scalar` | infogami/infobase/bulkupload.py:252-261 | a bool is stored as 0 or 1 with the boolean code; strings (`str`, `Text` and `Reference` alike), ints and floats are kept with their codes; other values, a `long` beyond `sys.maxint` included, are "invalid value" |
| `BulkUpload.ScalarAsWritten` | infogami/infobase/bulkupload.py:252-261 | `prepare_datum` on a non-dict as written: text is /type/string, an int within `sys.maxint` and a bool /type/int, a float /type/float, and anything else (a `long` too) the TypeError of the string call; stated by `BulkUpload.ScalarAsWrittenTagsBoolAsInt` |
| `BulkUpload.LookupError` | infogami/infobase/bulkupload.py:234-236 | a failed `TYPES[...]` or `key2id[...]` is a TypeError exactly for an unhashable list or dict, else a KeyError |
| `BulkUpload.DatumLookupErrors` | infogami/infobase/bulkupload.py:233-236 | a list or dict 'type' of a typed value, or 'key' of a thing, is a TypeError; a missing 'type' and a non-text hashable 'key' are KeyErrors; nothing is appended or removed |
| `BulkUpload.ScalarAsWrittenTagsBoolAsInt` | infogami/infobase/bulkupload.py:254-261 | as written, a bool is kept as a bool with the int code, and None raises TypeError instead of the intended message |
| `BulkUpload.DatumOf` | infogami/infobase/bulkupload.py:217-261 | with the corrected `Scalar` (see Findings): rows are only appended and created keys only removed; a `Text` or `Reference` key or type counts as a string; stated further by `BulkUpload.DatumLookupErrors` |
| `BulkUpload.DatumEntries` | infogami/infobase/bulkupload.py:239-250 | with the corrected `Scalar` (see Findings): rows only appended; the 'key' entry gets datatype 1 |
| `BulkUpload.DatumItems` | infogami/infobase/bulkupload.py:242-245 | with the corrected `Scalar` (see Findings): rows only appended |
| `BulkUpload.DatumOnce` | infogami/infobase/bulkupload.py:236-251 | with the corrected `Scalar` (see Findings): a thing's rows are emitted once: walking its dict again changes nothing |
| `BulkUpload.ItemRows` | infogami/infobase/bulkupload.py:243-245 | one row per list item |
| `BulkUpload.DatumItemsOrdering` | infogami/infobase/bulkupload.py:243-245 | with the corrected `Scalar` (see Findings): a list of scalars appends exactly one row per item, ordered by its position |
| `BulkUpload.DatumTable` | infogami/infobase/bulkupload.py:222-230 | one datum-table row per row collected |
| `BulkUpload.ToBeCreated` | infogami/infobase/bulkupload.py:164-165 | exactly the keys found that the key cache does not know, once each |
| `BulkUpload.Filter` | infogami/infobase/bulkupload.py:165 | exactly the keys that the key cache does not know, without repetition |
| `BulkUpload.Drawn` | infogami/infobase/bulkupload.py:75-80 | the same sequences exist after the draw as before |
| `BulkUpload.LoadedNone` | infogami/infobase/bulkupload.py:87-88 | an insert of no rows returns no ids and loads nothing |
| `BulkUpload.LoadedSome` | infogami/infobase/bulkupload.py:96-113 | a successful insert with the table's own sequence returns consecutive ids and loads the rows |
| `BulkUpload.ThingRows` | infogami/infobase/bulkupload.py:168-169 | one thing row per key, carrying that key |
| `BulkUpload.VersionRows` | infogami/infobase/bulkupload.py:175-176 | one version row per key |
| `BulkUpload.ThingsCreatedHolds` | infogami/infobase/bulkupload.py:167-177 | thing rows loaded, their ids registered, then version rows loaded, is what creating the things means |
| `BulkUpload.NotedKeys` | infogami/infobase/bulkupload.py:175-208 | every created key has both its comments noted |
| `BulkUpload.DatumTop` | infogami/infobase/bulkupload.py:213-214 | with the corrected `Scalar` (see Findings): rows only appended |
| `BulkUpload.BulkUpload.constructor` | infogami/infobase/bulkupload.py:137-147 | site, author, time and key cache kept; no comments and nothing created |
| `BulkUpload.BulkUpload.FindCreates` | infogami/infobase/bulkupload.py:193-209 | the method appends what `CreatesOf` finds and notes and pops the comments it describes |
| `BulkUpload.BulkUpload.FindCreatesList` | infogami/infobase/bulkupload.py:199-201 | the list loop does what `CreatesOfList` describes |
| `BulkUpload.BulkUpload.FindCreatesDict` | infogami/infobase/bulkupload.py:203-208 | a created dict does what `CreatesOf` describes |
| `BulkUpload.BulkUpload.FindCreatesEntries` | infogami/infobase/bulkupload.py:205 | the walk over a created dict's values does what `CreatesOfEntries` describes |
| `BulkUpload.BulkUpload.PrepareDatum` | infogami/infobase/bulkupload.py:217-261 | with the corrected `Scalar` (see Findings): the method's value, rows and created set are those `DatumOf` computes, lookup errors included |
| `BulkUpload.BulkUpload.PrepareEntries` | infogami/infobase/bulkupload.py:239-250 | the entries loop does what `DatumEntries` computes |
| `BulkUpload.BulkUpload.PrepareItems` | infogami/infobase/bulkupload.py:243-245 | the items loop does what `DatumItems` computes |
| `BulkUpload.BulkUpload.Insert` | infogami/infobase/bulkupload.py:59-113 | the sequences advance as `Drawn` says and the rows are loaded as `Loaded` says |
| `BulkUpload.LoadedResult` | infogami/infobase/bulkupload.py:87-113 | a load allows exactly one result, the one `InsertResult` gives (no ids for no rows, ProgrammingError for a missing sequence, AssertionError for a row whose columns are not the table's); a failed load adds nothing |
| `BulkUpload.InsertNoSeq` | infogami/infobase/bulkupload.py:96-103 | an insert without a sequence returns the same whatever the sequences are |
| `BulkUpload.Assigned` | infogami/infobase/bulkupload.py:171-172 | the cache after the loop holds exactly the old keys and the new ones |
| `BulkUpload.AssignedRegistered` | infogami/infobase/bulkupload.py:171-172 | binding distinct new keys in turn keeps every old entry and binds key i to start + i |
| `BulkUpload.AssignedKeeps` | infogami/infobase/bulkupload.py:171-172 | binding new keys keeps every old entry |
| `BulkUpload.AssignedIds` | infogami/infobase/bulkupload.py:171-172 | distinct keys bound in turn get start + their position |
| `BulkUpload.BulkUpload.Register` | infogami/infobase/bulkupload.py:171-172 | each new key enters the cache with its id: the cache becomes `Assigned` of the old one |
| `BulkUpload.BulkUpload.CreatesError` | infogami/infobase/bulkupload.py:167-176 | nothing to create never fails |
| `BulkUpload.BulkUpload.ProcessInserts` | infogami/infobase/bulkupload.py:211-215 | the datum rows of all top-level queries are loaded in one insert without a sequence, which draws no ids, or the first error leaves the database as it was; once the walk succeeds, the error is exactly the datum insert's |
| `BulkUpload.BulkUpload.ProcessCreates` | infogami/infobase/bulkupload.py:162-177 | a bad key stops everything unchanged, and so does a rejected create dict; otherwise comments are noted and the error is exactly that of the thing insert, else of the version insert (`CreatesError`); on success the new keys' things and versions are created and the cache is `Assigned` |
| `BulkUpload.BulkUpload.CreateThings` | infogami/infobase/bulkupload.py:167-176 | the error is exactly the thing insert's, else the version insert's, made with the new ids cached; on success the thing and version rows of the new keys are loaded and their ids cached; known keys keep their ids |
| `BulkUpload.BulkUpload.CreateNothing` | infogami/infobase/bulkupload.py:167-176 | with nothing to create both inserts load nothing |
| `BulkUpload.BulkUpload.InsertThings` | infogami/infobase/bulkupload.py:167-172 | the error is exactly the thing insert's, and on it the cache and loads are unchanged; on success the thing rows are loaded and their consecutive ids cached; the thing sequence advances either way |
| `BulkUpload.BulkUpload.CreateVersions` | infogami/infobase/bulkupload.py:174-176 | the error is exactly the version insert's, and on it nothing more is loaded; on success one version row per new key, completing what creating the things means |
| `BulkUpload.BulkUpload.InsertsDone` | infogami/infobase/bulkupload.py:149-160 | once the creates succeeded, the upload's error is the data walk's or the datum insert's, and a success is `Uploaded` |
| `BulkUpload.BulkUpload.InsertAfterCreates` | infogami/infobase/bulkupload.py:155-160 | the `process_inserts` half ends with `UploadError` and, on success, `Uploaded` |
| `BulkUpload.BulkUpload.Upload` | infogami/infobase/bulkupload.py:149-160 | the error is exactly `UploadError`: a bad key, else a rejected create dict, else the thing or version insert's, else the data walk's, else the datum insert's, and none otherwise; on success every key was valid, each new key got its thing and first version in the thing and version loads, the data walk over the query succeeded from those keys and its rows are the one datum load after them; on failure nothing is loaded (rolled back); known keys keep their ids |
| `Helpers.RenderSnoc` | infogami/core/helpers.py:42-46 | extending a path appends its separator ('.' for a key, '#' for an index) and name to the compound key |
| `Helpers.Leaves` | infogami/core/helpers.py:38-46 | a dictionary's leaves start with a key step, a list's with an index step, and no leaf is a container |
| `Helpers.EntryLeaves` | infogami/core/helpers.py:39-46 | each leaf path starts with the key it came from; no leaf is a container |
| `Helpers.ItemLeaves` | infogami/core/helpers.py:43-44 | each leaf path starts with an index at least the first one; no leaf is a container |
| `Helpers.Below` | infogami/core/helpers.py:42-44 | the same leaves with the path prefixed |
| `Helpers.Keyed` | infogami/core/helpers.py:46 | each leaf is visited under the compound key of its path |
| `Helpers.PutAllFresh` | infogami/core/helpers.py:48-49 | with keys that never repeat, `d2[k] = v` only appends |
| `Helpers.ChildKey` | infogami/core/helpers.py:42-46 | the key `traverse` builds for a child is the compound key of the child's path |
| `Helpers.ScalarVisit` | infogami/core/helpers.py:45-46 | a scalar is visited once, under its own key |
| `Helpers.Traverse` | infogami/core/helpers.py:38-46 | the recursive walk writes every leaf under its compound key, in iteration order |
| `Helpers.TraverseEntries` | infogami/core/helpers.py:39-46 | the loop over a dictionary writes the leaves of its entries in order |
| `Helpers.TraverseItems` | infogami/core/helpers.py:43-44 | the loop over a list writes the leaves of its items, keyed by index |
| `Helpers.Visit` | infogami/core/helpers.py:40-46 | one child: a container is walked below its key, a scalar written under it |
| `Helpers.Flatten` | infogami/core/helpers.py:30-53 | `flatten(d)` is the dictionary of the leaves' compound keys |
| `Helpers.Flat` | infogami/core/helpers.py:30-53 | the result of `flatten`, every leaf under its compound key, is a dictionary: no key twice |
| `Helpers.PutAllUnique` | infogami/core/helpers.py:30-53 | setting keys one after another on a dictionary leaves no key twice |
| `Helpers.KeyIndex` | infogami/core/helpers.py:77 | the position of the first entry with the key, None exactly when there is none |
| `Helpers.DictSetDefault` | infogami/core/helpers.py:77 | `d.setdefault(k, v)` keeps an existing entry and its position, or appends (k, v) |
| `Helpers.Padded` | infogami/core/helpers.py:88-90 | the list padded with None up to the size, its items unchanged |
| `Helpers.ListSetDefault` | infogami/core/helpers.py:92-97 | ValueError for an index `int()` rejects (whitespace around the digits is skipped); otherwise padded to index + 1 and the slot filled only when it holds None |
| `Helpers.BetterList.constructor` | infogami/core/helpers.py:85-86 | the list holds the given items |
| `Helpers.BetterList.Fill` | infogami/core/helpers.py:88-90 | the loop pads the list with None up to the size |
| `Helpers.BetterList.SetDefault` | infogami/core/helpers.py:92-97 | the method does what `ListSetDefault` states and returns the slot's value; on error the list is unchanged |
| `Helpers.SetPath` | infogami/core/helpers.py:65-77 | a container stays the same kind of container; a non-container is returned unchanged |
| `Helpers.KeySteps` | infogami/core/helpers.py:70-77 | every key gives at least one step |
| `Helpers.Unflatten` | infogami/core/helpers.py:56-82 | the loop sets each entry's compound key in turn into an empty dictionary |
| `Helpers.Defaults` | infogami/core/helpers.py:72-75 | one step per path element |
| `Helpers.KeyStepsRender` | infogami/core/helpers.py:42-75 | the compound key of a path with plain names splits back into that path's steps |
| `Helpers.RenderInjective` | infogami/core/helpers.py:42-46 | distinct plain paths have distinct compound keys |
| `Helpers.LeavesDistinct` | infogami/core/helpers.py:38-46 | no two leaves of a sound document share a path |
| `Helpers.KeyedUnique` | infogami/core/helpers.py:30-53 | the keys `flatten` writes for a sound dictionary are pairwise distinct |
| `Helpers.ListSetDefaultNext` | infogami/core/helpers.py:92-97 | `setdefault(str(n), v)` on a list of n items appends v |
| `Helpers.ListSetDefaultLast` | infogami/core/helpers.py:92-97 | `setdefault(str(n), v)` on a list whose item n is set returns that item |
| `Helpers.BuildValue` | infogami/core/helpers.py:65-77 | rebuilding a sound container's own leaves into an empty one of its kind gives it back |
| `Helpers.UnflattenFlatten` | infogami/core/helpers.py:56-63 | `unflatten(flatten(d)) == d` for every sound dictionary |
| `Helpers.TrimClean` | infogami/core/helpers.py:106-148 | what `trim` returns holds nothing falsy at any depth |
| `Helpers.TrimFixed` | infogami/core/helpers.py:106-148 | `trim` leaves a clean value as it is |
| `Helpers.TrimIdempotent` | infogami/core/helpers.py:106-148 | trimming twice is trimming once |
| `Helpers.TrimEntriesGet` | infogami/core/helpers.py:132-141 | a trimmed dictionary holds exactly the keys whose trimmed value is truthy, with that value |
| `Helpers.Trim` | infogami/core/helpers.py:106-148 | a list stays a list and a dictionary a dictionary, neither longer than before; any other value is returned as it is |
| `Helpers.NoKeyTrim` | infogami/core/helpers.py:132-141 | trimming adds no key |
| `Helpers.SubDictGet` | infogami/core/helpers.py:151-159 | a key is in the sub-dictionary exactly when it was requested and `d` has it, with `d`'s value |
| `Helpers.SubDict` | infogami/core/helpers.py:151-159 | no more entries than keys requested |
| `InfobaseUtils.ParseInts` | infogami/infobase/utils.py:20 | `map(int, tokens)`: every token's number, or None exactly when some token is not a number |
| `InfobaseUtils.MakeDateTime` | infogami/infobase/utils.py:20 | TypeError for fewer than three or more than seven numbers; otherwise a valid datetime whose fields are the numbers, zero-filled; ValueError exactly when no valid datetime has those fields |
| `InfobaseUtils.ParseDatetime` | infogami/infobase/utils.py:9-20 | a datetime passes through; text yields a valid datetime or an error |
| `InfobaseUtils.ParseIsoFormat` | infogami/infobase/utils.py:9-20 | `parse_datetime(t.isoformat()) == t` for every valid datetime, with or without microseconds |
| `InfobaseUtils.IsoNumbers` | infogami/infobase/utils.py:19-20 | the numbers `isoformat()` writes, split at - T : . and space, are the datetime's fields |
| `InfobaseUtils.IsoTextsParse` | infogami/infobase/utils.py:19-20 | each zero-padded field `isoformat()` writes reads back through `int()` as the field it was written from |
| `InfobaseUtils.ParseBoolean` | infogami/infobase/utils.py:22-23 | true only for a one- or four-character value, and for "1" and "true" in any case |
| `InfobaseUtils.ParseBooleanCaseless` | infogami/infobase/utils.py:23 | letter case does not matter |
| `InfobaseUtils.DictDiff` | infogami/infobase/utils.py:25-39 | `same` holds the keys of d1 whose value d2 has too; left and right are the other keys of d1 and d2 |
| `InfobaseUtils.DictDiffSelf` | infogami/infobase/utils.py:25-39 | a dictionary compared with itself has no changes |
| `InfobaseUtils.DictDiffSwap` | infogami/infobase/utils.py:25-39 | without None values, swapping the arguments swaps left and right and keeps `same` |
| `InfobaseUtils.Leaves` | infogami/infobase/utils.py:93-107 | the flattened list holds no list |
| `InfobaseUtils.LeavesFlat` | infogami/infobase/utils.py:93-107 | a list without nested lists is its own flattening |
| `InfobaseUtils.FlattenIdempotent` | infogami/infobase/utils.py:93-107 | flattening twice is flattening once |
| `InfobaseUtils.Flatten` | infogami/infobase/utils.py:93-107 | the recursive method appends the leaves, left to right, to the result |
| `InfobaseUtils.FlatItems` | infogami/infobase/utils.py:115-124 | no emitted value is a list or dict |
| `InfobaseUtils.FlatItemsUnder` | infogami/infobase/utils.py:115-124 | every item below a key is named by that key (without its leading '.') or an extension of it |
| `InfobaseUtils.FlattenDict` | infogami/infobase/utils.py:109-127 | the recursive walk appends exactly `FlatItems`' pairs |
| `InfobaseUtils.Truncate` | infogami/infobase/utils.py:139-140 | Python's `int()` of a float: the integer part, toward zero (at most the float when it is not negative, at least it when it is negative, less than one away) |
| `InfobaseUtils.SafeInt` | infogami/infobase/utils.py:129-142 | an int is itself; text is the number `int()` reads in it once whitespace is skipped; None, a list, a dict or text that is not a number give the default |
| `InfobaseUtils.SafeIntOfString` | infogami/infobase/utils.py:129-142 | `safeint(str(n), d) == n` |
| `InfobaseUtils.SafeIntPadded` | infogami/infobase/utils.py:129-142 | `int()` skips whitespace: `safeint(" 42\n", d) == 42` for any number and any whitespace around it |
| `Strings.ParseIntStripped` | infogami/infobase/utils.py:140 | `int(s)` on a byte string is the signed decimal literal left once whitespace is stripped from both ends |
| `Storage.FirstIndex` | infogami/utils/storage.py:39 | the position of the first occurrence, which `list.remove` drops |
| `Storage.RemoveFirst` | infogami/utils/storage.py:39 | one element shorter |
| `Storage.RemoveFirstDistinct` | infogami/utils/storage.py:37-39 | removing the only occurrence of a key from a list without repeats leaves exactly the other keys, still without repeats |
| `Storage.OrderedDict.constructor` | infogami/utils/storage.py:25-27 | no keys and no data |
| `Storage.OrderedDict.SetItem` | infogami/utils/storage.py:29-32 | the value is stored; a new key goes at the end of the order, an existing one keeps its place |
| `Storage.OrderedDict.GetItem` | infogami/utils/storage.py:34-35 | the stored value, KeyError exactly for a missing key |
| `Storage.OrderedDict.DelItem` | infogami/utils/storage.py:37-39 | KeyError and no change for a missing key; otherwise the key leaves both the data and the order |
| `Storage.OrderedDict.Keys` | infogami/utils/storage.py:41-42 | the keys in the order first added, exactly those with data |
| `Storage.OrderedDict.Copy` | infogami/utils/storage.py:44-48 | a new dictionary with the same order and contents |
| `Storage.ResetKeepsOrder` | infogami/utils/storage.py:17-32 | setting a key that is already there does not change the order |
| `Storage.CopyIsIndependent` | infogami/utils/storage.py:44-48 | a copy does not change when the original does |
| `Storage.DefaultDict.constructor` | infogami/utils/storage.py:64-81 | `self.default = default` goes through `__setattr__`, so the new dictionary holds one item, "default" |
| `Storage.DefaultDict.GetItem` | infogami/utils/storage.py:67-72 | a present key's value; a missing key is set to the current item "default", which is returned |
| `Storage.DefaultDict.GetAttr` | infogami/utils/storage.py:74-79 | names starting with "__" raise AttributeError and change nothing; others are item lookups, a miss storing the item "default" |
| `Storage.DefaultDict.SetAttr` | infogami/utils/storage.py:81 | `d.key = value` stores the item, "default" included |
| `Storage.DefaultDict.Copy` | infogami/utils/storage.py:83-86 | a new dictionary with the same items, the default among them |
| `Storage.MissThenHit` | infogami/utils/storage.py:55-72 | reading a missing key twice gives the item "default" both times and leaves it stored |
| `Storage.NewDefault` | infogami/utils/storage.py:60-81 | after `d.default = v` a missing key reads as v |
| `View.KeyEncode` | utils/view.py:5 | same length, no spaces left |
| `View.KeyDecode` | utils/view.py:6 | same length, no underscores left |
| `View.KeyRoundTrip` | utils/view.py:5-6 | decoding an encoded name gives it back exactly when the name has no underscore |
| `View.LineOf` | utils/view.py:40 | what `(.*)$` captures: the tail without newline, or without its one final newline |
| `View.MatchStatic` | utils/view.py:40-45 | a match means "static/" + plugin + "/" + rest, the plugin holding no '/' |
| `View.StaticResource` | utils/view.py:39-56 | not found unless the path matches; a file only when it exists, under core/static for 'core' and plugins/<p>/static otherwise |
| `View.StaticRoundTrip` | utils/view.py:33-45 | the resource path of a plugin's file routes back to that plugin and file |
| `View.Stylesheets.constructor` | utils/view.py:34 | no stylesheets yet |
| `View.Stylesheets.Add` | utils/view.py:32-34 | "<homepath>/static/<plugin>/<path>" is appended |
| `I18n.FindNamespaceOf` | infogami/utils/i18n.py:14-22 | the namespace of "/i18n<ns>/<file>" is ns, or "/" at the top level |
| `I18n.DirNameOf` | infogami/utils/i18n.py:22 | the directory of "<ns>/<file>" is ns, or "/" when ns is empty |
| `I18n.DirStrip` | infogami/utils/i18n.py:175-181 | the directory prefix removed, then one leading '/' |
| `I18n.DirStripRelative` | infogami/utils/i18n.py:175-181 | a file under a directory comes back relative to it, with or without the separating '/' |
| `I18n.ParsePath` | infogami/utils/i18n.py:199-203 | the namespace is "/" followed by the directory; the language holds no '.' or '/' |
| `I18n.RequestLang` | infogami/utils/i18n.py:152-161 | the `lang` query parameter first, then the HTTP_LANG cookie, then the Accept-Language header, else "" |
| `I18n.HeaderLang` | infogami/utils/i18n.py:133-143 | at most two characters, a prefix of the header, holding no comma |
| `I18n.Translations.constructor` | infogami/utils/i18n.py:26-27 | no tables |
| `I18n.Translations.Count` | infogami/utils/i18n.py:38-40 | the size of the table of the namespace and language, the default language standing for a missing one, 0 for no table |
| `I18n.Translations.SetStrings` | infogami/utils/i18n.py:59-62 | the table is replaced |
| `I18n.Translations.UpdateStrings` | infogami/utils/i18n.py:64-67 | the table exists afterwards, holds the new entries, and keeps the old entries not overwritten |
| `I18n.Translations.GetKeys` | infogami/utils/i18n.py:45-57 | sorted, each once: the keys of the language's table and of the default language's |
| `I18n.Translations.Namespaces` | infogami/utils/i18n.py:32-33 | every namespace with a table, sorted, each once |
| `I18n.Translations.Languages` | infogami/utils/i18n.py:35-36 | every language with a table, sorted, each once |
| `I18n.Translations.Render` | infogami/utils/i18n.py:107-114 | the text of the current language, else of the default language, else the key itself; a translation is never empty |
| `I18n.SortedSet` | infogami/utils/i18n.py:33-57 | sorted, each once, exactly the set's elements |
| `I18n.SetThenRender` | infogami/utils/i18n.py:59-114 | a table just set is what a string in that language renders from |
| `I18n.RenderFallsBack` | infogami/utils/i18n.py:111-113 | the default language's text is the fallback for every language without one |
| `I18nPlugin.Stringify` | infogami/plugins/i18n/code.py:47-53 | every key gets the "string_" prefix, with its value, and nothing else is in the result |
| `I18nPlugin.PrefixCancels` | infogami/plugins/i18n/code.py:53-61 | the prefix can be taken off again, so prefixing is one-to-one |
| `I18nPlugin.Unstringify` | infogami/plugins/i18n/code.py:55-61 | exactly the prefixed keys, without their prefix, with their values |
| `I18nPlugin.UnstringifyStringify` | infogami/plugins/i18n/code.py:47-61 | unprefixing what was prefixed gives the dictionary back |
| `I18nPlugin.StringifyUnstringify` | infogami/plugins/i18n/code.py:47-61 | prefixing what was unprefixed keeps exactly the prefixed entries |
| `I18nPlugin.PathJoin` | infogami/plugins/i18n/code.py:63-77 | the loop computes the join of the components, a leading '/' of each stripped and one '/' inserted as needed |
| `I18nPlugin.PathJoinPlain` | infogami/plugins/i18n/code.py:69-77 | joining plain components onto a path not ending in '/' puts exactly one '/' before each |
| `I18nPlugin.PathJoinExample` | infogami/plugins/i18n/code.py:66-67 | "/i18n" joined with "/type/type" and "strings.en" is "/i18n/type/type/strings.en" |
| `I18nPlugin.JoinOneLeadingSlash` | infogami/plugins/i18n/code.py:71-72 | a leading '/' on a component does not change the result |
| `I18nPlugin.MatchStrings` | infogami/plugins/i18n/code.py:17-36 | a match starts with "/i18n"; the namespace is "/" or starts with '/', the language holds no '/' |
| `I18nPlugin.MatchStringsOf` | infogami/plugins/i18n/code.py:17-36 | every page "/i18n<ns>/strings.<lang>" matches with its namespace and language |
| `I18nPlugin.MatchAgreesWithFindNamespace` | infogami/plugins/i18n/code.py:33-36 | on the pages the plugin loads, the namespace read from the key is the one `find_i18n_namespace` gives |
| `I18nPlugin.Load` | infogami/plugins/i18n/code.py:32-37 | a strings page replaces its namespace and language's table with its unprefixed data; any other page changes nothing |
| `WikiTemplates.ProcessKey` | infogami/plugins/wikitemplates/code.py:36-44 | a type template "type/..." lives at its name + ".tmpl", any other at "templates/" + name + ".tmpl" |
| `WikiTemplates.UnprocessProcess` | infogami/plugins/wikitemplates/code.py:36-49 | every template name comes back from the page that holds it |
| `WikiTemplates.UnprocessKeyCollides` | infogami/plugins/wikitemplates/code.py:46-49 | "templates/type/a.tmpl" and "type/a.tmpl" both read back as "type/a", so the page name does not round-trip |
| `WikiTemplates.MacroProcessKey` | infogami/plugins/wikitemplates/code.py:52-54 | macro "foo" lives at "macros/foo" |
| `WikiTemplates.MacroUnprocessKey` | infogami/plugins/wikitemplates/code.py:56-57 | "macros/" removed when present, the page unchanged otherwise |
| `WikiTemplates.MacroRoundTrip` | infogami/plugins/wikitemplates/code.py:52-57 | every macro name comes back from its page |
| `WikiTemplates.Root` | infogami/plugins/wikitemplates/code.py:23-68 | "" for the wiki; for a user, the template-root preference exactly when it is set and not blank |
| `WikiTemplates.GetItem` | infogami/plugins/wikitemplates/code.py:26-31 | KeyError without a root; otherwise the template stored at root + processed key, KeyError exactly when none is |
| `WikiTemplates.Keys` | infogami/plugins/wikitemplates/code.py:33-34 | one name per stored page |
| `WikiTemplates.StoredTemplateListed` | infogami/plugins/wikitemplates/code.py:26-34 | a template stored under its processed name is listed under its name and found by it |
| `WikiTemplates.NoRootNoTemplate` | infogami/plugins/wikitemplates/code.py:26-68 | a user source without a usable root finds nothing, whatever is stored |
| `WikiTemplates.WikiName` | infogami/plugins/wikitemplates/code.py:186-188 | the name without its extension, between the prefix and the suffix |
| `WikiTemplates.WikiNameOfFile` | infogami/plugins/wikitemplates/code.py:186-188 | "name.html" becomes prefix + name + suffix |
| `WikiTemplates.GetTitle` | infogami/plugins/wikitemplates/code.py:152-158 | "name template" for a regular template |
| `WikiTemplates.GetTitleOfType` | infogami/plugins/wikitemplates/code.py:153-155 | "yyy template for type/xxx" for the type template type/xxx/yyy |
| `WikiTemplates.MovedTemplateFound` | infogami/plugins/wikitemplates/code.py:161-166 | a moved disk template (its name is a file name without ".html", so without '.') is found under its own name unless its name starts with "type" without "type/" |
| `WikiTemplates.MovedTemplateMisplaced` | infogami/plugins/wikitemplates/code.py:162-166 | a disk template named "type..." but not "type/..." (typeahead, say) is moved to a page `process_key` never looks at |
| `WikiTemplates.IntendedTemplateFound` | infogami/plugins/wikitemplates/code.py:41-166 | with the "type/" test every moved disk template (a name without '.') is found again under its own name |
| `WikiTemplates.MovedMacroFound` | infogami/plugins/wikitemplates/code.py:179-180 | a moved disk macro (a name without '.') is found again under its own name |
| `WikiTemplates.SplitExtOf` | infogami/plugins/wikitemplates/code.py:187 | the extension split off "base.ext" is ".ext" when the base has no dot in its last component |
| `ThingUtil.DefaultValue` | infogami/core/thingutil.py:97-102 | 0 for type/int, False for type/boolean, '' for every other type |
| `ThingUtil.ToInt` | infogami/core/thingutil.py:86 | integers unchanged, booleans as 0/1, text exactly when its stripped form is a signed decimal numeral, ValueError otherwise |
| `ThingUtil.PrimitiveValue` | infogami/core/thingutil.py:81-95 | type/int through `int`, type/string and type/text through `str`, type/boolean false exactly for "false" in any case, other types unchanged |
| `ThingUtil.PrimitiveValueIdempotent` | infogami/core/thingutil.py:81-95 | converting a converted value again changes nothing |
| `ThingUtil.IntTextRoundTrip` | infogami/core/thingutil.py:86 | an integer's decimal text converts back to the integer |
| `ThingUtil.BooleanText` | infogami/core/thingutil.py:82-83 | "False" gives False, while "0" and "" give True |
| `ThingUtil.FilledValue` | infogami/core/thingutil.py:48-63 | missing: the type's default (unique) or [] (multiple); a list for a unique property becomes its first element or the default; an atom for a multiple property becomes a one-element list |
| `ThingUtil.FilledValueIdempotent` | infogami/core/thingutil.py:48-63 | filling a flat value twice changes nothing |
| `ThingUtil.FillOneAsWritten` | infogami/core/thingutil.py:51-53 | a missing unique property gets `default_value` of the property itself rather than of its type |
| `ThingUtil.FillOneAsWrittenDefaultsToText` | infogami/core/thingutil.py:51-53 | a missing unique type/int property is filled with '' rather than 0 |
| `ThingUtil.FillSpecAt` | infogami/core/thingutil.py:48-63 | with distinct names, the keys become the old keys plus the property names, each property holds its filled value and every other entry is unchanged |
| `ThingUtil.FillSpecIdempotent` | infogami/core/thingutil.py:48-63 | filling twice fills nothing more |
| `ThingUtil.Stripped` | infogami/core/thingutil.py:15-18 | exactly the entries whose names do not start with '_', with their values |
| `ThingUtil.ProcessProperty` | infogami/core/thingutil.py:27-41 | lists element by element with their length kept; primitive values through `primitive_value`; references kept; a name becomes a reference to the thing of that name; a number or boolean for a non-primitive raises |
| `ThingUtil.ProcessItems` | infogami/core/thingutil.py:28-29 | succeeds exactly when every element does, each result at its own position |
| `ThingUtil.TextListUnchanged` | infogami/core/thingutil.py:27-31 | a list of texts for a text property comes back unchanged |
| `ThingUtil.ProcessAllStops` | infogami/core/thingutil.py:43-46 | once a property raises, the later ones change nothing |
| `ThingUtil.ProcessAllAt` | infogami/core/thingutil.py:43-46 | with no error and distinct names, each present property holds its processed value and the keys are unchanged |
| `ThingUtil.ProcessAllKeys` | infogami/core/thingutil.py:43-46 | processing keeps the keys and leaves the entries of other names alone |
| `ThingUtil.ProcessAllOk` | infogami/core/thingutil.py:43-46 | with distinct names, processing succeeds exactly when every present property processes without error |
| `ThingUtil.ProcessAllValues` | infogami/core/thingutil.py:43-46 | with distinct names, after a successful walk each present property holds its processed value |
| `ThingUtil.Thing.constructor` | infogami/core/thingutil.py:13-14 | a thing with the given data and type properties |
| `ThingUtil.Thing.StripUnderscore` | infogami/core/thingutil.py:15-18 | the thing's data becomes `Stripped` of the old data |
| `ThingUtil.Thing.FillMissingProperties` | infogami/core/thingutil.py:48-63 | the thing's data becomes the filled data of the old data |
| `ThingUtil.Thing.ProcessAllProperties` | infogami/core/thingutil.py:43-46 | the data and the outcome are those of processing the properties in order |
| `ThingUtil.Thing.Tidy` | infogami/core/thingutil.py:13-76 | strip, fill when asked, then process, in that order |
| `ThingUtil.TidyShape` | infogami/core/thingutil.py:13-76 | after a successful tidy with distinct names no entry other than a property starts with '_', every property is present and each multiple property holds a list |
| `ThingUtil.PropMap` | infogami/core/thingutil.py:119 | the properties by name, exactly the type's property names |
| `ThingUtil.PropMapDistinct` | infogami/core/thingutil.py:119 | with distinct names every property is found under its own name |
| `ThingUtil.DataGetAttr` | infogami/core/thingutil.py:121-132 | AttributeError exactly for an unknown name; otherwise the default of a unique primitive, a default thing of a unique non-primitive, [] for a multiple property |
| `ThingUtil.DataGetItemAsWritten` | infogami/core/thingutil.py:134-138 | KeyError exactly for an unknown name, and None for every known one, because the attribute is not returned |
| `ThingUtil.DataGetItem` | infogami/core/thingutil.py:134-138 | KeyError exactly for an unknown name; otherwise the attribute's value |
| `ThingUtil.DataGetAsWritten` | infogami/core/thingutil.py:140-144 | the default for an unknown name, None for every known one |
| `ThingUtil.DataGet` | infogami/core/thingutil.py:140-144 | the default for an unknown name, the attribute's value for a known one |
| `ThingUtil.DataGetAsWrittenLosesValue` | infogami/core/thingutil.py:132-144 | a multiple property reads as [] by attribute, but as None through `get` as written, and as [] through the corrected `get` |
| `CoreCode.EditTrim` | infogami/core/code.py:58-91 | None stays None; text is stripped; a list stays a list and a dictionary becomes a dictionary or None; a number or boolean raises AttributeError |
| `CoreCode.TrimList` | infogami/core/code.py:75-78 | no longer than the input, and every kept element is truthy |
| `CoreCode.TrimDict` | infogami/core/code.py:79-89 | no longer than the input, no empty value kept, no new key |
| `CoreCode.EditTrimTrimmed` | infogami/core/code.py:58-91 | whatever `trim` returns is already trimmed |
| `CoreCode.TrimListTrimmed` | infogami/core/code.py:75-78 | the list branch returns a trimmed list |
| `CoreCode.TrimDictTrimmed` | infogami/core/code.py:79-89 | the dictionary branch returns trimmed entries |
| `CoreCode.EditTrimFixed` | infogami/core/code.py:58-91 | `trim` leaves a trimmed value as it is |
| `CoreCode.TrimListFixed` | infogami/core/code.py:75-78 | a trimmed list comes back unchanged |
| `CoreCode.TrimDictFixed` | infogami/core/code.py:79-89 | trimmed entries come back unchanged |
| `CoreCode.EditTrimIdempotent` | infogami/core/code.py:58-91 | trimming twice is trimming once |
| `CoreCode.TrimListCons` | infogami/core/code.py:75-78 | an element in front is trimmed, and kept exactly when truthy |
| `CoreCode.TrimDictCons` | infogami/core/code.py:79-84 | an entry in front is trimmed, and kept exactly when not empty |
| `CoreCode.EditTrimContainers` | infogami/core/code.py:73-89 | a list becomes its trimmed elements; a dictionary becomes None when it keeps no key or only "unique" |
| `CoreCode.TrimListDropsEmpty` | infogami/core/code.py:65-66 | ['hello ', '', ' foo'] loses the empty string and keeps the others stripped |
| `CoreCode.TrimDictUniqueOnly` | infogami/core/code.py:69 | a dictionary whose only non-empty entry is "unique" becomes None |
| `CoreCode.TrimDictDropsEmpty` | infogami/core/code.py:67-68 | {'x': '', 'y': 'foo'} becomes {'y': 'foo'} |
| `CoreCode.TrimDictOfTwo` | infogami/core/code.py:79-89 | a two-entry dictionary keeps exactly its non-empty entries |
| `CoreCode.GetAction` | infogami/core/code.py:132-137 | None exactly when none of _save, _preview, _delete was submitted; otherwise the first of save, preview, delete that was |
| `CoreCode.ParamInt` | infogami/core/code.py:201-202 | `safeint(s, None)`: no parameter gives None; otherwise the integer the stripped text spells |
| `CoreCode.DiffRevisions` | infogami/core/code.py:190-215 | a present non-integer parameter redirects; with no b and no page, the view; otherwise b defaults to the latest revision and a to max(1, b-1) |
| `CoreCode.DiffFromNothing` | infogami/core/code.py:194-214 | asking for revision 0 compares revision 1 with the empty page |
| `CoreCode.GetThingsQuery` | infogami/core/code.py:361-367 | BadRequest without a type; AttributeError without q or limit; ValueError for a limit that is not an integer; otherwise the query property~ q* (property defaulting to key), the type and the limit |
| `CoreCode.NamesWidth` | infogami/core/code.py:392-395 | every day and month name has three letters |
| `CoreCode.Weekday` | infogami/core/code.py:392 | a weekday below 7, Monday being 0 |
| `CoreCode.WeekdayNext` | infogami/core/code.py:392 | the next day has the next weekday |
| `CoreCode.PadNatWidth` | infogami/core/code.py:391 | zero-padding a number below 10^w gives exactly w digits |
| `CoreCode.FormatDateFields` | infogami/core/code.py:378-396 | the RFC 822 date has 29 characters and each field sits at its fixed column and reads back as the value it was made from |
| `CoreCode.FormatDate` | infogami/core/code.py:378-396 | the RFC 822 date text; its properties are stated by `FormatDateFields` |
| `Diff.Label` | infogami/core/diff.py:5 | the label is empty exactly for an equal run |
| `Diff.Pad` | infogami/core/diff.py:17 | `[v] * n`: n copies of v, none for n <= 0 |
| `Diff.Numbers` | infogami/core/diff.py:12 | `range(lo, hi)`: the line numbers lo up to hi, in order |
| `Diff.Zip` | infogami/core/diff.py:37 | as many rows as the shortest of the five columns |
| `Diff.OpColumns` | infogami/core/diff.py:9-36 | the columns of one opcode, padded or collapsed as its tag says |
| `Diff.BetterDiff` | infogami/core/diff.py:4-39 | the table is the chunks of the opcodes, in order |
| `Diff.ChunkSize` | infogami/core/diff.py:9-37 | an opcode gives one row per line of its longer side, three for an equal run longer than five |
| `Diff.DiffOf` | infogami/core/diff.py:8-37 | the rows of the opcodes, in order; stated by `Diff.DiffSize` |
| `Diff.DiffSize` | infogami/core/diff.py:4-39 | the table has the rows of every opcode |
| `Diff.ChunkRows` | infogami/core/diff.py:9-37 | outside a long equal run, row k shows line i1+k of a and line j1+k of b while each side has one, a blank cell after |
| `Diff.PadCells` | infogami/core/diff.py:16-35 | a padded column keeps its cells and is blank after them |
| `Diff.ChunkCollapsed` | infogami/core/diff.py:22-25 | an equal run longer than five lines collapses to its first line, an elision row and its last line |
| `Diff.DiffAppend` | infogami/core/diff.py:37 | one more opcode appends its chunk to the table |
| `Diff.Words` | infogami/core/diff.py:42-47 | at least one word, none holding a space |
| `Diff.SimpleDiff` | infogami/core/diff.py:41-51 | one entry per opcode, with its tag and the words of each range joined by spaces |
| `Diff.EntryWords` | infogami/core/diff.py:46-50 | each side of an entry splits back into exactly the words of its range |
| `Diff.WordsJoin` | infogami/core/diff.py:42-47 | the words join back into the text, None counting as "" |
| `DbUpgrade.Pending` | infogami/core/dbupgrade.py:32 | `upgrades[v:]` with Python's slicing: the upgrades from position v, none once v reaches the end |
| `DbUpgrade.Root.constructor` | infogami/core/dbupgrade.py:14-15 | a root with the given stored version and applied upgrades |
| `DbUpgrade.Root.RunPending` | infogami/core/dbupgrade.py:26-44 | when every pending upgrade succeeds they are applied in order; when one raises the whole transaction is rolled back; the version is untouched either way |
| `DbUpgrade.Root.ApplyUpgrades` | infogami/core/dbupgrade.py:26-53 | as written: the pending upgrades are applied or rolled back, and the stored version stays what it was, because `mark_upgrades` goes through the lazy root's `__setattr__` (infogami/tdb/tdb.py:181-182), which only reads |
| `DbUpgrade.Root.ReappliedAsWritten` | infogami/core/dbupgrade.py:26-53 | as written, a second start applies every pending upgrade a second time |
| `DbUpgrade.Root.ApplyUpgradesIntended` | infogami/core/dbupgrade.py:26-53 | as intended: when every pending upgrade succeeds they are applied in order and the version becomes the number of upgrades; otherwise the transaction is rolled back and nothing changes |
| `DbUpgrade.Root.ReappliedIntended` | infogami/core/dbupgrade.py:26-53 | as intended, a second start after a successful one applies nothing more |
| `DbUpgrade.NothingPendingAfter` | infogami/core/dbupgrade.py:32-54 | once the version is the number of upgrades, nothing is pending |
| `DbUpgrade.OnlyNewPending` | infogami/core/dbupgrade.py:21-32 | upgrades registered later are exactly the ones pending at the old version |
| `DbUpgrade.Alias` | infogami/core/dbupgrade.py:86-88 | int and integer name type/int, string type/string, text type/text, any other name itself |
| `DbUpgrade.LStripHash` | infogami/core/dbupgrade.py:102 | a suffix of the text that does not start with '#' |
| `DbUpgrade.ParseDescriptor` | infogami/core/dbupgrade.py:97-116 | "#type.prop" after an optional "thing " is a backreference, raising unless it splits in exactly two; anything else is a property, unique exactly when it does not end in '*' |
| `DbUpgrade.ParseDescribe` | infogami/core/dbupgrade.py:97-116 | the descriptor of a property parses back to the property |
| `DbUpgrade.ParseBackref` | infogami/core/dbupgrade.py:99-105 | "#type.prop", with or without "thing ", is a backreference to that type's property |
| `DbUpgrade.ConvertOf` | infogami/core/dbupgrade.py:91-117 | one property or backreference per descriptor |
| `DbUpgrade.Convert` | infogami/core/dbupgrade.py:91-117 | the loop gives the new type of `ConvertOf`, or its error |
| `DbUpgrade.ConvertErrSticks` | infogami/core/dbupgrade.py:97-117 | once a descriptor of a prefix fails to parse, gathering all the parsed descriptors fails with that same error |
| `DbUpgrade.UpgradeTypesOf` | infogami/core/dbupgrade.py:79-117 | no more types than the legacy types, and never "type/site" |
| `DbUpgrade.SkippedTypes` | infogami/core/dbupgrade.py:85-96 | a type that has properties, is primitive or is the site type adds nothing |
| `TypeGuess.FirstMatch` | infogami/utils/types.py:14-16 | none exactly when no pattern is found in the path; otherwise the first one that is |
| `TypeGuess.Registry.constructor` | infogami/utils/types.py:8 | an empty ordered registry |
| `TypeGuess.Registry.RegisterType` | infogami/utils/types.py:10-11 | the pattern maps to the type; a new pattern goes last, an old one keeps its place |
| `TypeGuess.Registry.GuessType` | infogami/utils/types.py:13-18 | the type of the first pattern, in registration order, found in the path, else /type/page |
| `TypeGuess.EarlierWins` | infogami/utils/types.py:13-18 | with overlapping patterns the one registered first wins |
| `TypeGuess.ReregisterKeepsPlace` | infogami/utils/types.py:10-16 | registering a pattern again with a new type keeps its priority |
| `Features.Lookup` | infogami/utils/features.py:31-34 | a filter exactly for a registered text name |
| `Features.CallFilter` | infogami/utils/features.py:20-34 | a list passes when any element does; a dictionary calls the filter its "filter" entry names with the rest as arguments; anything else is a filter name; an unknown filter fails |
| `Features.ListSpec` | infogami/utils/features.py:21-22 | a list spec passes exactly when one of its elements does |
| `Features.EnabledOf` | infogami/utils/features.py:36-37 | exactly the configured flags whose spec passes |
| `Features.Features.constructor` | infogami/utils/features.py:7-16 | no flags, no filters, nothing enabled |
| `Features.Features.SetFeatureFlags` | infogami/utils/features.py:9-14 | a dictionary replaces the flags, anything else changes nothing |
| `Features.Features.RegisterFilter` | infogami/utils/features.py:17-18 | the name maps to the filter, nothing else changes |
| `Features.Features.LoadHook` | infogami/utils/features.py:39-42 | the enabled features become `EnabledOf` the flags and filters |
| `Features.EnabledAfterLoad` | infogami/utils/features.py:39-47 | after the load hook a flag is enabled exactly when it is configured and its spec passes |
| `Flash.MessageOf` | infogami/utils/flash.py:23 | a message has a type and a text |
| `Flash.KeepMessages` | infogami/utils/flash.py:28 | only the dictionaries with a type and a message, in order |
| `Flash.CookieMessages` | infogami/utils/flash.py:26-30 | bad JSON reads as no messages; a list keeps its messages; a value that cannot be iterated raises |
| `Flash.CookieRoundTrip` | infogami/utils/flash.py:28-40 | messages written to the cookie come back as they were |
| `Flash.Context.constructor` | infogami/utils/flash.py:17 | a request with no queue yet |
| `Flash.Context.AddFlashMessage` | infogami/utils/flash.py:21-23 | the message is appended to the queue |
| `Flash.Context.GetFlashMessages` | infogami/utils/flash.py:16-19 | everything queued is returned and the queue emptied |
| `Flash.WriteBack` | infogami/utils/flash.py:37-42 | nothing is written exactly when the queue is unchanged; an emptied queue expires the cookie; otherwise the new queue is written |
| `Flash.FlashProcessor` | infogami/utils/flash.py:25-42 | the cookie's messages are queued, the handler runs, and the changed queue is written back |
| `Flash.AddThenShow` | infogami/utils/flash.py:16-23 | a message added then displayed is shown after those already queued, and the queue is empty |
| `Flash.ShownOnce` | infogami/utils/flash.py:16-42 | when a request ends by displaying the messages, the cookie is expired |
| `Flash.AddedIsSaved` | infogami/utils/flash.py:21-42 | a message added and not displayed is written to the cookie after the queued ones |
| `App.ReplaceAll` | infogami/utils/app.py:97-98 | `str.replace`: a text without the pattern is unchanged |
| `App.ReplaceFront` | infogami/utils/app.py:97-98 | an occurrence at the front is replaced and the rest is replaced after it |
| `App.DoubleSlashOccurs` | infogami/utils/app.py:96-97 | "//" occurs exactly when two slashes are adjacent; "///" only then |
| `App.Collapse` | infogami/utils/app.py:96-97 | a path without doubled slashes is unchanged |
| `App.CollapseDoubleRoot` | infogami/utils/app.py:96-97 | two leading slashes become one |
| `App.NormPath` | infogami/utils/app.py:78-99 | '/' for a path that is not valid UTF-8; otherwise the collapsed `os.path.normpath` of it, with no space left and the same slashes |
| `App.NormPathSpaces` | infogami/utils/app.py:95-98 | a normalised path without doubled slashes only has its spaces made underscores |
| `App.NormPathDoubleRoot` | infogami/utils/app.py:95-98 | two leading slashes kept by `os.path.normpath` become one |
| `App.NormPathSpaceDoctest` | infogami/utils/app.py:81-82 | "/a b" becomes "/a_b" |
| `App.NormPathInnerDoctest` | infogami/utils/app.py:83-84 | "/a//b" becomes "/a/b" |
| `App.NormPathRootDoctest` | infogami/utils/app.py:85-86 | "//a/b/" becomes "/a/b" |
| `App.NormalPathFixed` | infogami/utils/app.py:78-99 | a valid path that `os.path.normpath` leaves alone, with no doubled slash and no space, is already normal |
| `App.SpacesKeepSlashes` | infogami/utils/app.py:98 | making spaces underscores creates no doubled slash |
| `App.PathProcessorAsWritten` | infogami/utils/app.py:101-110 | a normal path reaches the handler; otherwise only a GET is redirected to the normal path plus the query, anything else is 404 |
| `App.PathProcessor` | infogami/utils/app.py:101-110 | as intended: GET and HEAD are redirected, any other method is 404 |
| `App.HeadNotRedirectedAsWritten` | infogami/utils/app.py:105 | HEAD for "/a b" is 404 as written and redirected to "/a_b" as intended |
| `App.ProcessorsAgreeExceptHead` | infogami/utils/app.py:101-110 | the two readings differ only on HEAD for a path that is not normal |
| `App.RedirectTargetIsServed` | infogami/utils/app.py:101-110 | no redirect loop: the normalised path is served, when `os.path.normpath` is idempotent and keeps slashes |
| `App.RedirectTargetIsServedSingleRoot` | infogami/utils/app.py:101-110 | the same when `os.path.normpath` leaves no doubled slash |
| `App.Invoke` | infogami/utils/app.py:27-43 | the class's method for the verb; HEAD and GET are always there through the base class; any other missing method is `nomethod` |
| `App.ModeOf` | infogami/utils/app.py:66 | the `m` query parameter, "view" by default |
| `App.FirstPage` | infogami/utils/app.py:58-63 | none exactly when no page pattern matches the whole path; otherwise the first that does |
| `App.Delegate` | infogami/utils/app.py:52-74 | the first matching page gets the request with its groups; otherwise the mode named by `m` with the path, or a redirect dropping `m` for an unknown mode |
| `App.HeadAndGetNeverRefused` | infogami/utils/app.py:27-43 | HEAD and GET always reach a class |
| `App.ViewIsDefault` | infogami/utils/app.py:64-71 | with no page matching and no `m`, the view mode gets the request |
| `Bootstrap.RegularType` | infogami/infobase/bootstrap.py:13-14 | `_type` with its defaults: a regular type of that key with the given properties and no backreferences |
| `Bootstrap.Prop` | infogami/infobase/bootstrap.py:16-17 | `_property` with its defaults: unique, no description, no options |
| `Bootstrap.Multi` | infogami/infobase/bootstrap.py:16-17 | `_property(..., unique=False)`: a multiple property, otherwise the defaults |
| `Bootstrap.KeyRefs` | infogami/infobase/bootstrap.py:112-113 | one `{'key': k}` per key, in order |
| `Bootstrap.PropertyValue` | infogami/infobase/bootstrap.py:16-17 | the property as written in the query: `unique` as a typed boolean, the expected type as a key reference |
| `Bootstrap.PropertyValues` | infogami/infobase/bootstrap.py:16-17 | one written property per property, in order |
| `Bootstrap.AsValue` | infogami/infobase/bootstrap.py:13-109 | every document is written as a dictionary holding its own key |
| `Bootstrap.AsQuery` | infogami/infobase/bootstrap.py:124-125 | one dictionary per document, in order |
| `Bootstrap.PrimitiveTypes` | infogami/infobase/bootstrap.py:22-35 | the seven primitive types; stated by `Bootstrap.PrimitiveTypesShape` |
| `Bootstrap.SystemTypes` | infogami/infobase/bootstrap.py:37-92 | the ten system types with their properties, as `system_types` lists them; placed in the query by `Bootstrap.MakeQuery` |
| `Bootstrap.SystemObjects` | infogami/infobase/bootstrap.py:111-122 | the three usergroups and three permissions, as `system_objects` lists them; placed in the query by `Bootstrap.MakeQuery` |
| `Bootstrap.Primitive` | infogami/infobase/bootstrap.py:24-25 | a primitive type of that key without properties or backreferences |
| `Bootstrap.MakeQuery` | infogami/infobase/bootstrap.py:124-125 | 23 documents: the 7 primitive types, then the 10 system types, then the 6 system objects |
| `Bootstrap.PrimitiveTypesShape` | infogami/infobase/bootstrap.py:22-35 | seven primitive types, each of kind "primitive" without properties |
| `Bootstrap.QueryShape` | infogami/infobase/bootstrap.py:124-125 | every document of the query is a dictionary whose "key" is its key |
| `Bootstrap.Permissions` | infogami/infobase/bootstrap.py:119-121 | open: everyone reads and writes; restricted: everyone reads, admins write; secret: admins only |
| `Bootstrap.Created` | infogami/infobase/bootstrap.py:124-125 | every document's key is among the keys created |
| `Bootstrap.PermissionGroupsCreated` | infogami/infobase/bootstrap.py:111-125 | the permissions name only the everyone and admin groups, and the query creates both |
| `Bootstrap.BotUsername` | infogami/infobase/bootstrap.py:156 | the last segment of the bot's key, without a slash |
| `Bootstrap.BotUsernameOfKey` | infogami/infobase/bootstrap.py:156 | a key ending in "/name" gives the username name |
| `Bootstrap.BootstrapActions` | infogami/infobase/bootstrap.py:127-167 | save the query, register and verify the admin, register and verify the bot when one is configured, then put the admin in the admin group |
| `Bootstrap.BootstrapCalls` | infogami/infobase/bootstrap.py:127-167 | as written: one call per intended action, registrations with the extra keyword `_activate` and verifications with the keyword `verified` |
| `Bootstrap.Run` | infogami/infobase/bootstrap.py:127-167 | calls run in order until one does not bind, which raises TypeError; every action done is the action of the call at that place |
| `Bootstrap.BootstrapAsWrittenFails` | infogami/infobase/bootstrap.py:137-152 | as written, the query is saved and the admin's registration raises TypeError: nobody is registered, verified or made an admin |
| `Bootstrap.VerifyAsWrittenFails` | infogami/infobase/bootstrap.py:153 | `update_user_details(username, verified=True)` cannot bind to the store's `update_user_details(key, email, enc_password)` |
| `InfobaseClient.Storify` | infogami/infobase/client.py:12-20 | the value is unchanged: only its Python representation becomes `web.storage` |
| `InfobaseClient.StorifyEntries` | infogami/infobase/client.py:13-16 | a dictionary's entries are unchanged |
| `InfobaseClient.StorifyItems` | infogami/infobase/client.py:17-18 | a list's elements are unchanged |
| `InfobaseClient.Connect` | infogami/infobase/client.py:31-71 | "local" connects whatever its keywords; "remote" connects exactly when `base_url` is its only keyword (TypeError otherwise); any other type raises "Invalid connection type: " + type |
| `InfobaseClient.DropNone` | infogami/infobase/client.py:76-78 | exactly the parameters whose value is not None |
| `InfobaseClient.Shape` | infogami/infobase/client.py:73-86 | the URL is base/site/path; without parameters no body; a GET carries the encoded parameters in the path, any other method in the body |
| `InfobaseClient.Returned` | infogami/infobase/client.py:103-119 | a 200 answer's body; otherwise a JSON failure naming the HTTP error or the unreachable server |
| `InfobaseClient.RemoteConnection.constructor` | infogami/infobase/client.py:69-71 | a connection to the base URL without a token |
| `InfobaseClient.RemoteConnection.Headers` | infogami/infobase/client.py:91-101 | always the client's IP; a token cookie exactly when there is a non-empty token |
| `InfobaseClient.RemoteConnection.Request` | infogami/infobase/client.py:73-119 | sends the shaped request, returns `Returned` of the answer, and takes the token of a Set-Cookie answer, keeping the old one otherwise |
| `InfobaseClient.Site.constructor` | infogami/infobase/client.py:160-172 | an empty cache |
| `InfobaseClient.Site.Get` | infogami/infobase/client.py:150-172 | a cached thing is answered from the cache; otherwise a 'fail' answer raises ClientException with the server's message, NotFound when the server has none, and in both cases nothing is cached; else the parsed answer, which is then cached |
| `InfobaseClient.Site.InvalidateCache` | infogami/infobase/client.py:302-307 | exactly the latest-revision entries of the keys are forgotten |
| `InfobaseClient.ReadAfterWrite` | infogami/infobase/client.py:150-307 | after a write the next read of a written key goes to the server (and gives its error, NotFound or answer), while fixed revisions stay cached |
| `InfobaseClient.GetAttr` | infogami/infobase/client.py:379-383 | an attribute of Nothing is Nothing, AttributeError for names starting with "__" |
| `InfobaseClient.GetItem` | infogami/infobase/client.py:385-389 | an item or a call of Nothing is Nothing |
| `InfobaseClient.Combine` | infogami/infobase/client.py:391-395 | adding or multiplying with Nothing gives the other operand |
| `InfobaseClient.ChainOnNothing` | infogami/infobase/client.py:379-383 | attribute chains on Nothing end in Nothing unless a special name is met |
| `InfobaseClient.Thing.constructor` | infogami/infobase/client.py:421-427 | a thing with the given data and no attributes set |
| `InfobaseClient.Thing.DataKeys` | infogami/infobase/client.py:439-441 | exactly the data keys other than the revision and timestamp keys |
| `InfobaseClient.Thing.SetAttr` | infogami/infobase/client.py:455-459 | metadata names and names starting with '_' go on the object, anything else into the data |
| `InfobaseClient.FilterKeys` | infogami/infobase/client.py:440-441 | exactly the keys that are not special |
| `InfobaseClient.SetThenGet` | infogami/infobase/client.py:443-459 | a data attribute that is set reads back, and the metadata is untouched |
| `InfobaseServer.GetOr` | infogami/infobase/server.py:613-615 | `d.get(k) or default`: the value when present and not empty, the default otherwise |
| `InfobaseServer.ParseDbParameters` | infogami/infobase/server.py:607-623 | None for no configuration; the engine/database/username/password names when "database" is present, else the dbn/db/user/pw names, KeyError without "db"; the host copied when given |
| `InfobaseServer.UpdateGet` | infogami/infobase/server.py:133-134 | after an update a key reads as in the request when it has the key, as before otherwise |
| `InfobaseServer.LastGet` | infogami/infobase/server.py:134 | none exactly when the key is absent; a later entry overrides an earlier one |
| `InfobaseServer.Input` | infogami/infobase/server.py:123-135 | BadData naming a missing required argument, exactly when one is missing; otherwise each key reads as in the request, else as in the defaults |
| `InfobaseServer.Missing` | infogami/infobase/server.py:129-131 | none exactly when every required argument is present; otherwise the first missing one |
| `InfobaseServer.ToInt` | infogami/infobase/server.py:137-141 | the integer the stripped text spells, exactly when it spells one; otherwise BadData naming the argument and the value |
| `InfobaseServer.ToIntOfString` | infogami/infobase/server.py:137-139 | the text of a number reads back as that number |
| `InfobaseServer.FromJson` | infogami/infobase/server.py:143-147 | the decoded value, or BadData carrying the decoder's message |
| `InfobaseServer.ProcessException` | infogami/infobase/server.py:54-61 | Infobase exceptions keep their status, anything else is 500; the body is the message |
| `InfobaseServer.ReadlogLimit` | infogami/infobase/server.py:541 | at most 1000: the requested limit, or 1000 for one that is not an integer, with `safeint` taken to be `utils.safeint` |
| `InfobaseServer.ReadlogLimitOf` | infogami/infobase/server.py:541 | asking for fewer than 1000 gives that many, for more gives 1000 |
| `ApiPlugin.Cleaned` | infogami/plugins/api/code.py:233-234 | an empty string becomes None, anything else is unchanged |
| `ApiPlugin.MakeQuery` | infogami/plugins/api/code.py:219-236 | the parameters the query keeps: no name starting with '_', only required names when there are some, '' made None |
| `ApiPlugin.QueryOfGet` | infogami/plugins/api/code.py:227-236 | a key is in the query exactly when a kept parameter has it, with its last cleaned value |
| `ApiPlugin.MakeQueryDropsPrivate` | infogami/plugins/api/code.py:222-223 | a parameter starting with '_' is dropped |
| `ApiPlugin.MakeQueryRequired` | infogami/plugins/api/code.py:224-225 | with required keys only those are kept |
| `ApiPlugin.Delegate` | infogami/plugins/api/code.py:24-43 | JSON unless `text` is not "false"; 404 exactly for an unknown hook, 405 exactly for a hook without the method, else the hook's answer |
| `ApiPlugin.InfobaseAnswer` | infogami/plugins/api/code.py:79-83 | the connection's answer wrapped as an ok document, or a fail document with the client error |
| `ApiPlugin.CanWrite` | infogami/plugins/api/code.py:181-186 | exactly a logged-in member of /usergroup/api or /usergroup/admin |
| `ApiPlugin.OnlyMembersWrite` | infogami/plugins/api/code.py:181-186 | a visitor cannot write, an admin can, and no one can when neither group exists |
| `ApiPlugin.JsonApi` | infogami/plugins/api/code.py:144-164 | a client error becomes an HTTP error with its JSON or message; otherwise the output, wrapped in the callback when one is given |
| `ApiPlugin.ExtensionHeadersKeys` | infogami/plugins/api/code.py:60-65 | a header is present exactly when an environment entry with the prefix names it |
| `ApiPlugin.GetCustomHeadersAsWritten` | infogami/plugins/api/code.py:46-67 | no OPT header or one that does not match gives {}; a matching one for another URI falls off the end and gives None |
| `ApiPlugin.GetCustomHeaders` | infogami/plugins/api/code.py:46-67 | as intended: always a dictionary, non-empty only for the expected URI |
| `ApiPlugin.CommentAndAction` | infogami/plugins/api/code.py:103-105 | `h.get(...)` fails exactly when the headers are None |
| `ApiPlugin.ForeignUriBreaksWrite` | infogami/plugins/api/code.py:54-105 | a write whose OPT header names another URI fails as written and carries no comment as intended |
| `Pages.PageName` | infogami/plugins/pages/code.py:56-61 | the suffix is cut off, and `__root__.page` holds the root page '' |
| `Pages.FileName` | infogami/plugins/pages/code.py:218-221 | a page is written to its name plus ".page", the root page to `__root__.page` |
| `Pages.ReadFile` | infogami/plugins/pages/code.py:49-51 | the reader opens a ".page" file, the root's for an empty path |
| `Pages.NameRoundTrip` | infogami/plugins/pages/code.py:56-221 | a page written and read back is the same page, exactly for every name but "__root__" |
| `Pages.FileRoundTrip` | infogami/plugins/pages/code.py:56-221 | a file read and written back is the same file, exactly for every `.page` file but ".page" itself |
| `Pages.ReadPages` | infogami/plugins/pages/code.py:41-63 | the loop builds the dictionary `PagesOf` the listing |
| `Pages.PagesOfKeys` | infogami/plugins/pages/code.py:55-63 | the pages are exactly the names of the listing's `.page` files |
| `Pages.PagesOfLast` | infogami/plugins/pages/code.py:55-63 | a page holds the text of the last file that names it |
| `Pages.Traversal.constructor` | infogami/plugins/pages/code.py:90-91 | nothing visited, nothing being visited, an empty trace |
| `Pages.Traversal.Visit` | infogami/plugins/pages/code.py:93-105 | a visited node is skipped; a node on the current path gets `breakcycle`; any other node is visited after its children and marked visited |
| `Pages.SegmentsStep` | infogami/plugins/pages/code.py:107-109 | each start node adds its own part of the trace |
| `Pages.PostorderTraversal` | infogami/plugins/pages/code.py:82-111 | every node is visited once, after its children unless a cycle was broken, every start node is visited, and a node whose cycle was broken is still visited |
| `Backlinks.LinkNode` | plugins/backlinks/code.py:62-65 | an internal link whose href is the target and whose only child is the anchor text |
| `Backlinks.CloseFrom` | plugins/backlinks/code.py:40 | `(.*?)\]\]`: the first "]]" with no newline before it |
| `Backlinks.GroupsFrom` | plugins/backlinks/code.py:40 | `(.*?)(?:\|(.*?))?\]\]`: group 1 shortest first, then an optional '\|' group, ending at "]]" |
| `Backlinks.MatchAt` | plugins/backlinks/code.py:40 | no match after a backslash; a match spells "[[", the link, the optional '\|' part and "]]" |
| `Backlinks.LinkClean` | plugins/backlinks/code.py:40 | a link holds no newline and no "]]" |
| `Backlinks.NextMatch` | plugins/backlinks/code.py:40-72 | `re.search`: the leftmost match from the position, none exactly when none starts there or later |
| `Backlinks.Matches` | plugins/backlinks/code.py:72 | the matches `re.sub` finds, each search starting where the last match ended |
| `Backlinks.MatchesExact` | plugins/backlinks/code.py:72 | the matches visited are exactly the matches of the pattern that start after the previous one ends |
| `Backlinks.MatchFound` | plugins/backlinks/code.py:72 | every visited match is a match of the pattern at its start |
| `Backlinks.NoMatchBetween` | plugins/backlinks/code.py:72 | no match starts in a gap between visited matches |
| `Backlinks.MatchesSpellText` | plugins/backlinks/code.py:50-80 | the gaps and the matches, in order, spell the text |
| `Backlinks.Anchor` | plugins/backlinks/code.py:57 | the '\|' part, or the target when that part is absent or empty |
| `Backlinks.ProcessLinks` | plugins/backlinks/code.py:43-82 | the new nodes are the text gaps and link nodes of the matches, in order, ending with the rest of the text |
| `Backlinks.NodesShape` | plugins/backlinks/code.py:43-82 | one more text node than there are matches, text and link nodes alternating |
| `Backlinks.TextNodeAt` | plugins/backlinks/code.py:51-53 | text node i is the text between match i-1 and match i |
| `Backlinks.LinkNodeAt` | plugins/backlinks/code.py:55-68 | link node i links to match i's target with its anchor |
| `Backlinks.FirstIndex` | plugins/backlinks/code.py:87 | `list.index`: the first position of the node |
| `Backlinks.Parent.constructor` | plugins/backlinks/code.py:84-86 | a parent with the given children |
| `Backlinks.Parent.ReplaceNode` | plugins/backlinks/code.py:84-92 | a child node is replaced by the new nodes at its first position; a node that is not a child fails (ValueError) and changes nothing |
| `Backlinks.Href` | plugins/backlinks/code.py:29-36 | one href for an internal link, none for any other node |
| `Backlinks.Then` | plugins/backlinks/code.py:34-36 | two collections one after the other, the first error winning |
| `Backlinks.GetLinks` | plugins/backlinks/code.py:26-38 | one href per internal link of the document, in document order |
| `Backlinks.GetLinksCons` | plugins/backlinks/code.py:34-36 | the links of a node come before those of the nodes after it |
| `Backlinks.Targets` | plugins/backlinks/code.py:56 | the targets of the matches, in order |
| `Backlinks.LinksOfProcessedText` | plugins/backlinks/code.py:26-82 | what the post-processor writes is what `get_links` reads: the matches' targets, in order |

## Left out

- Lru: the lock around every operation is left out, because the model is sequential.
- Lru.LRU: the cache's recency queue is a sequence of keys (`order`), not the source's linked `Queue` of nodes. `Queue` itself is modelled as its own verified linked class (`Lru.Queue`).
- Lru.LRU.constructor: the optional initial dictionary `d` is left out, so a new cache always starts empty.
- HMAC digests, salts, random passwords and fresh keys come from outside the model: the hash function and the random draws are parameters. Clocks are parameters too.
- Tdb: `eval`, float `repr` and unicode handling in the tdb data format are not modelled. Values are integers, text, floats, lists, None and references to things; booleans are not among them.
- Tdb.Thing.Copy requires a valid thing. The source copies whatever it is given.
- Error texts: where `ReadQuery`, `WriteQuery` and `InfobaseServer` put Python's `repr` of a key or value into a message, the model writes the text between single quotes, without the escapes and the `u` prefix that `Common.StrRepr` models. The messages agree for keys of plain printable characters without quotes or backslashes (`Common.ReprPlain`). `BulkUpload.Scalar` leaves the value out of its error (see its own line).
- Tdb.Thing.Save: the id and revision that the store assigns to a saved version are not modelled. The model records the rows of each saved version.
- Tdb.Thing: the `h` attribute (a `History` over the store) is not modelled, because it only reads the store.
- Tdb.DecodeRow: a float row keeps its text. `float()` raising ValueError on malformed text is not modelled.
- Helpers.SetPath: a plain list taken from an input value is written into as if it were a `betterlist`. The source steps only into a dict or a `betterlist` and leaves a plain list alone, as in unflatten({'a': [1], 'a#1': 2}). The model's values do not tell the two kinds of list apart.
- Helpers.Unflatten: has the same gap as `SetPath`. A key that indexes into a plain list given as an input value is set by the model and ignored by the source.
- Storage.DefaultDict: deleting the item "default" is not modelled. Every operation of the model keeps that item.
- InfobaseServer.ReadlogLimit: the server calls `common.safeint`, which common.py here does not define. The model takes `utils.safeint` (infogami/infobase/utils.py:129-142).
- Strings.IsSpace: it is the whitespace of a Python 2 byte string. The further whitespace of unicode text (\x1c-\x1f, \x85, \xa0 and others) is not modelled, so `int()` of unicode text padded with it is not covered.
- WikiTemplates.MovedTemplateMisplaced: stated for names without '.', for the reason given for `MovedTemplateFound`.
- TdbLog: `transact`, `commit`, `rollback`, `log` and the file and lock handling of the tdb logger are left out. So are the `parse2`, `parse2a`, `parse2b` and `load` variants.
- Python 2 dictionary iteration order is modelled as insertion order. This affects where the source's output depends on it.
- ThingUtil.Thing.Tidy: `new_child` (saving a nested dictionary as a child thing) and `fill_backreferences` need the database and are left out. `get_site`, the `repr` of values and the lookup of a thing by name are left out too: a name becomes a reference.
- Template compilation and the template and macro caches are left out: templates are their source text. Left out of the wikitemplates plugin: its hooks, `setup`, `createtypes`, `_new_version`, the `_load_*` helpers and `template_preferences`.
- WikiTemplates.MovedTemplateFound: stated for names without '.'. A disk file "a.b.html" gives the name "a.b", which `_wikiname` cuts at its dot, so such a file moves to another page.
- WikiTemplates.IntendedTemplateFound: stated for names without '.', for the same reason.
- WikiTemplates.MovedMacroFound: stated for names without '.', for the same reason.
- I18n: reading strings from the database is left out. Also left out: the file walking of `load_strings`, the `exec` in `read_strings`, and `i18n_string.__call__` formatting.
- I18nPlugin: the plugin's hook, `setup` and `movestrings` are left out.
- View: `render_site`, `get_markdown` and the formatting helpers are left out.
- `difflib.SequenceMatcher`, regular-expression search and full-match, and the `OPT` header pattern are parameters. Only their results are modelled.
- JSON cookies are modelled as the decoded value, or its absence. `web.utf8` is the identity on text.
- Features: the built-in filters (`filter_loggedin`, `filter_admin`, `filter_usergroup`, `filter_queryparam`) read the logged-in user, group members and the query string, which are not part of this model. A filter is any function of its keyword arguments registered with `register_filter`.
- DbUpgrade: the database effects of individual upgrades (`hash_passwords`, `upgrade_types`' `_create_type` calls) are left out. What `upgrade_types` would create is modelled.
- App: `os.path.normpath` and UTF-8 validity are parameters.
- InfobaseClient.Storify is modelled on values, so the in-place mutation is not visible.
- InfobaseClient: left out are the client's lazy loading of things, backreferences, `LazyObject`, the HTTP connection, `urlencode` and cookie formatting (given as parameters).
- InfobaseServer: URL routing, `jsonify` and the request classes are left out. Only the argument handling is modelled.
- Bootstrap: saving and restoring `config.account_bot` around registration, and the random bot password, are left out. The password is a parameter.
- ApiPlugin: the comment injection of `view.PUT` and the hooks run after a write are left out.
- Pages: each node's children are given as a map.
- Pages: the database effects of `savepage`, `thingify` and `getthing` are left out. `eval` of a page file is the `text` parameter.
- Pages: `listfiles` (`os.walk`) is a parameter: the list of files.
- Pages: the `push`, `pull` and `moveallpages` actions are left out.
- Backlinks: `run`, with its pre-order `doc.find` traversal, is left out.
- Backlinks: node identity is modelled as value equality.
- Backlinks: the database hooks and the backlinks page are left out.
- Integer width: Python 2's `sys.maxint` is taken as 2^63 - 1, its value on a 64-bit build (`Json.MaxInt`). A 32-bit build's bound of 2^31 - 1 is not modelled.
- DbStore.FindDatatypeAgreesWithQueries: stated for ints within `sys.maxint`. For a `long` the store files 'str' while the query side takes the schema's datatype, so the two need not agree.
- BulkUpload.CreatesOf: a created dict whose key is hashable but not text (an int, None, a float or a bool) is a TypeError in the model. `find_creates` (bulkupload.py:203-208) appends such a key and notes its comments. `upload` never reaches this, because `find_keys` rejects such a key first, and the model's list of keys holds only text.
- BulkUpload.BulkUpload.FindCreatesDict: the same non-text key gap as `BulkUpload.CreatesOf`, which it is proved to follow.
- `utils.prepr` is the same as `common.prepr` and is modelled once (`Common.Prepr`). `pprint` is left out.
- Common.Repr: a `Str` value is taken as a Python 2 byte string, as in the doctests of `prepr`, so its `repr` has no `u` prefix; `Text` and `Reference` are unicode and have it. A byte string cannot hold a character above 0xff; the model escapes such a character as unicode `repr` does. The `repr` of a float is a parameter.
- `parse_query`, `find_type` and `READ_ONLY_PROPERTIES` are used by the write-query processor, and `common.parse_query` also by the read-query side (infogami/infobase/readquery.py:61). They are not part of this model: the write-query processor takes them as parameters, and `ReadQuery.MakeQuery` takes the query already parsed.
- WriteQuery: `WriteQueryProcessor.process` is modelled through its parts (`Admit`, `SaveData`, `Process`), not as one method.
- Account.AccountManager.ResetPassword: `reset_password` passes keyword arguments that `update_user_details` does not take. `ResetPassword` models what the account code intends, and `ResetPasswordAsWritten` models the call as written (see Findings). The store has no way to mark an account verified, so the corrected member writes the account record directly.
- Account: `get_email`, `find_user_by_email`, `update_user_details`, `assert_password` and `assert_email` are thin wrappers over the store or no-ops, and are left out.
- BulkUpload.BulkUpload.Upload: on failure only the loaded rows are rolled back. The ids drawn from sequences stay drawn, as PostgreSQL sequences do.
- Sequences.SequenceImpl.NextValue takes the increment and ignores it, as the source does: it always adds 1.
- BulkUpload.ToBeCreated: `process_creates` makes a Python `set` of the created keys, and its hash order decides which new key gets which id. The model keeps the keys in the order they are first found, so the ids it assigns are one order among those Python may produce. Which key gets which id is not modelled.
- BulkUpload.Scalar: the intended message is `'%s: invalid value: %s' % (path, repr(query))`. The model's error is `path + ": invalid value"` and leaves out the `repr` of the value. For lists and dicts that `repr` needs Python's repr of floats and unicode strings, which the model does not have.
- BulkUpload: `get_table_columns` and `get_key2id` are SQL, so the table columns and the key-to-id cache are parameters. `multiple_insert.py` is not part of this model.
- LogReader: `skip_till`, `update`, `readline`, `readlines`, `__iter__`, `RsyncLogFile` and `LogPlayback` are left out. Also left out is the file reading of the `LogReader` class beyond finding and parsing files.
- TableSchema: `sql()` and `__str__`, which render the schema as SQL text, are left out.
- DbStore: the SQL of the store's methods is left out. Tables are maps.
- JsonStore: `put_many`, `put_json` and `get_json` are left out: they loop over `put` and `get` and convert to and from JSON text.
- Common: left out are `create_test_store`, `pprint`, `get_property`, `get_datatype`, `__getattr__`/`__delattr__`, `InfobaseContext` and the `WriteQuery` stub.
- InfobaseCore: left out are `format_data`, `from_json`/`from_dict`, the `Store`/`SiteStore` interfaces, the uuid `new_key`, and `__getattr__`/`__eq__`.
- Dates: Python's `datetime` calendar is modelled in `dates.dfy` for the years 1 to 9999, without time zones.
- Floating-point values are carried as Dafny `real`s. Rounding is not modelled.

## Findings

| source | as written | input that shows it | evidently intended | confidence | as-written member | corrected member |
|---|---|---|---|---|---|---|
| infogami/infobase/readquery.py:148-152 | operators are tried in the order "=", "!=", "<", "<=", ... so the one-character suffix wins | key "name<=" parses to ("name<", "=") | the longest operator wins: ("name", "<=") | not executed | `ReadQuery.ParseKeyLessEqual` | `ReadQuery.ParseKeyRoundTrip` |
| infogami/infobase/readquery.py:31-34 | `get_type` reads `c.key` on every condition, and a nested query has no `key` | a nested query on "a.b" before the condition type=/type/page | skip nested queries and find '/type/page' | not executed | `ReadQuery.GetTypeNestedFirst` | `ReadQuery.GetType` |
| infogami/infobase/bulkupload.py:187 | `re.match('^/[^ \t\n]*$', key)`, where `$` also matches before a final newline | key "/a\n" is accepted | keys without whitespace only | not executed | `BulkUpload.KeyMatchesAsWrittenAdmitsNewline` | `BulkUpload.KeyMatchesSound` |
| infogami/infobase/bulkupload.py:254-261 | the `int` test comes before the `bool` test, and the error message calls a string | True is tagged as /type/int; None raises TypeError | booleans as /type/boolean; an "invalid value" error | not executed | `BulkUpload.ScalarAsWrittenTagsBoolAsInt` | `BulkUpload.Scalar` |
| infogami/infobase/account.py:196-199 | only the split of the token is guarded; the digest's split on '$' is not | token "a,b,c" raises ValueError | a malformed token means nobody is logged in | not executed | `Account.UserOfTokenAsWrittenRaises` | `Account.UserOfToken` |
| infogami/infobase/dbstore.py:198-201 | `isinstance('value', float)` tests the literal string | every int and float value is filed as 'str' | the value's own type: 'int', 'float' | not executed | `DbStore.FindDatatypeNumbers` | `DbStore.FindDatatype` |
| infogami/infobase/dbstore.py:236-245 | on a type change only the old keys are deleted, and only the added keys are inserted | type /type/a to /type/b with the title "x" unchanged: the title row is lost | re-insert every property under the new type | not executed | `DbStore.UpdateTablesAsWrittenLosesRows` | `DbStore.UpdateTablesApplies` |
| infogami/infobase/_dbstore/read.py:45-50 | the version query does not join on the transaction id | transactions 1 and 2, one change each: transaction 1 lists both | each transaction gets its own changes | not executed | `DbRead.VersionQueryAsWrittenMixes` | `DbRead.ChangesOfQuery` |
| infogami/infobase/_dbstore/read.py:75-78 | `simplejson` is used but not imported | any transaction with a data column raises NameError | the data column is decoded | not executed | `DbRead.ProcessTransactionAsWrittenFails` | `DbRead.ProcessFields` |
| infogami/infobase/logger.py:43-47 | the seconds are always split at '.' | `t.isoformat()` of a datetime with zero microseconds raises ValueError | a missing fraction reads as zero microseconds | not executed | `InfobaseLogger.ToTimestampAsWrittenRejectsWholeSeconds` | `InfobaseLogger.ToTimestampRoundTrip` |
| infogami/tdb/logger.py:208-209 | the field line is split at its first ':' | a property named "a:b" comes back under another name | split after the encoded name | not executed | `TdbLog.ParseFieldAsWrittenLosesColonNames` | `TdbLog.ParseFieldLine` |
| infogami/infobase/writequery.py:384 | `key.rsplit('/', 1)[0] or "/"` | key "a" is its own parent, so `_get_permission` recurses forever | a key without '/' has the root as its parent | not executed | `WriteQuery.ParentAsWrittenLoops` | `WriteQuery.Parent` |
| infogami/plugins/wikitemplates/code.py:162 | `startswith('type')`, without the slash | the disk template "typeahead" is moved to a page `process_key` never reads | `startswith('type/')`, as in `process_key` | not executed | `WikiTemplates.MovedTemplateMisplaced` | `WikiTemplates.IntendedTemplateFound` |
| infogami/core/thingutil.py:53 | `default_value(p)` is given the property, not its type | a missing unique type/int property is filled with '' | `default_value(p.type)`: 0 | not executed | `ThingUtil.FillOneAsWrittenDefaultsToText` | `ThingUtil.FillSpecAt` |
| infogami/core/thingutil.py:134-138 | `__getitem__` computes the attribute but does not return it | `get` of a known property gives None | return the attribute | not executed | `ThingUtil.DataGetAsWrittenLosesValue` | `ThingUtil.DataGet` |
| infogami/utils/app.py:105 | `['GET' or 'HEAD']` is the list `['GET']` | HEAD for "/a b" is answered 404 | `['GET', 'HEAD']`: HEAD is redirected too | not executed | `App.HeadNotRedirectedAsWritten` | `App.RedirectTargetIsServed` |
| infogami/plugins/api/code.py:54-67 | a header that matches the pattern but names another URI falls off the end and gives None | a write with the OPT header `"http://example.org/ext"; ns=01` fails on `h.get` | {} for a foreign URI | not executed | `ApiPlugin.ForeignUriBreaksWrite` | `ApiPlugin.GetCustomHeaders` |
| infogami/infobase/bootstrap.py:152-158 | `register(..., _activate=True)` and `update_user_details(username, verified=True)`, while `register` takes no `_activate` and the store's `update_user_details` takes only `email` and `enc_password` | any site: after the query is saved, the admin's registration raises TypeError | register, verify and group the admin (and the bot) | not executed | `Bootstrap.BootstrapAsWrittenFails` | `Bootstrap.BootstrapActions` |
| infogami/infobase/account.py:148-151 | `update_user_details('/user/' + username, password=enc_password, verified=True)`, while the store's `update_user_details` takes only `key`, `email` and `enc_password` | any reset with a good code: TypeError, the password is not changed | store the new hash and mark the account verified | not executed | `Account.AccountManager.ResetPasswordAsWritten` | `Account.AccountManager.ResetPassword` |
| infogami/infobase/account.py:89-90 | `update_user_details(user.key, email=email, password=enc_password)`, while the store's parameter is `enc_password` | a logged-in user with the right old password: TypeError, nothing updated | pass `enc_password=enc_password` | not executed | `Account.AccountManager.UpdateUserAsWritten` | `Account.AccountManager.UpdateUser` |
| infogami/core/dbupgrade.py:52-54 | `tdb.root.__version__ = len(upgrades)` on the lazy root, whose `__setattr__` is a `getattr` (infogami/tdb/tdb.py:181-182), then `save()` of a root that is not dirty | any start with one pending upgrade that succeeds: the stored version stays 0, so the next start runs it again | store the number of upgrades as the version | not executed | `DbUpgrade.Root.ReappliedAsWritten` | `DbUpgrade.Root.ReappliedIntended` |
