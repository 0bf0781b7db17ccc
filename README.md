# RestNoSql in Dafny

RestNoSql is a small multi-tenant key/value store served over HTTP, plus the
programs that use it. This project models three parts of it and proves
properties of each.

- **The server** (`server/RestNoSqlWebApp.py`). Every request first passes an
  access gate. The gate checks the id key header, then the api key header, then
  whether that api key may use the request's verb. Then it runs a handler.
  Handlers work inside the directory of the caller's id key:
  - `/manager/<name>`: list, create, test (HEAD) and drop whole databases;
  - `/database/<name>/`: GET, PUT, POST, OPTIONS and DELETE single entries.

  The storage directory is modelled as nested maps:
  tenant -> database name -> key -> JSON value. These modules hold it:
  - `Gate`: the access gate;
  - `Server`: one pure specification function per handler, and `ServeSpec`
    for one whole request;
  - `Server.TenantStore`: a class whose `dirs` field the handler methods
    update in place. Each method is proved equal to its specification.
- **The client** (`client/RestNoSqlClient.py`). `RestNoSqlClient` builds
  manager URLs and maps each HTTP status to a return value or an exception.
  `RestNoSqlDatabase` is a handle on one database. Its key cache starts empty,
  is filled by the first `keys()` and is then changed locally by set and
  delete. Both classes hold a reference to the server's `TenantStore`, so the
  model can state how the cache relates to the real store.
- **The index builder** (`bin/webstorage_nosql.py`). It walks the backup sets
  of a host and fills three stores:
  - the file index: path -> checksums;
  - the checksum index: checksum -> backup set;
  - the log of finished backup sets.

  Items go through a queue to four worker loops. `Indexer.IndexBuilder` keeps
  the three stores as fields and `Indexer.WorkQueue` models the queue. The
  per-item update, the draining worker loop, the per-set step and the driver
  are each proved equal to a pure function (`ApplyItem`, `ApplyItems`,
  `IndexSet`, `Run`), and the lemmas are stated over those functions.

The PUT handler's doc comment (`server/RestNoSqlWebApp.py:281-288`) describes
merging the new list into the stored one. The code only replaces the stored
value, and only when it differs. The model follows the code
(`Server.PutReplacesWithoutMerging`, `Server.PutDoesNotUnite`). "Differs"
is Python's `!=`, which is `Common.PyEq`: `True == 1`, `False == 0`, and
lists and dicts compare element by element, so a key holding `1` that
receives `true` is not rewritten (`Server.PutKeepsPythonEqualValue`).

Python's string order (`<`, `>`, `sorted`) is `Common.Below`, the
lexicographic order on character sequences. `str.split` and `"/".join` are
`Common.Split` and `Common.Join`.

## Model

| member | source | states |
|---|---|---|
| `Common.Split` | server/RestNoSqlWebApp.py:177 | `str.split` always gives at least one part, no part contains the separator, and joining the parts with the separator gives back the input |
| `Common.SortStrings` | bin/webstorage_nosql.py:76 | sorting a set of strings gives a strictly ascending sequence holding exactly the elements of the set (`SortedSet`, which `SortedUnique` shows is the only such sequence) |
| `Gate.Authenticate` | server/RestNoSqlWebApp.py:39-69 | access is granted iff the id key header is present and configured, the api key header is present and configured under it, and the verb is in its "methods"; a grant without "methods" is a 500 fault; a granted request carries exactly the two header values |
| `Server.DatabaseName` | server/RestNoSqlWebApp.py:177 | the database name is a prefix of the path argument that contains no "/" and is followed by "/" whenever it is shorter than the path |
| `Server.NameOfHandlePath` | server/RestNoSqlWebApp.py:269 | a name without "/" followed by "/" (what a database handle sends) is read back as exactly that name |
| `Server.RouteOf` | server/RestNoSqlWebApp.py:17-20 | a URL goes to the manager iff it starts with "/manager/" under the mount point, to the entry handler iff it starts with "/database/", and the handler argument is the rest of the URL |
| `Server.HandlerOf` | server/RestNoSqlWebApp.py:143-342 | a routed request runs the handler method of its verb's name when its class defines one (`RestNoSqlManager`: GET, POST, PUT, HEAD, DELETE, OPTIONS; `RestNoSql`: GET, PUT, POST, OPTIONS, DELETE, PATCH); HEAD on `RestNoSql`, which has no HEAD, runs GET; anything else has no handler (405) |
| `Server.PutIfDifferent` | server/RestNoSqlWebApp.py:292-297 | the store is written iff the key was absent or its value is not Python-equal (`!=`) to the submitted one; a write maps the key to exactly the submitted value and changes nothing else, no write leaves the store as it was, and either way the key ends up holding a value Python-equal to the submitted one |
| `Common.PyEqReflexive` | server/RestNoSqlWebApp.py:294 | every JSON value is equal to itself under Python's `==` as `Common.PyEq` models it (bool equal to 0/1, lists element by element, dicts key by key) |
| `Server.ServeKeepsNamesWellFormed` | server/RestNoSqlWebApp.py:177-183 | no request adds an empty database name or one containing "/" to any tenant directory |
| `Server.RefusedRequestsChangeNothing` | server/RestNoSqlWebApp.py:39-64 | a request the gate refuses leaves every directory and store unchanged, writes nothing and is answered 401, 500 (a grant without "methods") or 405 (a verb the handler class has no method for, refused before the gate runs), never 200 |
| `Server.ServeAnswersKnownStatus` | server/RestNoSqlWebApp.py:38-74 | every request is answered with 200, 401, 404 (unrouted path or `web.notfound()`), 405 (a verb the handler class has no method for; HEAD on `/database/` runs GET instead) or 500 (`web.internalerror()`) and nothing else |
| `Server.HeadOnEntryRunsGet` | server/RestNoSqlWebApp.py:236-275 | a granted HEAD on `/database/<name>/` is answered exactly as the entry GET would be, and changes nothing |
| `Server.TenantIsolation` | server/RestNoSqlWebApp.py:67-69 | every request leaves the directory of every tenant other than its id key exactly as it was, and creates a directory only for its own configured id key |
| `Server.ReadsChangeNothing` | server/RestNoSqlWebApp.py:163-324 | GET, HEAD and OPTIONS, on either handler class, leave every directory and store as they were and write nothing |
| `Server.CreateIsIdempotent` | server/RestNoSqlWebApp.py:177-188 | creating twice equals creating once; the answer is 200 with the name; an existing database keeps all its entries; a non-empty name can be opened afterwards |
| `Server.HeadAndDropFollowTheListing` | server/RestNoSqlWebApp.py:204-227 | HEAD or DELETE of an unlisted name gives 404 and changes nothing; DELETE of a listed name removes exactly that name, leaves the other databases as they were, and the name leaves the listing and HEAD then gives 404 |
| `Server.PutReplacesWithoutMerging` | server/RestNoSqlWebApp.py:290-297 | entry PUT answers 200; it writes iff the key was absent or held a value not Python-equal to the submitted one, and a write stores exactly the submitted value while no write leaves the store as it was; the key then holds a value Python-equal to the submitted one, which a following GET returns |
| `Server.PutKeepsPythonEqualValue` | server/RestNoSqlWebApp.py:293-295 | a key holding 1 that receives `true` by PUT is not written, the store is unchanged and GET still answers 1 |
| `Server.PutDoesNotUnite` | server/RestNoSqlWebApp.py:280-297 | a key holding ["x"] that receives ["y"] by PUT holds ["y"] alone: no union is formed |
| `Server.PostThenGet` | server/RestNoSqlWebApp.py:309-312 | POST answers 200 and writes once; a following GET returns the posted value; GET of an absent key gives 404 |
| `Server.DeleteAndOptions` | server/RestNoSqlWebApp.py:321-338 | entry DELETE removes exactly that key (200), or gives 404 and changes nothing when it is absent; OPTIONS lists exactly the stored keys |
| `Server.DeleteThenGet` | server/RestNoSqlWebApp.py:328-338 | after DELETE of a key, GET of that key answers 404 |
| `Server.KeysOfEmptyStore` | server/RestNoSqlWebApp.py:321-324 | OPTIONS on an empty store answers 200 with the empty list |
| `Server.KeysOfSingletonStore` | server/RestNoSqlWebApp.py:321-324 | OPTIONS on a store with one key answers 200 with exactly that key |
| `Server.Scenario` | server/RestNoSqlWebApp.py:172-338 | create a database, then POST, PUT, DELETE and GET one entry: the listings and readings are [], ["k"], the posted value, the value written by PUT, and 404 |
| `Server.TenantStore.constructor` | server/RestNoSqlWebApp.py:132-139 | the store starts from the given directories with well-formed names and no writes |
| `Server.TenantStore.ListDatabases` | server/RestNoSqlWebApp.py:163-170 | the answer is the listing of the tenant directory (500 when the directory is missing) |
| `Server.TenantStore.CreateDatabase` | server/RestNoSqlWebApp.py:172-188 | the new directories are those `CreateSpec` gives and the response is its response |
| `Server.TenantStore.HasDatabase` | server/RestNoSqlWebApp.py:203-211 | the answer is 200 when the name is listed and 404 otherwise (`HeadSpec`) |
| `Server.TenantStore.DropDatabase` | server/RestNoSqlWebApp.py:213-227 | the new directories and the response are those `DropSpec` gives |
| `Server.TenantStore.GetValue` | server/RestNoSqlWebApp.py:261-275 | the answer is the stored value, or 404 for an absent key (`GetSpec`) |
| `Server.TenantStore.PutValue` | server/RestNoSqlWebApp.py:277-297 | the new directories, response and write count are those `PutSpec` gives |
| `Server.TenantStore.PostValue` | server/RestNoSqlWebApp.py:299-312 | the new directories, response and write count are those `PostSpec` gives |
| `Server.TenantStore.ListKeys` | server/RestNoSqlWebApp.py:314-324 | the answer lists the keys of the store (`KeysSpec`) |
| `Server.TenantStore.DeleteValue` | server/RestNoSqlWebApp.py:326-338 | the new directories and the response are those `DeleteSpec` gives |
| `Server.TenantStore.Serve` | server/RestNoSqlWebApp.py:32-74 | one request is routed, passed through the gate and handled exactly as `ServeSpec` says, and database names stay well formed |
| `Client.ReadStatus` | client/RestNoSqlClient.py:38-43 | a status returns the response iff it is in 200-299, raises KeyError iff it is in 400-499, raises IOError iff it is in 500-599, and otherwise falls through |
| `Client.NamesOf` | client/RestNoSqlClient.py:60-62 | a decoded listing is a list of names whose JSON encoding is the received body |
| `Client.NamesRoundTrip` | client/RestNoSqlClient.py:60-62 | decoding the JSON listing the server sends gives back exactly the server's list of names |
| `Client.ManagerUrlRoutes` | client/RestNoSqlClient.py:36 | a manager URL built from the base URL and a path reaches the manager handler with that path as its argument |
| `Client.HandleUrlRoutes` | client/RestNoSqlClient.py:83 | a database handle's request URL (the handle URL plus "/") reaches the entry handler, which reads back exactly the database name |
| `Client.ServerAnswersAreRead` | client/RestNoSqlClient.py:38-43 | every server answer is read correctly: 200 returns, 401/404/405 raise KeyError, 500 raises IOError, and no server answer falls through |
| `Client.KnownStatusIsRead` | client/RestNoSqlClient.py:38-43 | of the statuses the server sends, 200 returns the response, 401/404/405 raise KeyError, 500 raises IOError, and none falls through to None |
| `Client.RemoveFirst` | client/RestNoSqlClient.py:118 | `list.remove` takes out the first occurrence of the key and keeps the rest in order (the list before it and the list after it, joined); as a multiset one copy of the key goes |
| `Client.ListingMirrors` | client/RestNoSqlClient.py:103-106 | a freshly fetched key list is duplicate-free and holds exactly the keys of the store |
| `Client.AppendNewKeyMirrors` | client/RestNoSqlClient.py:112-114 | appending a key the store did not hold keeps the cache an exact mirror of the store |
| `Client.RemoveFirstMirrors` | client/RestNoSqlClient.py:116-118 | removing a stored key from a mirroring cache keeps it a mirror of the store without that key |
| `Client.AppendExistingKeyDuplicates` | client/RestNoSqlClient.py:112-114 | setting a key that is already cached puts it in the cache twice |
| `Client.DuplicateKeySurvivesDelete` | client/RestNoSqlClient.py:112-118 | after re-setting a cached key and then deleting it, the cache still lists the key the store no longer has |
| `Client.AddKey` | client/RestNoSqlClient.py:114 | the corrected cache update always leaves the key in the cache |
| `Client.AddKeyMirrors` | client/RestNoSqlClient.py:112-118 | with the corrected update, set and then delete keep a mirroring cache a mirror of the store |
| `Client.RestNoSqlClient.constructor` | client/RestNoSqlClient.py:13-30 | the client keeps the base URL and the two credentials it is given |
| `Client.RestNoSqlClient.Request` | client/RestNoSqlClient.py:32-43 | the request goes to the manager URL with the client's credentials; the store changes as the server's answer says, and the outcome is the status reading of that answer |
| `Client.RestNoSqlClient.Create` | client/RestNoSqlClient.py:45-46 | create sends POST for the name; the store changes as the server says; the exception the status raises is passed on |
| `Client.RestNoSqlClient.Open` | client/RestNoSqlClient.py:48-52 | mode "c" creates the database only when list() does not name it; any other mode never creates; a failed listing is passed on; the handle is new, has an empty cache and the URL base + "/database/" + name |
| `Client.RestNoSqlClient.Delete` | client/RestNoSqlClient.py:54-55 | delete sends DELETE for the name; the store changes as the server says; the exception the status raises is passed on |
| `Client.RestNoSqlClient.Exists` | client/RestNoSqlClient.py:57-58 | exists is membership of the name in list() and changes nothing |
| `Client.RestNoSqlClient.List` | client/RestNoSqlClient.py:60-62 | list is the decoded answer to a manager OPTIONS request and changes nothing |
| `Client.RestNoSqlDatabase.constructor` | client/RestNoSqlClient.py:67-77 | a new handle keeps its URL and credentials, and its key cache is empty (None) |
| `Client.RestNoSqlDatabase.Request` | client/RestNoSqlClient.py:79-90 | the request goes to the handle URL plus "/" with the data as its body; the store changes as the server says and the outcome is the status reading |
| `Client.RestNoSqlDatabase.Keys` | client/RestNoSqlClient.py:103-106 | a filled cache is returned unchanged, without a request; an empty cache is filled from an OPTIONS request; the store never changes |
| `Client.RestNoSqlDatabase.Contains` | client/RestNoSqlClient.py:98-101 | membership is tested against the cached key list, not against the store: a filled cache is kept and answers directly; an empty cache is filled from the OPTIONS listing (left empty if that fails); the store and its write count never change |
| `Client.RestNoSqlDatabase.GetItem` | client/RestNoSqlClient.py:108-110 | the result is the stored value, or KeyError for an absent key, and the store is unchanged |
| `Client.RestNoSqlDatabase.SetItem` | client/RestNoSqlClient.py:112-114 | POST is sent first; then the key is appended to the cache even when it is already there; with an empty cache the write has happened and AttributeError is raised |
| `Client.RestNoSqlDatabase.DelItem` | client/RestNoSqlClient.py:116-118 | DELETE is sent first; a failing status raises before the cache is touched; then the first occurrence of the key leaves the cache, or ValueError / AttributeError is raised when there is none or no cache |
| `Client.RestNoSqlDatabase.Lookups` | client/RestNoSqlClient.py:120-126 | looking the keys up one by one (`self[key]` for each key) leaves the store unchanged; success gives, for every key in order, the value the store holds for it, and a failure is the failure of one of the keys' lookups |
| `Client.RestNoSqlDatabase.Items` | client/RestNoSqlClient.py:120-122 | a successful result pairs the cached keys, in order, with the values the store holds for them; a filled cache is kept and an empty one is filled from the OPTIONS listing; a failure is the listing's failure or one key's lookup failure; the store and its write count never change |
| `Client.RestNoSqlDatabase.Values` | client/RestNoSqlClient.py:124-126 | a successful result lists, in cache order, the values the store holds for the cached keys; a filled cache is kept and an empty one is filled from the OPTIONS listing; a failure is the listing's failure or one key's lookup failure; the store and its write count never change |
| `Indexer.FileIndexAfterItems` | bin/webstorage_nosql.py:99-103 | after a run of items, paths already indexed keep their stored lists, the indexed paths are exactly the old ones plus those the items name, and the log is untouched |
| `Indexer.FirstChecksumKept` | bin/webstorage_nosql.py:99-103 | a new path ends up mapped to the one-element list of the checksum of the first item naming it; later checksums are lost |
| `Indexer.UnnamedChecksumsUntouched` | bin/webstorage_nosql.py:105-109 | a checksum no item names keeps its entry in the checksum index, or stays absent |
| `Indexer.LastProcessedWins` | bin/webstorage_nosql.py:105-109 | when no item's datetime is a checksum key, neither stored nor named by any item (so the lookup at line 105 never raises), every checksum maps to the backup set of the last item naming it, whatever the datetimes |
| `Indexer.AppendIsLost` | bin/webstorage_nosql.py:99-100 | two checksums for one new path leave only the first in the file index |
| `Indexer.OlderSetCanWin` | bin/webstorage_nosql.py:105-109 | an older backup set processed after a newer one takes over the checksum |
| `Indexer.MergeItemGrows` | bin/webstorage_nosql.py:99-103 | the corrected update keeps every stored list as a prefix, keeps lists free of duplicates, and records the item's checksum under its path |
| `Indexer.MergeRecordsEveryChecksum` | bin/webstorage_nosql.py:99-103 | with the corrected update, every checksum of every item is listed under its path, stored lists only grow and stay free of duplicates, and a path lists nothing but checksums stored under it before or named for it by an item |
| `Indexer.MergeItemNoOlder` | bin/webstorage_nosql.py:105-109 | the corrected update never replaces a checksum's backup set with an older one, and the stored set is at least as new as the item's |
| `Indexer.MergeKeepsNewest` | bin/webstorage_nosql.py:105-109 | with the corrected update, each checksum maps to a backup set at least as new as every set that named it, and as new as what it held before, and that set is the one it held before or the set of an item that named it: the newest set containing it |
| `Indexer.MergeListsOnlySeen` | bin/webstorage_nosql.py:99-103 | with the corrected update, a checksum listed under a path was stored under it before or named for it by an item |
| `Indexer.MergeMapsToNamedSet` | bin/webstorage_nosql.py:105-109 | with the corrected update, a checksum maps to the set it held before or to the set of an item that named it |
| `Indexer.MergeOrderIndependent` | bin/webstorage_nosql.py:105-109 | with the corrected update, two items for one checksum with different datetimes give the same checksum index in either order |
| `Indexer.SearchChecksumAsWritten` | bin/webstorage_nosql.py:24-35 | the checksum search finds something iff the checksum is a key of the file index |
| `Indexer.SearchAbsfileAsWritten` | bin/webstorage_nosql.py:37-48 | the path search finds something iff the path is a key of the checksum index |
| `Indexer.LookupFile` | bin/webstorage_nosql.py:29-35 | `db[key]` on the file index finds something iff the key is an indexed path, and then answers that path's checksum list |
| `Indexer.LookupChecksum` | bin/webstorage_nosql.py:41-48 | `db[key]` on the checksum index finds something iff the key is an indexed checksum, and then answers that checksum's backup set |
| `Indexer.LookupsMissIndexedItem` | bin/webstorage_nosql.py:24-48 | after indexing one item, both searches as written find nothing, while the checksum looked up in the checksum index and the path in the file index give its backup set and its checksum list |
| `Indexer.IndexedItemsAreFound` | bin/webstorage_nosql.py:24-48 | after indexing, every indexed path is found in the file index (with the first checksum for it), and every checksum is found in the checksum index with the last backup set that named it |
| `Indexer.SetItemsOnePerPath` | bin/webstorage_nosql.py:76-78 | a backup set enqueues exactly one item per manifest path, carrying that set and the path's checksum, in strictly ascending path order |
| `Indexer.IndexSetLogs` | bin/webstorage_nosql.py:80-83 | after a set's items, the log gains the set's basename with the current stamp only when it was not already logged, and earlier log entries and stored path lists are unchanged |
| `Indexer.RunKeepsEarlierEntries` | bin/webstorage_nosql.py:68-83 | a run never changes an existing log entry or an existing path's list |
| `Indexer.RunAbortsAtBadName` | bin/webstorage_nosql.py:73 | a run aborts only at an unlogged backup set whose basename does not split on "_" into three parts |
| `Indexer.CompletedRunLogsEverySet` | bin/webstorage_nosql.py:68-83 | a run that completes leaves every backup set's basename in the log |
| `Indexer.WellNamedRunCompletes` | bin/webstorage_nosql.py:73 | a run over basenames that all split into three parts completes |
| `Indexer.LoggedSetsAreSkipped` | bin/webstorage_nosql.py:70-72 | backup sets already in the log are skipped: nothing is fetched, indexed or logged |
| `Indexer.RerunChangesNothing` | bin/webstorage_nosql.py:70-72 | running again after a completed run changes nothing, whatever the archive and clock then say |
| `Indexer.PendingIsPrefix` | bin/webstorage_nosql.py:93-95 | the items a worker processes are the queue entries before the first None sentinel |
| `Indexer.PendingOfSomes` | bin/webstorage_nosql.py:76-78 | a queue holding only items, with no sentinel, is processed in full and in order |
| `Indexer.WorkQueue.constructor` | bin/webstorage_nosql.py:59 | a new queue is empty with no unfinished tasks |
| `Indexer.WorkQueue.Put` | bin/webstorage_nosql.py:78 | put appends to the queue and adds one unfinished task |
| `Indexer.WorkQueue.Get` | bin/webstorage_nosql.py:93 | get removes and returns the head of the queue |
| `Indexer.WorkQueue.TaskDone` | bin/webstorage_nosql.py:112 | task_done marks one unfinished task as done |
| `Indexer.IndexBuilder.constructor` | bin/webstorage_nosql.py:148-150 | the builder starts from the given three stores |
| `Indexer.IndexBuilder.IndexItem` | bin/webstorage_nosql.py:96-111 | one item changes the stores exactly as `ApplyItem` says, including dropping the rest of an item whose lookup raises |
| `Indexer.IndexBuilder.Enqueue` | bin/webstorage_nosql.py:76-78 | the queue receives one item per path, in the order of the sorted path list, each carrying the backup set, the path and its manifest checksum, and one unfinished task per item |
| `Indexer.IndexBuilder.ChecksumThread` | bin/webstorage_nosql.py:89-112 | a worker applies the queued items in order up to the first None, marks each as done once, and stops iff it met a None, which it takes off the queue |
| `Indexer.IndexBuilder.IndexBackupSet` | bin/webstorage_nosql.py:75-83 | one backup set's manifest is enqueued, drained and logged exactly as `IndexSet` says, and the queue ends empty |
| `Indexer.IndexBuilder.Shutdown` | bin/webstorage_nosql.py:84-87 | one None per worker stops all four workers and leaves the stores unchanged |
| `Indexer.IndexBuilder.CreateNosql` | bin/webstorage_nosql.py:50-87 | the stores and the outcome after the driver are those `Run` gives; a completed run stops all four workers, an aborted one stops none |

## Left out

- HTTP transport is not modelled beyond the URL table and the choice of handler method (`Server.HandlerOf`, including web.py's HEAD-to-GET fallback). That covers the WSGI app, `requests` sessions, the user-agent header, proxies, JSON text encoding and `__enter__`/`__exit__`. A request is a value handed to `Server.TenantStore.Serve`.
- SQLite and the filesystem are nested maps. `mkdir`, `listdir`, `unlink` and `rmdir` appear only as their effect on those maps.
- The startup creation of tenant directories (`server/RestNoSqlWebApp.py:132-139`) is left out. The store starts from whatever directories it is given, and a missing tenant directory gives a 500 where the code would raise.
- Listing order is left out. `os.listdir` has no fixed order and `SqliteDict` lists keys in insertion order; the order is not modelled, and listings are given in ascending order instead.
- Server.TenantStore.CreateDatabase: database names are modelled as opaque keys, not as path components. For `""` and `.` the code creates `data.sqlite` in the tenant directory itself, so `os.listdir` then lists a new database named `data.sqlite`; the model creates nothing for `""` and adds a listed database `.` for `.`. For `..` the code creates `data.sqlite` in the storage directory and lists nothing new, where the model adds a listed database `..`.
- Server.TenantIsolation: holds of the model, where names are opaque keys. In the code, the name `..` (a raw or percent-encoded path segment) makes every tenant open the same `data.sqlite` in the storage directory. So isolation holds of the code only for database names other than `.`, `..` and `""`.
- Server.OpenStore: an entry request whose database name is `""` or `.` opens or creates `data.sqlite` in the tenant directory and succeeds in the code. The model answers 500 because the name is not a database.
- Common.Json: numbers are integers. JSON fractions, and Python's `1 == 1.0` in `Common.PyEq`, are not modelled.
- Client.RestNoSqlDatabase.Keys: returns the cached list as a value. In the code `keys()` returns the cache list object itself, so a caller that changes the returned list changes the cache; that aliasing is not modelled.
- Entry keys are JSON strings. A body of any other shape is answered with 500, the same as a malformed body.
- The manager PUT and entry PATCH handlers do nothing and answer 200; the model does the same. The unenforced 100-character key limit is not modelled.
- The `encode_json` and `stats` wrappers, logging and timing are left out. Their only effect kept is that an exception becomes a 500.
- Threads and queue interleavings in the index builder are not modelled. A drained queue is its items applied one after another in queue order, and one worker loop drains it, so the lost-update races between workers are not captured.
- The backup-set archive client (`WebStorageArchiveClient`) is not part of this model. The backup sets are an input sequence, and the manifests come from the `archive` parameter, reduced to each path's "checksum" field.
- `datetime.now()` is replaced by the `clock` parameter, indexed by the position of the backup set.
- The index builder writes its three stores as plain maps, not through `RestNoSqlDatabase` handles. The handles' key caches are modelled only on the client side.
- `search_checksum` and `search_absfile` are modelled as lookups in the index values. Opening the handles and printing are left out.
- `main1` and the `__main__` block (`bin/webstorage_nosql.py:115-159`) are left out: they handle the command line and call names that do not exist. The server's `__main__` block and the config-file loading are left out too.
- Client.RestNoSqlDatabase.Items: states only the successful result. A failure is passed on as an error for the whole call, not after the pairs already produced, because the generator's laziness is not modelled.
- Client.RestNoSqlDatabase.Values: states only the successful result, for the same reason as `Items`.

## Findings

The methods follow the code as written. Each corrected definition sits beside the as-written one, and the intended property is proved about it.

| source | as written | input that shows it | evidently intended | confidence | as-written member | corrected member |
|---|---|---|---|---|---|---|
| bin/webstorage_nosql.py:99-100 | for a path already indexed, the checksum is appended to a list fetched from the store, and that list is never stored back | two items for one new path "/p", with checksums "c1" then "c2": the file index keeps ["c1"] | each path lists every checksum it has had | not executed | `Indexer.AppendIsLost` | `Indexer.MergeRecordsEveryChecksum` |
| bin/webstorage_nosql.py:105-109 | both branches assign the item's backup set, so the datetime comparison has no effect; when the set's datetime is a key of the checksum index and the checksum is not, the lookup raises and the item is dropped | a checksum seen in set "2021" and then in set "2020": the index ends on the 2020 set | each checksum maps to the newest backup set containing it | not executed | `Indexer.OlderSetCanWin` | `Indexer.MergeKeepsNewest` |
| bin/webstorage_nosql.py:24-48 | `search_checksum` looks the checksum up in the path database, and `search_absfile` looks the path up in the checksum database | one indexed item ("/p", "c"): both searches find nothing | a checksum is looked up in the checksum index, a path in the file index | not executed | `Indexer.LookupsMissIndexedItem` | `Indexer.IndexedItemsAreFound` |
| client/RestNoSqlClient.py:112-118 | `__setitem__` appends the key to the cache even when it is already cached | set an existing key, then delete it: the cache still lists the key the store no longer holds | the cache keeps mirroring the store's keys | not executed | `Client.DuplicateKeySurvivesDelete` | `Client.AddKeyMirrors` |
