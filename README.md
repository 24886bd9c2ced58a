# Schema activation and call dispatch of the RIME web worker

The worker hosts the RIME input-method engine (compiled to WebAssembly) inside a
web worker. This project models the logic of that worker in Dafny:

- **Dependency resolution** (`getFiles`, nested in `setIME`). A schema id
  expands depth-first through the dependency map into a list of asset files.
  Each file is named by the schema's dictionary, prism and schema
  description. Each carries the md5 and the hosting target from the target's
  file manifest.
- **Asset staging** (the rest of `setIME`). Each file is copied into the
  engine's `build/` directory. It is skipped when already there. It is taken
  from the IndexedDB cache when the stored hash equals its md5. Otherwise it
  is downloaded from `ime/<target>/<name>` and stored, content first and hash
  second. The engine's `set_ime` runs only after every file is staged.
- **Call dispatch** (`expose`). Requests wait until the engine is ready. A
  request naming no exposed function closes the worker. Every other request
  gets at most one post: a success envelope with the listed transferable
  arguments, or an error envelope with only the error's message and name.
  `postMessage` sits outside the `try`. When a returned call lists an
  argument that is not a buffer, or lists one buffer twice, `postMessage`
  throws, nothing is posted and the worker stays open.
- **IndexedDB shortcut methods** (`getMethod`). A property such as
  `getAllFromIndex` read on a database becomes a cached shortcut. The
  shortcut opens a transaction, optionally goes through an index, and calls
  the base operation in `readonly` or `readwrite` mode.

Modules:

- `Common`: options, results, bytes.
- `Manifest`: the configuration tables, candidate names and manifest lookup.
- `Resolver`: the walk and its properties, plus the imperative `getFiles`.
- `ResolverExamples`: the shipped `luna_pinyin`/`stroke` cycle, a diamond and
  a shared dictionary.
- `AssetCache`: the staging spec and the `Stager` class.
- `Dispatch`: the `expose` handler.
- `IdbMethods`: `getMethod`.

Each imperative method is proved equal to a pure specification function. The
properties the code promises are proved as lemmas about that function.

JavaScript details the model makes explicit:

- `dict || key` treats the empty string as absent (`OrElse`).
- `dependencyMap[key] || []` gives a schema without an entry no dependencies.
- Reading `schemaFiles[key]` or iterating `targetFiles[target]` on a missing
  entry throws a `TypeError`. These throws are `NoSchemaFiles` and
  `NoTargetFiles`. The first one met in post-order is the one `setIME`
  rejects with.
- `db?.get` on an unavailable database yields `undefined`, which never equals
  an md5.
- `new Uint8Array(undefined)` is empty, so a cache hit whose content row is
  missing stages no bytes.

The code expands every schema at most once per `setIME` call, on every
dependency map, including the cyclic one it ships. It does not remove repeated
files. A schema that borrows another schema's dictionary lists that
dictionary's table, reverse and prism files again. `SharedDictionaryRepeatsFile`
exhibits this. The model follows the code here, not the contract that each
physical file is returned at most once. In the code a repeated file is staged
once per copy: `files.map(async ...)` starts every per-file step at once, and
each step checks the staging path before its first `await`. So every copy is
checked before any copy is written. Each copy is then read from the cache, or
downloaded, again.

## Model

| member | source | states |
|---|---|---|
| Manifest.Candidates | worker.js:746-751 | a schema has exactly four candidate names: table, reverse, prism, schema description |
| Manifest.OrElse | worker.js:747-750 | JavaScript's logical or on an optional string: a present non-empty override wins, an absent or empty one gives the default |
| Manifest.CandidatesDistinct | worker.js:747-751 | whatever the `dict`/`prism` overrides, the four candidates of one schema are pairwise different names |
| Manifest.SharedDictionary | worker.js:746-751 | a schema whose `dict` names another schema asks for that schema's table and reverse (and prism, unless overridden) but keeps its own schema description |
| Manifest.Lookup | worker.js:754-758 | the inner loop finds nothing exactly when no record bears the name, and otherwise a record of the manifest with that name |
| Manifest.LookupFirst | worker.js:754-758 | the record found is the first with that name: the loop breaks at the first match |
| Manifest.MatchesSound | worker.js:753-760 | every emitted file is a candidate with its first manifest record, tagged with the schema's target |
| Manifest.MatchesComplete | worker.js:753-760 | every candidate that has a manifest record is emitted; only candidates without one are omitted |
| Manifest.Matches | worker.js:753-760 | the candidate loop emits at most one file per candidate |
| Manifest.OwnFiles | worker.js:746-760 | a schema's own files are at most four and fail exactly when its `schemaFiles`, `schemaTarget` or target manifest entry is missing, naming that schema |
| Resolver.Visit | worker.js:737-745 | a call never removes schemas from `fetched`, only appends |
| Resolver.VisitAll | worker.js:743-745 | the dependency loop only appends to `fetched` |
| Resolver.Deps | worker.js:743 | the listed dependencies, or none for a schema without an entry |
| Resolver.Collect | worker.js:742-761 | the files of a post-order succeed exactly when every schema's own files do, and are at most four per schema |
| Resolver.CollectFirstError | worker.js:742-761 | a failing collection fails with the error of the first schema, in emission order, whose own files fail |
| Resolver.Resolve | worker.js:763 | `getFiles(schemaId)` succeeds exactly when every schema the walk emits has its table entries |
| Resolver.CollectAppend | worker.js:744 | collecting the files of two consecutive stretches of the post-order is concatenating them, stopping at the first throw |
| Resolver.VisitClosed | worker.js:737-745 | after a call, `key` is in `fetched` and every dependency of every newly marked schema is in `fetched` |
| Resolver.VisitNoDup | worker.js:738-741 | `fetched` never holds a schema twice |
| Resolver.VisitOrderIsNewlyVisited | worker.js:737-761 | the schemas whose own files a call emits are exactly the ones it newly marked, each once |
| Resolver.VisitRooted | worker.js:743-744 | every newly marked schema is reachable from `key` through the dependency map |
| Resolver.VisitDepsFirst | worker.js:742-761 | on an acyclic map (given a rank that decreases along dependencies), every newly marked schema's dependencies are emitted before it |
| Resolver.VisitAllDepsFirst | worker.js:743-745 | the same for the dependency loop, for keys ranked below the schemas still open |
| Resolver.ResolveWalk | worker.js:735-763 | for any dependency map, cyclic or not: the walk starts at `schemaId`, marks no schema twice, reaches only schemas reachable from it, is closed under dependencies, emits each marked schema exactly once, and emits `schemaId` last |
| Resolver.ResolveDepsFirst | worker.js:742-763 | on an acyclic map every schema's dependencies precede it in the emitted order |
| Resolver.FindRecord | worker.js:754-759 | the scan of `targetFiles[target]` that stops at the first record with the candidate's name returns that first record, or nothing when no record bears the name |
| Resolver.FindOwnFiles | worker.js:746-760 | the nested candidate/record loops with `break` compute `OwnFiles`, including its errors |
| Resolver.Resolution.GetFiles | worker.js:737-762 | the recursive `getFiles` on the shared `fetched` list returns the specification's files or first error, and leaves `fetched` as the walk's marked list |
| ResolverExamples.CycleWalk | worker.js:407-412 | on the shipped `luna_pinyin` ↔ `stroke` cycle the walk terminates, marks `luna_pinyin` then `stroke`, and emits `stroke` first |
| ResolverExamples.CycleResolves | worker.js:735-762 | `setIME("luna_pinyin")` on the cycle resolves to `stroke`'s files, then `luna_pinyin`'s |
| ResolverExamples.DiamondVisitsBaseOnce | worker.js:737-745 | a schema reachable along two paths is expanded once, on the first path |
| ResolverExamples.SharedDictionaryRepeatsFile | worker.js:746-756 | schemas are de-duplicated, files are not: a borrowed dictionary's table file is listed twice |
| Manifest.MatchesAppend | worker.js:753-760 | matching two stretches of candidates is matching each in turn |
| AssetCache.Ensure | worker.js:766-786 | a per-file step only appends to the trace and never changes whether the database is open |
| AssetCache.EnsureAll | worker.js:765-787 | the pass over all files only appends to the trace and never changes whether the database is open |
| AssetCache.SetImeSpec | worker.js:735-789 | `setIME` only appends to the trace; when it succeeds its last call is `set_ime` for that schema; a resolution error fails it with the state unchanged |
| AssetCache.StagedIsSkipped | worker.js:767-769 | an already staged file causes no database read, no fetch and no write |
| AssetCache.CacheHit | worker.js:771-775 | when the stored hash equals the md5, the cached content is staged, the database is unchanged and nothing is fetched |
| AssetCache.CacheMiss | worker.js:771-783 | otherwise the file is fetched exactly once from `ime/<target>/<name>`; a rejected fetch or non-OK response fails after the hash read and the fetch, touching neither database nor staging area; an OK body is stored content first, hash second (when the database is open), then staged, and the step adds exactly those calls |
| AssetCache.FetchedThenHit | worker.js:781-783 | content is stored before the hash, so after a fetch a later check of the same md5 is a cache hit serving the fetched bytes |
| AssetCache.DbUnavailable | worker.js:764-783 | with the database unavailable nothing is read or written there and every unstaged file is fetched |
| AssetCache.EnsureFrame | worker.js:766-786 | a step touches only its own path and its own database rows, and never changes a staged file |
| AssetCache.EnsureKeepsHashedHasContent | worker.js:782-783 | every stored hash has stored content, and a step keeps it so |
| AssetCache.EnsureAllStages | worker.js:765-787 | when all files succeed every file is staged, and staged files keep their bytes |
| AssetCache.EnsureAllKeepsHashedHasContent | worker.js:765-787 | the whole pass keeps every stored hash backed by content |
| AssetCache.EnsureAllFailedPrefix | worker.js:765 | after the first failing file no later file is attempted |
| AssetCache.EnsureAllNeverCallsEngine | worker.js:765-787 | staging files never calls `set_ime` |
| AssetCache.EngineCalledLast | worker.js:763-788 | `set_ime` is called, as the last call, exactly when resolution and every file succeed; a resolution error changes nothing; a failed file leaves the engine uncalled |
| AssetCache.Stager.EnsureFile | worker.js:766-786 | the in-place per-file step performs `Ensure` on the database, staging area and trace |
| AssetCache.Stager.EnsureFiles | worker.js:765-787 | the loop over the files performs `EnsureAll` |
| AssetCache.Stager.SetIme | worker.js:735-789 | `setIME` on a fresh `fetched` list performs `SetImeSpec` |
| Dispatch.Transferables | worker.js:24 | the transferables are never more than the arguments |
| Dispatch.Selected | worker.js:24 | the listed positions below the argument count, each once, increasing |
| Dispatch.TransferablesAreSelected | worker.js:24 | the transferables are exactly the arguments at listed positions, in argument order, each once; unlisted, negative, repeated or out-of-range positions add nothing |
| Dispatch.NoIndicesNoTransfer | worker.js:24 | with no positions listed nothing is transferred |
| Dispatch.TransferOkIffDistinctBuffers | worker.js:24-37 | `postMessage` accepts the transfer list exactly when every listed argument is a buffer and no buffer is listed at two positions |
| Dispatch.StringTransferNotPosted | worker.js:24-37 | listing a string argument as transferable posts nothing |
| Dispatch.RepeatedBufferNotPosted | worker.js:24-37 | listing the same buffer at two positions posts nothing |
| Dispatch.Respond | worker.js:16-37 | the worker closes exactly when the name is not exposed; `postMessage` throws only on a returned value's transfer list; a success that is posted transfers its transferables, which are distinct buffers; an error transfers nothing |
| Dispatch.RespondReports | worker.js:23-37 | a returned value is posted exactly when the listed arguments are distinct buffers, in a success envelope holding arguments of the request only; a thrown error is always posted, holding only its message and name |
| Dispatch.HandleAll | worker.js:11-38 | handling requests only appends posts, and once closed nothing changes |
| Dispatch.Deliver | worker.js:13-37 | one request closes the worker exactly when its name is not exposed, appends exactly its post when there is one, leaves the posts unchanged when `postMessage` throws, and changes nothing once closed |
| Dispatch.OnePostPerRequest | worker.js:17-37 | when every request names an exposed function and lists only distinct buffers as transferable, the worker stays open and posts exactly one answer per request, in order |
| Dispatch.ExposedKeepsOpen | worker.js:17-37 | requests naming exposed functions never close the worker, whether or not their post goes out |
| Dispatch.UnknownNameCloses | worker.js:18-22 | the first request naming no exposed function closes the worker: earlier requests are answered, it and later ones are not |
| Dispatch.Dispatcher.CollectTransferables | worker.js:24 | the `forEach` loop builds `Transferables` |
| Dispatch.Dispatcher.Handle | worker.js:13-37 | the handler body, which returns before posting when the transfer list is refused, performs `Deliver` on the closed flag and the posts |
| Dispatch.Dispatcher.OnMessage | worker.js:11-12 | before readiness a request only waits; after it, the posts are those of handling every received request in order |
| Dispatch.Dispatcher.BecomeReady | worker.js:12 | when `readyPromise` resolves the waiting requests are handled in arrival order |
| IdbMethods.StripFromIndex | worker.js:291 | stripping yields a prefix of the property name |
| IdbMethods.StripAppended | worker.js:291-292 | `XFromIndex` strips to `X` |
| IdbMethods.StripChangesOnlySuffixed | worker.js:291-292 | `useIndex` holds exactly when the name ends in `FromIndex`, and the suffix is the only part removed |
| IdbMethods.ClassifyAccepts | worker.js:291-297 | accepted names are exactly a listed operation on the object store, or a listed operation on the index plus `FromIndex`; the transaction is `readwrite` exactly for writes |
| IdbMethods.Classify | worker.js:291-297 | an accepted name's operation is listed and exists on the prototype it will be called on |
| IdbMethods.Shortcut | worker.js:284-299 | only string properties on a database are intercepted, and only names not already on it |
| IdbMethods.Invoke | worker.js:300-305 | a shortcut opens its transaction in its mode on the given store; the index name (when there is one) and the operation's arguments are exactly the caller's arguments, none lost or reordered, and only an index shortcut takes an index name |
| IdbMethods.Settle | worker.js:306-313 | a read settles exactly as its operation, never waiting for `tx.done`; the result resolves only with the operation's value and only after what it waits for; it rejects exactly when the operation rejects or, for a write, `tx.done` rejects; the operation's rejection wins unless `tx.done` rejected strictly earlier, and then `tx.done`'s does |
| IdbMethods.MethodCache.GetMethod | worker.js:283-318 | undefined exactly where guard or classification rejects; a cached name returns the same shortcut and changes nothing; otherwise a new shortcut is made and cached |
| IdbMethods.IndexReadExample | worker.js:291-297 | `getAllFromIndex` is a read-only `getAll` through an index |
| IdbMethods.StoreWriteExample | worker.js:293-297 | `put` is a read-write store operation |
| IdbMethods.IndexWriteRefused | worker.js:296 | `putFromIndex` is refused because the index prototype has no `put` |
| IdbMethods.UnlistedRefused | worker.js:297 | `openCursor` is refused though the store has it |
| IdbMethods.DoubleSuffixRefused | worker.js:291 | only one trailing `FromIndex` is stripped |

## Left out

- The IndexedDB wrapper's proxy machinery (`wrap`, `unwrap`, request promises, transaction completion, the `get`/`has` traps, `openDB`). The two object stores are modelled as maps, and a database that failed to open as a flag.
- `loadWasm` and the engine (`Module.ccall`, `Module.FS`). The staging file system is a map from path to bytes. `set_ime` is a trace event. Readiness is a flag set by `BecomeReady`.
- The network is a function from URL to response. It is the same for every call, and `response.arrayBuffer()` is the response body.
- AssetCache.EnsureAll: the one-after-another rendering skips a later copy of a repeated file, because the first copy has already staged it. The code checks every copy before any is written, so it fetches the file, or reads it from the cache, once per copy.
- `Promise.all` runs the per-file steps concurrently. The model runs them one after another in list order and stops at the first failure. Interleavings, and steps still running after the rejection, are not modelled.
- In `expose`, each call is taken to finish before the next request is handled. Posts of concurrently running async functions can interleave, and the model does not capture that.
- Requests that continuations had already queued when `self.close()` ran are treated as not handled. The `console.error` line is not modelled.
- Dispatch.Respond: an exposed function is a pure function of its arguments, so two identical requests get identical answers. The exposed functions are stateful in the code: `setIME` reads and writes the staging file system and the database, and `process` uses engine state. The `Dispatch` model is not connected to `Stager.SetIme`.
- Dispatch.Respond: the only transferable objects modelled are array buffers, and a buffer is never detached. Other transferables (message ports, image bitmaps), and a buffer detached by an earlier transfer, are not modelled. The unhandled rejection `postMessage` leaves behind is represented only by the missing post.
- Dispatch.Respond: a request missing `args` or `transferableIndices`, or a thrown value that is not an `Error`, is not modelled. Names inherited from `Object.prototype`, such as `toString`, are treated as not exposed.
- AssetCache.Ensure: per-operation database errors are not modelled. They propagate in the code, but here every database read and write succeeds.
- AssetCache.CacheHit: the stored hash is compared as a string. Non-string values in the HASH store are not modelled.
- Resolver.Resolution.GetFiles: the contents of `fetched` after a throw are not stated. `setIME` discards them.
- IdbMethods.MethodCache.GetMethod: the shortcut's function object is represented by a fresh number and its `MethodSpec`. The returned async function is summarised by `Invoke`, for its call, and `Settle`, for how its promise settles. The operations' own outcomes are parameters of `Settle`.
- IdbMethods.Invoke: an index shortcut called with nothing after the store name passes `undefined` to `index()`, which the model shows as no index name. The rejection that follows is not modelled.
- The static schema, dependency and manifest tables are configuration. They are parameters here, and the lemmas use small sample tables built from the shipped ones.
- The exact text of the `TypeError`s thrown for missing table entries is not modelled. The download error's message, `Fail to download <name>`, is represented by `DownloadFailed(name)`.
