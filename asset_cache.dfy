/**
 * The second half of `setIME`: every resolved file is staged into the
 * engine's file system under `build/`, taken from the IndexedDB cache when the
 * stored hash equals the file's md5 and fetched from `ime/<target>/<name>`
 * otherwise; a fetched file is written to the CONTENT store and then its md5
 * to the HASH store. The engine's `set_ime` runs only once every file is
 * staged.
 *
 * The database, the staging file system, the network and the engine are
 * modelled as values: two maps for the HASH and CONTENT stores, a map from
 * path to bytes for the staging file system, a function from URL to response
 * for the server, and a trace of the observable calls. `Ensure`, `EnsureAll`
 * and `SetImeSpec` specify the steps on those values; the class `Stager`
 * performs them in place.
 */
module AssetCache {
  import opened Common
  import opened Manifest
  import opened Resolver

  /** The URL prefix of the asset server (`prefix`). */
  const Prefix := "ime/"
  /** The engine directory files are staged into. */
  const BuildDir := "build/"

  /** What `fetch` yields: a response with its status and body, or a rejection. */
  datatype Response = HttpResponse(status: int, body: Bytes) | NetworkFailure

  /** The server: what `fetch` answers for each URL. */
  type Server = string -> Response

  /** `response.ok`: the status is in the range 200-299. */
  predicate IsOk(status: int) {
    200 <= status <= 299
  }

  /** Why `setIME` rejects. */
  datatype ImeError =
    | Unresolved(cause: ResolveError)   // `getFiles` threw
    | DownloadFailed(name: string)      // `Error("Fail to download " + name)`
    | FetchRejected(url: string)        // `fetch` itself rejected

  datatype Status = Done | Failed(error: ImeError)

  /** The calls of `setIME` an observer can see, in order. */
  datatype Event =
    | HashGet(name: string)
    | ContentGet(name: string)
    | ContentPut(name: string)
    | HashPut(name: string)
    | Fetch(url: string)
    | WriteFile(path: string)
    | SetImeCalled(schemaId: string)

  predicate IsDbEvent(e: Event) {
    e.HashGet? || e.ContentGet? || e.ContentPut? || e.HashPut?
  }

  /** The two object stores of the `ime` database. */
  datatype Db = Db(hash: map<string, string>, content: map<string, Bytes>)

  /**
   * Everything `setIME` reads or changes: the database (`dbOpen` is false when
   * `dbPromise` rejected), the staging file system and the trace of calls.
   */
  datatype Store = Store(db: Db, dbOpen: bool, fs: map<string, Bytes>, trace: seq<Event>)

  /** The state after a step, and whether the step succeeded. */
  datatype Stepped = Stepped(store: Store, status: Status)

  /** `${prefix}${target}/${name}` */
  function FetchUrl(f: FileReq): string {
    Prefix + f.target + "/" + f.name
  }

  function StagePath(f: FileReq): string {
    BuildDir + f.name
  }

  /** `storedHash`: `db?.get(HASH, name)`, undefined when the database is unavailable. */
  function StoredHash(s: Store, name: string): Option<string> {
    if s.dbOpen then Get(s.db.hash, name) else None
  }

  /** The bytes a cache hit stages: `new Uint8Array(undefined)` is empty. */
  function CachedBytes(d: Db, name: string): Bytes {
    if name in d.content then d.content[name] else []
  }

  /** The per-file body of `setIME`'s `Promise.all`. */
  function Ensure(s: Store, f: FileReq, server: Server): (r: Stepped)
    ensures s.trace <= r.store.trace && r.store.dbOpen == s.dbOpen
  {
    var path := StagePath(f);
    if path in s.fs then Stepped(s, Done)
    else
      var t1 := if s.dbOpen then s.trace + [HashGet(f.name)] else s.trace;
      if StoredHash(s, f.name) == Some(f.md5) then
        var bytes := CachedBytes(s.db, f.name);
        Stepped(s.(fs := s.fs[path := bytes], trace := t1 + [ContentGet(f.name)] + [WriteFile(path)]), Done)
      else
        var url := FetchUrl(f);
        var t2 := t1 + [Fetch(url)];
        match server(url)
        case NetworkFailure => Stepped(s.(trace := t2), Failed(FetchRejected(url)))
        case HttpResponse(status, body) =>
          if !IsOk(status) then Stepped(s.(trace := t2), Failed(DownloadFailed(f.name)))
          else
            var db := if s.dbOpen then Db(s.db.hash[f.name := f.md5], s.db.content[f.name := body]) else s.db;
            var t3 := if s.dbOpen then t2 + [ContentPut(f.name)] + [HashPut(f.name)] else t2;
            Stepped(Store(db, s.dbOpen, s.fs[path := body], t3 + [WriteFile(path)]), Done)
  }

  /** The files handled in list order, stopping at the first that fails. */
  function EnsureAll(s: Store, files: seq<FileReq>, server: Server): (r: Stepped)
    ensures s.trace <= r.store.trace && r.store.dbOpen == s.dbOpen
  {
    if files == [] then Stepped(s, Done)
    else
      var r := EnsureAll(s, files[..|files| - 1], server);
      if r.status.Failed? then r else Ensure(r.store, files[|files| - 1], server)
  }

  /** `setIME(schemaId)`: resolve, stage every file, then call the engine. */
  function SetImeSpec(c: Config, s: Store, schemaId: string, server: Server): (r: Stepped)
    ensures s.trace <= r.store.trace
    ensures r.status == Done ==> |r.store.trace| > |s.trace| && r.store.trace[|r.store.trace| - 1] == SetImeCalled(schemaId)
    ensures Resolve(c, schemaId).Err? ==> r.store == s && r.status.Failed?
  {
    match Resolve(c, schemaId)
    case Err(e) => Stepped(s, Failed(Unresolved(e)))
    case Ok(files) =>
      var r := EnsureAll(s, files, server);
      if r.status.Failed? then r
      else Stepped(r.store.(trace := r.store.trace + [SetImeCalled(schemaId)]), Done)
  }

  /** The calls a step added to the trace. */
  function Added(s: Store, r: Stepped): seq<Event>
    requires s.trace <= r.store.trace
  {
    r.store.trace[|s.trace|..]
  }

  // ---------------------------------------------------------------------------
  // One file
  // ---------------------------------------------------------------------------

  /** A file already staged is skipped: no database read, no fetch, no write. */
  lemma StagedIsSkipped(s: Store, f: FileReq, server: Server)
    requires StagePath(f) in s.fs
    ensures Ensure(s, f, server) == Stepped(s, Done)
  {
  }

  /**
   * When the stored hash equals the md5, the cached content is staged and
   * nothing is fetched or written to the database.
   */
  lemma CacheHit(s: Store, f: FileReq, server: Server)
    requires StagePath(f) !in s.fs && s.dbOpen && Get(s.db.hash, f.name) == Some(f.md5)
    ensures var r := Ensure(s, f, server);
      && r.status == Done
      && r.store.db == s.db
      && r.store.fs == s.fs[StagePath(f) := CachedBytes(s.db, f.name)]
      && Added(s, r) == [HashGet(f.name), ContentGet(f.name), WriteFile(StagePath(f))]
  {
    var r := Ensure(s, f, server);
    assert r.store.trace == s.trace + [HashGet(f.name)] + [ContentGet(f.name)] + [WriteFile(StagePath(f))];
  }

  /**
   * On a miss or a mismatch the file is fetched once from
   * `ime/<target>/<name>`. A rejected fetch or a non-OK response fails the file
   * and changes neither the database nor the staging file system; an OK
   * response is staged and, when the database is open, stored with its md5.
   */
  lemma CacheMiss(s: Store, f: FileReq, server: Server)
    requires StagePath(f) !in s.fs && StoredHash(s, f.name) != Some(f.md5)
    ensures var r := Ensure(s, f, server);
      var gets := if s.dbOpen then [HashGet(f.name)] else [];
      && (server(FetchUrl(f)).NetworkFailure? ==>
            && r == Stepped(s.(trace := r.store.trace), Failed(FetchRejected(FetchUrl(f))))
            && Added(s, r) == gets + [Fetch(FetchUrl(f))])
      && (server(FetchUrl(f)).HttpResponse? && !IsOk(server(FetchUrl(f)).status) ==>
            && r == Stepped(s.(trace := r.store.trace), Failed(DownloadFailed(f.name)))
            && Added(s, r) == gets + [Fetch(FetchUrl(f))])
      && (server(FetchUrl(f)).HttpResponse? && IsOk(server(FetchUrl(f)).status) ==>
            var body := server(FetchUrl(f)).body;
            && r.status == Done
            && r.store.fs == s.fs[StagePath(f) := body]
            && (s.dbOpen ==> r.store.db == Db(s.db.hash[f.name := f.md5], s.db.content[f.name := body]))
            && (!s.dbOpen ==> r.store.db == s.db)
            && Added(s, r) == gets + [Fetch(FetchUrl(f))]
                 + (if s.dbOpen then [ContentPut(f.name), HashPut(f.name)] else []) + [WriteFile(StagePath(f))])
  {
    var r := Ensure(s, f, server);
    var gets := if s.dbOpen then [HashGet(f.name)] else [];
    var t2 := s.trace + gets + [Fetch(FetchUrl(f))];
    if server(FetchUrl(f)).HttpResponse? && IsOk(server(FetchUrl(f)).status) {
      var puts := if s.dbOpen then [ContentPut(f.name), HashPut(f.name)] else [];
      assert r.store.trace == t2 + puts + [WriteFile(StagePath(f))];
      assert Added(s, r) == gets + [Fetch(FetchUrl(f))] + puts + [WriteFile(StagePath(f))];
    } else {
      assert r.store.trace == t2;
    }
  }

  /**
   * Content is stored before the hash: a fetched file is written with its md5,
   * so a later process whose staging file system lacks it (the database
   * outlives the engine) takes the same bytes from the cache without a fetch.
   */
  lemma FetchedThenHit(s: Store, f: FileReq, server: Server, fs: map<string, Bytes>, trace: seq<Event>, later: Server)
    requires StagePath(f) !in s.fs && s.dbOpen && Get(s.db.hash, f.name) != Some(f.md5)
    requires server(FetchUrl(f)).HttpResponse? && IsOk(server(FetchUrl(f)).status)
    requires StagePath(f) !in fs
    ensures var s2 := Ensure(s, f, server).store.(fs := fs, trace := trace);
      var r := Ensure(s2, f, later);
      && r.status == Done
      && r.store.fs[StagePath(f)] == server(FetchUrl(f)).body
      && Fetch(FetchUrl(f)) !in Added(s2, r)
  {
    var s2 := Ensure(s, f, server).store.(fs := fs, trace := trace);
    assert s2.db.hash[f.name] == f.md5;
    CacheHit(s2, f, later);
  }

  /**
   * With the database unavailable nothing is read from or written to it and the
   * database is left as it was; a file not yet staged is always fetched.
   */
  lemma DbUnavailable(s: Store, f: FileReq, server: Server)
    requires !s.dbOpen
    ensures var r := Ensure(s, f, server);
      && r.store.db == s.db
      && (forall e | e in Added(s, r) :: !IsDbEvent(e))
      && (StagePath(f) !in s.fs ==> Added(s, r)[0] == Fetch(FetchUrl(f)))
  {
    var r := Ensure(s, f, server);
    if StagePath(f) !in s.fs {
      CacheMiss(s, f, server);
    }
  }

  /** A step changes only the entries of its own file: other paths and other names are untouched. */
  lemma EnsureFrame(s: Store, f: FileReq, server: Server)
    ensures var r := Ensure(s, f, server);
      && (forall p | p != StagePath(f) :: Get(r.store.fs, p) == Get(s.fs, p))
      && (forall n | n != f.name :: Get(r.store.db.hash, n) == Get(s.db.hash, n) && Get(r.store.db.content, n) == Get(s.db.content, n))
      && (forall p | p in s.fs :: p in r.store.fs && r.store.fs[p] == s.fs[p])
  {
  }

  /** Every hash in the database has its content: what writing content before hash keeps. */
  ghost predicate HashedHasContent(d: Db) {
    forall n | n in d.hash :: n in d.content
  }

  lemma EnsureKeepsHashedHasContent(s: Store, f: FileReq, server: Server)
    requires HashedHasContent(s.db)
    ensures HashedHasContent(Ensure(s, f, server).store.db)
  {
  }

  /** A staged file keeps its bytes; a step that fails leaves every staged file as it was. */
  ghost predicate Grows(s: Store, t: Store) {
    forall p | p in s.fs :: p in t.fs && t.fs[p] == s.fs[p]
  }

  // ---------------------------------------------------------------------------
  // All files
  // ---------------------------------------------------------------------------

  /** Once a prefix of the files has failed, the rest are not attempted. */
  lemma {:induction false} EnsureAllFailedPrefix(s: Store, files: seq<FileReq>, i: nat, server: Server)
    requires i <= |files| && EnsureAll(s, files[..i], server).status.Failed?
    ensures EnsureAll(s, files, server) == EnsureAll(s, files[..i], server)
    decreases |files| - i
  {
    if i < |files| {
      assert files[..i + 1][..i] == files[..i];
      EnsureAllFailedPrefix(s, files, i + 1, server);
    } else {
      assert files[..i] == files;
    }
  }

  /** After all files succeed, every one of them is staged, and staged files keep their bytes. */
  lemma {:induction false} EnsureAllStages(s: Store, files: seq<FileReq>, server: Server)
    ensures Grows(s, EnsureAll(s, files, server).store)
    ensures EnsureAll(s, files, server).status == Done ==>
      forall f | f in files :: StagePath(f) in EnsureAll(s, files, server).store.fs
  {
    if files != [] {
      var init, last := files[..|files| - 1], files[|files| - 1];
      EnsureAllStages(s, init, server);
      var r := EnsureAll(s, init, server);
      if r.status == Done {
        EnsureFrame(r.store, last, server);
        assert forall f | f in files :: f in init || f == last;
      }
    }
  }

  /** The database keeps its hashes backed by content across the whole pass. */
  lemma {:induction false} EnsureAllKeepsHashedHasContent(s: Store, files: seq<FileReq>, server: Server)
    requires HashedHasContent(s.db)
    ensures HashedHasContent(EnsureAll(s, files, server).store.db)
  {
    if files != [] {
      var init := files[..|files| - 1];
      EnsureAllKeepsHashedHasContent(s, init, server);
      var r := EnsureAll(s, init, server);
      if r.status == Done {
        EnsureKeepsHashedHasContent(r.store, files[|files| - 1], server);
      }
    }
  }

  predicate NoEngineCall(t: seq<Event>) {
    forall e | e in t :: !e.SetImeCalled?
  }

  /** Staging one file never calls the engine. */
  lemma EnsureNeverCallsEngine(s: Store, f: FileReq, server: Server)
    ensures NoEngineCall(Added(s, Ensure(s, f, server)))
  {
  }

  lemma AddedSplit(a: seq<Event>, b: seq<Event>, c: seq<Event>)
    requires a <= b <= c && NoEngineCall(b[|a|..]) && NoEngineCall(c[|b|..])
    ensures NoEngineCall(c[|a|..])
  {
    assert c[|a|..] == b[|a|..] + c[|b|..];
  }

  /** Staging files never calls the engine. */
  lemma {:induction false} EnsureAllNeverCallsEngine(s: Store, files: seq<FileReq>, server: Server)
    ensures NoEngineCall(Added(s, EnsureAll(s, files, server)))
  {
    if files != [] {
      var init := files[..|files| - 1];
      EnsureAllNeverCallsEngine(s, init, server);
      var r := EnsureAll(s, init, server);
      if r.status == Done {
        var r2 := Ensure(r.store, files[|files| - 1], server);
        EnsureNeverCallsEngine(r.store, files[|files| - 1], server);
        assert EnsureAll(s, files, server) == r2;
        AddedSplit(s.trace, r.store.trace, r2.store.trace);
      }
    }
  }

  /**
   * `set_ime` is called, as the last call, exactly when every file was staged;
   * a resolution error happens before anything else, and a download error
   * leaves the engine uncalled.
   */
  lemma EngineCalledLast(c: Config, s: Store, schemaId: string, server: Server)
    ensures var r := SetImeSpec(c, s, schemaId, server);
      && (r.status == Done <==> Resolve(c, schemaId).Ok? && EnsureAll(s, Resolve(c, schemaId).value, server).status == Done)
      && (r.status == Done ==>
            && Added(s, r) != [] && Added(s, r)[|Added(s, r)| - 1] == SetImeCalled(schemaId)
            && forall f | f in Resolve(c, schemaId).value :: StagePath(f) in r.store.fs)
      && (r.status.Failed? ==> NoEngineCall(Added(s, r)))
      && (Resolve(c, schemaId).Err? ==> r == Stepped(s, Failed(Unresolved(Resolve(c, schemaId).error))))
  {
    if Resolve(c, schemaId).Ok? {
      var files := Resolve(c, schemaId).value;
      EnsureAllStages(s, files, server);
      EnsureAllNeverCallsEngine(s, files, server);
    }
  }

  /**
   * The worker's persistent state in place: the two object stores, whether the
   * database opened, the staging file system and the trace of calls.
   */
  class Stager {
    var hash: map<string, string>
    var content: map<string, Bytes>
    const dbOpen: bool
    var fs: map<string, Bytes>
    var trace: seq<Event>

    function State(): Store
      reads this
    {
      Store(Db(hash, content), dbOpen, fs, trace)
    }

    constructor(db: Db, dbOpen: bool, fs: map<string, Bytes>)
      ensures State() == Store(db, dbOpen, fs, [])
    {
      this.hash := db.hash;
      this.content := db.content;
      this.dbOpen := dbOpen;
      this.fs := fs;
      this.trace := [];
    }

    /** One file: skip when staged, take from the cache on a hash match, fetch otherwise. */
    method EnsureFile(f: FileReq, server: Server) returns (status: Status)
      modifies this
      ensures Stepped(State(), status) == Ensure(old(State()), f, server)
    {
      var path := BuildDir + f.name;
      if path in fs {
        return Done;
      }
      var storedHash: Option<string> := None;
      if dbOpen {
        trace := trace + [HashGet(f.name)];
        storedHash := Get(hash, f.name);
      }
      var bytes: Bytes;
      if storedHash == Some(f.md5) {
        trace := trace + [ContentGet(f.name)];
        bytes := if f.name in content then content[f.name] else [];
      } else {
        var url := Prefix + f.target + "/" + f.name;
        trace := trace + [Fetch(url)];
        var response := server(url);
        if response.NetworkFailure? {
          return Failed(FetchRejected(url));
        }
        if !IsOk(response.status) {
          return Failed(DownloadFailed(f.name));
        }
        bytes := response.body;
        if dbOpen {
          content := content[f.name := bytes];
          trace := trace + [ContentPut(f.name)];
          hash := hash[f.name := f.md5];
          trace := trace + [HashPut(f.name)];
        }
      }
      fs := fs[path := bytes];
      trace := trace + [WriteFile(path)];
      return Done;
    }

    /** The `Promise.all` over the resolved files, taken one file after another. */
    method EnsureFiles(files: seq<FileReq>, server: Server) returns (status: Status)
      modifies this
      ensures Stepped(State(), status) == EnsureAll(old(State()), files, server)
    {
      ghost var s0 := State();
      var i := 0;
      while i < |files|
        invariant 0 <= i <= |files|
        invariant EnsureAll(s0, files[..i], server) == Stepped(State(), Done)
      {
        assert files[..i + 1][..i] == files[..i];
        status := EnsureFile(files[i], server);
        if status.Failed? {
          EnsureAllFailedPrefix(s0, files, i + 1, server);
          return;
        }
        i := i + 1;
      }
      assert files[..i] == files;
      return Done;
    }

    /** `setIME(schemaId)`: resolve with a fresh `fetched` list, stage each file, call the engine. */
    method SetIme(c: Config, schemaId: string, server: Server) returns (status: Status)
      modifies this
      ensures Stepped(State(), status) == SetImeSpec(c, old(State()), schemaId, server)
    {
      var resolution := new Resolution(c);
      var resolved := resolution.GetFiles(schemaId);
      assert resolved == Resolve(c, schemaId);
      if resolved.Err? {
        return Failed(Unresolved(resolved.error));
      }
      status := EnsureFiles(resolved.value, server);
      if status.Done? {
        trace := trace + [SetImeCalled(schemaId)];
      }
    }
  }
}
