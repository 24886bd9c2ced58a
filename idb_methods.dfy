/**
 * `getMethod` of the IndexedDB wrapper: a property read on a wrapped database
 * that is not one of the database's own members is taken as a shortcut to an
 * object store or index operation (`db.get(store, key)`,
 * `db.getAllFromIndex(store, index, query)`). The name is classified: an
 * optional `FromIndex` suffix selects an index, the remaining base name must be
 * one of the listed read or write operations and exist on the prototype it
 * will be called on, and write operations open a `readwrite` transaction. The
 * shortcut made for a property name is remembered and handed out again.
 */
module IdbMethods {
  import opened Common

  const ReadMethods := ["get", "getKey", "getAll", "getAllKeys", "count"]
  const WriteMethods := ["put", "add", "delete", "clear"]
  const IndexSuffix := "FromIndex"

  datatype TxMode = ReadOnly | ReadWrite

  /** What a shortcut does: which operation, whether through an index, in which transaction mode. */
  datatype MethodSpec = MethodSpec(base: string, useIndex: bool, mode: TxMode)

  /** A shortcut function object; `id` tells distinct objects apart. */
  datatype Method = Method(id: nat, spec: MethodSpec)

  /** A property key: a string or a symbol. */
  datatype Prop = Name(s: string) | Symbol(id: nat)

  /** The object the property is read on: an `IDBDatabase` (with the names `in` finds on it) or anything else. */
  datatype Target = Database(members: set<string>) | Other

  /** The member names of `IDBObjectStore.prototype` and `IDBIndex.prototype`. */
  datatype Prototypes = Prototypes(store: set<string>, index: set<string>)

  predicate EndsWithSuffix(s: string) {
    |s| >= |IndexSuffix| && s[|s| - |IndexSuffix|..] == IndexSuffix
  }

  /** `prop.replace(/FromIndex$/, '')`: one trailing `FromIndex` removed. */
  function StripFromIndex(s: string): (r: string)
    ensures |r| <= |s| && r == s[..|r|]
  {
    if EndsWithSuffix(s) then s[..|s| - |IndexSuffix|] else s
  }

  /** Stripping undoes appending the suffix, once. */
  lemma StripAppended(base: string)
    ensures StripFromIndex(base + IndexSuffix) == base
  {
    var s := base + IndexSuffix;
    assert s[|s| - |IndexSuffix|..] == IndexSuffix;
    assert s[..|s| - |IndexSuffix|] == base;
  }

  /** A name without the suffix is left alone, and stripping changes a name exactly when it bears the suffix. */
  lemma StripChangesOnlySuffixed(s: string)
    ensures StripFromIndex(s) != s <==> EndsWithSuffix(s)
    ensures EndsWithSuffix(s) ==> StripFromIndex(s) + IndexSuffix == s
  {
    if EndsWithSuffix(s) {
      assert s == s[..|s| - |IndexSuffix|] + s[|s| - |IndexSuffix|..];
    }
  }

  /** The shortcut a property name denotes on the given prototypes, if any. */
  function Classify(prop: string, protos: Prototypes): (r: Option<MethodSpec>)
    ensures r.Some? ==> r.value.base in ReadMethods || r.value.base in WriteMethods
    ensures r.Some? ==> r.value.base in (if r.value.useIndex then protos.index else protos.store)
  {
    var base := StripFromIndex(prop);
    var useIndex := prop != base;
    var isWrite := base in WriteMethods;
    if base !in (if useIndex then protos.index else protos.store) || !(isWrite || base in ReadMethods) then None
    else Some(MethodSpec(base, useIndex, if isWrite then ReadWrite else ReadOnly))
  }

  /** No listed operation name ends in `FromIndex`. */
  lemma ListedNamesUnsuffixed(b: string)
    requires b in ReadMethods || b in WriteMethods
    ensures !EndsWithSuffix(b)
  {
  }

  /**
   * The accepted property names are exactly a listed operation available on
   * the object store, or a listed operation available on the index followed by
   * `FromIndex`; the transaction is `readwrite` exactly for the write operations.
   */
  lemma ClassifyAccepts(prop: string, protos: Prototypes)
    ensures Classify(prop, protos).Some? <==>
      || ((prop in ReadMethods || prop in WriteMethods) && prop in protos.store)
      || (exists b | b in protos.index && (b in ReadMethods || b in WriteMethods) :: prop == b + IndexSuffix)
    ensures Classify(prop, protos).Some? ==>
      var m := Classify(prop, protos).value;
      && m.base + (if m.useIndex then IndexSuffix else "") == prop
      && (m.mode == ReadWrite <==> m.base in WriteMethods)
  {
    StripChangesOnlySuffixed(prop);
    if prop in ReadMethods || prop in WriteMethods {
      ListedNamesUnsuffixed(prop);
    }
    if b :| b in protos.index && (b in ReadMethods || b in WriteMethods) && prop == b + IndexSuffix {
      StripAppended(b);
    }
  }

  /** `getMethod`'s guard: a string property not already on an `IDBDatabase`. */
  predicate Intercepts(target: Target, prop: Prop) {
    target.Database? && prop.Name? && prop.s !in target.members
  }

  /** What `getMethod` answers, leaving aside which function object. */
  function Shortcut(target: Target, prop: Prop, protos: Prototypes): (r: Option<MethodSpec>)
    ensures target.Other? || prop.Symbol? ==> r.None?
    ensures r.Some? ==> prop.s !in target.members && r == Classify(prop.s, protos)
  {
    if !Intercepts(target, prop) then None else Classify(prop.s, protos)
  }

  /** The call a shortcut makes: `this.transaction(storeName, mode)`, then the operation. */
  datatype Call<T> = Call(storeName: string, mode: TxMode, index: Option<T>, op: string, args: seq<T>, awaitDone: bool)

  /**
   * The shortcut's body up to the operation: open a transaction on `storeName`,
   * take the first remaining argument as the index name when going through an
   * index (`args.shift()`), and pass the rest to the base operation.
   */
  function Invoke<T>(m: MethodSpec, storeName: string, args: seq<T>): (c: Call<T>)
    ensures c.storeName == storeName && c.op == m.base && c.mode == m.mode
    ensures c.awaitDone <==> m.mode == ReadWrite
    ensures c.index.Some? ==> m.useIndex
    ensures (if c.index.Some? then [c.index.value] else []) + c.args == args
    ensures m.useIndex && args != [] ==> c.index.Some?
  {
    if m.useIndex then
      if args == [] then Call(storeName, m.mode, None, m.base, [], m.mode == ReadWrite)
      else Call(storeName, m.mode, Some(args[0]), m.base, args[1..], m.mode == ReadWrite)
    else Call(storeName, m.mode, None, m.base, args, m.mode == ReadWrite)
  }

  /** How a promise settled, and when (an abstract clock: smaller is earlier). */
  datatype Settled<T> = Fulfilled(value: T, at: nat) | Rejected(reason: T, at: nat)

  /**
   * `(await Promise.all([op, isWrite && tx.done]))[0]`: for a read the second
   * entry is `false`, which is already settled; otherwise the result fulfils with
   * the operation's value once both have fulfilled, or rejects with the earlier
   * rejection, the operation's when both reject at once.
   */
  function Settle<T>(mode: TxMode, op: Settled<T>, done: Settled<T>): (r: Settled<T>)
    // A read never waits for `tx.done`.
    ensures mode.ReadOnly? ==> r == op
    // It resolves with the operation's value, and only once what it waits for has settled.
    ensures r.Fulfilled? ==> op.Fulfilled? && r.value == op.value && r.at >= op.at
    ensures r.Fulfilled? && mode.ReadWrite? ==> done.Fulfilled? && r.at >= done.at
    // It rejects if the operation rejects, and for a write also if `tx.done` rejects.
    ensures r.Rejected? <==> op.Rejected? || (mode.ReadWrite? && done.Rejected?)
    // It rejects with the operation's rejection unless `tx.done` rejected strictly earlier.
    ensures op.Rejected? && (mode.ReadOnly? || !done.Rejected? || op.at <= done.at) ==> r == op
    ensures op.Fulfilled? && mode.ReadWrite? && done.Rejected? ==> r == done
    ensures op.Rejected? && mode.ReadWrite? && done.Rejected? && done.at < op.at ==> r == done
  {
    if mode.ReadOnly? then op
    else if op.Fulfilled? && done.Fulfilled? then Fulfilled(op.value, if op.at < done.at then done.at else op.at)
    else if done.Fulfilled? then op
    else if op.Fulfilled? then done
    else if op.at <= done.at then op
    else done
  }

  /** `cachedMethods` together with the prototypes the classification consults. */
  class MethodCache {
    const protos: Prototypes
    var cached: map<string, Method>
    /** How many shortcut function objects were made so far. */
    var created: nat

    /** Every cached shortcut is one made earlier for what its property name denotes. */
    ghost predicate Valid()
      reads this
    {
      forall p | p in cached :: Classify(p, protos) == Some(cached[p].spec) && cached[p].id < created
    }

    constructor(protos: Prototypes)
      ensures Valid() && this.protos == protos && cached == map[] && created == 0
    {
      this.protos := protos;
      cached := map[];
      created := 0;
    }

    /**
     * `getMethod(target, prop)`: None where the guard or the classification
     * rejects; the cached shortcut when there is one; otherwise a new shortcut,
     * which is cached.
     */
    method GetMethod(target: Target, prop: Prop) returns (r: Option<Method>)
      requires Valid()
      modifies this
      ensures Valid()
      ensures r.None? <==> Shortcut(target, prop, protos).None?
      ensures r.Some? ==> r.value.spec == Shortcut(target, prop, protos).value
      ensures r.Some? && prop.s in old(cached) ==> r.value == old(cached)[prop.s] && unchanged(this)
      ensures r.Some? && prop.s !in old(cached) ==>
        && r.value.id == old(created)
        && cached == old(cached)[prop.s := r.value]
        && created == old(created) + 1
      ensures r.None? ==> unchanged(this)
    {
      if !(target.Database? && prop.Name? && prop.s !in target.members) {
        return None;
      }
      var name := prop.s;
      if name in cached {
        return Some(cached[name]);
      }
      var base := StripFromIndex(name);
      var useIndex := name != base;
      var isWrite := base in WriteMethods;
      if base !in (if useIndex then protos.index else protos.store) || !(isWrite || base in ReadMethods) {
        return None;
      }
      var shortcut := Method(created, MethodSpec(base, useIndex, if isWrite then ReadWrite else ReadOnly));
      cached := cached[name := shortcut];
      created := created + 1;
      return Some(shortcut);
    }
  }

  /** Prototypes as in current browsers: the object store has every listed operation, the index only the reads. */
  const Browser := Prototypes(
    {"get", "getKey", "getAll", "getAllKeys", "count", "put", "add", "delete", "clear", "openCursor"},
    {"get", "getKey", "getAll", "getAllKeys", "count", "openCursor"})

  /** Through an index, a read is accepted in a read-only transaction. */
  lemma IndexReadExample()
    ensures Classify("getAllFromIndex", Browser) == Some(MethodSpec("getAll", true, ReadOnly))
  {
    StripAppended("getAll");
    assert "getAll" + IndexSuffix == "getAllFromIndex";
    assert "getAll" != "getAllFromIndex";
    assert "getAll" !in WriteMethods && "getAll" in ReadMethods && "getAll" in Browser.index;
  }

  /** On the object store, a write is accepted in a read-write transaction. */
  lemma StoreWriteExample()
    ensures Classify("put", Browser) == Some(MethodSpec("put", false, ReadWrite))
  {
    assert !EndsWithSuffix("put");
  }

  /** Writes through an index are refused: the index has no `put`. */
  lemma IndexWriteRefused()
    ensures Classify("putFromIndex", Browser) == None
  {
    StripAppended("put");
    assert "put" + IndexSuffix == "putFromIndex";
    assert "put" != "putFromIndex";
    assert "put" !in Browser.index;
  }

  /** An operation outside the two lists is refused even though the store has it. */
  lemma UnlistedRefused()
    ensures Classify("openCursor", Browser) == None
  {
    assert !EndsWithSuffix("openCursor");
    assert "openCursor" !in ReadMethods && "openCursor" !in WriteMethods;
  }

  /** Only one `FromIndex` is stripped, so a doubled suffix is refused. */
  lemma DoubleSuffixRefused()
    ensures Classify("getFromIndexFromIndex", Browser) == None
  {
    StripAppended("getFromIndex");
    assert "getFromIndex" !in ReadMethods && "getFromIndex" !in WriteMethods;
  }
}
