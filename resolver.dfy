/**
 * The dependency resolver of `setIME`: the nested `getFiles` walks the schema
 * dependency map depth first, marks each schema in the call-scoped `fetched`
 * list before expanding its dependencies, and emits every newly reached
 * schema's own files after those of its dependencies.
 *
 * The specification separates the walk (`Visit`, which yields the post-order
 * of newly reached schemas and the final `fetched` list) from the file
 * collection (`Collect`, the own files of those schemas in post-order). The
 * source throws at the first schema, in post-order, whose tables are missing,
 * which is exactly the first error `Collect` meets.
 */
module Resolver {
  import opened Common
  import opened Manifest

  /** `dependencyMap[key] || []`: a schema missing from the map has no dependencies. */
  function Deps(c: Config, key: string): (deps: seq<string>)
    ensures key in c.dependencyMap ==> deps == c.dependencyMap[key]
    ensures key !in c.dependencyMap ==> deps == []
  {
    if key in c.dependencyMap then c.dependencyMap[key] else []
  }

  /** Every schema the dependency map mentions, as a key or as a dependency. */
  ghost function Mentioned(c: Config): set<string> {
    c.dependencyMap.Keys + set k, d | k in c.dependencyMap && d in c.dependencyMap[k] :: d
  }

  /** The termination measure of the walk: mentioned schemas not yet marked. */
  ghost function Unvisited(c: Config, visited: seq<string>): nat {
    |Mentioned(c) - Elems(visited)|
  }

  lemma GrowthShrinks(c: Config, v: seq<string>, w: seq<string>)
    requires v <= w
    ensures Unvisited(c, w) <= Unvisited(c, v)
  {
    var a, b := Mentioned(c) - Elems(w), Mentioned(c) - Elems(v);
    assert b == a + (b - a);
    assert a * (b - a) == {};
  }

  lemma ElemsSnoc(v: seq<string>, key: string)
    ensures Elems(v + [key]) == Elems(v) + {key}
  {
  }

  /** Marking one more element leaves no more unmarked elements, and one fewer when it was unmarked. */
  lemma SetShrinks<T>(m: set<T>, e: set<T>, x: T)
    requires x !in e
    ensures |m - (e + {x})| <= |m - e|
    ensures x in m ==> |m - (e + {x})| < |m - e|
  {
    var a, b := m - (e + {x}), m - e;
    if x in m {
      assert b == a + {x} && x !in a;
    } else {
      assert a == b;
    }
  }

  lemma MarkShrinks(c: Config, key: string, v: seq<string>)
    requires key !in v
    ensures Unvisited(c, v + [key]) <= Unvisited(c, v)
    ensures Deps(c, key) != [] ==> Unvisited(c, v + [key]) < Unvisited(c, v)
  {
    ElemsSnoc(v, key);
    SetShrinks(Mentioned(c), Elems(v), key);
    if Deps(c, key) != [] {
      assert key in c.dependencyMap.Keys;
    }
  }

  /** The post-order of the schemas a walk newly marked, and the `fetched` list after it. */
  datatype Traversal = Traversal(order: seq<string>, visited: seq<string>)

  /** One call `getFiles(key)` with `fetched` equal to `visited`. */
  function Visit(c: Config, key: string, visited: seq<string>): (t: Traversal)
    ensures visited <= t.visited
    decreases Unvisited(c, visited), 1
  {
    if key in visited then Traversal([], visited)
    else
      MarkShrinks(c, key, visited);
      var t := VisitAll(c, Deps(c, key), visited + [key]);
      Traversal(t.order + [key], t.visited)
  }

  /** The `for (const dependency of ...)` loop: `getFiles` on each key in turn. */
  function VisitAll(c: Config, keys: seq<string>, visited: seq<string>): (t: Traversal)
    ensures visited <= t.visited
    decreases Unvisited(c, visited), 2 * |keys|
  {
    if keys == [] then Traversal([], visited)
    else
      var t1 := VisitAll(c, keys[..|keys| - 1], visited);
      GrowthShrinks(c, visited, t1.visited);
      var t2 := Visit(c, keys[|keys| - 1], t1.visited);
      Traversal(t1.order + t2.order, t2.visited)
  }

  /** The own files of the schemas of `order`, concatenated, or the first error among them. */
  function Collect(c: Config, order: seq<string>): (r: Result<seq<FileReq>, ResolveError>)
    ensures r.Ok? <==> forall i | 0 <= i < |order| :: OwnFiles(c, order[i]).Ok?
    ensures r.Ok? ==> |r.value| <= 4 * |order|
  {
    if order == [] then Ok([])
    else
      match Collect(c, order[..|order| - 1])
      case Err(e) => Err(e)
      case Ok(files) =>
        match OwnFiles(c, order[|order| - 1])
        case Err(e) => Err(e)
        case Ok(own) => Ok(files + own)
  }

  /** `getFiles(schemaId)` with a fresh `fetched` list, as `setIME` calls it. */
  function Resolve(c: Config, schemaId: string): (r: Result<seq<FileReq>, ResolveError>)
    ensures r.Ok? <==> forall k | k in Visit(c, schemaId, []).order :: OwnFiles(c, k).Ok?
  {
    Collect(c, Visit(c, schemaId, []).order)
  }

  /** The error `getFiles` throws is that of the first schema in emission order whose own files fail. */
  lemma {:induction false} CollectFirstError(c: Config, order: seq<string>)
    requires Collect(c, order).Err?
    ensures exists i | 0 <= i < |order| ::
      OwnFiles(c, order[i]) == Err(Collect(c, order).error) && forall j | 0 <= j < i :: OwnFiles(c, order[j]).Ok?
  {
    var init := order[..|order| - 1];
    var last := |order| - 1;
    if Collect(c, init).Err? {
      CollectFirstError(c, init);
      var i :| 0 <= i < |init| && OwnFiles(c, init[i]) == Err(Collect(c, init).error) && forall j | 0 <= j < i :: OwnFiles(c, init[j]).Ok?;
      assert order[i] == init[i];
      assert forall j | 0 <= j < i :: order[j] == init[j];
    } else {
      assert forall j | 0 <= j < last :: order[j] == init[j];
      assert OwnFiles(c, order[last]) == Err(Collect(c, order).error);
    }
  }

  /** Concatenating results as the source's `files.push(...)` does, stopping at the first throw. */
  function Join(a: Result<seq<FileReq>, ResolveError>, b: Result<seq<FileReq>, ResolveError>): Result<seq<FileReq>, ResolveError> {
    match a
    case Err(e) => Err(e)
    case Ok(x) => match b case Err(e) => Err(e) case Ok(y) => Ok(x + y)
  }

  lemma JoinAssoc(x: Result<seq<FileReq>, ResolveError>, y: Result<seq<FileReq>, ResolveError>, z: Result<seq<FileReq>, ResolveError>)
    ensures Join(Join(x, y), z) == Join(x, Join(y, z))
  {
    if x.Ok? && y.Ok? && z.Ok? {
      assert (x.value + y.value) + z.value == x.value + (y.value + z.value);
    }
  }

  /** Collecting over two consecutive stretches of a post-order is collecting over each in turn. */
  lemma {:induction false} CollectAppend(c: Config, a: seq<string>, b: seq<string>)
    ensures Collect(c, a + b) == Join(Collect(c, a), Collect(c, b))
    decreases |b|
  {
    if b == [] {
      assert a + b == a;
      if Collect(c, a).Ok? {
        assert Collect(c, a).value + [] == Collect(c, a).value;
      }
    } else {
      var init, last := b[..|b| - 1], b[|b| - 1];
      assert (a + b)[..|a + b| - 1] == a + init;
      assert (a + b)[|a + b| - 1] == last;
      CollectAppend(c, a, init);
      assert Collect(c, a + b) == Join(Collect(c, a + init), OwnFiles(c, last));
      assert Collect(c, b) == Join(Collect(c, init), OwnFiles(c, last));
      JoinAssoc(Collect(c, a), Collect(c, init), OwnFiles(c, last));
    }
  }

  /** One more turn of the dependency loop. */
  lemma VisitAllStep(c: Config, keys: seq<string>, j: nat, v: seq<string>)
    requires j < |keys|
    ensures var t := VisitAll(c, keys[..j], v);
      VisitAll(c, keys[..j + 1], v) == Traversal(t.order + Visit(c, keys[j], t.visited).order, Visit(c, keys[j], t.visited).visited)
  {
    assert keys[..j + 1][..j] == keys[..j];
  }

  /** Once the walk over a prefix of the dependencies throws, the whole walk throws that error. */
  lemma {:induction false} VisitAllErrPrefix(c: Config, keys: seq<string>, j: nat, v: seq<string>)
    requires j <= |keys|
    requires Collect(c, VisitAll(c, keys[..j], v).order).Err?
    ensures Collect(c, VisitAll(c, keys, v).order) == Collect(c, VisitAll(c, keys[..j], v).order)
    decreases |keys| - j
  {
    if j < |keys| {
      var init := keys[..|keys| - 1];
      assert init[..j] == keys[..j];
      VisitAllErrPrefix(c, init, j, v);
      var t1 := VisitAll(c, init, v);
      GrowthShrinks(c, v, t1.visited);
      CollectAppend(c, t1.order, Visit(c, keys[|keys| - 1], t1.visited).order);
    } else {
      assert keys[..j] == keys;
    }
  }

  // ---------------------------------------------------------------------------
  // What a walk marks: the keys it is given and everything they depend on.
  // ---------------------------------------------------------------------------

  /** Every schema marked after `before` has all its dependencies marked in `w`. */
  ghost predicate Closed(c: Config, w: seq<string>, before: seq<string>) {
    forall k, d | k in w && k !in before && d in Deps(c, k) :: d in w
  }

  lemma PrefixIn(v: seq<string>, w: seq<string>, x: string)
    requires v <= w && x in v
    ensures x in w
  {
    var i :| 0 <= i < |v| && v[i] == x;
    assert w[i] == x;
  }

  lemma {:induction false} VisitClosed(c: Config, key: string, v: seq<string>)
    ensures var t := Visit(c, key, v); key in t.visited && Closed(c, t.visited, v)
    decreases Unvisited(c, v), 1
  {
    if key !in v {
      MarkShrinks(c, key, v);
      var deps := Deps(c, key);
      var t := VisitAll(c, deps, v + [key]);
      assert Visit(c, key, v).visited == t.visited;
      VisitAllClosed(c, deps, v + [key]);
      PrefixIn(v + [key], t.visited, key);
      forall k, d | k in t.visited && k !in v && d in Deps(c, k) ensures d in t.visited {
        if k != key {
          assert k !in v + [key];
        }
      }
    }
  }

  /** Closure over two consecutive growths of the marked list. */
  lemma ClosedTrans(c: Config, v: seq<string>, w1: seq<string>, w2: seq<string>)
    requires w1 <= w2 && Closed(c, w1, v) && Closed(c, w2, w1)
    ensures Closed(c, w2, v)
  {
    forall k, d | k in w2 && k !in v && d in Deps(c, k) ensures d in w2 {
      if k in w1 {
        PrefixIn(w1, w2, d);
      }
    }
  }

  /** The keys of a non-empty list are its last key and the keys before it. */
  lemma KeysSplit(keys: seq<string>, w: seq<string>)
    requires keys != [] && keys[|keys| - 1] in w
    requires forall k | k in keys[..|keys| - 1] :: k in w
    ensures forall k | k in keys :: k in w
  {
    forall k | k in keys ensures k in w {
      var i :| 0 <= i < |keys| && keys[i] == k;
      if i < |keys| - 1 {
        assert keys[..|keys| - 1][i] == k;
      }
    }
  }

  lemma {:induction false} VisitAllClosed(c: Config, keys: seq<string>, v: seq<string>)
    ensures var t := VisitAll(c, keys, v);
      (forall k | k in keys :: k in t.visited) && Closed(c, t.visited, v)
    decreases Unvisited(c, v), 2 * |keys|
  {
    if keys != [] {
      var init, last := keys[..|keys| - 1], keys[|keys| - 1];
      var t1 := VisitAll(c, init, v);
      VisitAllClosed(c, init, v);
      GrowthShrinks(c, v, t1.visited);
      var t2 := Visit(c, last, t1.visited);
      VisitClosed(c, last, t1.visited);
      assert VisitAll(c, keys, v) == Traversal(t1.order + t2.order, t2.visited);
      ClosedTrans(c, v, t1.visited, t2.visited);
      forall k | k in init ensures k in t2.visited {
        PrefixIn(t1.visited, t2.visited, k);
      }
      KeysSplit(keys, t2.visited);
    }
  }

  // ---------------------------------------------------------------------------
  // Each marked schema is marked once and emitted once.
  // ---------------------------------------------------------------------------

  lemma {:induction false} VisitNoDup(c: Config, key: string, v: seq<string>)
    requires NoDup(v)
    ensures NoDup(Visit(c, key, v).visited)
    decreases Unvisited(c, v), 1
  {
    if key !in v {
      MarkShrinks(c, key, v);
      assert NoDup(v + [key]) by {
        forall i, j | 0 <= i < j < |v + [key]| ensures (v + [key])[i] != (v + [key])[j] {
          if j == |v| { assert v[i] in v; }
        }
      }
      VisitAllNoDup(c, Deps(c, key), v + [key]);
    }
  }

  lemma {:induction false} VisitAllNoDup(c: Config, keys: seq<string>, v: seq<string>)
    requires NoDup(v)
    ensures NoDup(VisitAll(c, keys, v).visited)
    decreases Unvisited(c, v), 2 * |keys|
  {
    if keys != [] {
      var t1 := VisitAll(c, keys[..|keys| - 1], v);
      VisitAllNoDup(c, keys[..|keys| - 1], v);
      GrowthShrinks(c, v, t1.visited);
      VisitNoDup(c, keys[|keys| - 1], t1.visited);
    }
  }

  /** The post-order holds exactly the schemas the walk newly marked. */
  lemma MarkedSlice(v: seq<string>, key: string, w: seq<string>)
    requires v + [key] <= w
    ensures w[|v|..] == [key] + w[|v| + 1..]
  {
    assert w[|v|] == (v + [key])[|v|];
  }

  lemma GrownSlice(v: seq<string>, w1: seq<string>, w2: seq<string>)
    requires v <= w1 <= w2
    ensures w2[|v|..] == w1[|v|..] + w2[|w1|..]
  {
    assert w1 == w2[..|w1|];
  }

  lemma {:induction false} VisitOrderIsNewlyVisited(c: Config, key: string, v: seq<string>)
    ensures var t := Visit(c, key, v); multiset(t.order) == multiset(t.visited[|v|..])
    decreases Unvisited(c, v), 1
  {
    if key !in v {
      MarkShrinks(c, key, v);
      var t := VisitAll(c, Deps(c, key), v + [key]);
      assert Visit(c, key, v) == Traversal(t.order + [key], t.visited);
      VisitAllOrderIsNewlyVisited(c, Deps(c, key), v + [key]);
      MarkedSlice(v, key, t.visited);
      assert multiset(t.order + [key]) == multiset(t.order) + multiset{key};
    }
  }

  lemma {:induction false} VisitAllOrderIsNewlyVisited(c: Config, keys: seq<string>, v: seq<string>)
    ensures var t := VisitAll(c, keys, v); multiset(t.order) == multiset(t.visited[|v|..])
    decreases Unvisited(c, v), 2 * |keys|
  {
    if keys != [] {
      var t1 := VisitAll(c, keys[..|keys| - 1], v);
      VisitAllOrderIsNewlyVisited(c, keys[..|keys| - 1], v);
      GrowthShrinks(c, v, t1.visited);
      var t2 := Visit(c, keys[|keys| - 1], t1.visited);
      VisitOrderIsNewlyVisited(c, keys[|keys| - 1], t1.visited);
      assert VisitAll(c, keys, v) == Traversal(t1.order + t2.order, t2.visited);
      GrownSlice(v, t1.visited, t2.visited);
    }
  }

  // ---------------------------------------------------------------------------
  // Every marked schema is reachable: it is a root or a dependency of an
  // earlier-marked schema of the same walk.
  // ---------------------------------------------------------------------------

  ghost predicate Rooted(c: Config, w: seq<string>, from: nat, roots: seq<string>) {
    forall i | from <= i < |w| :: w[i] in roots || exists j | from <= j < i :: w[i] in Deps(c, w[j])
  }

  lemma {:induction false} VisitRooted(c: Config, key: string, v: seq<string>)
    ensures Rooted(c, Visit(c, key, v).visited, |v|, [key])
    decreases Unvisited(c, v), 1
  {
    if key !in v {
      MarkShrinks(c, key, v);
      var deps := Deps(c, key);
      var w := VisitAll(c, deps, v + [key]).visited;
      VisitAllRooted(c, deps, v + [key]);
      assert w[|v|] == key;
      forall i | |v| <= i < |w| ensures w[i] in [key] || exists j | |v| <= j < i :: w[i] in Deps(c, w[j]) {
        if i > |v| && w[i] in deps {
          assert w[i] in Deps(c, w[|v|]);
        }
      }
    }
  }

  lemma {:induction false} VisitAllRooted(c: Config, keys: seq<string>, v: seq<string>)
    ensures Rooted(c, VisitAll(c, keys, v).visited, |v|, keys)
    decreases Unvisited(c, v), 2 * |keys|
  {
    if keys != [] {
      var init, last := keys[..|keys| - 1], keys[|keys| - 1];
      var w1 := VisitAll(c, init, v).visited;
      VisitAllRooted(c, init, v);
      GrowthShrinks(c, v, w1);
      var w2 := Visit(c, last, w1).visited;
      VisitRooted(c, last, w1);
      assert VisitAll(c, keys, v).visited == w2;
      forall i | |v| <= i < |w2| ensures w2[i] in keys || exists j | |v| <= j < i :: w2[i] in Deps(c, w2[j]) {
        if i < |w1| {
          RootedBelow(c, v, w1, w2, init, keys, i);
        } else {
          RootedAbove(c, v, w1, w2, keys, i);
        }
      }
    }
  }

  /** A schema marked by the last step of a dependency loop is that dependency or reached from an earlier mark. */
  lemma RootedAbove(c: Config, v: seq<string>, w1: seq<string>, w2: seq<string>, keys: seq<string>, i: nat)
    requires keys != [] && |v| <= |w1| <= i < |w2|
    requires Rooted(c, w2, |w1|, [keys[|keys| - 1]])
    ensures w2[i] in keys || exists j | |v| <= j < i :: w2[i] in Deps(c, w2[j])
  {
    if w2[i] != keys[|keys| - 1] {
      var j :| |w1| <= j < i && w2[i] in Deps(c, w2[j]);
    }
  }

  /** A schema marked by the first part of a dependency loop stays rooted after the rest of the loop. */
  lemma RootedBelow(c: Config, v: seq<string>, w1: seq<string>, w2: seq<string>, init: seq<string>, keys: seq<string>, i: nat)
    requires |v| <= i < |w1| && w1 <= w2 && init <= keys
    requires Rooted(c, w1, |v|, init)
    ensures w2[i] in keys || exists j | |v| <= j < i :: w2[i] in Deps(c, w2[j])
  {
    assert w2[i] == w1[i];
    if w1[i] in init {
      var m :| 0 <= m < |init| && init[m] == w1[i];
      assert keys[m] == w1[i];
    } else {
      var j :| |v| <= j < i && w1[i] in Deps(c, w1[j]);
      assert w2[j] == w1[j];
    }
  }

  // ---------------------------------------------------------------------------
  // On an acyclic dependency map, dependencies come before their dependents.
  // ---------------------------------------------------------------------------

  /** `rank` witnesses that the dependency map has no cycle: every dependency ranks lower. */
  ghost predicate Ranked(c: Config, rank: map<string, nat>) {
    forall k | k in c.dependencyMap ::
      k in rank && forall d | d in c.dependencyMap[k] :: d in rank && rank[d] < rank[k]
  }

  /** A schema marked by a walk but not before it is in the walk's post-order. */
  lemma NewlyMarkedInOrder(v: seq<string>, w: seq<string>, order: seq<string>, d: string)
    requires v <= w && d in w && d !in v
    requires multiset(order) == multiset(w[|v|..])
    ensures d in order
  {
    assert w == v + w[|v|..];
    assert d in multiset(w[|v|..]);
  }

  /**
   * In `order`, every dependency of a schema comes earlier, or was marked in
   * `before` by a walk that has finished with it (it is not `open`).
   */
  ghost predicate DepsBefore(c: Config, order: seq<string>, before: seq<string>, open: set<string>) {
    forall i, d | 0 <= i < |order| && d in Deps(c, order[i]) :: d in order[..i] || (d in before && d !in open)
  }

  /** The step of `getFiles(key)`: its dependencies' post-order, then `key` itself. */
  lemma DepsBeforeThenKey(c: Config, rank: map<string, nat>, key: string, v: seq<string>, open: set<string>, order: seq<string>, w: seq<string>)
    requires Ranked(c, rank)
    requires forall o | o in open :: key in rank && o in rank && rank[key] < rank[o]
    requires v + [key] <= w
    requires multiset(order) == multiset(w[|v| + 1..])
    requires forall d | d in Deps(c, key) :: d in w
    requires DepsBefore(c, order, v + [key], open + {key})
    ensures DepsBefore(c, order + [key], v, open)
  {
    var all := order + [key];
    forall i, d | 0 <= i < |all| && d in Deps(c, all[i]) ensures d in all[..i] || (d in v && d !in open) {
      if i < |order| {
        assert all[i] == order[i] && all[..i] == order[..i];
      } else {
        assert all[i] == key && all[..i] == order;
        assert key in c.dependencyMap;
        assert d in rank && rank[d] < rank[key];
        if d !in v {
          assert d !in v + [key] && d in w;
          NewlyMarkedInOrder(v + [key], w, order, d);
        }
      }
    }
  }

  /** The step of the dependency loop: the post-order so far, then that of the next dependency. */
  lemma DepsBeforeConcat(c: Config, v: seq<string>, open: set<string>, o1: seq<string>, w1: seq<string>, o2: seq<string>)
    requires v <= w1
    requires multiset(o1) == multiset(w1[|v|..])
    requires DepsBefore(c, o1, v, open)
    requires DepsBefore(c, o2, w1, open)
    ensures DepsBefore(c, o1 + o2, v, open)
  {
    var all := o1 + o2;
    forall i, d | 0 <= i < |all| && d in Deps(c, all[i]) ensures d in all[..i] || (d in v && d !in open) {
      if i < |o1| {
        assert all[i] == o1[i] && all[..i] == o1[..i];
      } else {
        var i' := i - |o1|;
        assert all[i] == o2[i'] && all[..i] == o1 + o2[..i'];
        if d !in o2[..i'] && d !in v {
          NewlyMarkedInOrder(v, w1, o1, d);
        }
      }
    }
  }

  /**
   * `open` holds the schemas whose expansion is still in progress (the callers);
   * they all rank above `key`.
   */
  lemma {:induction false} VisitDepsFirst(c: Config, rank: map<string, nat>, key: string, v: seq<string>, open: set<string>)
    requires Ranked(c, rank)
    requires forall o | o in open :: key in rank && o in rank && rank[key] < rank[o]
    ensures DepsBefore(c, Visit(c, key, v).order, v, open)
    decreases Unvisited(c, v), 1
  {
    if key !in v {
      MarkShrinks(c, key, v);
      var deps, v' := Deps(c, key), v + [key];
      var t' := VisitAll(c, deps, v');
      assert Visit(c, key, v).order == t'.order + [key];
      DepsRankBelow(c, rank, key, open);
      VisitAllDepsFirst(c, rank, deps, v', open + {key});
      VisitAllClosed(c, deps, v');
      VisitAllOrderIsNewlyVisited(c, deps, v');
      DepsBeforeThenKey(c, rank, key, v, open, t'.order, t'.visited);
    }
  }

  /** Every dependency in `keys` ranks below every schema still `open`. */
  ghost predicate RanksBelow(rank: map<string, nat>, keys: seq<string>, open: set<string>) {
    forall k, o | k in keys && o in open :: k in rank && o in rank && rank[k] < rank[o]
  }

  /** The dependencies of a schema rank below it and below everything ranked above it. */
  lemma DepsRankBelow(c: Config, rank: map<string, nat>, key: string, open: set<string>)
    requires Ranked(c, rank)
    requires forall o | o in open :: key in rank && o in rank && rank[key] < rank[o]
    ensures RanksBelow(rank, Deps(c, key), open + {key})
  {
    var deps := Deps(c, key);
    forall k, o | k in deps && o in open + {key} ensures k in rank && o in rank && rank[k] < rank[o] {
      assert key in c.dependencyMap && k in c.dependencyMap[key];
      assert key in rank && k in rank && rank[k] < rank[key];
    }
  }

  lemma RanksBelowPrefix(rank: map<string, nat>, keys: seq<string>, open: set<string>)
    requires keys != [] && RanksBelow(rank, keys, open)
    ensures RanksBelow(rank, keys[..|keys| - 1], open)
    ensures forall o | o in open :: keys[|keys| - 1] in rank && o in rank && rank[keys[|keys| - 1]] < rank[o]
  {
    var init, last := keys[..|keys| - 1], keys[|keys| - 1];
    forall k, o | k in init && o in open ensures k in rank && o in rank && rank[k] < rank[o] {
      var m :| 0 <= m < |init| && init[m] == k;
      assert keys[m] == k;
    }
    assert last in keys;
    forall o | o in open ensures last in rank && o in rank && rank[last] < rank[o] {
    }
  }

  lemma {:induction false} VisitAllDepsFirst(c: Config, rank: map<string, nat>, keys: seq<string>, v: seq<string>, open: set<string>)
    requires Ranked(c, rank)
    requires RanksBelow(rank, keys, open)
    ensures DepsBefore(c, VisitAll(c, keys, v).order, v, open)
    decreases Unvisited(c, v), 2 * |keys|
  {
    if keys != [] {
      var init, last := keys[..|keys| - 1], keys[|keys| - 1];
      var t1 := VisitAll(c, init, v);
      RanksBelowPrefix(rank, keys, open);
      VisitAllDepsFirst(c, rank, init, v, open);
      VisitAllOrderIsNewlyVisited(c, init, v);
      GrowthShrinks(c, v, t1.visited);
      var t2 := Visit(c, last, t1.visited);
      assert VisitAll(c, keys, v).order == t1.order + t2.order;
      VisitDepsFirst(c, rank, last, t1.visited, open);
      DepsBeforeConcat(c, v, open, t1.order, t1.visited, t2.order);
    }
  }

  // ---------------------------------------------------------------------------
  // What `setIME` gets from `getFiles(schemaId)` with an empty `fetched` list.
  // ---------------------------------------------------------------------------

  lemma {:induction false} NoDupAtMostOnce<T>(s: seq<T>)
    requires NoDup(s)
    ensures forall x :: multiset(s)[x] <= 1
  {
    if s != [] {
      var init, last := s[..|s| - 1], s[|s| - 1];
      assert s == init + [last];
      forall i, j | 0 <= i < j < |init| ensures init[i] != init[j] {
        assert s[i] == init[i] && s[j] == init[j];
      }
      NoDupAtMostOnce(init);
      forall i | 0 <= i < |init| ensures init[i] != last {
        assert s[i] == init[i];
      }
      assert multiset(init)[last] == 0;
    }
  }

  lemma AtMostOnceNoDup<T>(s: seq<T>)
    requires forall x :: multiset(s)[x] <= 1
    ensures NoDup(s)
  {
    forall i, j | 0 <= i < j < |s| ensures s[i] != s[j] {
      assert s == s[..i] + [s[i]] + s[i + 1..j] + [s[j]] + s[j + 1..];
      assert multiset(s)[s[i]] >= multiset([s[i]])[s[i]] + multiset([s[j]])[s[i]];
    }
  }

  /**
   * Walking from `schemaId` with a fresh `fetched` list marks `schemaId` first,
   * marks each schema once, marks exactly the schemas reachable from it (every
   * marked schema is reached through a dependency edge, and every dependency
   * of a marked schema is marked), and emits each marked schema once, last of
   * all `schemaId` itself. This holds on every dependency map, cyclic or not.
   */
  lemma ResolveWalk(c: Config, schemaId: string)
    ensures var t := Visit(c, schemaId, []);
      && |t.visited| > 0 && t.visited[0] == schemaId
      && NoDup(t.visited)
      && Rooted(c, t.visited, 0, [schemaId])
      && Closed(c, t.visited, [])
      && multiset(t.order) == multiset(t.visited)
      && NoDup(t.order)
      && |t.order| > 0 && t.order[|t.order| - 1] == schemaId
  {
    ResolveMarks(c, schemaId);
    ResolveEmits(c, schemaId);
  }

  /** What the walk from an empty `fetched` list marks. */
  lemma ResolveMarks(c: Config, schemaId: string)
    ensures var t := Visit(c, schemaId, []);
      && |t.visited| > 0 && t.visited[0] == schemaId
      && NoDup(t.visited)
      && Rooted(c, t.visited, 0, [schemaId])
      && Closed(c, t.visited, [])
  {
    var t := VisitAll(c, Deps(c, schemaId), [schemaId]);
    assert [] + [schemaId] == [schemaId];
    assert Visit(c, schemaId, []) == Traversal(t.order + [schemaId], t.visited);
    assert [schemaId] <= t.visited;
    VisitNoDup(c, schemaId, []);
    VisitRooted(c, schemaId, []);
    VisitClosed(c, schemaId, []);
  }

  /** What the walk from an empty `fetched` list emits. */
  lemma ResolveEmits(c: Config, schemaId: string)
    ensures var t := Visit(c, schemaId, []);
      && multiset(t.order) == multiset(t.visited)
      && NoDup(t.order)
      && |t.order| > 0 && t.order[|t.order| - 1] == schemaId
  {
    var t := Visit(c, schemaId, []);
    var t' := VisitAll(c, Deps(c, schemaId), [schemaId]);
    assert [] + [schemaId] == [schemaId];
    assert t == Traversal(t'.order + [schemaId], t'.visited);
    VisitNoDup(c, schemaId, []);
    VisitOrderIsNewlyVisited(c, schemaId, []);
    assert t.visited[0..] == t.visited;
    PermutationNoDup(t.order, t.visited);
  }

  /** A permutation of a list without repetitions has none either. */
  lemma PermutationNoDup<T>(a: seq<T>, b: seq<T>)
    requires multiset(a) == multiset(b) && NoDup(b)
    ensures NoDup(a)
  {
    NoDupAtMostOnce(b);
    AtMostOnceNoDup(a);
  }

  /** On an acyclic dependency map every schema's dependencies are emitted before it. */
  lemma ResolveDepsFirst(c: Config, rank: map<string, nat>, schemaId: string)
    requires Ranked(c, rank)
    ensures var order := Visit(c, schemaId, []).order;
      forall i, d | 0 <= i < |order| && d in Deps(c, order[i]) :: d in order[..i]
  {
    VisitDepsFirst(c, rank, schemaId, [], {});
  }

  // ---------------------------------------------------------------------------
  // The imperative `getFiles`.
  // ---------------------------------------------------------------------------

  /** The inner loop over the target's manifest: the first record bearing `name`, or none; it stops at the first match. */
  method FindRecord(records: seq<FileRecord>, name: string) returns (found: Option<FileRecord>)
    ensures found == Lookup(records, name)
  {
    var k := 0;
    while k < |records|
      invariant 0 <= k <= |records|
      invariant forall m | 0 <= m < k :: records[m].name != name
    {
      if records[k].name == name {
        LookupFirst(records, name, k);
        return Some(records[k]);
      }
      k := k + 1;
    }
    return None;
  }

  /** The own-files part of `getFiles`: each candidate looked up in the target's manifest. */
  method FindOwnFiles(c: Config, key: string) returns (r: Result<seq<FileReq>, ResolveError>)
    ensures r == OwnFiles(c, key)
  {
    if key !in c.schemaFiles {
      return Err(NoSchemaFiles(key));
    }
    var info := c.schemaFiles[key];
    var dictionary := OrElse(info.dict, key);
    var tableBin := dictionary + TableSuffix;
    var reverseBin := dictionary + ReverseSuffix;
    var prismBin := OrElse(info.prism, dictionary) + PrismSuffix;
    var schemaYaml := key + SchemaSuffix;
    // The first candidate already iterates `targetFiles[target]`, which throws when it is missing.
    if key !in c.schemaTarget || c.schemaTarget[key] !in c.targetFiles {
      return Err(NoTargetFiles(key));
    }
    var target := c.schemaTarget[key];
    var records := c.targetFiles[target];
    var names := [tableBin, reverseBin, prismBin, schemaYaml];
    var files: seq<FileReq> := [];
    var j := 0;
    while j < |names|
      invariant 0 <= j <= |names|
      invariant files == Matches(records, names[..j], target)
    {
      var found := FindRecord(records, names[j]);
      assert names[..j + 1][..j] == names[..j];
      if found.Some? {
        files := files + [FileReq(found.value.name, found.value.md5, target)];
      }
      j := j + 1;
    }
    assert names[..j] == names;
    return Ok(files);
  }

  /** The list of schemas one `setIME` call has already expanded, shared by its `getFiles` calls. */
  class Resolution {
    const cfg: Config
    var fetched: seq<string>

    constructor (cfg: Config)
      ensures this.cfg == cfg && fetched == []
    {
      this.cfg := cfg;
      fetched := [];
    }

    method GetFiles(key: string) returns (r: Result<seq<FileReq>, ResolveError>)
      modifies this
      decreases Unvisited(cfg, fetched), 1
      ensures r == Collect(cfg, Visit(cfg, key, old(fetched)).order)
      ensures r.Ok? ==> fetched == Visit(cfg, key, old(fetched)).visited
    {
      if key in fetched {
        return Ok([]);
      }
      ghost var start := fetched + [key];
      MarkShrinks(cfg, key, fetched);
      fetched := fetched + [key];
      var deps := Deps(cfg, key);
      var files: seq<FileReq> := [];
      var i := 0;
      while i < |deps|
        invariant 0 <= i <= |deps|
        invariant fetched == VisitAll(cfg, deps[..i], start).visited
        invariant Collect(cfg, VisitAll(cfg, deps[..i], start).order) == Ok(files)
      {
        ghost var t := VisitAll(cfg, deps[..i], start);
        GrowthShrinks(cfg, start, fetched);
        var sub := GetFiles(deps[i]);
        ghost var u := Visit(cfg, deps[i], t.visited);
        VisitAllStep(cfg, deps, i, start);
        CollectAppend(cfg, t.order, u.order);
        if sub.Err? {
          VisitAllErrPrefix(cfg, deps, i + 1, start);
          ghost var all := VisitAll(cfg, deps, start).order;
          CollectAppend(cfg, all, [key]);
          return Err(sub.error);
        }
        files := files + sub.value;
        i := i + 1;
      }
      assert deps[..i] == deps;
      ghost var all := VisitAll(cfg, deps, start).order;
      var own := FindOwnFiles(cfg, key);
      CollectAppend(cfg, all, [key]);
      if own.Err? {
        return Err(own.error);
      }
      return Ok(files + own.value);
    }
  }
}
