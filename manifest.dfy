/**
 * The static schema configuration of the worker and the part of `getFiles`
 * that turns one schema into the asset files it needs: the four candidate
 * file names and their lookup in the target's file manifest.
 */
module Manifest {
  import opened Common

  /** A `schemaFiles` entry: optional overrides of the dictionary and prism base names. */
  datatype SchemaFiles = SchemaFiles(dict: Option<string>, prism: Option<string>)

  /** One record of a target's file manifest (`targetFiles[target]`). */
  datatype FileRecord = FileRecord(name: string, md5: string)

  /** A file that activating a schema needs: name, expected md5, hosting target. */
  datatype FileReq = FileReq(name: string, md5: string, target: string)

  /** The four static tables the resolver consults. */
  datatype Config = Config(
    schemaFiles: map<string, SchemaFiles>,
    schemaTarget: map<string, string>,
    dependencyMap: map<string, seq<string>>,
    targetFiles: map<string, seq<FileRecord>>)

  /** What `getFiles` throws: a TypeError from reading a missing table entry. */
  datatype ResolveError =
    | NoSchemaFiles(key: string)   // `const { dict, prism } = schemaFiles[key]` on undefined
    | NoTargetFiles(key: string)   // `for (... of targetFiles[target])` on undefined

  const TableSuffix := ".table.bin"
  const ReverseSuffix := ".reverse.bin"
  const PrismSuffix := ".prism.bin"
  const SchemaSuffix := ".schema.yaml"

  /** JavaScript's `a || b` where `a` is an optional string: the empty string is falsy. */
  function OrElse(a: Option<string>, b: string): (r: string)
    ensures a.Some? && a.value != "" ==> r == a.value
    ensures a.None? || a.value == "" ==> r == b
  {
    if a.Some? && a.value != "" then a.value else b
  }

  /** The candidate file names of schema `key`: table, reverse, prism, schema description. */
  function Candidates(key: string, info: SchemaFiles): (names: seq<string>)
    ensures |names| == 4
  {
    var dictionary := OrElse(info.dict, key);
    [ dictionary + TableSuffix,
      dictionary + ReverseSuffix,
      OrElse(info.prism, dictionary) + PrismSuffix,
      key + SchemaSuffix ]
  }

  /** Two strings whose tails differ at the same distance from the end differ. */
  lemma SuffixDiffers(a: string, x: string, b: string, y: string, k: nat)
    requires 1 <= k <= |x| && k <= |y|
    requires x[|x| - k] != y[|y| - k]
    ensures a + x != b + y
  {
    assert (a + x)[|a + x| - k] == x[|x| - k];
    assert (b + y)[|b + y| - k] == y[|y| - k];
  }

  /** Whatever the overrides, the four candidates of one schema are four different names. */
  lemma CandidatesDistinct(key: string, info: SchemaFiles)
    ensures var names := Candidates(key, info);
      forall i, j | 0 <= i < j < 4 :: names[i] != names[j]
  {
    var d := OrElse(info.dict, key);
    var p := OrElse(info.prism, d);
    SuffixDiffers(d, TableSuffix, d, ReverseSuffix, 6);
    SuffixDiffers(d, TableSuffix, p, PrismSuffix, 5);
    SuffixDiffers(d, ReverseSuffix, p, PrismSuffix, 5);
    SuffixDiffers(d, TableSuffix, key, SchemaSuffix, 1);
    SuffixDiffers(d, ReverseSuffix, key, SchemaSuffix, 1);
    SuffixDiffers(p, PrismSuffix, key, SchemaSuffix, 1);
  }

  /**
   * A schema whose `dict` names another schema without overrides asks for that
   * schema's table and reverse files (and its prism, unless it overrides prism),
   * but keeps its own schema description.
   */
  lemma SharedDictionary(key: string, info: SchemaFiles, other: SchemaFiles)
    requires info.dict.Some? && info.dict.value != "" && info.dict.value != key
    requires other == SchemaFiles(None, None)
    ensures var mine, theirs := Candidates(key, info), Candidates(info.dict.value, other);
      && mine[0] == theirs[0] && mine[1] == theirs[1]
      && (OrElse(info.prism, "") == "" ==> mine[2] == theirs[2])
      && mine[3] != theirs[3]
  {
    var d := info.dict.value;
    assert (key + SchemaSuffix)[..|key|] == key;
    assert (d + SchemaSuffix)[..|d|] == d;
  }

  /** The first manifest record named `name` (the inner `for ... break` loop). */
  function Lookup(records: seq<FileRecord>, name: string): (r: Option<FileRecord>)
    ensures r.None? <==> forall i | 0 <= i < |records| :: records[i].name != name
    ensures r.Some? ==> r.value.name == name && r.value in records
  {
    if records == [] then None
    else if records[0].name == name then Some(records[0])
    else
      var r := Lookup(records[1..], name);
      assert forall i | 1 <= i < |records| :: records[i] == records[1..][i - 1];
      r
  }

  /** A record preceded by no record of the same name is the one `Lookup` finds. */
  lemma {:induction false} LookupFirst(records: seq<FileRecord>, name: string, k: nat)
    requires k < |records| && records[k].name == name
    requires forall j | 0 <= j < k :: records[j].name != name
    ensures Lookup(records, name) == Some(records[k])
  {
    if k > 0 {
      assert records[0].name != name;
      forall j | 0 <= j < k - 1 ensures records[1..][j].name != name {
        assert records[1..][j] == records[j + 1];
      }
      LookupFirst(records[1..], name, k - 1);
    }
  }

  /**
   * The files `names` map to in `records`, in the order of `names`, each tagged
   * with `target`; a name without a record is skipped.
   */
  function Matches(records: seq<FileRecord>, names: seq<string>, target: string): (files: seq<FileReq>)
    ensures |files| <= |names|
  {
    if names == [] then []
    else
      var rest := Matches(records, names[..|names| - 1], target);
      match Lookup(records, names[|names| - 1])
      case None => rest
      case Some(rec) => rest + [FileReq(rec.name, rec.md5, target)]
  }

  /** Every matched file is a candidate with its first manifest record, hosted by `target`. */
  lemma {:induction false} MatchesSound(records: seq<FileRecord>, names: seq<string>, target: string)
    ensures forall f | f in Matches(records, names, target) ::
      f.target == target && f.name in names && Lookup(records, f.name) == Some(FileRecord(f.name, f.md5))
  {
    if names != [] {
      var init := names[..|names| - 1];
      MatchesSound(records, init, target);
      assert forall n | n in init :: n in names;
    }
  }

  /** Every candidate that has a manifest record is matched. */
  lemma {:induction false} MatchesComplete(records: seq<FileRecord>, names: seq<string>, target: string)
    ensures forall n | n in names && Lookup(records, n).Some? ::
      exists f | f in Matches(records, names, target) :: f.name == n
  {
    if names != [] {
      var init, last := names[..|names| - 1], names[|names| - 1];
      var rest := Matches(records, init, target);
      MatchesComplete(records, init, target);
      forall n | n in names && Lookup(records, n).Some?
        ensures exists f | f in Matches(records, names, target) :: f.name == n
      {
        if n == last {
          var rec := Lookup(records, n).value;
          assert FileReq(rec.name, rec.md5, target) in Matches(records, names, target);
        } else {
          var i :| 0 <= i < |names| && names[i] == n;
          assert init[i] == n;
          var f :| f in rest && f.name == n;
          assert f in Matches(records, names, target);
        }
      }
    }
  }

  /** Matching two stretches of candidates is matching each in turn. */
  lemma {:induction false} MatchesAppend(records: seq<FileRecord>, a: seq<string>, b: seq<string>, target: string)
    ensures Matches(records, a + b, target) == Matches(records, a, target) + Matches(records, b, target)
    decreases |b|
  {
    if b == [] {
      assert a + b == a;
    } else {
      var init := b[..|b| - 1];
      assert (a + b)[..|a + b| - 1] == a + init;
      assert (a + b)[|a + b| - 1] == b[|b| - 1];
      MatchesAppend(records, a, init, target);
    }
  }

  /** Candidates without a manifest record contribute nothing. */
  lemma {:induction false} NoneMatch(records: seq<FileRecord>, names: seq<string>, target: string)
    requires forall i | 0 <= i < |names| :: Lookup(records, names[i]).None?
    ensures Matches(records, names, target) == []
  {
    if names != [] {
      var init := names[..|names| - 1];
      assert forall i | 0 <= i < |init| :: init[i] == names[i];
      NoneMatch(records, init, target);
    }
  }

  /** A one-record manifest matches only the last candidate when that one bears its name. */
  lemma OnlyLast(records: seq<FileRecord>, names: seq<string>, target: string)
    requires |records| == 1 && |names| == 4 && names[3] == records[0].name
    requires forall i | 0 <= i < 3 :: names[i] != names[3]
    ensures Matches(records, names, target) == [FileReq(records[0].name, records[0].md5, target)]
  {
    var init := names[..3];
    assert forall i | 0 <= i < 3 :: init[i] == names[i];
    NoneMatch(records, init, target);
    assert Lookup(records, names[3]) == Some(records[0]);
  }

  /** A one-record manifest matches only the first candidate when that one bears its name. */
  lemma OnlyFirst(records: seq<FileRecord>, names: seq<string>, target: string)
    requires |records| == 1 && |names| == 4 && names[0] == records[0].name
    requires forall i | 0 < i < 4 :: names[i] != names[0]
    ensures Matches(records, names, target) == [FileReq(records[0].name, records[0].md5, target)]
  {
    var rest := names[1..];
    assert forall i | 0 <= i < 3 :: rest[i] == names[i + 1];
    NoneMatch(records, rest, target);
    assert names == [names[0]] + rest;
    MatchesAppend(records, [names[0]], rest, target);
    assert [names[0]][..0] == [];
    assert Lookup(records, names[0]) == Some(records[0]);
  }

  /**
   * The files schema `key` contributes itself, or the error the source throws
   * on a schema or target missing from the tables.
   */
  function OwnFiles(c: Config, key: string): (r: Result<seq<FileReq>, ResolveError>)
    ensures r.Err? <==> key !in c.schemaFiles || key !in c.schemaTarget || c.schemaTarget[key] !in c.targetFiles
    ensures r.Err? ==> r.error.key == key
    ensures r.Ok? ==> |r.value| <= 4
  {
    if key !in c.schemaFiles then Err(NoSchemaFiles(key))
    else if key !in c.schemaTarget || c.schemaTarget[key] !in c.targetFiles then Err(NoTargetFiles(key))
    else
      var target := c.schemaTarget[key];
      Ok(Matches(c.targetFiles[target], Candidates(key, c.schemaFiles[key]), target))
  }
}
