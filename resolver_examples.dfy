/**
 * The resolver on small dependency maps: the `luna_pinyin` / `stroke` cycle of
 * the shipped configuration, a diamond, and a schema that borrows another
 * schema's dictionary.
 */
module ResolverExamples {
  import opened Common
  import opened Manifest
  import opened Resolver

  const NoOverride := SchemaFiles(None, None)

  /**
   * The shipped `luna_pinyin` and `stroke` schemas, which depend on each other.
   * Each target's manifest is trimmed to its `.schema.yaml` record; the shipped
   * manifests also list the table, reverse and prism files.
   */
  const Cycle := Config(
    map["luna_pinyin" := NoOverride, "stroke" := NoOverride],
    map["luna_pinyin" := "luna-pinyin", "stroke" := "stroke"],
    map["luna_pinyin" := ["stroke"], "stroke" := ["luna_pinyin"]],
    map["luna-pinyin" := [FileRecord("luna_pinyin.schema.yaml", "436025a9bf0b619dc6ffe37aee346a07")],
        "stroke" := [FileRecord("stroke.schema.yaml", "44e4e9b9b7560c88374b6227816567d4")]])

  /**
   * Resolving `luna_pinyin` terminates on the cycle: `stroke` is reached once
   * and its edge back to `luna_pinyin` finds it already marked ...
   */
  lemma CycleWalk()
    ensures Visit(Cycle, "luna_pinyin", []) == Traversal(["stroke", "luna_pinyin"], ["luna_pinyin", "stroke"])
  {
    CycleDeps();
    StrokeStep();
    var one := ["luna_pinyin"];
    assert "luna_pinyin" !in [] && [] + one == one;
    assert ["stroke"][..0] == [] && ["stroke"][0] == "stroke";
    assert VisitAll(Cycle, ["stroke"], one) == Traversal(["stroke"], ["luna_pinyin", "stroke"]);
  }

  /** `stroke`, reached from `luna_pinyin`, finds its own dependency already marked. */
  lemma StrokeStep()
    ensures Visit(Cycle, "stroke", ["luna_pinyin"]) == Traversal(["stroke"], ["luna_pinyin", "stroke"])
  {
    CycleDeps();
    var one, both := ["luna_pinyin"], ["luna_pinyin", "stroke"];
    assert one + ["stroke"] == both && "stroke" !in one && "luna_pinyin" in both;
    assert Visit(Cycle, "luna_pinyin", both) == Traversal([], both);
    assert one[..0] == [] && one[0] == "luna_pinyin";
    assert VisitAll(Cycle, one, both) == Traversal([], both);
  }

  lemma CycleDeps()
    ensures Deps(Cycle, "luna_pinyin") == ["stroke"] && Deps(Cycle, "stroke") == ["luna_pinyin"]
  {
  }

  /** ... and its files come out as `stroke`'s, then `luna_pinyin`'s. */
  lemma CycleResolves()
    ensures Resolve(Cycle, "luna_pinyin") == Ok([
      FileReq("stroke.schema.yaml", "44e4e9b9b7560c88374b6227816567d4", "stroke"),
      FileReq("luna_pinyin.schema.yaml", "436025a9bf0b619dc6ffe37aee346a07", "luna-pinyin")])
  {
    CycleWalk();
    CycleOwnFiles();
    ResolveTwo(Cycle, "luna_pinyin", "stroke", "luna_pinyin");
    var rs := FileReq("stroke.schema.yaml", "44e4e9b9b7560c88374b6227816567d4", "stroke");
    var rl := FileReq("luna_pinyin.schema.yaml", "436025a9bf0b619dc6ffe37aee346a07", "luna-pinyin");
    assert [rs] + [rl] == [rs, rl];
  }

  /** A walk that emits two schemas whose own files resolve yields their files in that order. */
  lemma ResolveTwo(c: Config, schemaId: string, a: string, b: string)
    requires Visit(c, schemaId, []).order == [a, b]
    requires OwnFiles(c, a).Ok? && OwnFiles(c, b).Ok?
    ensures Resolve(c, schemaId) == Ok(OwnFiles(c, a).value + OwnFiles(c, b).value)
  {
    var order := [a, b];
    assert order[..1] == [a] && order[1] == b && [a][..0] == [];
    assert [] + OwnFiles(c, a).value == OwnFiles(c, a).value;
    assert Collect(c, [a]) == Ok(OwnFiles(c, a).value);
  }

  /** Each schema of the cycle contributes only its schema description. */
  lemma CycleOwnFiles()
    ensures OwnFiles(Cycle, "stroke") == Ok([FileReq("stroke.schema.yaml", "44e4e9b9b7560c88374b6227816567d4", "stroke")])
    ensures OwnFiles(Cycle, "luna_pinyin") == Ok([FileReq("luna_pinyin.schema.yaml", "436025a9bf0b619dc6ffe37aee346a07", "luna-pinyin")])
  {
    CycleTables();
    CycleSchemaNames();
    OnlySchemaYaml(Cycle, "stroke", "stroke.schema.yaml", "44e4e9b9b7560c88374b6227816567d4");
    OnlySchemaYaml(Cycle, "luna_pinyin", "luna_pinyin.schema.yaml", "436025a9bf0b619dc6ffe37aee346a07");
  }

  /** The entries of the cycle's tables that its two schemas read. */
  lemma CycleTables()
    ensures Cycle.schemaFiles["stroke"] == NoOverride && Cycle.schemaFiles["luna_pinyin"] == NoOverride
    ensures Cycle.schemaTarget["stroke"] == "stroke" && Cycle.schemaTarget["luna_pinyin"] == "luna-pinyin"
    ensures Cycle.targetFiles["stroke"] == [FileRecord("stroke.schema.yaml", "44e4e9b9b7560c88374b6227816567d4")]
    ensures Cycle.targetFiles["luna-pinyin"] == [FileRecord("luna_pinyin.schema.yaml", "436025a9bf0b619dc6ffe37aee346a07")]
  {
  }

  /** The schema description names the shipped manifests use. */
  lemma CycleSchemaNames()
    ensures "stroke" + SchemaSuffix == "stroke.schema.yaml"
    ensures "luna_pinyin" + SchemaSuffix == "luna_pinyin.schema.yaml"
  {
  }

  /** A schema without overrides whose target lists only its schema description contributes that one file. */
  lemma OnlySchemaYaml(c: Config, key: string, name: string, md5: string)
    requires key in c.schemaFiles && c.schemaFiles[key] == NoOverride
    requires key in c.schemaTarget && c.schemaTarget[key] in c.targetFiles
    requires name == key + SchemaSuffix && c.targetFiles[c.schemaTarget[key]] == [FileRecord(name, md5)]
    ensures OwnFiles(c, key) == Ok([FileReq(name, md5, c.schemaTarget[key])])
  {
    var names := Candidates(key, NoOverride);
    CandidatesDistinct(key, NoOverride);
    OnlyLast(c.targetFiles[c.schemaTarget[key]], names, c.schemaTarget[key]);
  }

  /** `top` needs `left` and `right`, which both need `base`. */
  const Diamond := Config(
    map[], map[],
    map["top" := ["left", "right"], "left" := ["base"], "right" := ["base"]],
    map[])

  /** `base` is expanded once, from `left`, and every schema follows its dependencies. */
  lemma DiamondVisitsBaseOnce()
    ensures Visit(Diamond, "top", []).order == ["base", "left", "right", "top"]
    ensures Visit(Diamond, "top", []).visited == ["top", "left", "base", "right"]
  {
    DiamondChildren();
    assert Deps(Diamond, "top") == ["left", "right"];
    assert "top" !in [] && [] + ["top"] == ["top"];
  }

  /** `left` expands `base`; `right` then finds it marked. */
  lemma DiamondChildren()
    ensures VisitAll(Diamond, ["left", "right"], ["top"]) == Traversal(["base", "left", "right"], ["top", "left", "base", "right"])
  {
    var lr := ["left", "right"];
    var v0 := ["top", "left", "base"];
    assert lr[..1] == ["left"] && lr[1] == "right" && ["left"][..0] == [];
    LeftBranch();
    assert VisitAll(Diamond, ["left"], ["top"]) == Traversal(["base", "left"], v0);
    RightBranch();
  }

  lemma LeftBranch()
    ensures Visit(Diamond, "left", ["top"]) == Traversal(["base", "left"], ["top", "left", "base"])
  {
    var v0 := ["top", "left", "base"];
    assert ["top"] + ["left"] == ["top", "left"] && ["top", "left"] + ["base"] == v0;
    assert "left" !in ["top"] && "base" !in ["top", "left"];
    assert Deps(Diamond, "left") == ["base"] && Deps(Diamond, "base") == [];
    assert Visit(Diamond, "base", ["top", "left"]) == Traversal(["base"], v0);
    assert ["base"][..0] == [];
    assert VisitAll(Diamond, ["base"], ["top", "left"]) == Traversal(["base"], v0);
  }

  lemma RightBranch()
    ensures Visit(Diamond, "right", ["top", "left", "base"]) == Traversal(["right"], ["top", "left", "base", "right"])
  {
    var v1 := ["top", "left", "base", "right"];
    assert ["top", "left", "base"] + ["right"] == v1;
    assert "right" !in ["top", "left", "base"] && "base" in v1;
    assert Deps(Diamond, "right") == ["base"];
    assert Visit(Diamond, "base", v1) == Traversal([], v1);
    assert ["base"][..0] == [];
    assert VisitAll(Diamond, ["base"], v1) == Traversal([], v1);
  }

  /** `alias` borrows the dictionary of `base` and depends on it. */
  const Shared := Config(
    map["alias" := SchemaFiles(Some("base"), None), "base" := NoOverride],
    map["alias" := "t", "base" := "t"],
    map["alias" := ["base"]],
    map["t" := [FileRecord("base.table.bin", "m")]])

  /**
   * The resolver removes repeated schemas, not repeated files: a schema that
   * borrows the dictionary of one of its dependencies lists that dictionary's
   * table file a second time.
   */
  lemma SharedDictionaryRepeatsFile()
    ensures Resolve(Shared, "alias") == Ok([FileReq("base.table.bin", "m", "t"), FileReq("base.table.bin", "m", "t")])
  {
    SharedWalk();
    BaseFiles();
    AliasFiles();
    ResolveTwo(Shared, "alias", "base", "alias");
    var req := FileReq("base.table.bin", "m", "t");
    assert [req] + [req] == [req, req];
  }

  lemma SharedWalk()
    ensures Visit(Shared, "alias", []).order == ["base", "alias"]
  {
    var both := ["alias", "base"];
    assert Deps(Shared, "alias") == ["base"] && Deps(Shared, "base") == [];
    assert [] + ["alias"] == ["alias"] && ["alias"] + ["base"] == both;
    assert "alias" !in [] && "base" !in ["alias"];
    assert Visit(Shared, "base", ["alias"]) == Traversal(["base"], both);
    assert ["base"][..0] == [];
    assert VisitAll(Shared, ["base"], ["alias"]) == Traversal(["base"], both);
  }

  lemma BaseFiles()
    ensures OwnFiles(Shared, "base") == Ok([FileReq("base.table.bin", "m", "t")])
  {
    var names := Candidates("base", NoOverride);
    assert names[0] == "base" + TableSuffix == "base.table.bin";
    CandidatesDistinct("base", NoOverride);
    OnlyFirst(Shared.targetFiles["t"], names, "t");
  }

  lemma AliasFiles()
    ensures OwnFiles(Shared, "alias") == Ok([FileReq("base.table.bin", "m", "t")])
  {
    var info := SchemaFiles(Some("base"), None);
    var names := Candidates("alias", info);
    assert OrElse(info.dict, "alias") == "base";
    assert names[0] == "base" + TableSuffix == "base.table.bin";
    CandidatesDistinct("alias", info);
    OnlyFirst(Shared.targetFiles["t"], names, "t");
  }
}
