/**
 * The construction tests of the repository, and small runs of both passes
 * with services that record every call they receive in the history.
 */
module Examples {
  import opened Options
  import opened Vocabulary
  import opened Config
  import opened Cleaning
  import Lookup
  import Derive
  import Records
  import Dwm

  /** Stands for the mocked store handle. */
  datatype Store = Db

  /** A user-defined function: record and history in, record and history out. */
  type Udf = (Rec, seq<string>) -> (Rec, seq<string>)

  const NoUdfs: map<string, Udf> := map[]

  const GoodLookup: seq<string> :=
    ["genericLookup", "genericRegex", "fieldSpecificRegex", "fieldSpecificLookup", "normLookup",
     "normIncludes"]

  function TestFields(lookup: seq<string>, kind: string, options: seq<string>): map<string, FieldConfig> {
    map["field1" := FieldConfig(lookup, [DeriveRule(kind, ["field2"], options, None, None)])]
  }

  const GoodFields: map<string, FieldConfig> := TestFields(GoodLookup, "deriveIncludes", [])

  function UdfSet(u: Udf): map<string, Udf> {
    map["beforeGenericValLookup" := u, "beforeGenericValRegex" := u,
        "beforeFieldSpecificLookup" := u, "beforeFieldSpecificRegex" := u,
        "beforeNormLookup" := u, "beforeNormRegex" := u, "beforeNormIncludes" := u,
        "beforeDerive" := u, "afterAll" := u]
  }

  lemma GoodFieldsAccepted(deriveOptions: set<string>)
    ensures Violations(GoodFields, NoUdfs, deriveOptions) == {}
  {
    NoViolationsIffValid(GoodFields, NoUdfs, deriveOptions);
  }

  lemma BadLookupRejected(deriveOptions: set<string>)
    ensures BadLookup("field1", "badlookup")
            in Violations(TestFields(GoodLookup[..5] + ["badlookup"], "deriveIncludes", []), NoUdfs, deriveOptions)
  {
  }

  lemma BadDeriveRejected(deriveOptions: set<string>)
    ensures BadDeriveType("field1", 0, "badderive")
            in Violations(TestFields(GoodLookup, "badderive", []), NoUdfs, deriveOptions)
  {
    var fields := TestFields(GoodLookup, "badderive", []);
    assert fields["field1"].derive[0].kind == "badderive" && "badderive" !in DeriveTypes;
    assert BadDeriveType("field1", 0, "badderive") in DeriveTypeViolations(fields);
  }

  lemma BadOptionRejected(deriveOptions: set<string>)
    requires "badoption" !in deriveOptions
    ensures BadDeriveOption("field1", 0, "badoption")
            in Violations(TestFields(GoodLookup, "deriveIncludes", ["badoption"]), NoUdfs, deriveOptions)
  {
  }

  lemma AllHookPositionsAccepted(u: Udf)
    ensures ValidHooks(UdfSet(u)) && UdfSet(u).Keys == HookPositions
  {
  }

  lemma BadPositionRejected(u: Udf, deriveOptions: set<string>)
    ensures Violations(map[], map["badposition" := u], deriveOptions) == {BadHookPosition("badposition")}
  {
    var v := Violations(map[], map["badposition" := u], deriveOptions);
    assert BadHookPosition("badposition") in v;
  }

  /** Construction with only a name and a store. */
  method TestInitDefaults(deriveOptions: set<string>) {
    var dwm := new Dwm.Dwm<Store, Udf>(deriveOptions, "test", Db);
    assert dwm.name == "test" && dwm.mongo == Db;
    assert dwm.fields == map[] && dwm.udfs == map[];
  }

  /** Construction with a legal field configuration and with all nine hook positions. */
  method TestInitGood(deriveOptions: set<string>, u: Udf) {
    var dwm := new Dwm.Dwm<Store, Udf>(deriveOptions, "test", Db, fields := GoodFields);
    assert dwm.fields == GoodFields;
    AllHookPositionsAccepted(u);
    var dwm2 := new Dwm.Dwm<Store, Udf>(deriveOptions, "test", Db, udfs := UdfSet(u));
    assert dwm2.udfs == UdfSet(u);
  }

  /** An unknown lookup token makes construction fail. */
  method TestInitBadLookup(deriveOptions: set<string>) {
    var fields := TestFields(GoodLookup[..5] + ["badlookup"], "deriveIncludes", []);
    BadLookupRejected(deriveOptions);
    NoViolationsIffValid(fields, NoUdfs, deriveOptions);
    var r := Dwm.Dwm.Create(deriveOptions, "test", Db, fields, NoUdfs);
    assert r.Failure?;
  }

  /** An unknown derive type makes construction fail. */
  method TestInitBadDerive(deriveOptions: set<string>) {
    var fields := TestFields(GoodLookup, "badderive", []);
    BadDeriveRejected(deriveOptions);
    NoViolationsIffValid(fields, NoUdfs, deriveOptions);
    var r := Dwm.Dwm.Create(deriveOptions, "test", Db, fields, NoUdfs);
    assert r.Failure?;
  }

  /** An unknown derive option makes construction fail. */
  method TestInitBadOption(deriveOptions: set<string>)
    requires "badoption" !in deriveOptions
  {
    var fields := TestFields(GoodLookup, "deriveIncludes", ["badoption"]);
    BadOptionRejected(deriveOptions);
    NoViolationsIffValid(fields, NoUdfs, deriveOptions);
    var r := Dwm.Dwm.Create(deriveOptions, "test", Db, fields, NoUdfs);
    assert r.Failure?;
  }

  /** An unknown hook position makes construction fail, and is the only violation reported. */
  method TestInitBadPosition(deriveOptions: set<string>, u: Udf) {
    BadPositionRejected(u, deriveOptions);
    var r := Dwm.Dwm.Create(deriveOptions, "test", Db, map[], map["badposition" := u]);
    assert r.Failure? && r.error == {BadHookPosition("badposition")};
  }

  /**
   * Services over a history of call tags: the value lookup maps "Red" to
   * "red"; the copy service copies the first dependency, "src" before "a";
   * the derive lookup always answers "looked-up".
   */
  const Svc: Services<seq<string>> := Services(
    (v: string, lt: string, f: string, h: seq<string>) =>
      if v == "Red" then ("red", h + [f + ":Red->red"]) else (v, h + [f + ":lookup"]),
    (v: string, lt: string, f: string, h: seq<string>) => (v, h + [f + ":regex"]),
    (f: string, inp: map<string, string>, o: bool, v: string, h: seq<string>, b: bool) =>
      ("looked-up", h + [f + ":deriveValue"]),
    (f: string, inp: map<string, string>, o: bool, v: string, h: seq<string>) =>
      (if "src" in inp then inp["src"] else if "a" in inp then inp["a"] else v, h + [f + ":copyValue"]),
    (f: string, inp: map<string, string>, o: bool, v: string, h: seq<string>, b: bool) =>
      (v, h + [f + ":deriveRegex"]))

  const ColorConfig: map<string, FieldConfig> := map["color" := FieldConfig(["genericLookup"], [])]

  /** A configured generic lookup rewrites the value and its change is in the history. */
  lemma ColorLookedUp()
    ensures Lookup.Pass(ColorConfig, "genericLookup", Svc, map["color" := "Red"], [], ["color"])
            == (map["color" := "red"], ["color:Red->red"])
  {
    var data := map["color" := "Red"];
    assert Lookup.Eligible(ColorConfig, "genericLookup", data, "color");
    assert "genericLookup" in ValueLookupTypes;
    assert "color" + ":Red->red" == "color:Red->red";
    var h: seq<string> := [];
    assert Svc.dataLookup("Red", "genericLookup", "color", h) == ("red", h + ["color" + ":Red->red"]);
    assert h + ["color:Red->red"] == ["color:Red->red"];
    assert Lookup.Call(Svc, "genericLookup", "Red", "color", h) == ("red", ["color:Red->red"]);
    var s := Lookup.Step(ColorConfig, "genericLookup", Svc, data, [], "color");
    assert data["color"] == "Red" && data["color" := "red"] == map["color" := "red"];
    assert s == (map["color" := "red"], ["color:Red->red"]);
    assert ["color"][1..] == [];
  }

  /** A blank value is not sent to any service. */
  lemma BlankSkipped()
    ensures Lookup.Pass(ColorConfig, "genericLookup", Svc, map["color" := ""], [], ["color"])
            == (map["color" := ""], [])
  {
  }

  /** The same run through the record object. */
  method ColorRecord() {
    var rec := new Records.Record(["color"], map["color" := "Red"]);
    var hist := rec.LookupAll(ColorConfig, "genericLookup", Svc, []);
    ColorLookedUp();
    assert rec.data == map["color" := "red"] && hist == ["color:Red->red"];
  }

  function Copy(from: string): DeriveRule {
    DeriveRule("copyValue", [from], [], Some(true), None)
  }

  const ValueRule: DeriveRule := DeriveRule("deriveValue", ["src"], [], Some(true), Some(false))

  /** "a" copies "src"; "b" copies "a". */
  const ChainConfig: map<string, FieldConfig> :=
    map["a" := FieldConfig([], [Copy("src")]), "b" := FieldConfig([], [Copy("a")])]

  const ChainData: Rec := map["src" := "x", "a" := "", "b" := ""]

  /** With "a" walked before "b", the value written to "a" reaches "b". */
  lemma DeriveSeesEarlierWrite()
    ensures Derive.Pass(ChainConfig, Svc, ChainData, [], ["src", "a", "b"]).0
            == map["src" := "x", "a" := "x", "b" := "x"]
  {
  }

  /** With "b" walked before "a", "b" copies the still blank "a" and is left as it was. */
  lemma DeriveOrderMatters()
    ensures Derive.Pass(ChainConfig, Svc, ChainData, [], ["src", "b", "a"]).0
            == map["src" := "x", "a" := "x", "b" := ""]
  {
  }

  /** The copy rule changes "a" first, so the derive lookup after it is never called. */
  lemma DeriveShortCircuit()
    ensures Derive.Pass(map["a" := FieldConfig([], [Copy("src"), ValueRule])], Svc,
                        map["src" := "x", "a" := ""], [], ["src", "a"])
            == (map["src" := "x", "a" := "x"], ["a:copyValue"])
  {
    var data := map["src" := "x", "a" := ""];
    var h: seq<string> := [];
    assert Derive.Gated(Copy("src").fieldSet, data);
    assert Derive.Input(Copy("src").fieldSet, data) == map["src" := "x"];
    assert "a" + ":copyValue" == "a:copyValue";
    assert h + ["a:copyValue"] == ["a:copyValue"];
    assert Derive.Attempt(Copy("src"), data, "a", "", Svc, h) == ("x", ["a:copyValue"]);
    assert Derive.FirstChange([Copy("src"), ValueRule], data, "a", "", Svc, h) == (Some("x"), ["a:copyValue"]);
    var s := Derive.Step(map["a" := FieldConfig([], [Copy("src"), ValueRule])], Svc, data, h, "a");
    assert data["a"] == "" && data["a" := "x"] == map["src" := "x", "a" := "x"];
    assert s == (map["src" := "x", "a" := "x"], ["a:copyValue"]);
    assert ["src", "a"][1..] == ["a"] && ["a"][1..] == [];
  }

  /** A rule whose field set names a missing field is never attempted. */
  lemma DeriveGated()
    ensures Derive.Pass(map["a" := FieldConfig([], [Copy("missing")])], Svc, map["a" := "y"], [], ["a"])
            == (map["a" := "y"], [])
  {
    var data := map["a" := "y"];
    assert "missing" in Copy("missing").fieldSet && "missing" !in data;
    assert Derive.Attempt(Copy("missing"), data, "a", "y", Svc, []) == ("y", []);
    assert [Copy("missing")][1..] == [];
    assert ["a"][1..] == [];
  }
}
