/** Configuration dataclasses: their dict form (which omits fields whose value
    is None), reading them back from a dict, `merge_configs`, and the
    file-suffix dispatch of `from_file`. */
module Config {
  import opened Wrappers
  import opened JsonValue
  import opened Paths
  import DeepMerge

  /** The default of a dataclass field: none (the field is required) or a value. */
  datatype Default = Required | DefaultsTo(value: Value)

  datatype Field = Field(name: string, default: Default)

  /** The declared fields of a configuration dataclass, in declaration order. */
  type Schema = seq<Field>

  /** An instance: one value per declared field; `Null` stands for Python's None. */
  datatype ConfigObject = ConfigObject(values: seq<Value>)

  datatype ConfigError =
    | MissingField(name: string)
    | NotADict
    | UnsupportedFormat(suffix: string)

  /** Field names of a dataclass are distinct. */
  ghost predicate ValidSchema(schema: Schema) {
    forall i, j :: 0 <= i < j < |schema| ==> schema[i].name != schema[j].name
  }

  /** Field values line up with the schema: one per declared field. */
  predicate Conforms(schema: Schema, values: seq<Value>) {
    |values| == |schema|
  }

  /** `to_dict()` with `omit_none`: one entry per field whose value is not None, in declaration order. */
  function ToDict(schema: Schema, values: seq<Value>): (r: seq<Entry>)
    requires Conforms(schema, values)
    ensures |r| <= |schema|
    ensures forall i :: 0 <= i < |r| ==> r[i].value != Null
  {
    if |schema| == 0 then []
    else
      var n := |schema| - 1;
      ToDict(schema[..n], values[..n]) + (if values[n] == Null then [] else [Entry(schema[n].name, values[n])])
  }

  /** The dict form holds exactly the non-None fields, each under its own name. */
  lemma {:induction false} ToDictLookup(schema: Schema, values: seq<Value>, i: int)
    requires ValidSchema(schema)
    requires Conforms(schema, values)
    requires 0 <= i < |schema|
    ensures Lookup(ToDict(schema, values), schema[i].name) == if values[i] == Null then None else Some(values[i])
  {
    var n := |schema| - 1;
    var prefix := ToDict(schema[..n], values[..n]);
    if i < n {
      ToDictLookup(schema[..n], values[..n], i);
      if values[n] != Null {
        LookupSnoc(prefix, Entry(schema[n].name, values[n]), schema[i].name);
      } else {
        assert ToDict(schema, values) == prefix;
      }
    } else {
      ToDictAbsent(schema[..n], values[..n], schema[n].name);
      LookupDefined(prefix, schema[n].name);
      if values[n] != Null {
        LookupSnoc(prefix, Entry(schema[n].name, values[n]), schema[n].name);
      } else {
        assert ToDict(schema, values) == prefix;
      }
    }
  }

  /** Only declared field names appear in the dict form. */
  lemma {:induction false} ToDictAbsent(schema: Schema, values: seq<Value>, k: string)
    requires Conforms(schema, values)
    requires forall i :: 0 <= i < |schema| ==> schema[i].name != k
    ensures k !in Keys(ToDict(schema, values))
  {
    if |schema| > 0 {
      var n := |schema| - 1;
      ToDictAbsent(schema[..n], values[..n], k);
    }
  }

  /** The dict form of an instance is a Python dict: its keys are unique. */
  lemma {:induction false} ToDictUnique(schema: Schema, values: seq<Value>)
    requires ValidSchema(schema)
    requires Conforms(schema, values)
    ensures UniqueKeys(ToDict(schema, values))
  {
    if |schema| > 0 {
      var n := |schema| - 1;
      var prefix := ToDict(schema[..n], values[..n]);
      ToDictUnique(schema[..n], values[..n]);
      ToDictAbsent(schema[..n], values[..n], schema[n].name);
      if values[n] != Null {
        var r := prefix + [Entry(schema[n].name, values[n])];
        forall i, j | 0 <= i < j < |r| ensures r[i].key != r[j].key {
          if j == |prefix| {
            assert Keys(prefix)[i] == r[i].key;
          }
        }
      }
    }
  }

  /** The value `from_dict` gives a field: the dict's value, else the field's default. */
  function FieldFrom(f: Field, d: seq<Entry>): (r: Result<Value, ConfigError>) {
    match Lookup(d, f.name)
    case Some(v) => Success(v)
    case None =>
      match f.default
      case DefaultsTo(v) => Success(v)
      case Required => Failure(MissingField(f.name))
  }

  /** `from_dict(d)`: fields in declaration order; the first required field
      missing from `d` fails; keys that are not fields are ignored. */
  function FromDict(schema: Schema, d: seq<Entry>): (r: Result<ConfigObject, ConfigError>)
    ensures r.Success? ==> Conforms(schema, r.value.values)
    ensures r.Failure? ==> r.error.MissingField?
  {
    if |schema| == 0 then Success(ConfigObject([]))
    else
      var n := |schema| - 1;
      var prefix :- FromDict(schema[..n], d);
      var v :- FieldFrom(schema[n], d);
      Success(ConfigObject(prefix.values + [v]))
  }

  /** `from_dict` succeeds exactly when every required field is present, and
      then each field holds the dict's value or its default. */
  lemma {:induction false} FromDictFields(schema: Schema, d: seq<Entry>)
    ensures FromDict(schema, d).Success? <==> forall i :: 0 <= i < |schema| ==> FieldFrom(schema[i], d).Success?
    ensures FromDict(schema, d).Success? ==>
      forall i :: 0 <= i < |schema| ==> FromDict(schema, d).value.values[i] == FieldFrom(schema[i], d).value
  {
    if |schema| > 0 {
      var n := |schema| - 1;
      FromDictFields(schema[..n], d);
      assert forall i :: 0 <= i < n ==> schema[..n][i] == schema[i];
    }
  }

  /** What `merge_configs` gives a field, stated per field: a non-None
      override wins, except that two dicts are deep-merged; a None override
      keeps the base value; if both are None the field falls back to its
      default, and a required field then cannot be rebuilt. */
  function MergedField(f: Field, base: Value, override: Value): (r: Result<Value, ConfigError>) {
    if override != Null then
      if base.Dict? && override.Dict? then Success(Dict(DeepMerge.Merge(base.entries, override.entries)))
      else Success(override)
    else if base != Null then Success(base)
    else
      match f.default
      case DefaultsTo(v) => Success(v)
      case Required => Failure(MissingField(f.name))
  }

  /** `merge_configs(base, override)`: deep-merge the dict forms, then rebuild an instance. */
  function MergeConfigs(schema: Schema, base: ConfigObject, override: ConfigObject): (r: Result<ConfigObject, ConfigError>)
    requires Conforms(schema, base.values)
    requires Conforms(schema, override.values)
    ensures r.Success? ==> Conforms(schema, r.value.values)
    ensures r.Failure? ==> r.error.MissingField?
  {
    FromDict(schema, DeepMerge.Merge(ToDict(schema, base.values), ToDict(schema, override.values)))
  }

  /** `merge_configs` agrees with the per-field description `MergedField`,
      both on whether it succeeds and on every field's value. */
  lemma MergeConfigsFields(schema: Schema, base: ConfigObject, override: ConfigObject)
    requires ValidSchema(schema)
    requires Conforms(schema, base.values)
    requires Conforms(schema, override.values)
    ensures MergeConfigs(schema, base, override).Success? <==>
      forall i :: 0 <= i < |schema| ==> MergedField(schema[i], base.values[i], override.values[i]).Success?
    ensures MergeConfigs(schema, base, override).Success? ==>
      forall i :: 0 <= i < |schema| ==>
        MergeConfigs(schema, base, override).value.values[i] == MergedField(schema[i], base.values[i], override.values[i]).value
  {
    var bd := ToDict(schema, base.values);
    var od := ToDict(schema, override.values);
    var merged := DeepMerge.Merge(bd, od);
    ToDictUnique(schema, override.values);
    forall i | 0 <= i < |schema|
      ensures FieldFrom(schema[i], merged) == MergedField(schema[i], base.values[i], override.values[i])
    {
      ToDictLookup(schema, base.values, i);
      ToDictLookup(schema, override.values, i);
      DeepMerge.MergeLookup(bd, od, schema[i].name);
    }
    FromDictFields(schema, merged);
  }

  /** A None in the override never clobbers a base value, and any non-None
      override value that is not a dict merged into a dict, a default such
      as `retries=0` included, replaces the base value. */
  lemma MergeConfigsOverride(schema: Schema, base: ConfigObject, override: ConfigObject, i: int)
    requires ValidSchema(schema)
    requires Conforms(schema, base.values)
    requires Conforms(schema, override.values)
    requires 0 <= i < |schema|
    requires MergeConfigs(schema, base, override).Success?
    ensures override.values[i] == Null && base.values[i] != Null ==>
      MergeConfigs(schema, base, override).value.values[i] == base.values[i]
    ensures override.values[i] != Null && !(base.values[i].Dict? && override.values[i].Dict?) ==>
      MergeConfigs(schema, base, override).value.values[i] == override.values[i]
  {
    MergeConfigsFields(schema, base, override);
  }

  /** The instance read from a parsed document: the document must be a dict. */
  function FromDocument(schema: Schema, document: Value): (r: Result<ConfigObject, ConfigError>)
    ensures r.Failure? ==> r.error.MissingField? || r.error.NotADict?
    ensures !document.Dict? ==> r == Failure(NotADict)
    ensures r.Success? ==> Conforms(schema, r.value.values)
    ensures document.Dict? ==>
      (r.Success? <==> forall i :: 0 <= i < |schema| ==> FieldFrom(schema[i], document.entries).Success?)
    ensures document.Dict? && r.Success? ==>
      forall i :: 0 <= i < |schema| ==> r.value.values[i] == FieldFrom(schema[i], document.entries).value
  {
    if document.Dict? then
      FromDictFields(schema, document.entries);
      FromDict(schema, document.entries)
    else Failure(NotADict)
  }

  /** `from_file(path)`: only the `.json` suffix is read (`document` is the
      parsed file content); any other suffix fails with the suffix named. */
  function FromFile(schema: Schema, path: Path, document: Value): (r: Result<ConfigObject, ConfigError>)
    ensures r == Failure(UnsupportedFormat(Suffix(path))) <==> Suffix(path) != ".json"
    ensures Suffix(path) == ".json" ==> r == FromDocument(schema, document)
  {
    if Suffix(path) == ".json" then FromDocument(schema, document)
    else Failure(UnsupportedFormat(Suffix(path)))
  }

  /** `SampleConfig` of the configuration tests: `name` and `nested` default to None, `retries` to 0. */
  function SampleSchema(): (r: Schema) {
    [Field("name", DefaultsTo(Null)), Field("retries", DefaultsTo(Int(0))), Field("nested", DefaultsTo(Null))]
  }

  /** `test_merge_configs_override_none_value`: the override's name wins, its
      None `nested` keeps the base dict, and its default `retries=0` wins. */
  lemma MergeConfigsNoneExample(base: ConfigObject, override: ConfigObject)
    requires base == ConfigObject([Null, Int(2), Dict([Entry("k", Int(1))])])
    requires override == ConfigObject([Str("final"), Int(0), Null])
    ensures MergeConfigs(SampleSchema(), base, override) == Success(ConfigObject([Str("final"), Int(0), Dict([Entry("k", Int(1))])]))
  {
    var schema := SampleSchema();
    assert ValidSchema(schema);
    MergeConfigsFields(schema, base, override);
    var r := MergeConfigs(schema, base, override);
    assert MergedField(schema[0], base.values[0], override.values[0]).Success?;
    assert MergedField(schema[1], base.values[1], override.values[1]).Success?;
    assert MergedField(schema[2], base.values[2], override.values[2]).Success?;
    assert r.value.values == [Str("final"), Int(0), Dict([Entry("k", Int(1))])];
  }

  /** The dict merge inside `test_merge_configs_preserves_subclass_and_merges`. */
  lemma NestedMergeExample(nestedBase: seq<Entry>, nestedNew: seq<Entry>)
    requires nestedBase == [Entry("x", Int(1)), Entry("y", Dict([Entry("a", Int(10))]))]
    requires nestedNew == [Entry("y", Dict([Entry("b", Int(20))])), Entry("z", Int(99))]
    ensures DeepMerge.Merge(nestedBase, nestedNew)
      == [Entry("x", Int(1)), Entry("y", Dict([Entry("a", Int(10)), Entry("b", Int(20))])), Entry("z", Int(99))]
  {
    var innerBase := [Entry("a", Int(10))];
    var innerNew := [Entry("b", Int(20))];
    // the innermost dicts
    assert innerNew[..0] == [];
    assert Lookup(innerBase, "b") == None;
    var innerMerged := [Entry("a", Int(10)), Entry("b", Int(20))];
    assert DeepMerge.Merge(innerBase, innerNew) == innerMerged by { PutAbsent(innerBase, "b", Int(20)); }
    // the outer dicts
    assert nestedNew[..1] == [nestedNew[0]] && [nestedNew[0]][..0] == [];
    var acc := [Entry("x", Int(1)), Entry("y", Dict(innerMerged))];
    assert Lookup(nestedBase, "y") == Some(Dict(innerBase)) by { assert Lookup(nestedBase[1..], "y") == Some(Dict(innerBase)); }
    assert Put(nestedBase, "y", Dict(innerMerged)) == acc by { assert Put(nestedBase[1..], "y", Dict(innerMerged)) == acc[1..]; }
    assert DeepMerge.Merge(nestedBase, [nestedNew[0]]) == acc;
    assert Lookup(acc, "z") == None by { assert Lookup(acc[1..], "z") == None; }
    assert Put(acc, "z", Int(99)) == acc + [Entry("z", Int(99))] by { PutAbsent(acc, "z", Int(99)); }
  }

  /** The per-field outcome for the same example. */
  lemma NestedMergedFields(base: ConfigObject, override: ConfigObject)
    requires base == ConfigObject([Str("service"), Int(1), Dict([Entry("x", Int(1)), Entry("y", Dict([Entry("a", Int(10))]))])])
    requires override == ConfigObject([Null, Int(5), Dict([Entry("y", Dict([Entry("b", Int(20))])), Entry("z", Int(99))])])
    ensures forall i :: 0 <= i < 3 ==>
      (MergedField(SampleSchema()[i], base.values[i], override.values[i]) ==
       Success([Str("service"), Int(5),
         Dict([Entry("x", Int(1)), Entry("y", Dict([Entry("a", Int(10)), Entry("b", Int(20))])), Entry("z", Int(99))])][i]))
  {
    NestedMergeExample(base.values[2].entries, override.values[2].entries);
  }

  /** `test_merge_configs_preserves_subclass_and_merges`: the base name survives
      a None override, retries are overridden, and the nested dicts merge at
      every depth. */
  lemma MergeConfigsNestedExample(base: ConfigObject, override: ConfigObject)
    requires base == ConfigObject([Str("service"), Int(1), Dict([Entry("x", Int(1)), Entry("y", Dict([Entry("a", Int(10))]))])])
    requires override == ConfigObject([Null, Int(5), Dict([Entry("y", Dict([Entry("b", Int(20))])), Entry("z", Int(99))])])
    ensures MergeConfigs(SampleSchema(), base, override) == Success(ConfigObject([
      Str("service"), Int(5),
      Dict([Entry("x", Int(1)), Entry("y", Dict([Entry("a", Int(10)), Entry("b", Int(20))])), Entry("z", Int(99))])]))
  {
    var schema := SampleSchema();
    var expected := [Str("service"), Int(5),
      Dict([Entry("x", Int(1)), Entry("y", Dict([Entry("a", Int(10)), Entry("b", Int(20))])), Entry("z", Int(99))])];
    assert ValidSchema(schema);
    MergeConfigsFields(schema, base, override);
    NestedMergedFields(base, override);
    var r := MergeConfigs(schema, base, override);
    assert r.value.values == expected;
  }
}
