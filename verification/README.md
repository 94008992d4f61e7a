# py-app-dev configuration merge and pipeline loader, modelled in Dafny

This project models two pure-logic parts of the `py_app_dev` library and proves
properties of the model.

- **Configuration merge** (`src/py_app_dev/core/config.py`). `deep_merge`
  combines two JSON-like dicts. A value of the new dict overrides the base
  value, except that two dicts under the same key are merged recursively.
  `merge_configs` deep-merges the dict forms of two configuration dataclasses
  and rebuilds an instance. The dict form omits fields whose value is None
  (`omit_none`), so a None in the override never clobbers a base value.
  `from_file` reads only files whose suffix is `.json`.
- **Pipeline loading and running** (`src/py_app_dev/core/pipeline.py`).
  `PipelineLoader` resolves each `StageConfig` to a class. The class name is
  `class_name` when it is truthy, else `stage`. The source is `module` first,
  then `file`, else a `UserNotificationException`. The loader flattens the
  ordered group → stages configuration into `(group_name, class)` references.
  `StageRunner` either cleans the output directory or runs every stage in
  order. Each stage uses `output_dir / group_name` as its output directory and
  as its executor cache directory.

Files:

- `wrappers.dfy`: `Option` and `Result`, which stand for Python's None and for raised exceptions.
- `json_value.dfy`: JSON values. Python's insertion-ordered dict is a sequence of entries, with lookup and assignment.
- `deep_merge.dfy`: `deep_merge` and its laws.
- `paths.dfy`: paths as name segments, with pathlib's `/` and `suffix`.
- `config.py` is modelled by `config.dfy`: the dict form, `from_dict`, `merge_configs` and `from_file`.
- `pipeline_loader.dfy`: `PipelineLoader`. Dynamic importing is a `Loader` value whose two functions say what an import yields.
- `stage_runner.dfy`: `StageRunner`. Its actions form a trace of effects. Stage constructors and the executor are represented by how each call ends.

The model follows `pipeline.py`. The repository's pipeline tests exercise a
different loader API (`PipelineStep`, `_load_steps`, list-form configurations),
which this model does not follow.

## Model

| member | source | states |
|---|---|---|
| `DeepMerge.Merge` | src/py_app_dev/core/config.py:59-69 | `deep_merge` keeps every entry of base and adds at most one entry per entry of new, so the result is at least as long as base and at most as long as both together; its contents are stated by `DeepMerge.MergeLookup` and `DeepMerge.MergeKeys` |
| `DeepMerge.MergeAt` | src/py_app_dev/core/config.py:65-68 | The value stored for a key of new is a dict exactly when new's value is a dict, and is new's value itself whenever that is not a dict |
| `DeepMerge.MergeLookup` | src/py_app_dev/core/config.py:59-69 | For every key: a key only in base keeps its base value; a key of new takes new's value unless both sides hold dicts; two dicts under one key give their recursive merge |
| `DeepMerge.MergeLookupPresent` | src/py_app_dev/core/config.py:64-68 | A key of new holds what the loop body stores for it: new's value, or the recursive merge when both sides hold dicts |
| `DeepMerge.MergeKeys` | src/py_app_dev/core/config.py:61-68 | The result lists base's keys in base order, then the keys only new has, in new's order; an overridden key keeps its position |
| `DeepMerge.MergeKeySet` | src/py_app_dev/core/config.py:61-68 | A key is in the result iff it is in base or in new |
| `DeepMerge.MergeLookupAbsent` | src/py_app_dev/core/config.py:62-63 | A key that new lacks reads in the result exactly as in base |
| `DeepMerge.MergeUnique` | src/py_app_dev/core/config.py:61-68 | The result of merging into a dict with unique keys has unique keys |
| `DeepMerge.MergeWellFormed` | src/py_app_dev/core/config.py:59-69 | Merging two dicts whose nested dicts all have unique keys gives such a dict again, at every depth |
| `DeepMerge.MergeAtWellFormed` | src/py_app_dev/core/config.py:65-68 | The value stored for a key of new is well formed when both inputs are |
| `DeepMerge.MergeIdentity` | src/py_app_dev/core/config.py:59-69 | `deep_merge(d, {}) == d` and `deep_merge({}, d) == d` |
| `DeepMerge.MergeIdempotent` | src/py_app_dev/core/config.py:59-69 | `deep_merge(d, d) == d` for every well-formed dict |
| `DeepMerge.MergeAbsorbs` | src/py_app_dev/core/config.py:64-68 | Merging in entries that base already holds leaves base unchanged |
| `DeepMerge.MergeSelf` | src/py_app_dev/core/config.py:65-66 | A well-formed nested dict merged with itself is itself |
| `DeepMerge.NewKeysMembers` | src/py_app_dev/core/config.py:67-68 | The keys appended after base's keys are exactly new's keys that base lacks |
| `DeepMerge.MergeExample` | tests/test_config.py:14-25 | The `test_deep_merge` example: nested dicts merge, other keys are kept or added, in the expected order |
| `Config.ToDict` | src/py_app_dev/core/config.py:18-21 | The dict form has at most one entry per field and never holds a None value; which fields appear is stated by `Config.ToDictLookup` |
| `Config.ToDictLookup` | src/py_app_dev/core/config.py:18-21 | The dict form holds a field under its name exactly when the field is not None, with the field's value |
| `Config.ToDictAbsent` | src/py_app_dev/core/config.py:18-21 | Only declared field names appear in the dict form |
| `Config.ToDictUnique` | src/py_app_dev/core/config.py:18-21 | The dict form has unique keys |
| `Config.FromDict` | src/py_app_dev/core/config.py:74 | Rebuilding an instance from a dict gives one value per field, and the only failure is a missing field |
| `Config.FromDictFields` | src/py_app_dev/core/config.py:74 | Rebuilding succeeds iff every required field is in the dict; each field then holds the dict's value, else its default |
| `Config.MergeConfigs` | src/py_app_dev/core/config.py:72-74 | `merge_configs` yields an instance with one value per field of the class, and its only failure is a required field missing from the merged dict |
| `Config.MergeConfigsFields` | src/py_app_dev/core/config.py:72-74 | `merge_configs` agrees field by field with `MergedField`: a non-None override wins, two dicts deep-merge, a None override keeps the base, and two Nones give the default. It fails iff a required field is None on both sides |
| `Config.MergeConfigsOverride` | src/py_app_dev/core/config.py:72-74 | A None override keeps the base value; a non-None override that is not a dict meeting a dict replaces it, defaults such as `retries=0` included |
| `Config.MergeConfigsNoneExample` | tests/test_config.py:41-49 | The `test_merge_configs_override_none_value` example |
| `Config.NestedMergeExample` | tests/test_config.py:29-38 | The nested dict merge of `test_merge_configs_preserves_subclass_and_merges` |
| `Config.NestedMergedFields` | tests/test_config.py:28-38 | In the nested example every field's merged value is the expected one: the override's name, its retries, and the deep-merged nested dict |
| `Config.MergeConfigsNestedExample` | tests/test_config.py:28-38 | The `test_merge_configs_preserves_subclass_and_merges` example |
| `Config.FromDocument` | src/py_app_dev/core/config.py:35-36 | A document that is not a dict fails with `NotADict`. A dict document is read iff every required field is in it, each field then holding the document's value or its default, one per field; the only other failure is a missing field |
| `Config.FromFile` | src/py_app_dev/core/config.py:38-44 | `from_file` fails with `UnsupportedFormat(suffix)` exactly when the suffix is not `.json`; with `.json` it reads the document |
| `Paths.Suffix` | src/py_app_dev/core/config.py:40 | A suffix is empty, or a dot followed by at least one character and no further dot, preceded in the name by a non-empty stem |
| `Paths.RFind` | src/py_app_dev/core/config.py:40 | The index of the last occurrence of the character, or -1 when there is none |
| `Paths.ExtensionSuffix` | src/py_app_dev/core/config.py:40-44 | Any name `stem.ext` with a non-empty stem and a non-empty, dot-free extension has suffix `.ext`, so `from_file` names exactly that suffix when it rejects the file |
| `Paths.JsonNameSuffix` | src/py_app_dev/core/config.py:40-42 | Any name `stem.json` with a non-empty stem has suffix `.json`, so `from_file` reads it |
| `Paths.HiddenJsonNameSuffix` | src/py_app_dev/core/config.py:40-44 | A file named just `.json` has an empty suffix, so `from_file` rejects it |
| `Paths.Join` | src/py_app_dev/core/pipeline.py:172 | `p / name` extends `p` by exactly the segment `name` when `name` is not empty; `p / ""` is `p` itself |
| `PipelineLoader.ClassName` | src/py_app_dev/core/pipeline.py:92 | The resolved class name is `stage`, or a non-empty `class_name`; it is empty only when `stage` is |
| `PipelineLoader.ClassNameFallback` | src/py_app_dev/core/pipeline.py:92 | A None or empty `class_name` falls back to `stage`; any other `class_name` is used |
| `PipelineLoader.LoadModuleStage` | src/py_app_dev/core/pipeline.py:130-144 | Succeeds iff the module imports and defines the class name. An ImportError gives "could not load module"; an AttributeError or a missing class gives "could not load class". Any other exception escapes unchanged, whatever its type |
| `PipelineLoader.LoadUserStage` | src/py_app_dev/core/pipeline.py:109-128 | Succeeds iff the file executes and defines the class name. A file with no loader gives "could not load file", and a file without the class gives "could not load class". An exception of `exec_module` escapes unchanged, whatever its type |
| `PipelineLoader.LoadStage` | src/py_app_dev/core/pipeline.py:91-106 | A stage loads iff its selected source (module first, then file) loads and defines the resolved class name, tagged with its group. With neither source it fails with `NoSource`. Otherwise a failure is exactly the error of the selected loader, module or file; it was raised by the loader itself unless the imported code raised, and then the imported code's exception escapes unchanged, whatever its type |
| `PipelineLoader.ModuleWinsOverFile` | src/py_app_dev/core/pipeline.py:93-100 | With `module` set, the value of `file` cannot change the outcome |
| `PipelineLoader.Flatten` | src/py_app_dev/core/pipeline.py:80-83 | The stage configs visited by `load_stages`, in group then stage order, are as many as the sum of the group lengths; where each one sits is stated by `PipelineLoader.FlattenAt` |
| `PipelineLoader.FlattenAt` | src/py_app_dev/core/pipeline.py:78-84 | Stage `s` of group `g` comes right after all stages of the groups before `g`, tagged with `g`'s name |
| `PipelineLoader.LoadGroup` | src/py_app_dev/core/pipeline.py:86-107 | `_load_stages` returns one reference per stage config in order, or the error of the first failing stage |
| `PipelineLoader.LoadStages` | src/py_app_dev/core/pipeline.py:78-84 | `load_stages` succeeds iff every stage loads. It then returns one reference per stage, in group then stage order, tagged with its group, and as many as the sum of the group lengths. Otherwise it returns the first failing stage's error and no partial list |
| `PipelineLoader.LoadFailurePrefix` | src/py_app_dev/core/pipeline.py:80-83 | A group that fails after earlier groups loaded completely gives the first failure of the whole configuration |
| `PipelineLoader.AllLoadedConcat` | src/py_app_dev/core/pipeline.py:81-83 | Extending the result by a loaded group extends the loaded prefix |
| `StageRunner.StageDir` | src/py_app_dev/core/pipeline.py:172 | A stage's directory lies under the output directory and is named after the stage's group; a group named `""` uses the output directory itself |
| `StageRunner.RunStage` | src/py_app_dev/core/pipeline.py:171-175 | `run_stage` first constructs the stage with `output_dir / group_name`. If the constructor raises, nothing else happens. Otherwise it creates the stage's own `output_dir`, then executes the stage with `output_dir / group_name` as its cache directory, and raises iff the executor raises |
| `StageRunner.Run` | src/py_app_dev/core/pipeline.py:161-169 | With clean required, `run` removes only the output directory and runs no stage. Otherwise it raises iff some stage's constructor or executor raises, and its effects and exception are those of `RunTrace`. Returned status codes never stop the run |
| `StageRunner.FirstRaise` | src/py_app_dev/core/pipeline.py:168-169 | The index of the first stage whose run raises: every earlier stage completes, and the stage at that index raises unless it is the end of the list |
| `StageRunner.RunTraceStops` | src/py_app_dev/core/pipeline.py:168-175 | When stage n is the first to raise, the run performs exactly the effects of stages 0 to n, in order, and ends with stage n's exception |
| `StageRunner.RunTraceCompletes` | src/py_app_dev/core/pipeline.py:168-175 | When no stage raises, the run performs the effects of every stage, in order, and raises nothing |
| `StageRunner.PlannedAt` | src/py_app_dev/core/pipeline.py:168-175 | When every stage keeps the directory it is given (as the `Stage` base class does) and completes, a run constructs, creates the directory of, and executes stage i with `output_dir / group_name`, for each i in order and nothing else |
| `StageRunner.GroupDirectories` | src/py_app_dev/core/pipeline.py:172 | Two stages share an output directory iff they belong to the same group |

## Left out

- The executor (`py_app_dev/core/runnable.py`) is not part of this model. `Executor(...).execute(stage)` is an opaque call represented by how it ends.
- StageRunner.RunStage: a stage's constructor is user code and is represented only by its outcome: it raises, or it yields a stage whose `output_dir` is given by the outcome. `StageRunner.PlannedAt` states the directory layout only for constructors that keep the directory they are given, as the `Stage` base class does.
- PipelineLoader.RaisedByLoader: a `UserNotificationException` raised by the imported module or the executed file escapes like any other exception and is modelled as `Uncaught`; the model does not record the type of an escaping exception.
- Dynamic importing (`importlib.import_module`, `spec_from_file_location`, `exec_module`) is a `Loader` parameter that says what each import yields. Python's module caching between imports is not modelled.
- Filesystem effects (`shutil.rmtree`, `mkdir`) are recorded as effects, not performed; errors raised by `mkdir` are not modelled.
- JSON file I/O is left out. `from_json_file` reads and parses a file, and `from_file` takes the parsed document as a parameter instead. `to_json_string`, `to_string`, `to_json_file` and `to_file` only serialise and write, and are not modelled.
- mashumaro's `to_dict`/`from_dict` are modelled only through `omit_none` on top-level fields and through field defaults. Type checking and conversion of field values, and nested dataclasses, are not modelled. A document that is not a dict fails with `NotADict`, which stands for whatever mashumaro raises.
- JSON values have integers but no floats, and only string keys.
- Paths are sequences of name segments. pathlib's normalisation is not modelled: absolute or multi-segment right operands of `/`, `.` and `..`, and trailing separators.
- Paths.Join models pathlib dropping an empty right operand, so a group named `""` runs its stages directly in the output directory; an empty segment inside a path built some other way is not normalised away.
- `Paths.Suffix` follows `PurePath.suffix` as in CPython 3.12.
- `StageConfig.description` and `timeout_sec` are carried but never read. `Context.project_root_dir` and the logging calls are not modelled. Of the `Stage` base class, only its keeping of the directory it is given is used, as an assumption of `StageRunner.PlannedAt`.
