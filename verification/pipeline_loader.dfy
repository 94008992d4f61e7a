/** `PipelineLoader`: turns an ordered group -> stage-configs configuration
    into an ordered list of stage references, resolving each stage's class
    through a module import or a user file. Python's dynamic importing is
    replaced by a `Loader` whose two functions answer what an import yields. */
module PipelineLoader {
  import opened Wrappers
  import opened Paths

  /** `StageConfig`. `description` and `timeout_sec` are carried but never read by the loader. */
  datatype StageConfig = StageConfig(
    stage: string,
    file: Option<string>,
    moduleName: Option<string>,
    className: Option<string>,
    description: Option<string>,
    timeoutSec: Option<int>)

  /** One entry of the ordered `PipelineConfig` mapping. */
  datatype Group = Group(name: string, stages: seq<StageConfig>)

  type PipelineConfig = seq<Group>

  /** `StageReference`: the group a stage belongs to and its class, `C` standing for Python classes. */
  datatype StageReference<C> = StageReference(groupName: string, stageClass: C)

  /** What `importlib.import_module(name)` does: return a module (its attributes
      by name) or raise. An AttributeError raised while importing is listed on
      its own because the loader catches it. */
  datatype ModuleImport<C> =
    | Imported(namespace: map<string, C>)
    | RaisedImportError
    | RaisedAttributeError
    | RaisedOther(message: string)

  /** What loading a user file does: `spec_from_file_location` finds no loader,
      or `exec_module` runs the file to completion or raises. */
  datatype FileImport<C> =
    | NoLoader
    | Executed(namespace: map<string, C>)
    | ExecRaised(message: string)

  /** The import machinery: modules by name; files by module name and path. */
  datatype Loader<C> = Loader(
    importModule: string -> ModuleImport<C>,
    execFile: (string, Path) -> FileImport<C>)

  /** Why loading a stage failed. All but `Uncaught` are `UserNotificationException`s
      raised by the loader; `Uncaught` is any other exception passing through it. */
  datatype LoadError =
    | NoSource(className: string)
    | ModuleNotLoadable(moduleName: string)
    | ClassNotInModule(className: string, moduleName: string)
    | FileNotLoadable(file: Path)
    | ClassNotInFile(className: string, file: Path)
    | Uncaught(message: string)

  /** Whether the loader itself raised the error, as a `UserNotificationException`
      it builds, rather than letting an exception of the imported code through. */
  predicate RaisedByLoader(e: LoadError) {
    !e.Uncaught?
  }

  /** Python truthiness of an optional string: neither None nor empty. */
  predicate Truthy(s: Option<string>) {
    s.Some? && s.value != ""
  }

  /** `stage_config.class_name or stage_config.stage`. */
  function ClassName(sc: StageConfig): (r: string)
    ensures r == sc.stage || (r != "" && sc.className == Some(r))
    ensures r == "" ==> sc.stage == ""
  {
    if Truthy(sc.className) then sc.className.value else sc.stage
  }

  /** A missing or empty `class_name` falls back to the stage name; any other `class_name` is used as is. */
  lemma ClassNameFallback(sc: StageConfig, c: string)
    ensures ClassName(sc.(className := None)) == sc.stage
    ensures ClassName(sc.(className := Some(""))) == sc.stage
    ensures c != "" ==> ClassName(sc.(className := Some(c))) == c
  {
  }

  /** `_load_module_stage(module_name, stage_class_name)`. */
  function LoadModuleStage<C>(loader: Loader<C>, moduleName: string, name: string): (r: Result<C, LoadError>)
    ensures r.Success? <==> loader.importModule(moduleName).Imported? && name in loader.importModule(moduleName).namespace
    ensures r.Success? ==> r.value == loader.importModule(moduleName).namespace[name]
    ensures loader.importModule(moduleName).RaisedImportError? ==> r == Failure(ModuleNotLoadable(moduleName))
    ensures r.Failure? && !loader.importModule(moduleName).RaisedOther? ==> RaisedByLoader(r.error)
    ensures loader.importModule(moduleName).RaisedOther? ==> r == Failure(Uncaught(loader.importModule(moduleName).message))
    ensures loader.importModule(moduleName).RaisedAttributeError? ==> r == Failure(ClassNotInModule(name, moduleName))
    ensures loader.importModule(moduleName).Imported? && name !in loader.importModule(moduleName).namespace ==>
      r == Failure(ClassNotInModule(name, moduleName))
  {
    match loader.importModule(moduleName)
    case Imported(ns) => if name in ns then Success(ns[name]) else Failure(ClassNotInModule(name, moduleName))
    case RaisedImportError => Failure(ModuleNotLoadable(moduleName))
    case RaisedAttributeError => Failure(ClassNotInModule(name, moduleName))
    case RaisedOther(msg) => Failure(Uncaught(msg))
  }

  /** `_load_user_stage(python_file, stage_class_name)`; the file is executed as module `user__<class name>`. */
  function LoadUserStage<C>(loader: Loader<C>, file: Path, name: string): (r: Result<C, LoadError>)
    ensures r.Success? <==> loader.execFile("user__" + name, file).Executed? && name in loader.execFile("user__" + name, file).namespace
    ensures r.Success? ==> r.value == loader.execFile("user__" + name, file).namespace[name]
    ensures loader.execFile("user__" + name, file).NoLoader? ==> r == Failure(FileNotLoadable(file))
    ensures r.Failure? && !loader.execFile("user__" + name, file).ExecRaised? ==> RaisedByLoader(r.error)
    ensures loader.execFile("user__" + name, file).ExecRaised? ==> r == Failure(Uncaught(loader.execFile("user__" + name, file).message))
    ensures loader.execFile("user__" + name, file).Executed? && name !in loader.execFile("user__" + name, file).namespace ==>
      r == Failure(ClassNotInFile(name, file))
  {
    match loader.execFile("user__" + name, file)
    case NoLoader => Failure(FileNotLoadable(file))
    case Executed(ns) => if name in ns then Success(ns[name]) else Failure(ClassNotInFile(name, file))
    case ExecRaised(msg) => Failure(Uncaught(msg))
  }

  /** The namespace of the source a stage config selects, if that source loads:
      the module when `module` is truthy, else the file under the project root
      when `file` is truthy. */
  function SourceNamespace<C>(loader: Loader<C>, root: Path, sc: StageConfig): (r: Option<map<string, C>>) {
    if Truthy(sc.moduleName) then
      match loader.importModule(sc.moduleName.value)
      case Imported(ns) => Some(ns)
      case _ => None
    else if Truthy(sc.file) then
      match loader.execFile("user__" + ClassName(sc), Join(root, sc.file.value))
      case Executed(ns) => Some(ns)
      case _ => None
    else None
  }

  /** Whether loading the selected source raised an exception the loader does not catch. */
  predicate RaisesUncaught<C>(loader: Loader<C>, root: Path, sc: StageConfig) {
    if Truthy(sc.moduleName) then loader.importModule(sc.moduleName.value).RaisedOther?
    else if Truthy(sc.file) then loader.execFile("user__" + ClassName(sc), Join(root, sc.file.value)).ExecRaised?
    else false
  }

  /** The body of the loop in `_load_stages` for one stage config. */
  function LoadStage<C>(loader: Loader<C>, root: Path, group: string, sc: StageConfig): (r: Result<StageReference<C>, LoadError>)
    ensures r.Success? ==> r.value.groupName == group
    ensures r.Success? <==>
      SourceNamespace(loader, root, sc).Some? && ClassName(sc) in SourceNamespace(loader, root, sc).value
    ensures r.Success? ==> r.value.stageClass == SourceNamespace(loader, root, sc).value[ClassName(sc)]
    ensures r.Failure? ==> (RaisedByLoader(r.error) <==> !RaisesUncaught(loader, root, sc))
    ensures !Truthy(sc.moduleName) && !Truthy(sc.file) ==> r == Failure(NoSource(ClassName(sc)))
    ensures Truthy(sc.moduleName) && LoadModuleStage(loader, sc.moduleName.value, ClassName(sc)).Failure? ==>
      r == Failure(LoadModuleStage(loader, sc.moduleName.value, ClassName(sc)).error)
    ensures !Truthy(sc.moduleName) && Truthy(sc.file) && LoadUserStage(loader, Join(root, sc.file.value), ClassName(sc)).Failure? ==>
      r == Failure(LoadUserStage(loader, Join(root, sc.file.value), ClassName(sc)).error)
  {
    var name := ClassName(sc);
    var cls :-
      if Truthy(sc.moduleName) then LoadModuleStage(loader, sc.moduleName.value, name)
      else if Truthy(sc.file) then LoadUserStage(loader, Join(root, sc.file.value), name)
      else Failure(NoSource(name));
    Success(StageReference(group, cls))
  }

  /** When `module` is set, `file` is ignored: changing it cannot change the outcome. */
  lemma ModuleWinsOverFile<C>(loader: Loader<C>, root: Path, group: string, sc: StageConfig, otherFile: Option<string>)
    requires Truthy(sc.moduleName)
    ensures LoadStage(loader, root, group, sc) == LoadStage(loader, root, group, sc.(file := otherFile))
  {
  }

  /** A stage of the flattened configuration, tagged with its group. */
  datatype Slot = Slot(group: string, config: StageConfig)

  function Tag(g: Group): (r: seq<Slot>)
    ensures |r| == |g.stages|
    ensures forall i :: 0 <= i < |g.stages| ==> r[i] == Slot(g.name, g.stages[i])
  {
    seq(|g.stages|, i requires 0 <= i < |g.stages| => Slot(g.name, g.stages[i]))
  }

  /** All stage configs in group order, then in stage order within a group;
      as many as all groups hold together. */
  function Flatten(config: PipelineConfig): (r: seq<Slot>)
    ensures |r| == TotalStages(config)
  {
    if |config| == 0 then []
    else Flatten(config[..|config| - 1]) + Tag(config[|config| - 1])
  }

  /** The number of stage configs over all groups. */
  function TotalStages(config: PipelineConfig): (r: nat) {
    if |config| == 0 then 0
    else TotalStages(config[..|config| - 1]) + |config[|config| - 1].stages|
  }

  /** Stage `s` of group `g` sits after every stage of the groups before `g`. */
  lemma {:induction false} FlattenAt(config: PipelineConfig, g: int, s: int)
    requires 0 <= g < |config|
    requires 0 <= s < |config[g].stages|
    ensures TotalStages(config[..g]) + s < |Flatten(config)|
    ensures Flatten(config)[TotalStages(config[..g]) + s] == Slot(config[g].name, config[g].stages[s])
  {
    var n := |config| - 1;
    var init := config[..n];
    if g == n {
      assert config[..g] == init;
    } else {
      assert init[..g] == config[..g];
      FlattenAt(init, g, s);
    }
  }

  /** Every slot loaded, in order, into `refs`. */
  ghost predicate AllLoaded<C>(loader: Loader<C>, root: Path, slots: seq<Slot>, refs: seq<StageReference<C>>) {
    && |refs| == |slots|
    && forall k :: 0 <= k < |slots| ==> LoadStage(loader, root, slots[k].group, slots[k].config) == Success(refs[k])
  }

  /** The first slot that fails to load fails with `e`. */
  ghost predicate FailsAt<C>(loader: Loader<C>, root: Path, slots: seq<Slot>, e: LoadError) {
    exists k :: 0 <= k < |slots|
      && (forall j :: 0 <= j < k ==> LoadStage(loader, root, slots[j].group, slots[j].config).Success?)
      && LoadStage(loader, root, slots[k].group, slots[k].config) == Failure(e)
  }

  /** `_load_stages(group_name, stages_config, project_root_dir)`: the stages of one group, stopping at the first error. */
  method LoadGroup<C(==)>(loader: Loader<C>, root: Path, g: Group) returns (r: Result<seq<StageReference<C>>, LoadError>)
    ensures r.Success? ==> AllLoaded(loader, root, Tag(g), r.value)
    ensures r.Failure? ==> FailsAt(loader, root, Tag(g), r.error)
  {
    var slots := Tag(g);
    var result: seq<StageReference<C>> := [];
    for i := 0 to |g.stages|
      invariant AllLoaded(loader, root, slots[..i], result)
    {
      var ref := LoadStage(loader, root, g.name, g.stages[i]);
      if ref.Failure? {
        assert slots[i] == Slot(g.name, g.stages[i]);
        return Failure(ref.error);
      }
      result := result + [ref.value];
    }
    assert slots[..|g.stages|] == slots;
    return Success(result);
  }

  /** `load_stages()`: the stage references of all groups in group order, or
      the error of the first stage that fails; never a partial list. */
  method LoadStages<C(==)>(loader: Loader<C>, root: Path, config: PipelineConfig)
    returns (r: Result<seq<StageReference<C>>, LoadError>)
    ensures r.Success? <==>
      forall k :: 0 <= k < |Flatten(config)| ==> LoadStage(loader, root, Flatten(config)[k].group, Flatten(config)[k].config).Success?
    ensures r.Success? ==> AllLoaded(loader, root, Flatten(config), r.value)
    ensures r.Success? ==> |r.value| == TotalStages(config)
    ensures r.Success? ==>
      (|r.value| == |Flatten(config)| && forall k :: 0 <= k < |r.value| ==> r.value[k].groupName == Flatten(config)[k].group)
    ensures r.Failure? ==> FailsAt(loader, root, Flatten(config), r.error)
  {
    var result: seq<StageReference<C>> := [];
    for i := 0 to |config|
      invariant AllLoaded(loader, root, Flatten(config[..i]), result)
    {
      assert config[..i + 1][..i] == config[..i];
      assert Flatten(config[..i + 1]) == Flatten(config[..i]) + Tag(config[i]);
      var part := LoadGroup(loader, root, config[i]);
      if part.Failure? {
        LoadFailurePrefix(loader, root, Flatten(config[..i]), Tag(config[i]), result, part.error);
        FlattenPrefix(config, i + 1);
        FailsAtExtends(loader, root, Flatten(config[..i + 1]), Flatten(config), part.error);
        NotAllLoaded(loader, root, Flatten(config), part.error);
        return Failure(part.error);
      }
      AllLoadedConcat(loader, root, Flatten(config[..i]), Tag(config[i]), result, part.value);
      result := result + part.value;
    }
    assert config[..|config|] == config;
    AllLoadedGroups(loader, root, Flatten(config), result);
    return Success(result);
  }

  lemma AllLoadedConcat<C>(loader: Loader<C>, root: Path, s1: seq<Slot>, s2: seq<Slot>,
                           r1: seq<StageReference<C>>, r2: seq<StageReference<C>>)
    requires AllLoaded(loader, root, s1, r1)
    requires AllLoaded(loader, root, s2, r2)
    ensures AllLoaded(loader, root, s1 + s2, r1 + r2)
  {
  }

  /** When every slot loaded, every slot loads and each reference carries its slot's group. */
  lemma AllLoadedGroups<C>(loader: Loader<C>, root: Path, slots: seq<Slot>, refs: seq<StageReference<C>>)
    requires AllLoaded(loader, root, slots, refs)
    ensures forall k :: 0 <= k < |slots| ==> LoadStage(loader, root, slots[k].group, slots[k].config).Success?
    ensures forall k :: 0 <= k < |refs| ==> refs[k].groupName == slots[k].group
  {
  }

  /** Failure in a later part, after an earlier part loaded completely, is the first failure of the whole. */
  lemma LoadFailurePrefix<C>(loader: Loader<C>, root: Path, done: seq<Slot>, rest: seq<Slot>,
                                 refs: seq<StageReference<C>>, e: LoadError)
    requires AllLoaded(loader, root, done, refs)
    requires FailsAt(loader, root, rest, e)
    ensures FailsAt(loader, root, done + rest, e)
  {
    var k :| 0 <= k < |rest|
      && (forall j :: 0 <= j < k ==> LoadStage(loader, root, rest[j].group, rest[j].config).Success?)
      && LoadStage(loader, root, rest[k].group, rest[k].config) == Failure(e);
    var all := done + rest;
    assert all[|done| + k] == rest[k];
    forall j | 0 <= j < |done| + k
      ensures LoadStage(loader, root, all[j].group, all[j].config).Success?
    {
      if j >= |done| {
        assert all[j] == rest[j - |done|];
      }
    }
  }

  /** The flattening of a prefix of the groups is a prefix of the flattening. */
  lemma {:induction false} FlattenPrefix(config: PipelineConfig, i: int)
    requires 0 <= i <= |config|
    ensures Flatten(config[..i]) <= Flatten(config)
    decreases |config| - i
  {
    if i < |config| {
      FlattenPrefix(config, i + 1);
      assert config[..i + 1][..i] == config[..i];
    } else {
      assert config[..i] == config;
    }
  }

  lemma FailsAtExtends<C>(loader: Loader<C>, root: Path, slots: seq<Slot>, more: seq<Slot>, e: LoadError)
    requires slots <= more
    requires FailsAt(loader, root, slots, e)
    ensures FailsAt(loader, root, more, e)
  {
  }

  /** A first failure means that not every slot loads. */
  lemma NotAllLoaded<C>(loader: Loader<C>, root: Path, slots: seq<Slot>, e: LoadError)
    requires FailsAt(loader, root, slots, e)
    ensures !forall k :: 0 <= k < |slots| ==> LoadStage(loader, root, slots[k].group, slots[k].config).Success?
  {
  }
}
