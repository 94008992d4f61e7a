/** `StageRunner`: either cleans the whole output directory or runs every
    loaded stage in order. The runner's filesystem actions, stage
    constructions and executor calls are recorded as a trace of effects. A
    stage's constructor and the executor are opaque; each is represented by
    how its call ends. */
module StageRunner {
  import opened Wrappers
  import opened Paths
  import opened PipelineLoader

  /** The parts of `Context` the runner reads. */
  datatype Context = Context(outputDir: Path, cleanRequired: bool)

  datatype Effect<C> =
    /** `shutil.rmtree(dir, ignore_errors=True)` */
    | RemoveTree(dir: Path)
    /** `stageClass(context, outputDir)`: constructing the stage */
    | Construct(stageClass: C, outputDir: Path)
    /** `dir.mkdir(parents=True, exist_ok=True)` */
    | MakeDirs(dir: Path)
    /** `Executor(cacheDir).execute(stage)`, the stage being the instance of
        `stageClass` whose `output_dir` is `stageOutputDir` */
    | Execute(stageClass: C, stageOutputDir: Path, cacheDir: Path)

  /** How one executor call ended: it returned a status (which the runner
      discards) or raised, which ends the run. */
  datatype ExecOutcome = Completed(status: int) | Raised(message: string)

  /** How running one stage ends: its constructor raised, or it built a stage
      whose `output_dir` attribute is `outputDir` and the executor call then
      ended with `exec`. The `Stage` base class keeps the directory it is given. */
  datatype StageOutcome =
    | ConstructRaised(message: string)
    | Constructed(outputDir: Path, exec: ExecOutcome)

  /** The exception running the stage ends with, if any: the constructor's, else the executor's. */
  function Exception(o: StageOutcome): (r: Option<string>) {
    match o
    case ConstructRaised(m) => Some(m)
    case Constructed(_, Raised(m)) => Some(m)
    case Constructed(_, Completed(_)) => None
  }

  /** Whether running the stage raised, in its constructor or in the executor. */
  predicate Raises(o: StageOutcome) {
    o.ConstructRaised? || o.exec.Raised?
  }

  /** The index of the first of the stages `0 .. n - 1` whose run raises, or `n` when none does. */
  function FirstRaise(outcomes: nat -> StageOutcome, n: nat): (r: nat)
    ensures r <= n
    ensures forall k :: 0 <= k < r ==> !Raises(outcomes(k))
    ensures r < n ==> Raises(outcomes(r))
  {
    if n == 0 then 0
    else
      var r := FirstRaise(outcomes, n - 1);
      if r < n - 1 || Raises(outcomes(n - 1)) then r else n
  }

  /** `context.output_dir / group_name`. */
  function StageDir<C>(ctx: Context, ref: StageReference<C>): (r: Path)
    ensures ref.groupName == "" ==> r == ctx.outputDir
    ensures ref.groupName != "" ==> Name(r) == ref.groupName
    ensures |ctx.outputDir.segments| <= |r.segments| && r.segments[..|ctx.outputDir.segments|] == ctx.outputDir.segments
  {
    Join(ctx.outputDir, ref.groupName)
  }

  /** The effects `run_stage` performs for one stage reference whose run ends with `o`. */
  function StageEffects<C>(ctx: Context, ref: StageReference<C>, o: StageOutcome): (r: seq<Effect<C>>) {
    match o
    case ConstructRaised(_) => [Construct(ref.stageClass, StageDir(ctx, ref))]
    case Constructed(dir, _) =>
      [Construct(ref.stageClass, StageDir(ctx, ref)), MakeDirs(dir), Execute(ref.stageClass, dir, StageDir(ctx, ref))]
  }

  /** The effects of running a sequence of stages in order, stage `k` ending with `outcomes(k)`. */
  function Planned<C>(ctx: Context, refs: seq<StageReference<C>>, outcomes: nat -> StageOutcome): (r: seq<Effect<C>>) {
    if |refs| == 0 then []
    else Planned(ctx, refs[..|refs| - 1], outcomes) + StageEffects(ctx, refs[|refs| - 1], outcomes(|refs| - 1))
  }

  /** The effects of a run and the exception it ends with, if any. */
  datatype Trace<C> = Trace(effects: seq<Effect<C>>, raised: Option<string>)

  /** What running `refs` in order does when stage `k` ends with `outcomes(k)`:
      every stage up to and including the first one that raises runs, and the
      run ends with that stage's exception; when none raises, all stages run. */
  function RunTrace<C>(ctx: Context, refs: seq<StageReference<C>>, outcomes: nat -> StageOutcome): (t: Trace<C>) {
    var n := FirstRaise(outcomes, |refs|);
    if n < |refs| then Trace(Planned(ctx, refs[..n + 1], outcomes), Exception(outcomes(n)))
    else Trace(Planned(ctx, refs, outcomes), None)
  }

  /** `run_stage(stage_reference)`, with `outcome` how its constructor and its executor call end. */
  method RunStage<C>(ctx: Context, ref: StageReference<C>, outcome: StageOutcome)
    returns (effects: seq<Effect<C>>, raised: Option<string>)
    ensures |effects| >= 1 && effects[0] == Construct(ref.stageClass, StageDir(ctx, ref))
    ensures outcome.ConstructRaised? ==> |effects| == 1 && raised == Some(outcome.message)
    ensures outcome.Constructed? ==>
      && |effects| == 3
      && effects[1] == MakeDirs(outcome.outputDir)
      && effects[2] == Execute(ref.stageClass, outcome.outputDir, StageDir(ctx, ref))
      && (raised.Some? <==> outcome.exec.Raised?)
      && (outcome.exec.Raised? ==> raised == Some(outcome.exec.message))
  {
    var stageOutputDir := StageDir(ctx, ref);
    effects := [Construct(ref.stageClass, stageOutputDir)];
    if outcome.ConstructRaised? {
      return effects, Some(outcome.message);
    }
    effects := effects + [MakeDirs(outcome.outputDir), Execute(ref.stageClass, outcome.outputDir, stageOutputDir)];
    raised := if outcome.exec.Raised? then Some(outcome.exec.message) else None;
  }

  /** `run()`: when clean is required, only remove the output directory;
      otherwise run the stages in order, each once, until one raises.
      `outcomes(k)` is how running the k-th stage ends. */
  method Run<C>(ctx: Context, refs: seq<StageReference<C>>, outcomes: nat -> StageOutcome)
    returns (effects: seq<Effect<C>>, raised: Option<string>)
    ensures ctx.cleanRequired ==> effects == [RemoveTree(ctx.outputDir)] && raised.None?
    ensures !ctx.cleanRequired ==>
      (raised.None? <==> forall k :: 0 <= k < |refs| ==> !Raises(outcomes(k)))
    ensures !ctx.cleanRequired ==> Trace(effects, raised) == RunTrace(ctx, refs, outcomes)
  {
    if ctx.cleanRequired {
      return [RemoveTree(ctx.outputDir)], None;
    }
    effects := [];
    for i := 0 to |refs|
      invariant effects == Planned(ctx, refs[..i], outcomes)
      invariant forall k :: 0 <= k < i ==> !Raises(outcomes(k))
    {
      var step, stageRaised := RunStage(ctx, refs[i], outcomes(i));
      assert refs[..i + 1][..i] == refs[..i];
      assert step == StageEffects(ctx, refs[i], outcomes(i));
      effects := effects + step;
      if stageRaised.Some? {
        RunTraceStops(ctx, refs, outcomes, i);
        return effects, stageRaised;
      }
    }
    assert refs[..|refs|] == refs;
    RunTraceCompletes(ctx, refs, outcomes);
    raised := None;
  }

  /** A run whose first raising stage is `n` performs exactly the effects of
      stages `0 .. n` and ends with stage `n`'s exception. */
  lemma RunTraceStops<C>(ctx: Context, refs: seq<StageReference<C>>, outcomes: nat -> StageOutcome, n: nat)
    requires n < |refs|
    requires forall k :: 0 <= k < n ==> !Raises(outcomes(k))
    requires Raises(outcomes(n))
    ensures RunTrace(ctx, refs, outcomes) == Trace(Planned(ctx, refs[..n + 1], outcomes), Exception(outcomes(n)))
  {
  }

  /** A run in which no stage raises performs the effects of every stage and raises nothing. */
  lemma RunTraceCompletes<C>(ctx: Context, refs: seq<StageReference<C>>, outcomes: nat -> StageOutcome)
    requires forall k :: 0 <= k < |refs| ==> !Raises(outcomes(k))
    ensures RunTrace(ctx, refs, outcomes) == Trace(Planned(ctx, refs, outcomes), None)
  {
  }

  /** Stage `k` keeps the directory it is given and its executor call completes. */
  predicate KeepsDir<C>(ctx: Context, refs: seq<StageReference<C>>, outcomes: nat -> StageOutcome, k: nat)
    requires k < |refs|
  {
    && outcomes(k).Constructed?
    && outcomes(k).outputDir == StageDir(ctx, refs[k])
    && outcomes(k).exec.Completed?
  }

  /** When every stage keeps the directory it is given and completes, the run
      constructs stage `i` with `output_dir / group_name`, creates that
      directory and executes stage `i` with it as its cache directory, for
      every `i` in list order, and nothing else. */
  lemma {:induction false} PlannedAt<C>(ctx: Context, refs: seq<StageReference<C>>, outcomes: nat -> StageOutcome, i: int)
    requires forall k :: 0 <= k < |refs| ==> KeepsDir(ctx, refs, outcomes, k)
    requires 0 <= i < |refs|
    ensures |Planned(ctx, refs, outcomes)| == 3 * |refs|
    ensures Planned(ctx, refs, outcomes)[3 * i] == Construct(refs[i].stageClass, StageDir(ctx, refs[i]))
    ensures Planned(ctx, refs, outcomes)[3 * i + 1] == MakeDirs(StageDir(ctx, refs[i]))
    ensures Planned(ctx, refs, outcomes)[3 * i + 2] ==
      Execute(refs[i].stageClass, StageDir(ctx, refs[i]), StageDir(ctx, refs[i]))
  {
    var n := |refs| - 1;
    assert forall k :: 0 <= k < n ==> KeepsDir(ctx, refs[..n], outcomes, k) by {
      forall k | 0 <= k < n ensures KeepsDir(ctx, refs[..n], outcomes, k) {
        assert refs[..n][k] == refs[k];
        assert KeepsDir(ctx, refs, outcomes, k);
      }
    }
    assert KeepsDir(ctx, refs, outcomes, n);
    PlannedLength(ctx, refs[..n], outcomes);
    if i < n {
      PlannedAt(ctx, refs[..n], outcomes, i);
    }
  }

  lemma {:induction false} PlannedLength<C>(ctx: Context, refs: seq<StageReference<C>>, outcomes: nat -> StageOutcome)
    requires forall k :: 0 <= k < |refs| ==> KeepsDir(ctx, refs, outcomes, k)
    ensures |Planned(ctx, refs, outcomes)| == 3 * |refs|
  {
    if |refs| > 0 {
      var n := |refs| - 1;
      forall k | 0 <= k < n ensures KeepsDir(ctx, refs[..n], outcomes, k) {
        assert refs[..n][k] == refs[k];
        assert KeepsDir(ctx, refs, outcomes, k);
      }
      assert KeepsDir(ctx, refs, outcomes, n);
      PlannedLength(ctx, refs[..n], outcomes);
    }
  }

  /** Stages of one group share their output and cache directory; stages of
      different groups use different directories. */
  lemma GroupDirectories<C>(ctx: Context, a: StageReference<C>, b: StageReference<C>)
    ensures StageDir(ctx, a) == StageDir(ctx, b) <==> a.groupName == b.groupName
  {
  }
}
