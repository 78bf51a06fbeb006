/**
 * `etl_pipeline` (src/pipeline_etl/run.py): seven stages run one after the
 * other inside a single `try`; the first exception stops the run and leaves
 * as a generic `Exception` with a fixed prefix and the original as its cause.
 *
 * The stages are modelled abstractly: `outcome(stage, input)` is what the
 * stage gives when handed the output of the stage it reads from (if any).
 */
module Pipeline {
  import opened Python

  datatype Stage = Download | Unzip | Extract | Transform | LoadCsv | Analyze | Visualize

  /** The order in which the stages are written. */
  const Stages: seq<Stage> := [Download, Unzip, Extract, Transform, LoadCsv, Analyze, Visualize]

  const RunFailed := "Error during ETL pipeline execution: "

  /**
   * Which earlier stage's result a stage is handed: the transform gets the
   * extracted rows, analysis and visualisation get the transformed frame;
   * the other stages read fixed paths and constants.
   */
  function Source(s: Stage): Option<Stage>
  {
    match s
    case Transform => Some(Extract)
    case Analyze => Some(Transform)
    case Visualize => Some(Transform)
    case _ => None
  }

  function InputOf<V>(s: Stage, outputs: map<Stage, V>): Option<V>
  {
    match Source(s)
    case None => None
    case Some(src) => if src in outputs then Some(outputs[src]) else None
  }

  /**
   * A run from stage `k` on: how many stages were attempted, the results of
   * those that succeeded, and the exception that stopped it, if any.
   */
  datatype Run<V> = Run(attempted: nat, outputs: map<Stage, V>, failure: Option<PyError>)

  /** The reference semantics: run the stages from index `k` until one fails. */
  function Drive<V>(outcome: (Stage, Option<V>) -> Result<V>, k: nat, outputs: map<Stage, V>): Run<V>
    requires k <= |Stages|
    decreases |Stages| - k
  {
    if k == |Stages| then Run(k, outputs, None)
    else
      match outcome(Stages[k], InputOf(Stages[k], outputs))
      case Err(e) => Run(k + 1, outputs, Some(e))
      case Ok(v) => Drive(outcome, k + 1, outputs[Stages[k] := v])
  }

  /** Where the run stands: at a stage about to be attempted, finished, or stopped by a stage's exception. */
  datatype Phase = Running(stage: Stage) | Done | Failed(stage: Stage, error: PyError)

  /**
   * `etl_pipeline()`. `attempted` lists the stages in the order they were
   * called; `phase` is `Done` exactly when the completion message is logged.
   */
  method EtlPipeline<V>(outcome: (Stage, Option<V>) -> Result<V>)
    returns (r: Result<()>, attempted: seq<Stage>, phase: Phase)
    ensures var run := Drive(outcome, 0, map[]);
      && attempted == Stages[..run.attempted]
      && (phase == Done <==> run.failure.None?)
      && (phase.Failed? ==> phase == Failed(Stages[run.attempted - 1], run.failure.value))
      && r == (if run.failure.None? then Ok(()) else Err(Wrap(RunFailed, run.failure.value)))
    ensures !phase.Running?
    ensures r.Ok? <==> phase == Done
    ensures r.Err? ==> r.error.kind == Exception && r.error.cause == Some(phase.error)
  {
    var outputs: map<Stage, V> := map[];
    var i := 0;
    attempted := [];
    phase := Running(Stages[0]);
    while phase.Running?
      invariant 0 <= i <= |Stages|
      invariant phase.Running? ==>
        i < |Stages| && phase.stage == Stages[i] && attempted == Stages[..i]
        && Drive(outcome, i, outputs) == Drive(outcome, 0, map[])
      invariant phase.Done? ==>
        i == |Stages| && attempted == Stages && Drive(outcome, 0, map[]) == Run(i, outputs, None)
      invariant phase.Failed? ==>
        i < |Stages| && phase.stage == Stages[i] && attempted == Stages[..i + 1]
        && Drive(outcome, 0, map[]) == Run(i + 1, outputs, Some(phase.error))
      decreases |Stages| - i, phase.Running?
    {
      var stage := Stages[i];
      attempted := attempted + [stage];
      match outcome(stage, InputOf(stage, outputs))
      case Err(e) =>
        phase := Failed(stage, e);
      case Ok(v) =>
        outputs := outputs[stage := v];
        i := i + 1;
        phase := if i < |Stages| then Running(Stages[i]) else Done;
    }
    if phase.Failed? {
      r := Err(Wrap(RunFailed, phase.error));
    } else {
      r := Ok(());
    }
  }

  /** The stages with index in `[lo, hi)`. */
  function StagesBetween(lo: nat, hi: nat): set<Stage>
    requires hi <= |Stages|
    decreases hi - lo
  {
    if lo >= hi then {} else {Stages[lo]} + StagesBetween(lo + 1, hi)
  }

  /**
   * A run from stage `k` attempts at least that stage and stops at the
   * first failure: a run without failure attempted every stage, and a
   * failure is the last attempted stage's own exception, raised on the input
   * the earlier results gave it.
   */
  lemma {:induction false} DriveStopsAtFirstFailure<V>(outcome: (Stage, Option<V>) -> Result<V>, k: nat, outputs: map<Stage, V>)
    requires k < |Stages|
    ensures var run := Drive(outcome, k, outputs);
      && k < run.attempted <= |Stages|
      && (run.failure.None? ==> run.attempted == |Stages|)
      && (run.failure.Some? ==>
            outcome(Stages[run.attempted - 1], InputOf(Stages[run.attempted - 1], run.outputs)) == Err(run.failure.value))
    decreases |Stages| - k
  {
    match outcome(Stages[k], InputOf(Stages[k], outputs))
    case Err(e) =>
    case Ok(v) =>
      var next := outputs[Stages[k] := v];
      assert Drive(outcome, k, outputs) == Drive(outcome, k + 1, next);
      if k + 1 < |Stages| {
        DriveStopsAtFirstFailure(outcome, k + 1, next);
      }
  }

  /**
   * Every stage before the last attempted one succeeded and left its
   * result, and no other result was recorded.
   */
  lemma {:induction false} DriveRecordsEarlierStages<V>(outcome: (Stage, Option<V>) -> Result<V>, k: nat, outputs: map<Stage, V>)
    requires k <= |Stages|
    ensures var run := Drive(outcome, k, outputs);
      && k <= run.attempted <= |Stages|
      && (run.failure.Some? ==> k < run.attempted)
      && run.outputs.Keys == outputs.Keys + StagesBetween(k, if run.failure.None? then run.attempted else run.attempted - 1)
    decreases |Stages| - k
  {
    if k < |Stages| {
      match outcome(Stages[k], InputOf(Stages[k], outputs))
      case Err(e) =>
      case Ok(v) =>
        var next := outputs[Stages[k] := v];
        var run := Drive(outcome, k + 1, next);
        assert Drive(outcome, k, outputs) == run;
        DriveRecordsEarlierStages(outcome, k + 1, next);
        var last := if run.failure.None? then run.attempted else run.attempted - 1;
        assert StagesBetween(k, last) == {Stages[k]} + StagesBetween(k + 1, last);
        assert next.Keys == outputs.Keys + {Stages[k]};
    }
  }

  /** A full run calls every stage once, in the written order. */
  lemma CompleteRunCallsEveryStage<V>(outcome: (Stage, Option<V>) -> Result<V>)
    requires forall s, input :: outcome(s, input).Ok?
    ensures Drive(outcome, 0, map[]).failure.None?
    ensures Drive(outcome, 0, map[]).attempted == |Stages|
  {
    DriveStopsAtFirstFailure(outcome, 0, map[]);
  }

  /** The first stage always runs; if it fails, nothing else does. */
  lemma DownloadFailureStopsAll<V>(outcome: (Stage, Option<V>) -> Result<V>, e: PyError)
    requires forall input :: outcome(Download, input) == Err(e)
    ensures Drive(outcome, 0, map[]) == Run(1, map[], Some(e))
  {
  }

  /** The transformed frame is what analysis and visualisation are handed; nobody reads the CSV stage's result. */
  lemma TransformFeedsAnalysis<V>(outputs: map<Stage, V>, v: V)
    requires Transform in outputs
    ensures InputOf(Analyze, outputs) == Some(outputs[Transform])
    ensures InputOf(Visualize, outputs) == Some(outputs[Transform])
    ensures forall s :: InputOf(s, outputs[LoadCsv := v]) == InputOf(s, outputs)
  {
  }

  /** Two stage behaviours that differ only in the frame the CSV stage returns. */
  ghost predicate DifferOnlyInCsvFrame<V(!new)>(o1: (Stage, Option<V>) -> Result<V>, o2: (Stage, Option<V>) -> Result<V>)
  {
    && (forall s, input :: s != LoadCsv ==> o1(s, input) == o2(s, input))
    && (forall input :: o1(LoadCsv, input).Ok? == o2(LoadCsv, input).Ok?)
    && (forall input :: o1(LoadCsv, input).Err? ==> o1(LoadCsv, input) == o2(LoadCsv, input))
  }

  /** Maps that agree on everything but the CSV stage's entry. */
  ghost predicate AgreeButCsv<V>(m1: map<Stage, V>, m2: map<Stage, V>)
  {
    m1.Keys == m2.Keys && forall s :: s in m1 && s != LoadCsv ==> m1[s] == m2[s]
  }

  /** The CSV stage's result never matters: which stages run and how the run ends do not depend on it. */
  lemma {:induction false} CsvResultUnused<V(!new)>(o1: (Stage, Option<V>) -> Result<V>, o2: (Stage, Option<V>) -> Result<V>,
                                             k: nat, m1: map<Stage, V>, m2: map<Stage, V>)
    requires k <= |Stages|
    requires DifferOnlyInCsvFrame(o1, o2) && AgreeButCsv(m1, m2)
    ensures Drive(o1, k, m1).attempted == Drive(o2, k, m2).attempted
    ensures Drive(o1, k, m1).failure == Drive(o2, k, m2).failure
    decreases |Stages| - k
  {
    if k < |Stages| {
      var s := Stages[k];
      assert InputOf(s, m1) == InputOf(s, m2);
      match o1(s, InputOf(s, m1))
      case Err(e) =>
      case Ok(v1) =>
        var v2 := o2(s, InputOf(s, m2)).value;
        CsvResultUnused(o1, o2, k + 1, m1[s := v1], m2[s := v2]);
    }
  }
}
