/**
 * `trainModel`: the guards around the network's training run and the
 * instability check its progress callback makes. The network itself is not
 * modelled: the errors it reports at the logged checkpoints and the result it
 * returns are parameters.
 */
module Trainer {
  import opened Wrappers
  import opened Teams
  import opened Settings
  import opened Weights
  import opened TeamAnalyzer
  import Training
  import PlayerStats

  /** The ways `trainModel` throws. */
  datatype TrainError =
    | NoTeams                         // 'No teams provided for training'
    | AnalysisFailed(cause: AnalyzeError)  // the analyzer's throw, passed through
    | NoTrainingData                  // 'No valid training data generated'
    | Unstable(checkpoint: nat)       // 'Training failed: Training becoming unstable - error increasing'

  /** What `network.train` returns. */
  datatype TrainResult = TrainResult(error: real, iterations: nat)

  // ---------------------------------------------------------------------------
  // The instability check
  // ---------------------------------------------------------------------------

  /**
   * `unstableCount` after logged checkpoint `i`: one more than before when the
   * error rose since the previous checkpoint, otherwise 0. The first checkpoint
   * compares with `Infinity` and never counts.
   */
  function Streak(errors: seq<real>, i: nat): nat
    requires i < |errors|
  {
    if i == 0 then 0
    else if errors[i] > errors[i - 1] then Streak(errors, i - 1) + 1
    else 0
  }

  /** The error rose at each of the `r` checkpoints ending at `i`. */
  predicate RisingRun(errors: seq<real>, i: nat, r: nat)
    requires i < |errors|
  {
    r <= i && forall d :: i - r < d <= i ==> errors[d - 1] < errors[d]
  }

  /** The counter at checkpoint `i` is at least `r` exactly when the error rose at the last `r` checkpoints. */
  lemma {:induction false} StreakMeansRising(errors: seq<real>, i: nat, r: nat)
    requires i < |errors|
    ensures Streak(errors, i) >= r <==> RisingRun(errors, i, r)
  {
    if r > 0 && i > 0 {
      StreakMeansRising(errors, i - 1, r - 1);
      if errors[i] > errors[i - 1] && RisingRun(errors, i - 1, r - 1) {
        assert RisingRun(errors, i, r);
      }
    }
  }

  /** The first logged checkpoint whose counter exceeds `limit`, if any. */
  function FirstUnstable(errors: seq<real>, limit: nat, from: nat): (r: Option<nat>)
    requires from <= |errors|
    ensures r.Some? ==> from <= r.value < |errors| && Streak(errors, r.value) > limit
    ensures forall j :: from <= j < |errors| && (r.None? || j < r.value) ==> Streak(errors, j) <= limit
    decreases |errors| - from
  {
    if from == |errors| then None
    else if Streak(errors, from) > limit then Some(from)
    else FirstUnstable(errors, limit, from + 1)
  }

  /** Training aborts only after more than `limit + 1` checkpoints, the last `limit + 1` of them each higher than the one before. */
  lemma AbortNeedsRisingErrors(errors: seq<real>, limit: nat)
    ensures FirstUnstable(errors, limit, 0).Some? ==>
      var i := FirstUnstable(errors, limit, 0).value;
      limit < i && RisingRun(errors, i, limit + 1)
  {
    var r := FirstUnstable(errors, limit, 0);
    if r.Some? {
      StreakMeansRising(errors, r.value, limit + 1);
    }
  }

  /** A run whose logged error never rises is never stopped. */
  lemma NeverRisingIsStable(errors: seq<real>, limit: nat)
    requires forall d :: 0 < d < |errors| ==> errors[d] <= errors[d - 1]
    ensures FirstUnstable(errors, limit, 0) == None
  {
    var r := FirstUnstable(errors, limit, 0);
    if r.Some? {
      StreakMeansRising(errors, r.value, limit + 1);
    }
  }

  /**
   * The progress callback at the logged checkpoints: `lastError` starts at
   * `Infinity` (`None`), `unstableCount` at 0; the first checkpoint whose
   * counter exceeds `limit` throws.
   */
  method CheckStability(errors: seq<real>, limit: nat) returns (abortAt: Option<nat>)
    ensures abortAt == FirstUnstable(errors, limit, 0)
  {
    var lastError: Option<real> := None;
    var unstableCount: nat := 0;
    for i := 0 to |errors|
      invariant i > 0 ==> lastError == Some(errors[i - 1]) && unstableCount == Streak(errors, i - 1)
      invariant i == 0 ==> lastError == None && unstableCount == 0
      invariant forall j :: 0 <= j < i ==> Streak(errors, j) <= limit
    {
      if lastError.Some? && errors[i] > lastError.value {
        unstableCount := unstableCount + 1;
      } else {
        unstableCount := 0;
      }
      if unstableCount > limit {
        FirstUnstableAt(errors, limit, 0, i);
        return Some(i);
      }
      lastError := Some(errors[i]);
    }
    FirstUnstableNone(errors, limit, 0);
    return None;
  }

  lemma {:induction false} FirstUnstableAt(errors: seq<real>, limit: nat, from: nat, i: nat)
    requires from <= i < |errors| && Streak(errors, i) > limit
    requires forall j :: from <= j < i ==> Streak(errors, j) <= limit
    ensures FirstUnstable(errors, limit, from) == Some(i)
    decreases i - from
  {
    if from < i {
      FirstUnstableAt(errors, limit, from + 1, i);
    }
  }

  lemma {:induction false} FirstUnstableNone(errors: seq<real>, limit: nat, from: nat)
    requires from <= |errors|
    requires forall j :: from <= j < |errors| ==> Streak(errors, j) <= limit
    ensures FirstUnstable(errors, limit, from) == None
    decreases |errors| - from
  {
    if from < |errors| {
      FirstUnstableNone(errors, limit, from + 1);
    }
  }

  // ---------------------------------------------------------------------------
  // trainModel
  // ---------------------------------------------------------------------------

  /** No team of the history names a goalie: the analyzer's error. */
  predicate NoGoalies(teams: seq<Team>) {
    forall i :: 0 <= i < |teams| ==> !HasGoalie(teams[i].goalie)
  }

  /**
   * `this.prepareTrainingData(teams)` as `trainModel` sees it: the analyzer's
   * error exactly when no team names a goalie, and otherwise one sample per
   * team after the first.
   */
  method PrepareData(t: Tables, f: Factors, w: InputWeights, teams: seq<Team>) returns (r: Result<seq<Training.Sample>, AnalyzeError>)
    requires Training.Indexable(t, teams)
    ensures r.Err? <==> NoGoalies(teams)
    ensures r.Ok? ==> |teams| > 0 && |r.value| == |teams| - 1
  {
    Training.IndexableFive(t, teams);
    Training.TrainingDataOutcome(t, f, w, teams);
    r := Training.PrepareTrainingData(t, f, w, teams);
  }

  /**
   * `trainModel(teams)`: no teams, the analyzer's error and a history of a
   * single team are refused before training; a run whose logged error rises
   * more than `maxUnstableCount` times in a row is stopped; otherwise the
   * network's result is returned. `checkpoints` are the errors at the logged
   * checkpoints and `outcome` what the network reports when it finishes.
   */
  method TrainModel(t: Tables, f: Factors, w: InputWeights, teams: seq<Team>, checkpoints: seq<real>, outcome: TrainResult)
    returns (r: Result<TrainResult, TrainError>)
    requires Training.Indexable(t, teams)
    ensures r == Err(NoTeams) <==> |teams| == 0
    ensures r.Err? && r.error.AnalysisFailed? <==> |teams| > 0 && NoGoalies(teams)
    ensures r == Err(NoTrainingData) <==> |teams| == 1 && !NoGoalies(teams)
    ensures r.Err? && r.error.Unstable? <==> |teams| > 1 && !NoGoalies(teams) && FirstUnstable(checkpoints, MaxUnstableCount, 0).Some?
    ensures r.Err? && r.error.Unstable? ==> MaxUnstableCount < r.error.checkpoint < |checkpoints| && RisingRun(checkpoints, r.error.checkpoint, MaxUnstableCount + 1)
    ensures r.Ok? ==> r.value == outcome
  {
    if |teams| == 0 {
      return Err(NoTeams);
    }
    var trainingData := PrepareData(t, f, w, teams);
    if trainingData.Err? {
      return Err(AnalysisFailed(trainingData.error));
    }
    if |trainingData.value| == 0 {
      return Err(NoTrainingData);
    }
    var abortAt := CheckStability(checkpoints, MaxUnstableCount);
    AbortNeedsRisingErrors(checkpoints, MaxUnstableCount);
    if abortAt.Some? {
      return Err(Unstable(abortAt.value));
    }
    r := Ok(outcome);
  }
}
