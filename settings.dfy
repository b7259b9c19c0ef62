/**
 * The parts of `config.js` the predictor reads besides the analyzer's weight
 * factors: the input weights and the training and prediction constants.
 */
module Settings {
  import Ratios

  /** `config.weights`. */
  datatype InputWeights = InputWeights(
    position: real,
    playerToPlayer: real,
    playerToGoalie: real,
    recencyBase: real,
    recencyScale: real)

  /** The values shipped in `config.js`: recency base and scale are both 0. */
  const ShippedWeights: InputWeights := InputWeights(1.48, 0.58, 0.18, 0.0, 0.0)

  /** `config.maxUnstableCount`. */
  const MaxUnstableCount: nat := 45

  /** `config.predictionRuns`. */
  const PredictionRuns: nat := 1

  /** `recencyBase + recencyScale * (idx / n)`: the weight of the `idx`-th of `n` earlier teams. */
  function Recency(w: InputWeights, idx: nat, n: nat): real
    requires n > 0
  {
    w.recencyBase + w.recencyScale * (idx as real / n as real)
  }

  /** Under the shipped weights every team of the history weighs nothing. */
  lemma ShippedRecencyIsZero(idx: nat, n: nat)
    requires n > 0
    ensures Recency(ShippedWeights, idx, n) == 0.0
  {
  }

  /** With non-negative base and scale, a later team weighs at least as much as an earlier one, between base and base + scale. */
  lemma RecencyGrows(w: InputWeights, i: nat, j: nat, n: nat)
    requires i <= j < n
    requires w.recencyBase >= 0.0 && w.recencyScale >= 0.0
    ensures w.recencyBase <= Recency(w, i, n) <= Recency(w, j, n) <= w.recencyBase + w.recencyScale
    ensures w.recencyScale > 0.0 ==> Recency(w, j, n) < w.recencyBase + w.recencyScale
  {
    var a, b := i as real / n as real, j as real / n as real;
    Ratios.QuotientMonotone(i as real, j as real, n as real);
    Ratios.QuotientFraction(i as real, n as real);
    Ratios.QuotientFraction(j as real, n as real);
    Ratios.ScaleMonotone(a, b, w.recencyScale);
  }
}
