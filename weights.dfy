/**
 * The weights `analyzeTeamPatterns` derives from its counts: each count
 * relative to the largest count of its dictionary.
 */
module Weights {
  import opened Teams
  import opened Tallies
  import Ratios

  /** `config.weightFactors`, as far as the analyzer reads it. */
  datatype Factors = Factors(
    playerSelection: real,
    goalieSelection: real,
    goalieSynergy: real,
    goalieRecent: real,
    combinationFrequency: real)

  /** `1 + (count / max) * factor`. */
  function Weight(count: nat, max: nat, factor: real): real
    requires max > 0
  {
    Ratios.Scaled(count as real, max as real, factor)
  }

  /**
   * A weight lies in (1, 1 + factor] for a positive factor, reaches 1 + factor
   * for the most frequent entry, and never decreases as the count grows.
   */
  lemma WeightBounds(count: nat, count': nat, max: nat, factor: real)
    requires 1 <= count <= count' <= max
    requires factor >= 0.0
    ensures 1.0 <= Weight(count, max, factor) <= 1.0 + factor
    ensures factor > 0.0 ==> 1.0 < Weight(count, max, factor)
    ensures Weight(max, max, factor) == 1.0 + factor
    ensures Weight(count, max, factor) <= Weight(count', max, factor)
  {
    Ratios.ScaledBounds(count as real, max as real, factor);
    Ratios.ScaledWhole(max as real, factor);
    Ratios.ScaledMonotone(count as real, count' as real, max as real, factor);
  }

  /** `calculateGoalieSynergy`: a stub that always answers 0. */
  function GoalieSynergy(goalieName: string): real {
    0.0
  }

  /** `calculateGoalieRecentBonus`: a stub that always answers 0. */
  function GoalieRecentBonus(goalieName: string): real {
    0.0
  }

  /** A goalie's weight is its base weight, since both bonuses are 0. */
  lemma GoalieWeightIsBase(name: string, count: nat, max: nat, f: Factors)
    requires max > 0
    ensures Weight(count, max, f.goalieSelection) + GoalieSynergy(name) * f.goalieSynergy + GoalieRecentBonus(name) * f.goalieRecent
         == Weight(count, max, f.goalieSelection)
  {
  }

  /**
   * The weights the loop over `Object.entries(dict)` has written after its
   * first `n` entries: each key mapped to the weight of its count.
   */
  function WeightMap(order: seq<string>, counts: multiset<string>, max: nat, factor: real, n: nat): map<string, real>
    requires n <= |order| && (n == 0 || max > 0)
  {
    if n == 0 then map[]
    else WeightMap(order, counts, max, factor, n - 1)[order[n - 1] := Weight(counts[order[n - 1]], max, factor)]
  }

  /** The map holds exactly the keys visited, each with the weight of its count. */
  lemma {:induction false} WeightMapEntries(order: seq<string>, counts: multiset<string>, max: nat, factor: real, n: nat)
    requires n <= |order| && (n == 0 || max > 0)
    ensures forall k :: k in WeightMap(order, counts, max, factor, n) <==> k in order[..n]
    ensures n == |order| ==> forall k :: k in WeightMap(order, counts, max, factor, n) <==> k in order
    ensures forall k :: k in WeightMap(order, counts, max, factor, n) ==> WeightMap(order, counts, max, factor, n)[k] == Weight(counts[k], max, factor)
  {
    if n > 0 {
      WeightMapEntries(order, counts, max, factor, n - 1);
      assert order[..n] == order[..n - 1] + [order[n - 1]];
    }
    assert order[..|order|] == order;
  }

  /** The weights under the player's name: only names found in the roster get one. */
  function NameWeights(t: Tables, order: seq<string>, counts: multiset<string>, max: nat, factor: real, n: nat): map<string, real>
    requires n <= |order| && (n == 0 || max > 0)
  {
    if n == 0 then map[]
    else
      var prev := NameWeights(t, order, counts, max, factor, n - 1);
      var name := order[n - 1];
      if FindByName(t.players, name).Some? then prev[name := Weight(counts[name], max, factor)] else prev
  }

  /** `playerWeights.selection`: the same weights under the player's id. */
  function IdWeights(t: Tables, order: seq<string>, counts: multiset<string>, max: nat, factor: real, n: nat): map<int, real>
    requires n <= |order| && (n == 0 || max > 0)
  {
    if n == 0 then map[]
    else
      var prev := IdWeights(t, order, counts, max, factor, n - 1);
      var player := FindByName(t.players, order[n - 1]);
      if player.Some? then prev[player.value.id := Weight(counts[order[n - 1]], max, factor)] else prev
  }

  /** The name weights hold exactly the visited names found in the roster, each with the weight of its count. */
  lemma {:induction false} NameWeightsEntries(t: Tables, order: seq<string>, counts: multiset<string>, max: nat, factor: real, n: nat)
    requires n <= |order| && (n == 0 || max > 0)
    ensures forall k :: k in NameWeights(t, order, counts, max, factor, n) <==> k in order[..n] && FindByName(t.players, k).Some?
    ensures n == |order| ==> forall k :: k in NameWeights(t, order, counts, max, factor, n) <==> k in order && FindByName(t.players, k).Some?
    ensures forall k :: k in NameWeights(t, order, counts, max, factor, n) ==>
      NameWeights(t, order, counts, max, factor, n)[k] == Weight(counts[k], max, factor)
  {
    if n > 0 {
      NameWeightsEntries(t, order, counts, max, factor, n - 1);
      assert order[..n] == order[..n - 1] + [order[n - 1]];
    }
    assert order[..|order|] == order;
  }

  /**
   * With an injective roster, the id weights are the name weights keyed by id:
   * an id has a weight exactly when the roster row with that id names a
   * weighted player, and it is that player's weight.
   */
  lemma {:induction false} IdWeightsEntries(t: Tables, order: seq<string>, counts: multiset<string>, max: nat, factor: real, n: nat)
    requires ValidTables(t)
    requires n <= |order| && (n == 0 || max > 0)
    ensures forall id :: id in IdWeights(t, order, counts, max, factor, n) <==>
      FindById(t.players, id).Some? && FindById(t.players, id).value.name in NameWeights(t, order, counts, max, factor, n)
    ensures forall id :: id in IdWeights(t, order, counts, max, factor, n) ==>
      IdWeights(t, order, counts, max, factor, n)[id] == NameWeights(t, order, counts, max, factor, n)[FindById(t.players, id).value.name]
  {
    if n > 0 {
      IdWeightsEntries(t, order, counts, max, factor, n - 1);
      var name := order[n - 1];
      var player := FindByName(t.players, name);
      if player.Some? {
        SameRowByName(t.players, name, player.value.id);
      }
    }
  }

  /** In an injective table, the row with `name` is the only row whose id finds that name. */
  lemma SameRowByName(table: Table, name: string, id: int)
    requires Injective(table)
    requires FindByName(table, name).Some? && FindByName(table, name).value.id == id
    ensures FindById(table, id).Some? && FindById(table, id).value.name == name
    ensures forall other :: FindById(table, other).Some? && FindById(table, other).value.name == name ==> other == id
  {
    IdOfNameRoundTrip(table, name);
    forall other | FindById(table, other).Some? && FindById(table, other).value.name == name
      ensures other == id
    {
      NameOfIdRoundTrip(table, other);
    }
  }

  /**
   * The player weight loop over `Object.entries(playerCounts)`: each counted
   * name found in the roster gets its weight under its name and, in
   * `playerWeights.selection`, under its id.
   */
  method PlayerWeights(t: Tables, counts: Tally, factor: real) returns (byName: map<string, real>, selection: map<int, real>)
    requires counts.order == [] || MaxCount(counts) > 0
    ensures byName == NameWeights(t, Listed(counts), counts.counts, MaxCount(counts), factor, |counts.order|)
    ensures selection == IdWeights(t, Listed(counts), counts.counts, MaxCount(counts), factor, |counts.order|)
  {
    var max := MaxCount(counts);
    var entries := Listed(counts);
    byName, selection := map[], map[];
    for k := 0 to |entries|
      invariant byName == NameWeights(t, entries, counts.counts, max, factor, k)
      invariant selection == IdWeights(t, entries, counts.counts, max, factor, k)
    {
      var name := entries[k];
      var count := counts.counts[name];
      var player := FindByName(t.players, name);
      if player.Some? {
        var baseWeight := Weight(count, max, factor);
        byName := byName[name := baseWeight];
        selection := selection[player.value.id := baseWeight];
      }
    }
  }

  /** The goalie weight loop (`weights.goalies`) over `Object.entries(goalieCounts)`: base weight plus the two zero bonuses. */
  method GoalieWeights(counts: Tally, f: Factors) returns (weights: map<string, real>)
    requires counts.order == [] || MaxCount(counts) > 0
    ensures weights == WeightMap(Listed(counts), counts.counts, MaxCount(counts), f.goalieSelection, |counts.order|)
  {
    var max := MaxCount(counts);
    var entries := Listed(counts);
    weights := map[];
    for k := 0 to |entries|
      invariant weights == WeightMap(entries, counts.counts, max, f.goalieSelection, k)
    {
      var name := entries[k];
      var baseWeight := Weight(counts.counts[name], max, f.goalieSelection);
      var synergyBonus := GoalieSynergy(name) * f.goalieSynergy;
      var recentBonus := GoalieRecentBonus(name) * f.goalieRecent;
      GoalieWeightIsBase(name, counts.counts[name], max, f);
      weights := weights[name := baseWeight + synergyBonus + recentBonus];
    }
  }

  /**
   * The combination weight loop (`playerWeights.combinations`) over
   * `Object.entries(commonCombinations)`, which takes the maximum afresh for
   * every entry.
   */
  method CombinationWeights(counts: Tally, factor: real) returns (weights: map<string, real>)
    requires counts.order == [] || MaxCount(counts) > 0
    ensures weights == WeightMap(Listed(counts), counts.counts, MaxCount(counts), factor, |counts.order|)
  {
    var entries := Listed(counts);
    weights := map[];
    for k := 0 to |entries|
      invariant weights == WeightMap(entries, counts.counts, MaxCount(counts), factor, k)
    {
      var key := entries[k];
      weights := weights[key := Weight(counts.counts[key], MaxCount(counts), factor)];
    }
  }

  /**
   * Weights of counts between 1 and the maximum lie in [1, 1 + factor], above
   * 1 for a positive factor, reach 1 + factor at the maximum, and follow the
   * order of the counts.
   */
  lemma WeightsInRange(w: map<string, real>, counts: multiset<string>, max: nat, factor: real)
    requires factor >= 0.0
    requires forall k :: k in w ==> 1 <= counts[k] <= max && w[k] == Weight(counts[k], max, factor)
    ensures forall k :: k in w ==> 1.0 <= w[k] <= 1.0 + factor
    ensures forall k :: k in w && factor > 0.0 ==> 1.0 < w[k]
    ensures forall k :: k in w && counts[k] == max ==> w[k] == 1.0 + factor
    ensures forall a, b :: a in w && b in w && counts[a] <= counts[b] ==> w[a] <= w[b]
  {
    forall k | k in w ensures 1.0 <= w[k] <= 1.0 + factor && (factor > 0.0 ==> 1.0 < w[k]) && (counts[k] == max ==> w[k] == 1.0 + factor) {
      WeightBounds(counts[k], counts[k], max, factor);
    }
    forall a, b | a in w && b in w && counts[a] <= counts[b] ensures w[a] <= w[b] {
      WeightBounds(counts[a], counts[b], max, factor);
    }
  }
}
