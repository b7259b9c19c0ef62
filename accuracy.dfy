/**
 * `analyzePredictionAccuracy`: compares a prediction with every team of the
 * history and counts overlaps, same-position hits and goalie hits, and
 * tallies the numbers seen at each position and overall.
 *
 * The count dictionaries (`positionPatterns[pos]`, `numberFrequency`) are
 * multisets of their property names: the value stored under a name is its
 * multiplicity, and the sum of the values is the multiset's size.
 */
module Accuracy {
  import opened Wrappers
  import opened Teams
  import PairKeys
  import Predictor

  // ---------------------------------------------------------------------------
  // What a history entry is compared by
  // ---------------------------------------------------------------------------

  /** `typeof p === 'object' ? p.id : p`: a number for an object, the name itself for a bare name. */
  datatype Key = IdKey(id: int) | NameKey(name: string)

  function HistKey(p: PlayerRef): Key {
    match p
    case Record(id, _) => IdKey(id)
    case Named(n) => NameKey(n)
  }

  /** `historical.players.map(...)`: the keys of a team, in position order. */
  function HistKeys(team: Team): (keys: seq<Key>)
    ensures |keys| == |team.players|
  {
    seq(|team.players|, i requires 0 <= i < |team.players| => HistKey(team.players[i]))
  }

  /** The property name a key is counted under: object keys are strings, so id 7 and the name "7" share one. */
  function PropertyName(k: Key): string {
    match k
    case IdKey(id) => PairKeys.IntString(id)
    case NameKey(n) => n
  }

  /** `prediction.asTeam.players.map(p => p.id)`. */
  function PredIds(prediction: Predictor.Prediction): (ids: seq<int>)
    ensures |ids| == |prediction.players|
  {
    seq(|prediction.players|, i requires 0 <= i < |prediction.players| => prediction.players[i].id)
  }

  // ---------------------------------------------------------------------------
  // The overlap
  // ---------------------------------------------------------------------------

  /** `predictionIds.filter(id => historicalIds.includes(id)).length`: strict equality, so a name never matches. */
  function Overlap(ids: seq<int>, hist: seq<Key>): (m: nat)
    ensures m <= |ids|
  {
    if ids == [] then 0
    else Overlap(ids[..|ids| - 1], hist) + (if IdKey(ids[|ids| - 1]) in hist then 1 else 0)
  }

  lemma {:induction false} OverlapAppend(a: seq<int>, b: seq<int>, hist: seq<Key>)
    ensures Overlap(a + b, hist) == Overlap(a, hist) + Overlap(b, hist)
    decreases |b|
  {
    if b == [] {
      assert a + b == a;
    } else {
      var ab := a + b;
      assert ab[..|ab| - 1] == a + b[..|b| - 1];
      assert ab[|ab| - 1] == b[|b| - 1];
      OverlapAppend(a, b[..|b| - 1], hist);
    }
  }

  /** Only which keys the history holds matters, not their order or repetition. */
  lemma {:induction false} OverlapSameKeys(ids: seq<int>, h1: seq<Key>, h2: seq<Key>)
    requires forall k :: k in h1 <==> k in h2
    ensures Overlap(ids, h1) == Overlap(ids, h2)
  {
    if ids != [] {
      OverlapSameKeys(ids[..|ids| - 1], h1, h2);
    }
  }

  /** Reordering the predicted ids does not change the overlap. */
  lemma {:induction false} OverlapPermutation(a: seq<int>, b: seq<int>, hist: seq<Key>)
    requires multiset(a) == multiset(b)
    ensures Overlap(a, hist) == Overlap(b, hist)
    decreases |a|
  {
    if a != [] {
      var x := a[|a| - 1];
      assert x in multiset(b);
      var j :| 0 <= j < |b| && b[j] == x;
      var rest := b[..j] + b[j + 1..];
      assert b == b[..j] + [x] + b[j + 1..];
      assert multiset(b) == multiset(b[..j]) + multiset{x} + multiset(b[j + 1..]);
      assert a == a[..|a| - 1] + [x];
      assert multiset(a) == multiset(a[..|a| - 1]) + multiset{x};
      assert multiset(rest) == multiset(a[..|a| - 1]) by {
        var front, back, init := multiset(b[..j]), multiset(b[j + 1..]), multiset(a[..|a| - 1]);
        assert multiset(rest) == front + back;
        forall y ensures multiset(rest)[y] == init[y] {
          assert multiset(b)[y] == front[y] + multiset{x}[y] + back[y];
          assert multiset(a)[y] == init[y] + multiset{x}[y];
        }
      }
      OverlapPermutation(a[..|a| - 1], rest, hist);
      OverlapAppend(b[..j] + [x], b[j + 1..], hist);
      OverlapAppend(b[..j], [x], hist);
      OverlapAppend(b[..j], b[j + 1..], hist);
      assert [x][..0] == [];
    }
  }

  /** The overlap depends only on the multiset of predicted ids and the set of historical keys. */
  lemma OverlapOrderFree(a: seq<int>, b: seq<int>, h1: seq<Key>, h2: seq<Key>)
    requires multiset(a) == multiset(b)
    requires forall k :: k in h1 <==> k in h2
    ensures Overlap(a, h1) == Overlap(b, h2)
  {
    OverlapPermutation(a, b, h1);
    OverlapSameKeys(b, h1, h2);
  }

  // ---------------------------------------------------------------------------
  // The counts over the first n teams
  // ---------------------------------------------------------------------------

  /** How many of the first `n` teams share exactly `k` numbers with the prediction. */
  function Matching(ids: seq<int>, teams: seq<Team>, n: nat, k: nat): nat
    requires n <= |teams|
  {
    if n == 0 then 0
    else Matching(ids, teams, n - 1, k) + (if Overlap(ids, HistKeys(teams[n - 1])) == k then 1 else 0)
  }

  /** `historicalIds[pos] === id` for the predicted id at `pos`; a missing position is `undefined`. */
  predicate PositionHit(ids: seq<int>, hist: seq<Key>, pos: nat) {
    pos < |ids| && pos < |hist| && hist[pos] == IdKey(ids[pos])
  }

  /** How many of the first `n` teams have the predicted player at `pos`. */
  function PositionCount(ids: seq<int>, teams: seq<Team>, n: nat, pos: nat): nat
    requires n <= |teams|
  {
    if n == 0 then 0
    else PositionCount(ids, teams, n - 1, pos) + (if PositionHit(ids, HistKeys(teams[n - 1]), pos) then 1 else 0)
  }

  /** `predictedGoalieId === (typeof goalie === 'object' ? goalie.id : goalie)`: only a goalie object can match. */
  predicate GoalieHit(goalieId: int, g: GoalieRef) {
    g.GoalieRecord? && g.id == goalieId
  }

  function GoalieCount(goalieId: int, teams: seq<Team>, n: nat): nat
    requires n <= |teams|
  {
    if n == 0 then 0
    else GoalieCount(goalieId, teams, n - 1) + (if GoalieHit(goalieId, teams[n - 1].goalie) then 1 else 0)
  }

  /** The names of a team's players, one per position. */
  function TeamNames(team: Team): (names: seq<string>)
    ensures |names| == |team.players|
  {
    seq(|team.players|, i requires 0 <= i < |team.players| => PropertyName(HistKey(team.players[i])))
  }

  /** The names of every team of the history. */
  function Rows(teams: seq<Team>): (rows: seq<seq<string>>)
    ensures |rows| == |teams|
    ensures forall i :: 0 <= i < |teams| ==> rows[i] == TeamNames(teams[i])
  {
    seq(|teams|, i requires 0 <= i < |teams| => TeamNames(teams[i]))
  }

  /** The name a row contributes at `pos`, if it has a player there. */
  function At(row: seq<string>, pos: nat): multiset<string> {
    if pos < |row| then multiset{row[pos]} else multiset{}
  }

  /** The names counted at `pos` over the first `n` rows: one for each row with a player there. */
  function KeysAt(rows: seq<seq<string>>, n: nat, pos: nat): multiset<string>
    requires n <= |rows|
  {
    if n == 0 then multiset{} else KeysAt(rows, n - 1, pos) + At(rows[n - 1], pos)
  }

  /** The names counted overall over the first `n` rows. */
  function AllKeys(rows: seq<seq<string>>, n: nat): multiset<string>
    requires n <= |rows|
  {
    if n == 0 then multiset{} else AllKeys(rows, n - 1) + multiset(rows[n - 1])
  }

  /** How many of the first `n` teams have a player at `pos`. */
  function Having(teams: seq<Team>, n: nat, pos: nat): nat
    requires n <= |teams|
  {
    if n == 0 then 0 else Having(teams, n - 1, pos) + (if pos < |teams[n - 1].players| then 1 else 0)
  }

  /** The number of player entries in the first `n` teams. */
  function PlayerEntries(teams: seq<Team>, n: nat): nat
    requires n <= |teams|
  {
    if n == 0 then 0 else PlayerEntries(teams, n - 1) + |teams[n - 1].players|
  }

  // ---------------------------------------------------------------------------
  // The result
  // ---------------------------------------------------------------------------

  /** `matchStats`. */
  datatype MatchStats = MatchStats(
    exactMatches: nat,
    fiveMatches: nat,
    fourMatches: nat,
    threeMatches: nat,
    twoMatches: nat,
    oneMatch: nat,
    positionMatches: seq<nat>,
    goalieMatches: nat,
    positionPatterns: seq<multiset<string>>,
    numberFrequency: multiset<string>,
    sequencePatterns: seq<nat>)

  /** The statistics over a whole history, each field as a count over the teams. */
  function Expected(ids: seq<int>, goalieId: int, teams: seq<Team>): MatchStats {
    var n := |teams|;
    MatchStats(
      0,
      Matching(ids, teams, n, 5), Matching(ids, teams, n, 4), Matching(ids, teams, n, 3),
      Matching(ids, teams, n, 2), Matching(ids, teams, n, 1),
      seq(6, p requires 0 <= p < 6 => PositionCount(ids, teams, n, p)),
      GoalieCount(goalieId, teams, n),
      seq(5, p requires 0 <= p < 5 => KeysAt(Rows(teams), n, p)),
      AllKeys(Rows(teams), n),
      [])
  }

  /** The way `analyzePredictionAccuracy` throws: a sixth player has no `positionPatterns` entry to count into. */
  datatype AccuracyError = NoPatternTable(team: nat)

  // ---------------------------------------------------------------------------
  // The loops
  // ---------------------------------------------------------------------------

  /** The `filter` over the predicted ids. */
  method CountMatches(ids: seq<int>, hist: seq<Key>) returns (matches: nat)
    ensures matches == Overlap(ids, hist)
  {
    matches := 0;
    for j := 0 to |ids|
      invariant matches == Overlap(ids[..j], hist)
    {
      assert ids[..j + 1][..j] == ids[..j];
      if IdKey(ids[j]) in hist {
        matches := matches + 1;
      }
    }
    assert ids[..|ids|] == ids;
  }

  /** `predictionIds.forEach((id, pos) => ...)`: one more hit at each position the team shares. */
  method MarkPositions(ids: seq<int>, hist: seq<Key>, positionMatches: array<nat>)
    requires |ids| <= positionMatches.Length
    modifies positionMatches
    ensures forall p :: 0 <= p < positionMatches.Length ==>
      positionMatches[p] == old(positionMatches[p]) + (if PositionHit(ids, hist, p) then 1 else 0)
  {
    for pos := 0 to |ids|
      invariant forall p :: 0 <= p < positionMatches.Length ==>
        positionMatches[p] == old(positionMatches[p]) + (if p < pos && PositionHit(ids, hist, p) then 1 else 0)
    {
      if pos < |hist| && hist[pos] == IdKey(ids[pos]) {
        positionMatches[pos] := positionMatches[pos] + 1;
      }
    }
  }

  /** `historical.players.forEach((player, pos) => positionPatterns[pos][id]++)`. */
  method RecordPositions(patterns: seq<multiset<string>>, names: seq<string>) returns (r: seq<multiset<string>>)
    requires |names| <= |patterns|
    ensures |r| == |patterns|
    ensures forall p :: 0 <= p < |r| ==> r[p] == patterns[p] + (if p < |names| then multiset{names[p]} else multiset{})
  {
    r := patterns;
    for pos := 0 to |names|
      invariant |r| == |patterns|
      invariant forall p :: 0 <= p < |r| ==> r[p] == patterns[p] + (if p < pos then multiset{names[p]} else multiset{})
    {
      r := r[pos := r[pos] + multiset{names[pos]}];
    }
  }

  /** `historical.players.forEach(player => numberFrequency[id]++)`. */
  method RecordNumbers(frequency: multiset<string>, names: seq<string>) returns (r: multiset<string>)
    ensures r == frequency + multiset(names)
  {
    r := frequency;
    for j := 0 to |names|
      invariant r == frequency + multiset(names[..j])
    {
      assert names[..j + 1] == names[..j] + [names[j]];
      r := r + multiset{names[j]};
    }
    assert names[..|names|] == names;
  }

  /** None of the first `n` teams has more than five players. */
  predicate Fit(teams: seq<Team>, n: nat)
    requires n <= |teams|
  {
    n == 0 || (Fit(teams, n - 1) && |teams[n - 1].players| <= 5)
  }

  lemma {:induction false} FitAll(teams: seq<Team>, n: nat)
    requires n <= |teams|
    ensures Fit(teams, n) <==> forall j :: 0 <= j < n ==> |teams[j].players| <= 5
  {
    if n > 0 {
      FitAll(teams, n - 1);
    }
  }

  /** The scan stops at the first team with more than five players. */
  lemma FirstOverflow(teams: seq<Team>, i: nat)
    requires i < |teams| && Fit(teams, i) && |teams[i].players| > 5
    ensures exists j :: 0 <= j < |teams| && |teams[j].players| > 5
    ensures forall j :: 0 <= j < i ==> |teams[j].players| <= 5
  {
    FitAll(teams, i);
  }

  /** A scan that reaches the end met no team with more than five players. */
  lemma NoOverflow(teams: seq<Team>)
    requires Fit(teams, |teams|)
    ensures !exists j :: 0 <= j < |teams| && |teams[j].players| > 5
  {
    FitAll(teams, |teams|);
  }

  /** The `switch (matches)`: one more in the counter of that overlap; none for 0. */
  method CountOverlap(matches: nat, five: nat, four: nat, three: nat, two: nat, one: nat)
    returns (five': nat, four': nat, three': nat, two': nat, one': nat)
    ensures five' == five + (if matches == 5 then 1 else 0)
    ensures four' == four + (if matches == 4 then 1 else 0)
    ensures three' == three + (if matches == 3 then 1 else 0)
    ensures two' == two + (if matches == 2 then 1 else 0)
    ensures one' == one + (if matches == 1 then 1 else 0)
  {
    five', four', three', two', one' := five, four, three, two, one;
    match matches {
      case 5 => five' := five + 1;
      case 4 => four' := four + 1;
      case 3 => three' := three + 1;
      case 2 => two' := two + 1;
      case 1 => one' := one + 1;
      case _ =>
    }
  }

  /** The overlap classes and goalie matches of the first `n` teams. */
  predicate Counted(ids: seq<int>, goalieId: int, teams: seq<Team>, n: nat,
                    five: nat, four: nat, three: nat, two: nat, one: nat, goalies: nat)
    requires n <= |teams|
  {
    && five == Matching(ids, teams, n, 5) && four == Matching(ids, teams, n, 4) && three == Matching(ids, teams, n, 3)
    && two == Matching(ids, teams, n, 2) && one == Matching(ids, teams, n, 1)
    && goalies == GoalieCount(goalieId, teams, n)
  }

  /** `positionMatches` after the first `n` teams: per position, the teams sharing the predicted number there. */
  predicate Positioned(ids: seq<int>, teams: seq<Team>, n: nat, positionMatches: seq<nat>)
    requires n <= |teams|
  {
    |positionMatches| == 6 && forall p :: 0 <= p < 6 ==> positionMatches[p] == PositionCount(ids, teams, n, p)
  }

  /** The position and frequency tables of the first `n` teams. */
  predicate Recorded(teams: seq<Team>, n: nat, patterns: seq<multiset<string>>, frequency: multiset<string>)
    requires n <= |teams|
  {
    && |patterns| == 5
    && (forall p :: 0 <= p < 5 ==> patterns[p] == KeysAt(Rows(teams), n, p))
    && frequency == AllKeys(Rows(teams), n)
  }

  /**
   * The counting half of the loop body for team `i`: its overlap class, the
   * positions it shares with the prediction and its goalie.
   */
  method CountTeam(ids: seq<int>, goalieId: int, teams: seq<Team>, i: nat,
                   five: nat, four: nat, three: nat, two: nat, one: nat, goalies: nat, positionMatches: array<nat>)
    returns (five': nat, four': nat, three': nat, two': nat, one': nat, goalies': nat)
    requires i < |teams| && |ids| <= 5 && positionMatches.Length == 6
    requires Counted(ids, goalieId, teams, i, five, four, three, two, one, goalies)
    requires Positioned(ids, teams, i, positionMatches[..])
    modifies positionMatches
    ensures Counted(ids, goalieId, teams, i + 1, five', four', three', two', one', goalies')
    ensures Positioned(ids, teams, i + 1, positionMatches[..])
  {
    var historical := teams[i];
    var historicalIds := HistKeys(historical);
    var matches := CountMatches(ids, historicalIds);
    five', four', three', two', one' := CountOverlap(matches, five, four, three, two, one);
    MarkPositions(ids, historicalIds, positionMatches);
    goalies' := goalies;
    if GoalieHit(goalieId, historical.goalie) {
      goalies' := goalies + 1;
    }
  }

  /** The recording half of the loop body for team `i`, which has at most five players. */
  method RecordTeam(teams: seq<Team>, i: nat, patterns: seq<multiset<string>>, frequency: multiset<string>)
    returns (patterns': seq<multiset<string>>, frequency': multiset<string>)
    requires i < |teams| && |teams[i].players| <= 5
    requires Recorded(teams, i, patterns, frequency)
    ensures Recorded(teams, i + 1, patterns', frequency')
  {
    var names := TeamNames(teams[i]);
    patterns' := RecordPositions(patterns, names);
    frequency' := RecordNumbers(frequency, names);
    assert Rows(teams)[i] == names;
  }

  /** The loop's state after the first `n` teams, none of them with more than five players. */
  predicate Scanned(ids: seq<int>, goalieId: int, teams: seq<Team>, n: nat,
                    five: nat, four: nat, three: nat, two: nat, one: nat, goalies: nat,
                    positionMatches: seq<nat>, patterns: seq<multiset<string>>, frequency: multiset<string>)
    requires n <= |teams|
  {
    && Counted(ids, goalieId, teams, n, five, four, three, two, one, goalies)
    && Positioned(ids, teams, n, positionMatches)
    && Recorded(teams, n, patterns, frequency)
    && Fit(teams, n)
  }

  /** Before the loop: every counter and table is empty. */
  lemma ScanStart(ids: seq<int>, goalieId: int, teams: seq<Team>, positionMatches: seq<nat>, patterns: seq<multiset<string>>)
    requires |positionMatches| == 6 && forall p :: 0 <= p < 6 ==> positionMatches[p] == 0
    requires patterns == seq(5, _ => multiset{})
    ensures Scanned(ids, goalieId, teams, 0, 0, 0, 0, 0, 0, 0, positionMatches, patterns, multiset{})
  {
  }

  /**
   * One turn of the loop over the history: team `i` is counted, then
   * recorded; the recording throws when the team has more than five players.
   */
  method ScanTeam(ids: seq<int>, goalieId: int, teams: seq<Team>, i: nat,
                  five: nat, four: nat, three: nat, two: nat, one: nat, goalies: nat,
                  positionMatches: array<nat>, patterns: seq<multiset<string>>, frequency: multiset<string>)
    returns (five': nat, four': nat, three': nat, two': nat, one': nat, goalies': nat,
             patterns': seq<multiset<string>>, frequency': multiset<string>, overflow: bool)
    requires i < |teams| && |ids| <= 5 && positionMatches.Length == 6
    requires Scanned(ids, goalieId, teams, i, five, four, three, two, one, goalies, positionMatches[..], patterns, frequency)
    modifies positionMatches
    ensures overflow <==> |teams[i].players| > 5
    ensures overflow ==> Fit(teams, i)
    ensures !overflow ==>
      Scanned(ids, goalieId, teams, i + 1, five', four', three', two', one', goalies', positionMatches[..], patterns', frequency')
  {
    five', four', three', two', one', goalies' :=
      CountTeam(ids, goalieId, teams, i, five, four, three, two, one, goalies, positionMatches);
    patterns', frequency' := patterns, frequency;
    overflow := |teams[i].players| > |patterns|;
    if !overflow {
      patterns', frequency' := RecordTeam(teams, i, patterns, frequency);
    }
  }

  /** The returned object, once every team has been counted. */
  method Collect(ids: seq<int>, goalieId: int, teams: seq<Team>, five: nat, four: nat, three: nat, two: nat, one: nat,
                 positionMatches: array<nat>, goalies: nat, patterns: seq<multiset<string>>, frequency: multiset<string>)
    returns (stats: MatchStats)
    requires positionMatches.Length == 6
    requires Counted(ids, goalieId, teams, |teams|, five, four, three, two, one, goalies)
    requires Positioned(ids, teams, |teams|, positionMatches[..])
    requires Recorded(teams, |teams|, patterns, frequency)
    ensures stats == Expected(ids, goalieId, teams)
  {
    stats := MatchStats(0, five, four, three, two, one, positionMatches[..], goalies, patterns, frequency, []);
  }

  /**
   * `analyzePredictionAccuracy(prediction, historicalTeams)`: throws at the
   * first team with more than five players; otherwise returns the counts of
   * `Expected`. The prediction is the result of `predictMultipleTimes`, which
   * always names five players.
   */
  method AnalyzePredictionAccuracy(prediction: Predictor.Prediction, historicalTeams: seq<Team>)
    returns (r: Result<MatchStats, AccuracyError>)
    requires |prediction.players| == 5
    ensures r.Err? <==> exists i :: 0 <= i < |historicalTeams| && |historicalTeams[i].players| > 5
    ensures r.Err? ==>
      && r.error.team < |historicalTeams| && |historicalTeams[r.error.team].players| > 5
      && forall i :: 0 <= i < r.error.team ==> |historicalTeams[i].players| <= 5
    ensures r.Ok? ==> r.value == Expected(PredIds(prediction), prediction.goalie.id, historicalTeams)
  {
    var predictionIds := PredIds(prediction);
    var predictedGoalieId := prediction.goalie.id;
    var fiveMatches, fourMatches, threeMatches, twoMatches, oneMatch := 0, 0, 0, 0, 0;
    var positionMatches := new nat[6](_ => 0);
    var goalieMatches := 0;
    var positionPatterns: seq<multiset<string>> := seq(5, _ => multiset{});
    var numberFrequency: multiset<string> := multiset{};
    ScanStart(predictionIds, predictedGoalieId, historicalTeams, positionMatches[..], positionPatterns);
    for i := 0 to |historicalTeams|
      invariant Scanned(predictionIds, predictedGoalieId, historicalTeams, i, fiveMatches, fourMatches, threeMatches, twoMatches, oneMatch,
                        goalieMatches, positionMatches[..], positionPatterns, numberFrequency)
    {
      var overflow;
      fiveMatches, fourMatches, threeMatches, twoMatches, oneMatch, goalieMatches, positionPatterns, numberFrequency, overflow :=
        ScanTeam(predictionIds, predictedGoalieId, historicalTeams, i, fiveMatches, fourMatches, threeMatches, twoMatches, oneMatch,
                 goalieMatches, positionMatches, positionPatterns, numberFrequency);
      if overflow {
        FirstOverflow(historicalTeams, i);
        return Err(NoPatternTable(i));
      }
    }
    NoOverflow(historicalTeams);
    var stats := Collect(predictionIds, predictedGoalieId, historicalTeams, fiveMatches, fourMatches, threeMatches, twoMatches, oneMatch,
                         positionMatches, goalieMatches, positionPatterns, numberFrequency);
    r := Ok(stats);
  }

  // ---------------------------------------------------------------------------
  // Properties of the statistics
  // ---------------------------------------------------------------------------

  /** Every team with at most five predicted numbers lands in exactly one overlap class 0..5. */
  lemma {:induction false} MatchingCovers(ids: seq<int>, teams: seq<Team>, n: nat)
    requires |ids| <= 5 && n <= |teams|
    ensures Matching(ids, teams, n, 0) + Matching(ids, teams, n, 1) + Matching(ids, teams, n, 2)
          + Matching(ids, teams, n, 3) + Matching(ids, teams, n, 4) + Matching(ids, teams, n, 5) == n
  {
    if n > 0 {
      MatchingCovers(ids, teams, n - 1);
    }
  }

  /**
   * Each team counts in at most one of the five overlap counters and in none
   * when it shares no number: the counters add up to the number of teams
   * with a non-zero overlap, so never to more than the history's length.
   */
  lemma OverlapCountersBound(prediction: Predictor.Prediction, teams: seq<Team>)
    requires |prediction.players| == 5
    ensures var s := Expected(PredIds(prediction), prediction.goalie.id, teams);
      && s.fiveMatches + s.fourMatches + s.threeMatches + s.twoMatches + s.oneMatch
         == |teams| - Matching(PredIds(prediction), teams, |teams|, 0)
      && s.fiveMatches + s.fourMatches + s.threeMatches + s.twoMatches + s.oneMatch <= |teams|
  {
    MatchingCovers(PredIds(prediction), teams, |teams|);
  }

  lemma {:induction false} PositionCountBound(ids: seq<int>, teams: seq<Team>, n: nat, pos: nat)
    requires n <= |teams|
    ensures PositionCount(ids, teams, n, pos) <= n
    ensures pos >= |ids| ==> PositionCount(ids, teams, n, pos) == 0
  {
    if n > 0 {
      PositionCountBound(ids, teams, n - 1, pos);
    }
  }

  /**
   * Each same-position counter is at most the history's length, and the
   * sixth one, with no predicted player behind it, stays 0; so do
   * `exactMatches` and `sequencePatterns`, which nothing updates.
   */
  lemma PositionCountersBound(prediction: Predictor.Prediction, teams: seq<Team>)
    requires |prediction.players| == 5
    ensures var s := Expected(PredIds(prediction), prediction.goalie.id, teams);
      && |s.positionMatches| == 6
      && (forall p :: 0 <= p < 6 ==> s.positionMatches[p] <= |teams|)
      && s.positionMatches[5] == 0
      && s.exactMatches == 0 && s.sequencePatterns == []
  {
    forall p | 0 <= p < 6 ensures PositionCount(PredIds(prediction), teams, |teams|, p) <= |teams| {
      PositionCountBound(PredIds(prediction), teams, |teams|, p);
    }
    PositionCountBound(PredIds(prediction), teams, |teams|, 5);
  }

  lemma {:induction false} GoalieCountBound(goalieId: int, teams: seq<Team>, n: nat)
    requires n <= |teams|
    ensures GoalieCount(goalieId, teams, n) <= n
    ensures GoalieCount(goalieId, teams, n) == n <==> forall i :: 0 <= i < n ==> teams[i].goalie.GoalieRecord? && teams[i].goalie.id == goalieId
    ensures (forall i :: 0 <= i < n ==> !teams[i].goalie.GoalieRecord?) ==> GoalieCount(goalieId, teams, n) == 0
  {
    if n > 0 {
      GoalieCountBound(goalieId, teams, n - 1);
    }
  }

  /**
   * The goalie counter never exceeds the history's length, reaches it exactly
   * when every team's goalie is an object with the predicted id, and stays 0
   * for a history whose goalies are all bare names or absent.
   */
  lemma GoalieCounterStrict(prediction: Predictor.Prediction, teams: seq<Team>)
    ensures var s := Expected(PredIds(prediction), prediction.goalie.id, teams);
      && s.goalieMatches <= |teams|
      && (s.goalieMatches == |teams| <==> forall i :: 0 <= i < |teams| ==> teams[i].goalie.GoalieRecord? && teams[i].goalie.id == prediction.goalie.id)
      && ((forall i :: 0 <= i < |teams| ==> !teams[i].goalie.GoalieRecord?) ==> s.goalieMatches == 0)
  {
    GoalieCountBound(prediction.goalie.id, teams, |teams|);
  }

  lemma {:induction false} KeysAtSize(rows: seq<seq<string>>, teams: seq<Team>, n: nat, pos: nat)
    requires n <= |teams| == |rows|
    requires forall k :: 0 <= k < |rows| ==> |rows[k]| == |teams[k].players|
    ensures |KeysAt(rows, n, pos)| == Having(teams, n, pos)
  {
    if n > 0 {
      KeysAtSize(rows, teams, n - 1, pos);
      assert |At(rows[n - 1], pos)| == if pos < |rows[n - 1]| then 1 else 0;
    }
  }

  lemma {:induction false} AllKeysSize(rows: seq<seq<string>>, teams: seq<Team>, n: nat)
    requires n <= |teams| == |rows|
    requires forall k :: 0 <= k < |rows| ==> |rows[k]| == |teams[k].players|
    ensures |AllKeys(rows, n)| == PlayerEntries(teams, n)
  {
    if n > 0 {
      AllKeysSize(rows, teams, n - 1);
    }
  }

  /**
   * The counts of `positionPatterns[pos]` add up to the number of teams with
   * a player at `pos`, and those of `numberFrequency` to the number of player
   * entries in the history.
   */
  lemma FrequencyTotals(prediction: Predictor.Prediction, teams: seq<Team>)
    ensures var s := Expected(PredIds(prediction), prediction.goalie.id, teams);
      && |s.positionPatterns| == 5
      && (forall p :: 0 <= p < 5 ==> |s.positionPatterns[p]| == Having(teams, |teams|, p))
      && |s.numberFrequency| == PlayerEntries(teams, |teams|)
  {
    var rows := Rows(teams);
    assert forall k :: 0 <= k < |rows| ==> |rows[k]| == |teams[k].players|;
    forall p | 0 <= p < 5 ensures |KeysAt(rows, |teams|, p)| == Having(teams, |teams|, p) {
      KeysAtSize(rows, teams, |teams|, p);
    }
    AllKeysSize(rows, teams, |teams|);
  }

  /** Whether the row holds `y` at `pos`, as a count. */
  function Hit(row: seq<string>, pos: nat, y: string): nat {
    if pos < |row| && row[pos] == y then 1 else 0
  }

  /** How often `y` appears in the row at positions below `k`. */
  function HitsBelow(row: seq<string>, k: nat, y: string): nat {
    if k == 0 then 0 else HitsBelow(row, k - 1, y) + Hit(row, k - 1, y)
  }

  /** How many of the first `n` rows hold `y` at `pos`. */
  function CountAt(rows: seq<seq<string>>, n: nat, pos: nat, y: string): nat
    requires n <= |rows|
  {
    if n == 0 then 0 else CountAt(rows, n - 1, pos, y) + Hit(rows[n - 1], pos, y)
  }

  lemma {:induction false} KeysAtCount(rows: seq<seq<string>>, n: nat, pos: nat, y: string)
    requires n <= |rows|
    ensures KeysAt(rows, n, pos)[y] == CountAt(rows, n, pos, y)
  {
    if n > 0 {
      KeysAtCount(rows, n - 1, pos, y);
    }
  }

  lemma {:induction false} HitsBelowPrefix(row: seq<string>, k: nat, y: string)
    requires k <= |row|
    ensures multiset(row[..k])[y] == HitsBelow(row, k, y)
  {
    if k > 0 {
      HitsBelowPrefix(row, k - 1, y);
      assert row[..k] == row[..k - 1] + [row[k - 1]];
    }
  }

  lemma {:induction false} HitsBelowPastEnd(row: seq<string>, k: nat, y: string)
    requires |row| <= k
    ensures HitsBelow(row, k, y) == HitsBelow(row, |row|, y)
  {
    if k > |row| {
      HitsBelowPastEnd(row, k - 1, y);
    }
  }

  /** In a row of at most five names, a name occurs as often as the positions 0..4 holding it. */
  lemma RowHits(row: seq<string>, y: string)
    requires |row| <= 5
    ensures multiset(row)[y] == Hit(row, 0, y) + Hit(row, 1, y) + Hit(row, 2, y) + Hit(row, 3, y) + Hit(row, 4, y)
  {
    HitsBelowPrefix(row, |row|, y);
    HitsBelowPastEnd(row, 5, y);
    assert row[..|row|] == row;
    assert HitsBelow(row, 1, y) == Hit(row, 0, y);
    assert HitsBelow(row, 2, y) == HitsBelow(row, 1, y) + Hit(row, 1, y);
    assert HitsBelow(row, 3, y) == HitsBelow(row, 2, y) + Hit(row, 2, y);
    assert HitsBelow(row, 4, y) == HitsBelow(row, 3, y) + Hit(row, 3, y);
  }

  lemma {:induction false} AllKeysByPosition(rows: seq<seq<string>>, n: nat, y: string)
    requires n <= |rows|
    requires forall i :: 0 <= i < n ==> |rows[i]| <= 5
    ensures AllKeys(rows, n)[y] == CountAt(rows, n, 0, y) + CountAt(rows, n, 1, y) + CountAt(rows, n, 2, y) + CountAt(rows, n, 3, y) + CountAt(rows, n, 4, y)
  {
    if n > 0 {
      AllKeysByPosition(rows, n - 1, y);
      RowHits(rows[n - 1], y);
    }
  }

  /**
   * When the analysis succeeds, the overall frequency table is the sum of the
   * five per-position tables: every number counted overall was counted once
   * at its position.
   */
  lemma OverallIsSumOfPositions(prediction: Predictor.Prediction, teams: seq<Team>)
    requires forall i :: 0 <= i < |teams| ==> |teams[i].players| <= 5
    ensures var s := Expected(PredIds(prediction), prediction.goalie.id, teams);
      s.numberFrequency == s.positionPatterns[0] + s.positionPatterns[1] + s.positionPatterns[2]
                         + s.positionPatterns[3] + s.positionPatterns[4]
  {
    var s := Expected(PredIds(prediction), prediction.goalie.id, teams);
    forall y ensures s.numberFrequency[y] == (s.positionPatterns[0] + s.positionPatterns[1] + s.positionPatterns[2] + s.positionPatterns[3] + s.positionPatterns[4])[y] {
      AllKeysByPosition(Rows(teams), |teams|, y);
      KeysAtCount(Rows(teams), |teams|, 0, y);
      KeysAtCount(Rows(teams), |teams|, 1, y);
      KeysAtCount(Rows(teams), |teams|, 2, y);
      KeysAtCount(Rows(teams), |teams|, 3, y);
      KeysAtCount(Rows(teams), |teams|, 4, y);
    }
  }
}
