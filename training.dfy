/**
 * `prepareTrainingData`: one sample per team after the first. The input of
 * sample `i` accumulates weighted marks for the teams before `i`; its output
 * is the target vector of team `i`.
 */
module Training {
  import opened Wrappers
  import opened Teams
  import opened PairKeys
  import opened Weights
  import opened TeamAnalyzer
  import opened Settings
  import DT = DataTransformer
  import PlayerStats
  import Encoder

  /** One `input[index] += amount` of the accumulation loops. */
  datatype Contribution = Contribution(index: int, amount: real)

  /** A training pair handed to the network. */
  datatype Sample = Sample(input: seq<real>, output: seq<real>)

  /** `m[k] || 1`: a missing or zero weight counts as 1. */
  function Or1<K(==)>(m: map<K, real>, k: K): real {
    if k in m && m[k] != 0.0 then m[k] else 1.0
  }

  /** `${playerId}-${otherId}`: the combination key the training loop looks up, in loop order rather than sorted. */
  function ComboKey(a: int, b: int): string {
    IntString(a) + "-" + IntString(b)
  }

  /** `analysis.playerWeights.combinations[`${playerId}-${otherId}`] || 1`. */
  function ComboWeights(combinations: map<string, real>): (int, int) -> real {
    (pid, oid) => Or1(combinations, ComboKey(pid, oid))
  }

  /** The history as the analyzer receives it: every record well formed. */
  function AsEntries(teams: seq<Team>): (r: seq<TeamEntry>)
    ensures |r| == |teams|
  {
    seq(|teams|, i requires 0 <= i < |teams| => Entry(teams[i]))
  }

  // ---------------------------------------------------------------------------
  // What each loop adds
  // ---------------------------------------------------------------------------

  /** `position * 57 + (id - 1)`: the entry of pool id `id` in block `pos`. */
  function Slot(pos: nat, id: int): int {
    pos * BlockWidth + (id - 1)
  }

  /** `5 * 57 + 47 + (id - 1)`: the entry of goalie id `id`. */
  function GoalieEntry(id: int): int {
    GoalieBase + (id - 1)
  }

  /**
   * `recencyWeight * position * selectionWeight * positionWeight`, the amount
   * added for the player itself. The position weight is looked up under the key
   * `id-position`, which never names an entry of the preference table (its keys
   * are bare ids), so it is always `|| 1`.
   */
  function OwnAmount(selection: map<int, real>, w: InputWeights, pid: int, rec: real): real {
    var positionWeight := 1.0;
    rec * w.position * Or1(selection, pid) * positionWeight
  }

  /**
   * `recencyWeight * playerToGoalie * synergyWeight`, the amount added for the
   * goalie once per resolved player. The synergy table the analyzer returns is
   * always empty, so its weight is `|| 1`.
   */
  function GoalieAmount(w: InputWeights, rec: real): real {
    var synergyWeight := 1.0;
    rec * w.playerToGoalie * synergyWeight
  }

  /** `recencyWeight * playerToPlayer * comboWeight`, the amount added for the pair `pid`, `oid`. */
  function PairAmount(comboWeight: (int, int) -> real, w: InputWeights, pid: int, oid: int, rec: real): real {
    rec * w.playerToPlayer * comboWeight(pid, oid)
  }

  /** The pair additions for player `pid` at `pos` over the first `n` other positions. */
  function OtherContribs(t: Tables, comboWeight: (int, int) -> real, w: InputWeights, ps: seq<PlayerRef>, pos: nat, pid: int, rec: real, n: nat): seq<Contribution>
    requires n <= |ps|
  {
    if n == 0 then []
    else
      var prev := OtherContribs(t, comboWeight, w, ps, pos, pid, rec, n - 1);
      var otherId := PlayerId(t, ps[n - 1]);
      if pos != n - 1 && otherId.Some? then
        prev + [Contribution(Slot(pos, otherId.value), PairAmount(comboWeight, w, pid, otherId.value, rec))]
      else prev
  }

  /** The goalie addition made once per resolved player, when the team has a goalie that resolves. */
  function GoalieContrib(t: Tables, w: InputWeights, team: Team, rec: real): seq<Contribution> {
    if HasGoalie(team.goalie) && GoalieId(t, team.goalie).Some? then
      [Contribution(GoalieEntry(GoalieId(t, team.goalie).value), GoalieAmount(w, rec))]
    else []
  }

  /** The additions for position `pos`: the player itself, its pairs, then the goalie. */
  function PositionContribs(t: Tables, selection: map<int, real>, comboWeight: (int, int) -> real, w: InputWeights, team: Team, rec: real, pos: nat): seq<Contribution>
    requires pos < |team.players|
  {
    var playerId := PlayerId(t, team.players[pos]);
    if playerId.None? then []
    else
      [Contribution(Slot(pos, playerId.value), OwnAmount(selection, w, playerId.value, rec))]
      + OtherContribs(t, comboWeight, w, team.players, pos, playerId.value, rec, |team.players|)
      + GoalieContrib(t, w, team, rec)
  }

  /** The additions for the first `n` positions of one earlier team. */
  function TeamContribs(t: Tables, selection: map<int, real>, comboWeight: (int, int) -> real, w: InputWeights, team: Team, rec: real, n: nat): seq<Contribution>
    requires n <= |team.players|
  {
    if n == 0 then [] else TeamContribs(t, selection, comboWeight, w, team, rec, n - 1) + PositionContribs(t, selection, comboWeight, w, team, rec, n - 1)
  }

  /** The additions for the first `n` of the `i` teams before sample `i`. */
  function WindowContribs(t: Tables, selection: map<int, real>, comboWeight: (int, int) -> real, w: InputWeights, teams: seq<Team>, i: nat, n: nat): seq<Contribution>
    requires 0 < i <= |teams| && n <= i
  {
    if n == 0 then []
    else
      var team := teams[n - 1];
      WindowContribs(t, selection, comboWeight, w, teams, i, n - 1) + TeamContribs(t, selection, comboWeight, w, team, Recency(w, n - 1, i), |team.players|)
  }

  /** What the additions of `cs` leave in entry `k` of a zeroed vector. */
  function SumAt(cs: seq<Contribution>, k: int): real {
    if cs == [] then 0.0 else SumAt(cs[..|cs| - 1], k) + (if cs[|cs| - 1].index == k then cs[|cs| - 1].amount else 0.0)
  }

  /** `input[c.index] += c.amount`; an index outside the vector changes nothing. */
  function Add(v: seq<real>, c: Contribution): (r: seq<real>)
    ensures |r| == |v|
  {
    if 0 <= c.index < |v| then v[c.index := v[c.index] + c.amount] else v
  }

  /** The vector after adding every `c` of `cs` in turn. */
  function Apply(v: seq<real>, cs: seq<Contribution>): (r: seq<real>)
    ensures |r| == |v|
  {
    if cs == [] then v else Add(Apply(v, cs[..|cs| - 1]), cs[|cs| - 1])
  }

  lemma ApplySnoc(v: seq<real>, cs: seq<Contribution>, c: Contribution)
    ensures Apply(v, cs + [c]) == Add(Apply(v, cs), c)
  {
    assert (cs + [c])[..|cs|] == cs;
  }

  lemma {:induction false} ApplyAppend(v: seq<real>, a: seq<Contribution>, b: seq<Contribution>)
    ensures Apply(v, a + b) == Apply(Apply(v, a), b)
    decreases |b|
  {
    if b == [] {
      assert a + b == a;
    } else {
      assert (a + b)[..|a + b| - 1] == a + b[..|b| - 1];
      ApplyAppend(v, a, b[..|b| - 1]);
    }
  }

  /** Each entry of the result is the starting entry plus every amount added at that index. */
  lemma {:induction false} ApplySum(v: seq<real>, cs: seq<Contribution>, k: int)
    requires 0 <= k < |v|
    ensures Apply(v, cs)[k] == v[k] + SumAt(cs, k)
  {
    if cs != [] {
      ApplySum(v, cs[..|cs| - 1], k);
    }
  }

  /** `new Array(342).fill(0)`. */
  function Zeros(): (v: seq<real>)
    ensures |v| == VectorWidth && forall k :: 0 <= k < VectorWidth ==> v[k] == 0.0
  {
    seq(VectorWidth, _ => 0.0)
  }

  /** The input vector of sample `i`. */
  function InputVector(t: Tables, selection: map<int, real>, comboWeight: (int, int) -> real, w: InputWeights, teams: seq<Team>, i: nat): seq<real>
    requires 0 < i <= |teams|
  {
    Apply(Zeros(), WindowContribs(t, selection, comboWeight, w, teams, i, i))
  }

  // ---------------------------------------------------------------------------
  // The accumulation loops
  // ---------------------------------------------------------------------------

  /** The teams the loops may index with: at most five positions and ids within the pools. */
  predicate Indexable(t: Tables, teams: seq<Team>) {
    ValidTables(t) && forall k :: 0 <= k < |teams| ==> WellFormed(teams[k])
  }

  /** Every id a team resolves to indexes its block of the vector: what the loops need of the tables. */
  predicate InPool(t: Tables, team: Team) {
    |team.players| <= 5 && PlayersInPool(t, team.players) && GoalieInPool(t, team.goalie)
  }

  predicate PlayersInPool(t: Tables, ps: seq<PlayerRef>) {
    forall k :: 0 <= k < |ps| && PlayerId(t, ps[k]).Some? ==> 1 <= PlayerId(t, ps[k]).value <= PlayerPool
  }

  predicate GoalieInPool(t: Tables, g: GoalieRef) {
    GoalieId(t, g).Some? ==> 1 <= GoalieId(t, g).value <= GoaliePool
  }

  lemma InPoolOf(t: Tables, team: Team)
    requires ValidTables(t) && WellFormed(team)
    ensures InPool(t, team)
  {
    forall k | 0 <= k < |team.players| && PlayerId(t, team.players[k]).Some?
      ensures 1 <= PlayerId(t, team.players[k]).value <= PlayerPool
    {
      IdsInRange(t, team, k);
    }
    if |team.players| == 0 {
      assert team.goalie.GoalieNamed? && GoalieId(t, team.goalie).Some? ==> 1 <= GoalieId(t, team.goalie).value <= GoaliePool;
    } else {
      IdsInRange(t, team, 0);
    }
  }

  /** One turn of the pair loop, on the vector: at most one entry of the player's block grows. */
  lemma PairStep(t: Tables, comboWeight: (int, int) -> real, w: InputWeights, ps: seq<PlayerRef>, pos: nat, pid: int, rec: real, n: nat, v: seq<real>)
    requires PlayersInPool(t, ps) && pos < 5 && n < |ps| && |v| == VectorWidth
    ensures var oid := PlayerId(t, ps[n]);
      && (pos != n && oid.Some? ==> 0 <= Slot(pos, oid.value) < VectorWidth)
      && Apply(v, OtherContribs(t, comboWeight, w, ps, pos, pid, rec, n + 1)) ==
         if pos != n && oid.Some? then
           var before := Apply(v, OtherContribs(t, comboWeight, w, ps, pos, pid, rec, n));
           before[Slot(pos, oid.value) := before[Slot(pos, oid.value)] + PairAmount(comboWeight, w, pid, oid.value, rec)]
         else Apply(v, OtherContribs(t, comboWeight, w, ps, pos, pid, rec, n))
  {
    var cs := OtherContribs(t, comboWeight, w, ps, pos, pid, rec, n);
    var oid := PlayerId(t, ps[n]);
    if pos != n && oid.Some? {
      var c := Contribution(Slot(pos, oid.value), PairAmount(comboWeight, w, pid, oid.value, rec));
      assert OtherContribs(t, comboWeight, w, ps, pos, pid, rec, n + 1) == cs + [c];
      ApplySnoc(v, cs, c);
    } else {
      assert OtherContribs(t, comboWeight, w, ps, pos, pid, rec, n + 1) == cs;
    }
  }

  /** The additions of one position, as the loop body makes them. */
  lemma PositionParts(t: Tables, selection: map<int, real>, comboWeight: (int, int) -> real, w: InputWeights, team: Team, rec: real, pos: nat, v: seq<real>)
    requires pos < |team.players| && PlayerId(t, team.players[pos]).Some?
    ensures var pid := PlayerId(t, team.players[pos]).value;
      Apply(v, PositionContribs(t, selection, comboWeight, w, team, rec, pos)) ==
      Apply(Apply(Add(v, Contribution(Slot(pos, pid), OwnAmount(selection, w, pid, rec))), OtherContribs(t, comboWeight, w, team.players, pos, pid, rec, |team.players|)), GoalieContrib(t, w, team, rec))
  {
    var pid := PlayerId(t, team.players[pos]).value;
    var own := Contribution(Slot(pos, pid), OwnAmount(selection, w, pid, rec));
    var pairs := OtherContribs(t, comboWeight, w, team.players, pos, pid, rec, |team.players|);
    var goalie := GoalieContrib(t, w, team, rec);
    ApplyAppend(v, [own] + pairs, goalie);
    ApplyAppend(v, [own], pairs);
    ApplySnoc(v, [], own);
    assert [] + [own] == [own];
  }

  /** The goalie addition, on the vector. */
  lemma GoalieStep(t: Tables, w: InputWeights, team: Team, rec: real, v: seq<real>)
    requires GoalieInPool(t, team.goalie) && |v| == VectorWidth
    ensures var gid := GoalieId(t, team.goalie);
      && (gid.Some? ==> 0 <= GoalieEntry(gid.value) < VectorWidth)
      && Apply(v, GoalieContrib(t, w, team, rec)) ==
         if HasGoalie(team.goalie) && gid.Some? then v[GoalieEntry(gid.value) := v[GoalieEntry(gid.value)] + GoalieAmount(w, rec)] else v
  {
    var gid := GoalieId(t, team.goalie);
    if HasGoalie(team.goalie) && gid.Some? {
      var c := Contribution(GoalieEntry(gid.value), GoalieAmount(w, rec));
      ApplySnoc(v, [], c);
      assert [] + [c] == [c];
    }
  }

  lemma TeamContribsStep(t: Tables, selection: map<int, real>, comboWeight: (int, int) -> real, w: InputWeights, team: Team, rec: real, n: nat)
    requires n < |team.players|
    ensures TeamContribs(t, selection, comboWeight, w, team, rec, n + 1) == TeamContribs(t, selection, comboWeight, w, team, rec, n) + PositionContribs(t, selection, comboWeight, w, team, rec, n)
  {
  }

  lemma WindowContribsStep(t: Tables, selection: map<int, real>, comboWeight: (int, int) -> real, w: InputWeights, teams: seq<Team>, i: nat, n: nat)
    requires 0 < i <= |teams| && n < i
    ensures WindowContribs(t, selection, comboWeight, w, teams, i, n + 1) == WindowContribs(t, selection, comboWeight, w, teams, i, n) + TeamContribs(t, selection, comboWeight, w, teams[n], Recency(w, n, i), |teams[n].players|)
  {
  }

  /** `input[index] += amount`. */
  method Bump(input: array<real>, index: int, amount: real)
    requires 0 <= index < input.Length
    modifies input
    ensures input[..] == Add(old(input[..]), Contribution(index, amount))
  {
    input[index] := input[index] + amount;
  }

  /** The inner loop over the other positions. */
  method AddPairs(t: Tables, comboWeight: (int, int) -> real, w: InputWeights, ps: seq<PlayerRef>, pos: nat, pid: int, rec: real, input: array<real>)
    requires PlayersInPool(t, ps) && pos < 5 && pos < |ps|
    requires input.Length == VectorWidth
    modifies input
    ensures input[..] == Apply(old(input[..]), OtherContribs(t, comboWeight, w, ps, pos, pid, rec, |ps|))
  {
    for otherPos := 0 to |ps|
      invariant input[..] == Apply(old(input[..]), OtherContribs(t, comboWeight, w, ps, pos, pid, rec, otherPos))
    {
      PairStep(t, comboWeight, w, ps, pos, pid, rec, otherPos, old(input[..]));
      if pos != otherPos {
        var otherId := PlayerId(t, ps[otherPos]);
        if otherId.Some? {
          Bump(input, Slot(pos, otherId.value), PairAmount(comboWeight, w, pid, otherId.value, rec));
        }
      }
    }
  }

  /** The loop over one earlier team's positions. */
  method AddTeam(t: Tables, selection: map<int, real>, comboWeight: (int, int) -> real, w: InputWeights, team: Team, rec: real, input: array<real>)
    requires InPool(t, team)
    requires input.Length == VectorWidth
    modifies input
    ensures input[..] == Apply(old(input[..]), TeamContribs(t, selection, comboWeight, w, team, rec, |team.players|))
  {
    for pos := 0 to |team.players|
      invariant input[..] == Apply(old(input[..]), TeamContribs(t, selection, comboWeight, w, team, rec, pos))
    {
      TeamContribsStep(t, selection, comboWeight, w, team, rec, pos);
      ApplyAppend(old(input[..]), TeamContribs(t, selection, comboWeight, w, team, rec, pos), PositionContribs(t, selection, comboWeight, w, team, rec, pos));
      AddPosition(t, selection, comboWeight, w, team, rec, pos, input);
    }
  }

  /** The body of the position loop: the player, its pairs and the goalie. */
  method AddPosition(t: Tables, selection: map<int, real>, comboWeight: (int, int) -> real, w: InputWeights, team: Team, rec: real, pos: nat, input: array<real>)
    requires InPool(t, team) && pos < |team.players|
    requires input.Length == VectorWidth
    modifies input
    ensures input[..] == Apply(old(input[..]), PositionContribs(t, selection, comboWeight, w, team, rec, pos))
  {
    var playerId := PlayerId(t, team.players[pos]);
    if playerId.Some? {
      PositionParts(t, selection, comboWeight, w, team, rec, pos, input[..]);
      Bump(input, Slot(pos, playerId.value), OwnAmount(selection, w, playerId.value, rec));
      AddPairs(t, comboWeight, w, team.players, pos, playerId.value, rec, input);
      AddGoalie(t, w, team, rec, input);
    }
  }

  /** The goalie addition at the end of the position loop body. */
  method AddGoalie(t: Tables, w: InputWeights, team: Team, rec: real, input: array<real>)
    requires GoalieInPool(t, team.goalie)
    requires input.Length == VectorWidth
    modifies input
    ensures input[..] == Apply(old(input[..]), GoalieContrib(t, w, team, rec))
  {
    GoalieStep(t, w, team, rec, input[..]);
    if HasGoalie(team.goalie) {
      var goalieId := GoalieId(t, team.goalie);
      if goalieId.Some? {
        Bump(input, GoalieEntry(goalieId.value), GoalieAmount(w, rec));
      }
    }
  }

  /** The input of sample `i`: a zeroed vector, then every earlier team with its recency weight. */
  method BuildInput(t: Tables, selection: map<int, real>, comboWeight: (int, int) -> real, w: InputWeights, teams: seq<Team>, i: nat) returns (input: array<real>)
    requires (forall k :: 0 <= k < |teams| ==> InPool(t, teams[k])) && 0 < i <= |teams|
    ensures input[..] == InputVector(t, selection, comboWeight, w, teams, i)
  {
    input := new real[VectorWidth](_ => 0.0);
    assert input[..] == Zeros();
    for idx := 0 to i
      invariant input.Length == VectorWidth
      invariant input[..] == Apply(Zeros(), WindowContribs(t, selection, comboWeight, w, teams, i, idx))
    {
      var recencyWeight := Recency(w, idx, i);
      WindowContribsStep(t, selection, comboWeight, w, teams, i, idx);
      ApplyAppend(Zeros(), WindowContribs(t, selection, comboWeight, w, teams, i, idx), TeamContribs(t, selection, comboWeight, w, teams[idx], recencyWeight, |teams[idx].players|));
      AddTeam(t, selection, comboWeight, w, teams[idx], recencyWeight, input);
    }
  }

  // ---------------------------------------------------------------------------
  // prepareTrainingData
  // ---------------------------------------------------------------------------

  /**
   * Sample `i` (for `0 < i < |teams|`): the input built from the teams before
   * `i`, and the target vector of team `i` scored with the position
   * preferences `prefs` of the whole history.
   */
  function SampleAt(t: Tables, selection: map<int, real>, comboWeight: (int, int) -> real, w: InputWeights, teams: seq<Team>, prefs: map<int, seq<real>>, i: nat): Sample
    requires 0 < i < |teams|
  {
    Sample(InputVector(t, selection, comboWeight, w, teams, i), Encoder.Output(t, teams[i], prefs))
  }

  /** Samples 1..n. */
  function SamplesUpTo(t: Tables, selection: map<int, real>, comboWeight: (int, int) -> real, w: InputWeights, teams: seq<Team>, prefs: map<int, seq<real>>, n: nat): (r: seq<Sample>)
    requires n < |teams|
    ensures |r| == n
  {
    seq(n, j requires 0 <= j < n => SampleAt(t, selection, comboWeight, w, teams, prefs, j + 1))
  }

  lemma SamplesUpToStep(t: Tables, selection: map<int, real>, comboWeight: (int, int) -> real, w: InputWeights, teams: seq<Team>, prefs: map<int, seq<real>>, n: nat)
    requires n + 1 < |teams|
    ensures SamplesUpTo(t, selection, comboWeight, w, teams, prefs, n + 1) == SamplesUpTo(t, selection, comboWeight, w, teams, prefs, n) + [SampleAt(t, selection, comboWeight, w, teams, prefs, n + 1)]
  {
    var longer := SamplesUpTo(t, selection, comboWeight, w, teams, prefs, n + 1);
    var shorter := SamplesUpTo(t, selection, comboWeight, w, teams, prefs, n);
    forall j | 0 <= j < n ensures longer[j] == shorter[j] {
    }
  }

  /** One sample per team after the first, targets scored with the preferences `prefs`. */
  function Samples(t: Tables, selection: map<int, real>, comboWeight: (int, int) -> real, w: InputWeights, teams: seq<Team>, prefs: map<int, seq<real>>): (r: seq<Sample>)
    ensures |r| == if |teams| == 0 then 0 else |teams| - 1
  {
    if |teams| == 0 then [] else SamplesUpTo(t, selection, comboWeight, w, teams, prefs, |teams| - 1)
  }

  /**
   * The result of `prepareTrainingData(teams)`: the analyzer's error, or the
   * samples, with the analyzer's weights in the inputs and the position
   * preferences of the whole history in the targets.
   */
  function TrainingData(t: Tables, f: Factors, w: InputWeights, teams: seq<Team>): Result<seq<Sample>, AnalyzeError>
    requires PlayerStats.FivePositions(teams)
  {
    match Analyze(t, f, AsEntries(teams))
    case Err(e) => Err(e)
    case Ok(a) =>
      Ok(Samples(t, a.playerWeights.selection, ComboWeights(a.playerWeights.combinations), w, teams, PlayerStats.StatsOf(t, teams).positionPreference))
  }

  /** At most five positions per team: the bound the position statistics rely on. */
  lemma IndexableFive(t: Tables, teams: seq<Team>)
    requires Indexable(t, teams)
    ensures PlayerStats.FivePositions(teams)
    ensures forall k :: 0 <= k < |teams| ==> InPool(t, teams[k])
  {
    forall k | 0 <= k < |teams| ensures InPool(t, teams[k]) {
      InPoolOf(t, teams[k]);
    }
  }

  /**
   * `prepareTrainingData(teams)`: the analysis, then the samples. The player
   * statistics, which the loop recomputes from the same history on every
   * turn, are computed once.
   */
  method PrepareTrainingData(t: Tables, f: Factors, w: InputWeights, teams: seq<Team>) returns (r: Result<seq<Sample>, AnalyzeError>)
    requires Indexable(t, teams)
    ensures PlayerStats.FivePositions(teams) && r == TrainingData(t, f, w, teams)
  {
    IndexableFive(t, teams);
    var analysis := AnalyzeTeamPatterns(t, f, AsEntries(teams));
    if analysis.Err? {
      return Err(analysis.error);
    }
    var stats := PlayerStats.CalculatePlayerStats(t, teams);
    var samples := BuildSamples(t, analysis.value.playerWeights.selection, ComboWeights(analysis.value.playerWeights.combinations), w, teams, stats.positionPreference);
    r := Ok(samples);
  }

  /** The loop over the teams after the first. */
  method BuildSamples(t: Tables, selection: map<int, real>, comboWeight: (int, int) -> real, w: InputWeights, teams: seq<Team>, prefs: map<int, seq<real>>) returns (samples: seq<Sample>)
    requires Indexable(t, teams)
    ensures samples == Samples(t, selection, comboWeight, w, teams, prefs)
  {
    if |teams| == 0 {
      return [];
    }
    samples := [];
    for n := 0 to |teams| - 1
      invariant samples == SamplesUpTo(t, selection, comboWeight, w, teams, prefs, n)
    {
      samples := AppendSample(t, selection, comboWeight, w, teams, prefs, samples, n);
    }
  }

  /** One turn of the sample loop: the sample of team `n + 1` joins those of teams 1 to `n`. */
  method AppendSample(t: Tables, selection: map<int, real>, comboWeight: (int, int) -> real, w: InputWeights, teams: seq<Team>, prefs: map<int, seq<real>>, samples: seq<Sample>, n: nat) returns (r: seq<Sample>)
    requires Indexable(t, teams) && n + 1 < |teams|
    requires samples == SamplesUpTo(t, selection, comboWeight, w, teams, prefs, n)
    ensures r == SamplesUpTo(t, selection, comboWeight, w, teams, prefs, n + 1)
  {
    var sample := BuildSample(t, selection, comboWeight, w, teams, prefs, n + 1);
    SamplesUpToStep(t, selection, comboWeight, w, teams, prefs, n);
    r := samples + [sample];
  }

  /** The body of the sample loop: the input, then the target vector of team `i`. */
  method BuildSample(t: Tables, selection: map<int, real>, comboWeight: (int, int) -> real, w: InputWeights, teams: seq<Team>, prefs: map<int, seq<real>>, i: nat) returns (sample: Sample)
    requires Indexable(t, teams) && 0 < i < |teams|
    ensures sample == SampleAt(t, selection, comboWeight, w, teams, prefs, i)
  {
    IndexableFive(t, teams);
    var input := BuildInput(t, selection, comboWeight, w, teams, i);
    var output := Encoder.EnhancedOutput(t, teams[i], prefs);
    assert output[..] == Encoder.Output(t, teams[i], prefs);
    sample := Sample(input[..], output[..]);
  }

  // ---------------------------------------------------------------------------
  // What the samples hold
  // ---------------------------------------------------------------------------

  /** An entry the accumulation may mark: one of the 47 player entries of blocks 0 to 4, or a goalie entry. */
  predicate Markable(k: int) {
    (0 <= k < 5 * BlockWidth && k % BlockWidth < PlayerPool) || GoalieBase <= k < VectorWidth
  }

  /** Every addition of `cs` lands on a markable entry, and adds nothing when `silent` holds. */
  predicate Confined(cs: seq<Contribution>, silent: bool) {
    forall j :: 0 <= j < |cs| ==> Markable(cs[j].index) && (silent ==> cs[j].amount == 0.0)
  }

  lemma {:induction false} OtherConfined(t: Tables, comboWeight: (int, int) -> real, w: InputWeights, ps: seq<PlayerRef>, pos: nat, pid: int, rec: real, n: nat)
    requires PlayersInPool(t, ps) && pos < 5 && n <= |ps|
    ensures Confined(OtherContribs(t, comboWeight, w, ps, pos, pid, rec, n), rec == 0.0)
  {
    if n > 0 {
      OtherConfined(t, comboWeight, w, ps, pos, pid, rec, n - 1);
      var otherId := PlayerId(t, ps[n - 1]);
      if pos != n - 1 && otherId.Some? {
        Encoder.BlockIndex(pos, otherId.value - 1);
      }
    }
  }

  lemma PositionConfined(t: Tables, selection: map<int, real>, comboWeight: (int, int) -> real, w: InputWeights, team: Team, rec: real, pos: nat)
    requires InPool(t, team) && pos < |team.players|
    ensures Confined(PositionContribs(t, selection, comboWeight, w, team, rec, pos), rec == 0.0)
  {
    var playerId := PlayerId(t, team.players[pos]);
    if playerId.Some? {
      Encoder.BlockIndex(pos, playerId.value - 1);
      OtherConfined(t, comboWeight, w, team.players, pos, playerId.value, rec, |team.players|);
    }
  }

  lemma {:induction false} TeamConfined(t: Tables, selection: map<int, real>, comboWeight: (int, int) -> real, w: InputWeights, team: Team, rec: real, n: nat)
    requires InPool(t, team) && n <= |team.players|
    ensures Confined(TeamContribs(t, selection, comboWeight, w, team, rec, n), rec == 0.0)
  {
    if n > 0 {
      TeamConfined(t, selection, comboWeight, w, team, rec, n - 1);
      PositionConfined(t, selection, comboWeight, w, team, rec, n - 1);
    }
  }

  lemma {:induction false} WindowConfined(t: Tables, selection: map<int, real>, comboWeight: (int, int) -> real, w: InputWeights, teams: seq<Team>, i: nat, n: nat)
    requires (forall k :: 0 <= k < |teams| ==> InPool(t, teams[k])) && 0 < i <= |teams| && n <= i
    ensures Confined(WindowContribs(t, selection, comboWeight, w, teams, i, n), w.recencyBase == 0.0 && w.recencyScale == 0.0)
  {
    if n > 0 {
      WindowConfined(t, selection, comboWeight, w, teams, i, n - 1);
      TeamConfined(t, selection, comboWeight, w, teams[n - 1], Recency(w, n - 1, i), |teams[n - 1].players|);
    }
  }

  /** Additions elsewhere, or of nothing, leave an entry's sum at 0. */
  lemma {:induction false} SumAtQuiet(cs: seq<Contribution>, k: int)
    requires forall j :: 0 <= j < |cs| ==> cs[j].index != k || cs[j].amount == 0.0
    ensures SumAt(cs, k) == 0.0
  {
    if cs != [] {
      SumAtQuiet(cs[..|cs| - 1], k);
    }
  }

  /**
   * Entry `k` of the input of sample `i` is the sum of the amounts added at
   * `k` by the teams before `i`. Only the player entries of blocks 0 to 4 and
   * the goalie entries can be non-zero, and with zero recency base and scale
   * (the shipped weights) every entry is 0.
   */
  lemma InputLayout(t: Tables, selection: map<int, real>, comboWeight: (int, int) -> real, w: InputWeights, teams: seq<Team>, i: nat, k: nat)
    requires (forall j :: 0 <= j < |teams| ==> InPool(t, teams[j])) && 0 < i <= |teams| && k < VectorWidth
    ensures |InputVector(t, selection, comboWeight, w, teams, i)| == VectorWidth
    ensures InputVector(t, selection, comboWeight, w, teams, i)[k] == SumAt(WindowContribs(t, selection, comboWeight, w, teams, i, i), k)
    ensures !Markable(k) ==> InputVector(t, selection, comboWeight, w, teams, i)[k] == 0.0
    ensures w.recencyBase == 0.0 && w.recencyScale == 0.0 ==> InputVector(t, selection, comboWeight, w, teams, i)[k] == 0.0
  {
    var cs := WindowContribs(t, selection, comboWeight, w, teams, i, i);
    ApplySum(Zeros(), cs, k);
    WindowConfined(t, selection, comboWeight, w, teams, i, i);
    if !Markable(k) || (w.recencyBase == 0.0 && w.recencyScale == 0.0) {
      SumAtQuiet(cs, k);
    }
  }

  /** Under the shipped weights the network is trained on all-zero inputs. */
  lemma ShippedInputsVanish(t: Tables, selection: map<int, real>, comboWeight: (int, int) -> real, teams: seq<Team>, i: nat)
    requires (forall j :: 0 <= j < |teams| ==> InPool(t, teams[j])) && 0 < i <= |teams|
    ensures InputVector(t, selection, comboWeight, ShippedWeights, teams, i) == Zeros()
  {
    forall k | 0 <= k < VectorWidth ensures InputVector(t, selection, comboWeight, ShippedWeights, teams, i)[k] == 0.0 {
      InputLayout(t, selection, comboWeight, ShippedWeights, teams, i, k);
    }
  }

  /**
   * Sample `j` pairs the history before team `j + 1` with that team: both
   * vectors are 342 wide, and reading the target back gives the id of each
   * position of team `j + 1` and its goalie.
   */
  lemma SampleTargets(t: Tables, selection: map<int, real>, comboWeight: (int, int) -> real, w: InputWeights, teams: seq<Team>, j: nat, pos: nat)
    requires Indexable(t, teams) && PlayerStats.FivePositions(teams) && j + 1 < |teams| && pos < 5
    ensures var s := Samples(t, selection, comboWeight, w, teams, PlayerStats.StatsOf(t, teams).positionPreference)[j];
      && |s.input| == VectorWidth && |s.output| == VectorWidth
      && Encoder.ReadPlayer(s.output, pos) == (if pos < |teams[j + 1].players| then PlayerId(t, teams[j + 1].players[pos]) else None)
      && Encoder.ReadGoalie(s.output) == Encoder.GoalieSlot(t, teams[j + 1].goalie)
  {
    var prefs := PlayerStats.StatsOf(t, teams).positionPreference;
    PlayerStats.PositionPreferenceInUnit(t, teams);
    assert Encoder.ShareTable(prefs);
    Encoder.PlayerRoundTrip(t, teams[j + 1], prefs, pos);
    Encoder.GoalieRoundTrip(t, teams[j + 1], prefs);
  }

  /**
   * `prepareTrainingData` fails exactly when no team names a goalie (the
   * analyzer's error); otherwise there is one sample per team after the first.
   */
  lemma TrainingDataOutcome(t: Tables, f: Factors, w: InputWeights, teams: seq<Team>)
    requires PlayerStats.FivePositions(teams)
    ensures TrainingData(t, f, w, teams).Err? <==> forall i :: 0 <= i < |teams| ==> !HasGoalie(teams[i].goalie)
    ensures TrainingData(t, f, w, teams).Ok? ==> |teams| > 0 && |TrainingData(t, f, w, teams).value| == |teams| - 1
  {
    var entries := AsEntries(teams);
    AnalyzeOutcome(t, f, entries);
    assert forall i :: 0 <= i < |teams| ==> entries[i] == Entry(teams[i]);
  }

  /**
   * The pair weight is looked up as `${playerId}-${otherId}`, in loop order,
   * while the analyzer counts the pair under its string-sorted key: for
   * players 9 then 10 the lookup asks for "9-10" and the count sits under
   * "10-9". The same pair met as 10 then 9 is found.
   */
  lemma ComboKeyOrder()
    ensures ComboKey(9, 10) == "9-10" && PairKey(9, 10) == "10-9"
    ensures ComboKey(10, 9) == PairKey(9, 10)
  {
    PairKeyLexicographic();
    assert IntString(9) == "9" && IntString(10) == "10";
  }

  /** For ids of the pool, the lookup key is the analyzer's key exactly when the first id's string does not sort after the second's. */
  lemma ComboKeyMatches(a: nat, b: nat)
    ensures ComboKey(a, b) == PairKey(a, b) <==> !LexLess(IntString(b), IntString(a))
  {
    var s1, s2 := IntString(a), IntString(b);
    if LexLess(s2, s1) {
      LexTotal(s1, s2);
      LexTotal(s2, s2);
      DT.DecimalDigits(a);
      DT.DecimalDigits(b);
      JoinedDiffer(s2, s1);
    }
  }

  /** Two different digit strings joined with '-' in either order give different keys. */
  lemma JoinedDiffer(x: string, y: string)
    requires x != y
    requires forall k :: 0 <= k < |x| ==> DT.IsDigit(x[k])
    requires forall k :: 0 <= k < |y| ==> DT.IsDigit(y[k])
    ensures x + "-" + y != y + "-" + x
  {
    if |x| == |y| {
      var d :| 0 <= d < |x| && x[d] != y[d];
      assert (x + "-" + y)[d] == x[d] && (y + "-" + x)[d] == y[d];
    } else if |x| < |y| {
      assert (x + "-" + y)[|x|] == '-' && (y + "-" + x)[|x|] == y[|x|];
    } else {
      assert (y + "-" + x)[|y|] == '-' && (x + "-" + y)[|y|] == x[|y|];
    }
  }
}
