/**
 * `predictNextTeam` and `predictMultipleTimes`: the history is encoded as one
 * 342-wide block per team, the network maps it to a 342-wide score vector,
 * and each block of the scores is read back as the best candidate of that
 * slot. The network is a parameter: a function from input to scores.
 */
module Predictor {
  import opened Wrappers
  import opened Teams
  import opened StableSort
  import opened Settings
  import Training
  import Encoder
  import Ratios

  /** `this.network.run`: the model assumes it always answers with 342 scores. */
  ghost predicate Sized(net: seq<real> -> seq<real>) {
    forall x :: |net(x)| == VectorWidth
  }

  /** The ids the predictor writes stay inside their 57-wide blocks. */
  predicate InHistoryPool(t: Tables, team: Team) {
    Training.InPool(t, team)
  }

  // ---------------------------------------------------------------------------
  // The input: one block per team of the history
  // ---------------------------------------------------------------------------

  /**
   * Entry `r` of the block of one team written with weight `rec`, after its
   * first `n` positions and, when `goalieDone`, its goalie: the resolved
   * player of a position gets `rec` at its id, a goalie given by name gets
   * `rec * toGoalie` at its id.
   */
  function TeamMarks(t: Tables, team: Team, rec: real, toGoalie: real, n: nat, goalieDone: bool, r: nat): real {
    if r < 5 * BlockWidth then
      var pos, j := r / BlockWidth, r % BlockWidth;
      if pos < n && pos < |team.players| && PlayerId(t, team.players[pos]) == Some(j + 1) then rec else 0.0
    else if goalieDone && GoalieBase <= r < VectorWidth && GoalieIdByName(t, team.goalie) == Some(r - GoalieBase + 1) then rec * toGoalie
    else 0.0
  }

  /** Entry `k` of the input: block `k / 342` belongs to team `k / 342`, weighted by its recency. */
  function HistoryInputAt(t: Tables, w: InputWeights, teams: seq<Team>, k: nat): real {
    var s := k / VectorWidth;
    if s < |teams| then TeamMarks(t, teams[s], Recency(w, s, |teams|), w.playerToGoalie, |teams[s].players|, true, k % VectorWidth)
    else 0.0
  }

  /** The input `predictNextTeam` hands to the network: `(47 + 10) * 6 * teams.length` entries. */
  function HistoryInput(t: Tables, w: InputWeights, teams: seq<Team>): (v: seq<real>)
    ensures |v| == VectorWidth * |teams|
  {
    seq(VectorWidth * |teams|, k requires 0 <= k < VectorWidth * |teams| => HistoryInputAt(t, w, teams, k))
  }

  lemma HistoryBlock(s: nat, r: nat)
    requires r < VectorWidth
    ensures (s * VectorWidth + r) / VectorWidth == s
    ensures (s * VectorWidth + r) % VectorWidth == r
  {
  }

  /** One team of the `forEach`: its players, then its goalie, written into a zeroed block at `base`. */
  method EncodeTeam(t: Tables, team: Team, rec: real, toGoalie: real, base: nat, input: array<real>)
    requires InHistoryPool(t, team) && base + VectorWidth <= input.Length
    requires forall k :: base <= k < base + VectorWidth ==> input[k] == 0.0
    modifies input
    ensures forall k :: base <= k < base + VectorWidth ==> input[k] == TeamMarks(t, team, rec, toGoalie, |team.players|, true, k - base)
    ensures forall k :: 0 <= k < input.Length && !(base <= k < base + VectorWidth) ==> input[k] == old(input[k])
  {
    for pos := 0 to |team.players|
      invariant forall k :: base <= k < base + VectorWidth ==> input[k] == TeamMarks(t, team, rec, toGoalie, pos, false, k - base)
      invariant forall k :: 0 <= k < input.Length && !(base <= k < base + VectorWidth) ==> input[k] == old(input[k])
    {
      var playerId := PlayerId(t, team.players[pos]);
      if playerId.Some? {
        var offset := pos * BlockWidth + (playerId.value - 1);
        Encoder.BlockIndex(pos, playerId.value - 1);
        input[base + offset] := rec;
        forall r | 0 <= r < VectorWidth && r != offset
          ensures TeamMarks(t, team, rec, toGoalie, pos + 1, false, r) == TeamMarks(t, team, rec, toGoalie, pos, false, r)
        {
          if r < 5 * BlockWidth && r / BlockWidth == pos {
            assert r % BlockWidth != playerId.value - 1;
          }
        }
      }
    }
    var goalieId := GoalieIdByName(t, team.goalie);
    if goalieId.Some? {
      input[base + GoalieBase + (goalieId.value - 1)] := rec * toGoalie;
    }
  }

  /** The input loop of `predictNextTeam`. */
  method EncodeHistory(t: Tables, w: InputWeights, teams: seq<Team>) returns (input: array<real>)
    requires forall k :: 0 <= k < |teams| ==> InHistoryPool(t, teams[k])
    ensures input[..] == HistoryInput(t, w, teams)
  {
    input := new real[VectorWidth * |teams|](_ => 0.0);
    for s := 0 to |teams|
      invariant input.Length == VectorWidth * |teams|
      invariant forall k :: 0 <= k < input.Length ==> input[k] == if k < s * VectorWidth then HistoryInputAt(t, w, teams, k) else 0.0
    {
      EncodeTeam(t, teams[s], Recency(w, s, |teams|), w.playerToGoalie, s * VectorWidth, input);
      forall k | s * VectorWidth <= k < (s + 1) * VectorWidth
        ensures input[k] == HistoryInputAt(t, w, teams, k)
      {
        HistoryBlock(s, k - s * VectorWidth);
      }
    }
  }

  /** Entry `i` of block `pos` of team `s` is marked exactly when that position resolves to id `i + 1`. */
  lemma HistoryEntry(t: Tables, w: InputWeights, teams: seq<Team>, s: nat, pos: nat, i: nat)
    requires s < |teams| && pos < 5 && i < PlayerPool && Recency(w, s, |teams|) != 0.0
    ensures HistoryInputAt(t, w, teams, s * VectorWidth + pos * BlockWidth + i) != 0.0
      <==> pos < |teams[s].players| && PlayerId(t, teams[s].players[pos]) == Some(i + 1)
  {
    HistoryBlock(s, pos * BlockWidth + i);
    Encoder.BlockIndex(pos, i);
  }

  /** Reading block `pos` of team `s` back from the input gives the id that position resolves to, whenever the team weighs something. */
  lemma HistoryRoundTrip(t: Tables, w: InputWeights, teams: seq<Team>, s: nat, pos: nat)
    requires forall k :: 0 <= k < |teams| ==> InHistoryPool(t, teams[k])
    requires s < |teams| && pos < 5 && Recency(w, s, |teams|) != 0.0
    ensures var start := s * VectorWidth + pos * BlockWidth;
      var id := Encoder.FirstNonZero(HistoryInput(t, w, teams)[start..start + PlayerPool], 0);
      (if id.Some? then Some(id.value + 1) else None) == (if pos < |teams[s].players| then PlayerId(t, teams[s].players[pos]) else None)
  {
    var v := HistoryInput(t, w, teams);
    var start := s * VectorWidth + pos * BlockWidth;
    var b := v[start..start + PlayerPool];
    var id := if pos < |teams[s].players| then PlayerId(t, teams[s].players[pos]) else None;
    forall i | 0 <= i < |b| ensures b[i] != 0.0 <==> id == Some(i + 1) {
      assert b[i] == v[start + i];
      HistoryEntry(t, w, teams, s, pos, i);
    }
    if id.Some? {
      assert InHistoryPool(t, teams[s]);
      Encoder.FirstNonZeroFinds(b, 0, id.value - 1);
    } else {
      Encoder.FirstNonZeroNone(b, 0);
    }
  }

  /** Under the shipped weights every team weighs 0: the network sees only zeros, whatever the history. */
  lemma ShippedHistoryVanishes(t: Tables, teams: seq<Team>)
    ensures forall k :: 0 <= k < |HistoryInput(t, ShippedWeights, teams)| ==> HistoryInput(t, ShippedWeights, teams)[k] == 0.0
  {
    forall k | 0 <= k < VectorWidth * |teams| ensures HistoryInputAt(t, ShippedWeights, teams, k) == 0.0 {
      if k / VectorWidth < |teams| {
        ShippedRecencyIsZero(k / VectorWidth, |teams|);
      }
    }
  }

  // ---------------------------------------------------------------------------
  // Reading the scores back
  // ---------------------------------------------------------------------------

  /** `scores.slice(start, start + count).map((prob, idx) => ({ probability: prob, id: idx + 1 }))`. */
  function Candidates(scores: seq<real>, start: nat, count: nat): (c: seq<Scored<int>>)
    requires start + count <= |scores|
    ensures |c| == count
    ensures forall i :: 0 <= i < count ==> c[i].item == i + 1 && c[i].score == scores[start + i]
  {
    seq(count, i requires 0 <= i < count => Scored(i + 1, scores[start + i]))
  }

  /** `previousTeams.slice(-5)`. */
  function Recent(teams: seq<Team>): (r: seq<Team>)
    ensures |r| <= 5 && (|r| == 5 || r == teams)
  {
    if |teams| <= 5 then teams else teams[|teams| - 5..]
  }

  /** Every one of the last five teams has a player at `pos`; otherwise reading its `.id` throws. */
  predicate Fielded(teams: seq<Team>, pos: nat) {
    forall k :: 0 <= k < |Recent(teams)| ==> pos < |Recent(teams)[k].players|
  }

  /** The fewest players among `teams`, and 5 when there are none. */
  function FewestPlayers(teams: seq<Team>): (m: nat)
    ensures m <= 5
    ensures forall k :: 0 <= k < |teams| ==> m <= |teams[k].players|
    ensures m < 5 ==> exists k :: 0 <= k < |teams| && |teams[k].players| == m
  {
    if teams == [] then 5
    else
      var rest := FewestPlayers(teams[1..]);
      assert forall k :: 1 <= k < |teams| ==> teams[k] == teams[1..][k - 1];
      if |teams[0].players| < rest then |teams[0].players| else rest
  }

  /** Position `pos` can be read exactly below the size of the smallest of the last five teams. */
  lemma FieldedBelow(teams: seq<Team>, pos: nat)
    requires pos < 5
    ensures Fielded(teams, pos) <==> pos < FewestPlayers(Recent(teams))
  {
    var recent := Recent(teams);
    var m := FewestPlayers(recent);
    if m < 5 {
      var k :| 0 <= k < |recent| && |recent[k].players| == m;
    }
  }

  /** `player.id`: an object's id; a bare name has none. */
  function RefId(p: PlayerRef): Option<int> {
    if p.Record? then Some(p.id) else None
  }

  /** `previousTeams.slice(-5).map(team => team.players[position].id)`. */
  function HistoricalIds(teams: seq<Team>, pos: nat): (ids: seq<Option<int>>)
    requires Fielded(teams, pos)
    ensures |ids| == |Recent(teams)|
  {
    var recent := Recent(teams);
    seq(|recent|, k requires 0 <= k < |recent| => RefId(recent[k].players[pos]))
  }

  /** `if (historicalPositions.includes(pred.id)) pred.probability *= factor`, for each kept candidate. */
  function Boosted(top: seq<Scored<int>>, ids: seq<Option<int>>, factor: real): (r: seq<Scored<int>>)
    ensures |r| == |top|
  {
    seq(|top|, k requires 0 <= k < |top| => if Some(top[k].item) in ids then Scored(top[k].item, top[k].score * factor) else top[k])
  }

  /** The three best candidates of block `pos`, in the stable descending order. */
  function TopThree(scores: seq<real>, pos: nat): (top: seq<Scored<int>>)
    requires |scores| == VectorWidth && pos < 5
    ensures |top| == 3
  {
    Top(Candidates(scores, pos * BlockWidth, PlayerPool), 3)
  }

  /** The pick for position `pos`: the first of the three best candidates, after the recency boost. */
  function Pick(w: InputWeights, teams: seq<Team>, scores: seq<real>, pos: nat): Scored<int>
    requires |scores| == VectorWidth && pos < 5 && Fielded(teams, pos)
  {
    Boosted(TopThree(scores, pos), HistoricalIds(teams, pos), w.position)[0]
  }

  /** `[...].sort((a, b) => b.probability - a.probability)[0]` over the ten goalie entries. */
  function GoaliePick(scores: seq<real>): Scored<int>
    requires |scores| == VectorWidth
  {
    SortDescending(Candidates(scores, GoalieBase, GoaliePool))[0]
  }

  /**
   * The player picked at `pos` is the earliest candidate of maximal score in
   * the block (the stable sort puts it first), with its score multiplied by
   * the position weight when one of the last five teams had that id at `pos`.
   */
  lemma PickFacts(w: InputWeights, teams: seq<Team>, scores: seq<real>, pos: nat)
    requires |scores| == VectorWidth && pos < 5 && Fielded(teams, pos)
    ensures var cands := Candidates(scores, pos * BlockWidth, PlayerPool);
      var pick := Pick(w, teams, scores, pos);
      && pick.item == FirstMax(cands) + 1
      && 1 <= pick.item <= PlayerPool
      && pick.score == if Some(pick.item) in HistoricalIds(teams, pos) then cands[pick.item - 1].score * w.position else cands[pick.item - 1].score
  {
    var cands := Candidates(scores, pos * BlockWidth, PlayerPool);
    TopHead(cands, 3);
  }

  /** The goalie picked is the earliest goalie candidate of maximal score, with its raw score. */
  lemma GoaliePickFacts(scores: seq<real>)
    requires |scores| == VectorWidth
    ensures var cands := Candidates(scores, GoalieBase, GoaliePool);
      var pick := GoaliePick(scores);
      && pick == cands[FirstMax(cands)]
      && pick.item == FirstMax(cands) + 1
      && 1 <= pick.item <= GoaliePool
  {
    HeadIsFirstMax(Candidates(scores, GoalieBase, GoaliePool));
  }

  // ---------------------------------------------------------------------------
  // predictNextTeam
  // ---------------------------------------------------------------------------

  /** The ways `predictNextTeam` throws: `team.players[position]` is undefined for one of the last five teams. */
  datatype PredictError = MissingPlayer(position: nat)

  /** `{ name: table.find(m => m.id === id)?.name, id }`. */
  datatype Chosen = Chosen(name: Option<string>, id: int)

  /** `{ asTeam: { players, goalie }, confidence }`. */
  datatype Prediction = Prediction(players: seq<Chosen>, goalie: Chosen, confidence: real)

  function NameOf(table: Table, id: int): Option<string> {
    var m := FindById(table, id);
    if m.Some? then Some(m.value.name) else None
  }

  /** `players.reduce((sum, pred) => sum + pred.probability, 0)`. */
  function SumScores(picks: seq<Scored<int>>): real {
    if picks == [] then 0.0 else SumScores(picks[..|picks| - 1]) + picks[|picks| - 1].score
  }

  /** The result object built from the picks: names looked up by id, confidence the score sum divided by 6. */
  function Assemble(t: Tables, picks: seq<Scored<int>>, goalie: Scored<int>): Prediction {
    Prediction(
      seq(|picks|, i requires 0 <= i < |picks| => Chosen(NameOf(t.players, picks[i].item), picks[i].item)),
      Chosen(NameOf(t.goalies, goalie.item), goalie.item),
      SumScores(picks) / 6.0)
  }

  /** The five picks, for a history whose last five teams all have five players. */
  function Picks(w: InputWeights, teams: seq<Team>, scores: seq<real>): (picks: seq<Scored<int>>)
    requires |scores| == VectorWidth && Fielded(teams, 4)
    ensures |picks| == 5
  {
    assert forall pos :: 0 <= pos < 5 ==> Fielded(teams, pos);
    seq(5, pos requires 0 <= pos < 5 => Pick(w, teams, scores, pos))
  }

  /**
   * What `predictNextTeam(teams)` returns when the network is `net`: the map
   * over the positions throws at the first position one of the last five
   * teams lacks, which is the size of the smallest of them.
   */
  function Predict(t: Tables, w: InputWeights, teams: seq<Team>, net: seq<real> -> seq<real>): Result<Prediction, PredictError>
    requires Sized(net)
  {
    var scores := net(HistoryInput(t, w, teams));
    if !Fielded(teams, 4) then Err(MissingPlayer(FewestPlayers(Recent(teams))))
    else Ok(Assemble(t, Picks(w, teams, scores), GoaliePick(scores)))
  }

  /**
   * `predictNextTeam` throws exactly when one of the last five teams has
   * fewer than five players, naming the first position missing; otherwise it
   * names five player ids in 1..47, each the pick of its position, and a
   * goalie id in 1..10, with confidence the sum of the five (boosted) scores
   * divided by 6.
   */
  lemma PredictFacts(t: Tables, w: InputWeights, teams: seq<Team>, net: seq<real> -> seq<real>)
    requires Sized(net)
    ensures Predict(t, w, teams, net).Err? <==> exists k :: 0 <= k < |Recent(teams)| && |Recent(teams)[k].players| < 5
    ensures Predict(t, w, teams, net).Err? ==>
      var p := Predict(t, w, teams, net).error.position;
      p < 5 && !Fielded(teams, p) && forall q :: 0 <= q < p ==> Fielded(teams, q)
    ensures Predict(t, w, teams, net).Ok? ==>
      var scores := net(HistoryInput(t, w, teams));
      var p := Predict(t, w, teams, net).value;
      && |p.players| == 5
      && (forall pos :: 0 <= pos < 5 ==>
            && Fielded(teams, pos)
            && p.players[pos].id == Pick(w, teams, scores, pos).item
            && 1 <= p.players[pos].id <= PlayerPool
            && p.players[pos].name == NameOf(t.players, p.players[pos].id))
      && p.goalie.id == GoaliePick(scores).item && 1 <= p.goalie.id <= GoaliePool
      && p.confidence == SumScores(Picks(w, teams, scores)) / 6.0
  {
    var scores := net(HistoryInput(t, w, teams));
    FieldedBelow(teams, 4);
    var m := FewestPlayers(Recent(teams));
    if m < 5 {
      FieldedBelow(teams, m);
    }
    forall q | 0 <= q < m ensures Fielded(teams, q) {
      FieldedBelow(teams, q);
    }
    if Fielded(teams, 4) {
      GoaliePickFacts(scores);
      forall pos | 0 <= pos < 5 ensures Fielded(teams, pos) && 1 <= Pick(w, teams, scores, pos).item <= PlayerPool {
        FieldedBelow(teams, pos);
        PickFacts(w, teams, scores, pos);
      }
    }
  }

  lemma {:induction false} SumScoresBound(picks: seq<Scored<int>>, hi: real)
    requires forall i :: 0 <= i < |picks| ==> 0.0 <= picks[i].score <= hi
    ensures 0.0 <= SumScores(picks) <= |picks| as real * hi
  {
    if picks != [] {
      SumScoresBound(picks[..|picks| - 1], hi);
    }
  }

  /** With candidate scores in [0, 1] and a position weight of at least 1, a pick scores between 0 and the weight. */
  lemma PickBound(w: InputWeights, teams: seq<Team>, scores: seq<real>, pos: nat)
    requires |scores| == VectorWidth && pos < 5 && Fielded(teams, pos) && w.position >= 1.0
    requires forall k :: 0 <= k < |scores| ==> 0.0 <= scores[k] <= 1.0
    ensures 0.0 <= Pick(w, teams, scores, pos).score <= w.position
  {
    PickFacts(w, teams, scores, pos);
    var start := pos * BlockWidth;
    var cands := Candidates(scores, start, PlayerPool);
    var pick := Pick(w, teams, scores, pos);
    var k := pick.item - 1;
    assert start + k < |scores| && cands[k].score == scores[start + k];
    var s := cands[k].score;
    Ratios.BoostBound(pick.score, s, w.position, Some(pick.item) in HistoricalIds(teams, pos));
  }

  /**
   * With scores in [0, 1] (a sigmoid network) and a position weight of at
   * least 1, confidence lies in [0, 5 * position / 6]: above 1 is reachable
   * whenever the weight exceeds 1.2, as the shipped 1.48 does.
   */
  lemma ConfidenceRange(t: Tables, w: InputWeights, teams: seq<Team>, net: seq<real> -> seq<real>)
    requires Sized(net) && w.position >= 1.0
    requires forall x, k :: 0 <= k < |net(x)| ==> 0.0 <= net(x)[k] <= 1.0
    ensures Predict(t, w, teams, net).Ok? ==> 0.0 <= Predict(t, w, teams, net).value.confidence <= 5.0 * w.position / 6.0
  {
    var scores := net(HistoryInput(t, w, teams));
    if Fielded(teams, 4) {
      var picks := Picks(w, teams, scores);
      forall pos | 0 <= pos < 5 ensures 0.0 <= picks[pos].score <= w.position {
        FieldedBelow(teams, 4);
        FieldedBelow(teams, pos);
        PickBound(w, teams, scores, pos);
      }
      SumScoresBound(picks, w.position);
    }
  }

  /** `topPredictions.forEach(pred => { if (...) pred.probability *= factor; })`, on the kept candidates in place. */
  method BoostRecent(top: array<Scored<int>>, ids: seq<Option<int>>, factor: real)
    modifies top
    ensures top[..] == Boosted(old(top[..]), ids, factor)
  {
    for k := 0 to top.Length
      invariant forall i :: 0 <= i < k ==> top[i] == Boosted(old(top[..]), ids, factor)[i]
      invariant forall i :: k <= i < top.Length ==> top[i] == old(top[i])
    {
      if Some(top[k].item) in ids {
        top[k] := Scored(top[k].item, top[k].score * factor);
      }
    }
  }

  /** The body of the position `map`: rank the block, read the history, boost the three best, keep the first. */
  method PickPlayer(w: InputWeights, teams: seq<Team>, scores: seq<real>, pos: nat) returns (r: Result<Scored<int>, PredictError>)
    requires |scores| == VectorWidth && pos < 5
    ensures r.Err? <==> !Fielded(teams, pos)
    ensures r.Err? ==> r.error == MissingPlayer(pos)
    ensures r.Ok? ==> r.value == Pick(w, teams, scores, pos)
  {
    var topPredictions := TopThree(scores, pos);
    if !Fielded(teams, pos) {
      return Err(MissingPlayer(pos));
    }
    var ids := HistoricalIds(teams, pos);
    var top := new Scored<int>[3](i requires 0 <= i < 3 => topPredictions[i]);
    assert top[..] == topPredictions;
    BoostRecent(top, ids, w.position);
    r := Ok(top[0]);
  }

  /** The `map` over the five positions: it stops at the first position one of the last five teams lacks. */
  method PickPlayers(w: InputWeights, teams: seq<Team>, scores: seq<real>) returns (r: Result<seq<Scored<int>>, PredictError>)
    requires |scores| == VectorWidth
    ensures r.Err? <==> !Fielded(teams, 4)
    ensures r.Err? ==> r.error == MissingPlayer(FewestPlayers(Recent(teams)))
    ensures r.Ok? ==> r.value == Picks(w, teams, scores)
  {
    var picks: seq<Scored<int>> := [];
    for pos := 0 to 5
      invariant |picks| == pos
      invariant forall q :: 0 <= q < pos ==> Fielded(teams, q) && picks[q] == Pick(w, teams, scores, q)
    {
      var pick := PickPlayer(w, teams, scores, pos);
      if pick.Err? {
        FieldedBelow(teams, pos);
        FieldedBelow(teams, 4);
        if pos > 0 {
          FieldedBelow(teams, pos - 1);
        }
        return Err(pick.error);
      }
      picks := picks + [pick.value];
    }
    return Ok(picks);
  }

  /** `predictNextTeam(previousTeams)` with `this.network.run` as `net`. */
  method PredictNextTeam(t: Tables, w: InputWeights, teams: seq<Team>, net: seq<real> -> seq<real>) returns (r: Result<Prediction, PredictError>)
    requires forall k :: 0 <= k < |teams| ==> InHistoryPool(t, teams[k])
    requires Sized(net)
    ensures r == Predict(t, w, teams, net)
  {
    var input := EncodeHistory(t, w, teams);
    var scores := net(input[..]);
    var picks := PickPlayers(w, teams, scores);
    if picks.Err? {
      return Err(picks.error);
    }
    r := Ok(Assemble(t, picks.value, GoaliePick(scores)));
  }

  // ---------------------------------------------------------------------------
  // predictMultipleTimes
  // ---------------------------------------------------------------------------

  /** The run kept after the first `n` runs: a later run replaces the best only with a strictly greater confidence, starting from -1. */
  function BestRun(runs: seq<Result<Prediction, PredictError>>, n: nat): (b: Option<nat>)
    requires n <= |runs|
    ensures b.Some? ==> b.value < n && runs[b.value].Ok?
  {
    if n == 0 then None
    else
      var b := BestRun(runs, n - 1);
      var bestConfidence := if b.Some? then runs[b.value].value.confidence else -1.0;
      if runs[n - 1].Ok? && runs[n - 1].value.confidence > bestConfidence then Some(n - 1) else b
  }

  /**
   * The kept run is the first run of greatest confidence among those that did
   * not throw, provided that confidence exceeds -1; without such a run the
   * result is `null`.
   */
  lemma {:induction false} BestRunIsFirstMax(runs: seq<Result<Prediction, PredictError>>, n: nat)
    requires n <= |runs|
    ensures BestRun(runs, n).None? ==> forall j :: 0 <= j < n && runs[j].Ok? ==> runs[j].value.confidence <= -1.0
    ensures BestRun(runs, n).Some? ==>
      var i := BestRun(runs, n).value;
      && runs[i].value.confidence > -1.0
      && (forall j :: 0 <= j < n && runs[j].Ok? ==> runs[j].value.confidence <= runs[i].value.confidence)
      && (forall j :: 0 <= j < i && runs[j].Ok? ==> runs[j].value.confidence < runs[i].value.confidence)
  {
    if n > 0 {
      BestRunIsFirstMax(runs, n - 1);
    }
  }

  /** The outcome of each run, one network per run. */
  function Runs(t: Tables, w: InputWeights, teams: seq<Team>, nets: seq<seq<real> -> seq<real>>): (runs: seq<Result<Prediction, PredictError>>)
    requires forall i :: 0 <= i < |nets| ==> Sized(nets[i])
    ensures |runs| == |nets|
  {
    seq(|nets|, i requires 0 <= i < |nets| => Predict(t, w, teams, nets[i]))
  }

  /** What the loop of `predictMultipleTimes` holds after the first `n` runs: the kept prediction and its confidence. */
  predicate Kept(runs: seq<Result<Prediction, PredictError>>, n: nat, best: Option<Prediction>, bestConfidence: real)
    requires n <= |runs|
  {
    var b := BestRun(runs, n);
    && best == (if b.Some? then Some(runs[b.value].value) else None)
    && bestConfidence == (if b.Some? then runs[b.value].value.confidence else -1.0)
  }

  /** One iteration: a run that did not throw replaces the kept one when its confidence is strictly greater. */
  method KeepBetter(ghost runs: seq<Result<Prediction, PredictError>>, i: nat, prediction: Result<Prediction, PredictError>,
                    best: Option<Prediction>, bestConfidence: real)
    returns (best': Option<Prediction>, bestConfidence': real)
    requires i < |runs| && prediction == runs[i] && Kept(runs, i, best, bestConfidence)
    ensures Kept(runs, i + 1, best', bestConfidence')
  {
    best', bestConfidence' := best, bestConfidence;
    if prediction.Ok? && prediction.value.confidence > bestConfidence {
      best' := Some(prediction.value);
      bestConfidence' := prediction.value.confidence;
    }
  }

  /** `predictMultipleTimes(teams)`: `config.predictionRuns` runs, with `nets[i]` the network as run `i` sees it; a run that throws is skipped. */
  method PredictMultipleTimes(t: Tables, w: InputWeights, teams: seq<Team>, nets: seq<seq<real> -> seq<real>>) returns (best: Option<Prediction>)
    requires forall k :: 0 <= k < |teams| ==> InHistoryPool(t, teams[k])
    requires forall i :: 0 <= i < |nets| ==> Sized(nets[i])
    requires |nets| == PredictionRuns
    ensures var b := BestRun(Runs(t, w, teams, nets), |nets|);
      best == if b.Some? then Some(Runs(t, w, teams, nets)[b.value].value) else None
  {
    ghost var runs := Runs(t, w, teams, nets);
    best := None;
    var bestConfidence := -1.0;
    for i := 0 to |nets|
      invariant Kept(runs, i, best, bestConfidence)
    {
      var prediction := PredictNextTeam(t, w, teams, nets[i]);
      best, bestConfidence := KeepBetter(runs, i, prediction, best, bestConfidence);
    }
  }
}
