/**
 * `analyzeTeamPatterns`: tallies player appearances, goalie appearances and
 * co-selected player pairs over a history of team records, turns the tallies
 * into weights relative to the most frequent entry, and predicts a team from
 * the most frequent players and goalie.
 */
module TeamAnalyzer {
  import opened Wrappers
  import opened Teams
  import opened StableSort
  import opened ObjectKeys
  import opened Tallies
  import opened PairCounts
  import opened Weights

  /** A history entry: a record with a players array, or anything else (null, no array), which is skipped. */
  datatype TeamEntry = Malformed | Entry(team: Team)

  // ---------------------------------------------------------------------------
  // What each team contributes
  // ---------------------------------------------------------------------------

  /** The player names of a team, in position order. */
  function TeamNames(team: Team): (r: seq<string>)
    ensures |r| == |team.players|
  {
    seq(|team.players|, i requires 0 <= i < |team.players| => PlayerName(team.players[i]))
  }

  /** The goalie's name when the team has a (truthy) goalie. */
  function TeamGoalie(team: Team): (r: seq<string>)
    ensures |r| <= 1
  {
    if HasGoalie(team.goalie) then [GoalieName(team.goalie)] else []
  }

  /** The concatenated contributions of the well-formed entries, oldest first. */
  function Collect(teams: seq<TeamEntry>, f: Team -> seq<string>): seq<string> {
    if teams == [] then []
    else
      var last := teams[|teams| - 1];
      Collect(teams[..|teams| - 1], f) + (if last.Entry? then f(last.team) else [])
  }

  lemma {:induction false} CollectAppend(a: seq<TeamEntry>, b: seq<TeamEntry>, f: Team -> seq<string>)
    ensures Collect(a + b, f) == Collect(a, f) + Collect(b, f)
  {
    if b == [] {
      assert a + b == a;
    } else {
      var b' := b[..|b| - 1];
      assert (a + b)[..|a + b| - 1] == a + b';
      CollectAppend(a, b', f);
    }
  }

  /** A malformed entry, wherever it sits in the history, changes no tally. */
  lemma SkippedEntry(a: seq<TeamEntry>, b: seq<TeamEntry>, f: Team -> seq<string>)
    ensures Collect(a + [Malformed] + b, f) == Collect(a + b, f)
  {
    CollectAppend(a + [Malformed], b, f);
    CollectAppend(a, [Malformed], f);
    CollectAppend(a, b, f);
    assert [Malformed][..0] == [];
  }

  function PlayerNamesOf(teams: seq<TeamEntry>): seq<string> {
    Collect(teams, TeamNames)
  }

  function GoalieNamesOf(teams: seq<TeamEntry>): seq<string> {
    Collect(teams, TeamGoalie)
  }

  function PairKeysOf(t: Tables, teams: seq<TeamEntry>): seq<string> {
    Collect(teams, team => TeamPairKeys(t, team))
  }

  // ---------------------------------------------------------------------------
  // Counting loop
  // ---------------------------------------------------------------------------

  /** One team's contribution to the three tallies: the body of the `teams.forEach`. */
  method CountTeam(t: Tables, team: Team, players: Tally, goalies: Tally, combos: Tally)
    returns (players': Tally, goalies': Tally, combos': Tally)
    ensures players' == AddAll(players, TeamNames(team))
    ensures goalies' == AddAll(goalies, TeamGoalie(team))
    ensures combos' == AddAll(combos, TeamPairKeys(t, team))
  {
    var ps := team.players;
    players', goalies', combos' := players, goalies, combos;
    // Count individual players
    for k := 0 to |ps|
      invariant players' == AddAll(players, TeamNames(team)[..k])
    {
      var name := PlayerName(ps[k]);
      assert TeamNames(team)[..k + 1] == TeamNames(team)[..k] + [name];
      AddAllSnoc(players, TeamNames(team)[..k], name);
      players' := players'.Add(name);
    }
    assert TeamNames(team)[..|ps|] == TeamNames(team);
    // Count goalies
    if HasGoalie(team.goalie) {
      AddAllSnoc(goalies, [], GoalieName(team.goalie));
      goalies' := goalies'.Add(GoalieName(team.goalie));
    }
    // Track player combinations
    combos' := CountPairs(t, ps, combos);
  }

  /** The `teams.forEach` loop: every well-formed entry counted, in history order. */
  method TallyTeams(t: Tables, teams: seq<TeamEntry>) returns (players: Tally, goalies: Tally, combos: Tally)
    ensures players == TallyOf(PlayerNamesOf(teams))
    ensures goalies == TallyOf(GoalieNamesOf(teams))
    ensures combos == TallyOf(PairKeysOf(t, teams))
  {
    players, goalies, combos := EmptyTally(), EmptyTally(), EmptyTally();
    for i := 0 to |teams|
      invariant players == TallyOf(PlayerNamesOf(teams[..i]))
      invariant goalies == TallyOf(GoalieNamesOf(teams[..i]))
      invariant combos == TallyOf(PairKeysOf(t, teams[..i]))
    {
      assert teams[..i + 1][..i] == teams[..i];
      if teams[i].Entry? {
        var team := teams[i].team;
        players, goalies, combos := CountTeam(t, team, players, goalies, combos);
        AddAllAppend(EmptyTally(), PlayerNamesOf(teams[..i]), TeamNames(team));
        AddAllAppend(EmptyTally(), GoalieNamesOf(teams[..i]), TeamGoalie(team));
        AddAllAppend(EmptyTally(), PairKeysOf(t, teams[..i]), TeamPairKeys(t, team));
      } else {
        assert PlayerNamesOf(teams[..i + 1]) == PlayerNamesOf(teams[..i]);
        assert GoalieNamesOf(teams[..i + 1]) == GoalieNamesOf(teams[..i]);
        assert PairKeysOf(t, teams[..i + 1]) == PairKeysOf(t, teams[..i]);
      }
    }
    assert teams[..|teams|] == teams;
  }

  // ---------------------------------------------------------------------------
  // The returned analysis
  // ---------------------------------------------------------------------------

  /** Why the analysis throws: the goalie pick reads the first entry of an empty goalie table. */
  datatype AnalyzeError = NoGoalieCounted

  /** `{ name, id }`: a predicted member and the id its name has in the reference table, if any. */
  datatype Predicted = Predicted(name: string, id: Option<int>)

  /** `prediction.asTeam`. */
  datatype Prediction = Prediction(players: seq<Predicted>, goalie: Predicted)

  /**
   * `statistics`: the frequency tables as sorted entry lists and the
   * `weights` object (players by name, goalies, combinations).
   */
  datatype Statistics = Statistics(
    playerFrequency: seq<Scored<string>>,
    goalieFrequency: seq<Scored<string>>,
    topCombinations: seq<Scored<string>>,
    topPlayers: seq<Scored<string>>,
    playerWeights: map<string, real>,
    goalieWeights: map<string, real>,
    combinationWeights: map<string, real>)

  /** `playerWeights`: selection weights by player id, position preferences, combination weights. */
  datatype PlayerWeightTables = PlayerWeightTables(
    selection: map<int, real>,
    positionPreference: map<int, seq<real>>,
    combinations: map<string, real>)

  /** `goalieWeights`. */
  datatype GoalieWeightTables = GoalieWeightTables(playerSynergy: map<string, map<string, real>>)

  datatype Analysis = Analysis(
    statistics: Statistics,
    playerWeights: PlayerWeightTables,
    goalieWeights: GoalieWeightTables,
    prediction: Prediction,
    totalGamesAnalyzed: nat)

  /** `find(...)?.id`. */
  function IdOf(m: Option<Member>): Option<int> {
    if m.Some? then Some(m.value.id) else None
  }

  /** The five most frequent players (the first `Object.entries` lists among equals), with their roster ids. */
  function PredictPlayers(t: Tables, players: Tally): seq<Predicted> {
    var top := Top(Entries(players), 5);
    seq(|top|, i requires 0 <= i < |top| => Predicted(top[i].item, IdOf(FindByName(t.players, top[i].item))))
  }

  /** The head of the goalie entries sorted by count, with its id in the goalie table. */
  function PredictGoalie(t: Tables, goalies: Tally): Predicted
    requires goalies.order != []
  {
    var name := SortDescending(Entries(goalies))[0].item;
    Predicted(name, IdOf(FindByName(t.goalies, name)))
  }

  /** The tallies the weight loops can divide by: no entries, or a positive largest count. */
  predicate Weighable(c: Tally) {
    c.order == [] || MaxCount(c) > 0
  }

  /** The returned object, built from the three tallies of a history of `total` entries. */
  function Report(t: Tables, f: Factors, total: nat, players: Tally, goalies: Tally, combos: Tally): Analysis
    requires Weighable(players) && Weighable(combos)
    requires goalies.order != [] && MaxCount(goalies) > 0
  {
    var combinationWeights := WeightMap(Listed(combos), combos.counts, MaxCount(combos), f.combinationFrequency, |combos.order|);
    Analysis(
      Statistics(
        ObjectOrder(SortDescending(Entries(players))),
        ObjectOrder(SortDescending(Entries(goalies))),
        ObjectOrder(Top(Entries(combos), 10)),
        ObjectOrder(Top(Entries(players), 10)),
        NameWeights(t, Listed(players), players.counts, MaxCount(players), f.playerSelection, |players.order|),
        WeightMap(Listed(goalies), goalies.counts, MaxCount(goalies), f.goalieSelection, |goalies.order|),
        combinationWeights),
      PlayerWeightTables(
        IdWeights(t, Listed(players), players.counts, MaxCount(players), f.playerSelection, |players.order|),
        map[],
        combinationWeights),
      GoalieWeightTables(map[]),
      Prediction(PredictPlayers(t, players), PredictGoalie(t, goalies)),
      total)
  }

  /** The analysis of a history: an error when no goalie was counted, the report otherwise. */
  function Analyze(t: Tables, f: Factors, teams: seq<TeamEntry>): Result<Analysis, AnalyzeError> {
    var players := TallyOf(PlayerNamesOf(teams));
    var goalies := TallyOf(GoalieNamesOf(teams));
    var combos := TallyOf(PairKeysOf(t, teams));
    TallyOfShape(PlayerNamesOf(teams));
    TallyOfShape(GoalieNamesOf(teams));
    TallyOfShape(PairKeysOf(t, teams));
    if goalies.order == [] then Err(NoGoalieCounted)
    else Ok(Report(t, f, |teams|, players, goalies, combos))
  }

  /** `analyzeTeamPatterns(teams)`: count, weigh, then assemble the result. */
  method AnalyzeTeamPatterns(t: Tables, f: Factors, teams: seq<TeamEntry>) returns (r: Result<Analysis, AnalyzeError>)
    ensures r == Analyze(t, f, teams)
  {
    var players, goalies, combos := TallyTeams(t, teams);
    TallyOfPositive(PlayerNamesOf(teams));
    TallyOfPositive(GoalieNamesOf(teams));
    TallyOfPositive(PairKeysOf(t, teams));
    var byName, selection := PlayerWeights(t, players, f.playerSelection);
    var goalieWeights := GoalieWeights(goalies, f);
    var combinationWeights := CombinationWeights(combos, f.combinationFrequency);
    var statistics := Statistics(
      ObjectOrder(SortDescending(Entries(players))),
      ObjectOrder(SortDescending(Entries(goalies))),
      ObjectOrder(Top(Entries(combos), 10)),
      ObjectOrder(Top(Entries(players), 10)),
      byName, goalieWeights, combinationWeights);
    if goalies.order == [] {
      return Err(NoGoalieCounted);
    }
    var goalieName := SortDescending(Entries(goalies))[0].item;
    var prediction := Prediction(
      PredictPlayers(t, players),
      Predicted(goalieName, IdOf(FindByName(t.goalies, goalieName))));
    r := Ok(Analysis(
      statistics,
      PlayerWeightTables(selection, map[], combinationWeights),
      GoalieWeightTables(map[]),
      prediction,
      |teams|));
  }

  // ---------------------------------------------------------------------------
  // Properties of the analysis
  // ---------------------------------------------------------------------------

  /** No goalie name is collected exactly when no well-formed entry has a truthy goalie. */
  lemma {:induction false} NoGoalieNames(teams: seq<TeamEntry>)
    ensures GoalieNamesOf(teams) == [] <==> forall i :: 0 <= i < |teams| && teams[i].Entry? ==> !HasGoalie(teams[i].team.goalie)
  {
    if teams != [] {
      var init := teams[..|teams| - 1];
      NoGoalieNames(init);
      assert forall i :: 0 <= i < |init| ==> init[i] == teams[i];
    }
  }

  /**
   * The analysis throws exactly when no well-formed entry has a goalie (an
   * empty history included); otherwise it reports every entry, skipped ones
   * too, as analysed, and the position preferences and goalie synergies are
   * empty.
   */
  lemma AnalyzeOutcome(t: Tables, f: Factors, teams: seq<TeamEntry>)
    ensures Analyze(t, f, teams).Err? <==> forall i :: 0 <= i < |teams| && teams[i].Entry? ==> !HasGoalie(teams[i].team.goalie)
    ensures Analyze(t, f, teams).Ok? ==>
      && Analyze(t, f, teams).value.totalGamesAnalyzed == |teams|
      && Analyze(t, f, teams).value.playerWeights.positionPreference == map[]
      && Analyze(t, f, teams).value.goalieWeights.playerSynergy == map[]
  {
    NoGoalieNames(teams);
    TallyOfShape(GoalieNamesOf(teams));
  }

  /** A successful analysis is the report of the three tallies of the history. */
  lemma AnalyzeReport(t: Tables, f: Factors, teams: seq<TeamEntry>)
    requires Analyze(t, f, teams).Ok?
    ensures Weighable(TallyOf(PlayerNamesOf(teams))) && Weighable(TallyOf(PairKeysOf(t, teams)))
    ensures TallyOf(GoalieNamesOf(teams)).order != [] && MaxCount(TallyOf(GoalieNamesOf(teams))) > 0
    ensures Analyze(t, f, teams).value ==
      Report(t, f, |teams|, TallyOf(PlayerNamesOf(teams)), TallyOf(GoalieNamesOf(teams)), TallyOf(PairKeysOf(t, teams)))
  {
    TallyOfPositive(PlayerNamesOf(teams));
    TallyOfPositive(GoalieNamesOf(teams));
    TallyOfPositive(PairKeysOf(t, teams));
  }

  /** The report's weight tables, read off the tallies they were computed from. */
  lemma ReportWeights(t: Tables, f: Factors, total: nat, players: Tally, goalies: Tally, combos: Tally)
    requires ValidTables(t)
    requires Weighable(players) && Weighable(combos)
    requires goalies.order != [] && MaxCount(goalies) > 0
    ensures var a := Report(t, f, total, players, goalies, combos);
      && (forall name :: name in a.statistics.playerWeights <==> name in players.order && FindByName(t.players, name).Some?)
      && (forall name :: name in a.statistics.playerWeights ==>
            a.statistics.playerWeights[name] == Weight(players.counts[name], MaxCount(players), f.playerSelection))
      && (forall id :: id in a.playerWeights.selection <==>
            FindById(t.players, id).Some? && FindById(t.players, id).value.name in a.statistics.playerWeights)
      && (forall id :: id in a.playerWeights.selection ==>
            a.playerWeights.selection[id] == a.statistics.playerWeights[FindById(t.players, id).value.name])
    ensures var a := Report(t, f, total, players, goalies, combos);
      && (forall name :: name in a.statistics.goalieWeights <==> name in goalies.order)
      && (forall name :: name in a.statistics.goalieWeights ==>
            a.statistics.goalieWeights[name] == Weight(goalies.counts[name], MaxCount(goalies), f.goalieSelection))
    ensures var a := Report(t, f, total, players, goalies, combos);
      && a.playerWeights.combinations == a.statistics.combinationWeights
      && (forall key :: key in a.statistics.combinationWeights <==> key in combos.order)
      && (forall key :: key in a.statistics.combinationWeights ==>
            a.statistics.combinationWeights[key] == Weight(combos.counts[key], MaxCount(combos), f.combinationFrequency))
  {
    ListedKeys(players);
    ListedKeys(goalies);
    ListedKeys(combos);
    NameWeightsEntries(t, Listed(players), players.counts, MaxCount(players), f.playerSelection, |players.order|);
    IdWeightsEntries(t, Listed(players), players.counts, MaxCount(players), f.playerSelection, |players.order|);
    WeightMapEntries(Listed(goalies), goalies.counts, MaxCount(goalies), f.goalieSelection, |goalies.order|);
    WeightMapEntries(Listed(combos), combos.counts, MaxCount(combos), f.combinationFrequency, |combos.order|);
  }

  /**
   * `weights.players` weighs exactly the counted names found in the roster,
   * each by its count relative to the largest player count, and
   * `playerWeights.selection` holds the same weights under the roster ids.
   */
  lemma AnalyzePlayerWeights(t: Tables, f: Factors, teams: seq<TeamEntry>)
    requires ValidTables(t) && Analyze(t, f, teams).Ok?
    ensures var w := Analyze(t, f, teams).value.statistics.playerWeights;
      forall name :: name in w <==> name in PlayerNamesOf(teams) && FindByName(t.players, name).Some?
    ensures var w := Analyze(t, f, teams).value.statistics.playerWeights;
      forall name :: name in w ==>
        MaxCount(TallyOf(PlayerNamesOf(teams))) > 0 &&
        w[name] == Weight(multiset(PlayerNamesOf(teams))[name], MaxCount(TallyOf(PlayerNamesOf(teams))), f.playerSelection)
    ensures var a := Analyze(t, f, teams).value;
      forall id :: id in a.playerWeights.selection <==> FindById(t.players, id).Some? && FindById(t.players, id).value.name in a.statistics.playerWeights
    ensures var a := Analyze(t, f, teams).value;
      forall id :: id in a.playerWeights.selection ==>
        a.playerWeights.selection[id] == a.statistics.playerWeights[FindById(t.players, id).value.name]
  {
    AnalyzeReport(t, f, teams);
    ReportWeights(t, f, |teams|, TallyOf(PlayerNamesOf(teams)), TallyOf(GoalieNamesOf(teams)), TallyOf(PairKeysOf(t, teams)));
    TallyOfShape(PlayerNamesOf(teams));
  }

  /** `weights.goalies` weighs every counted goalie by its count relative to the largest goalie count. */
  lemma AnalyzeGoalieWeights(t: Tables, f: Factors, teams: seq<TeamEntry>)
    requires ValidTables(t) && Analyze(t, f, teams).Ok?
    ensures var w := Analyze(t, f, teams).value.statistics.goalieWeights;
      forall name :: name in w <==> name in GoalieNamesOf(teams)
    ensures var w := Analyze(t, f, teams).value.statistics.goalieWeights;
      forall name :: name in w ==>
        MaxCount(TallyOf(GoalieNamesOf(teams))) > 0 &&
        w[name] == Weight(multiset(GoalieNamesOf(teams))[name], MaxCount(TallyOf(GoalieNamesOf(teams))), f.goalieSelection)
  {
    AnalyzeReport(t, f, teams);
    ReportWeights(t, f, |teams|, TallyOf(PlayerNamesOf(teams)), TallyOf(GoalieNamesOf(teams)), TallyOf(PairKeysOf(t, teams)));
    TallyOfShape(GoalieNamesOf(teams));
  }

  /**
   * `weights.combinations` and `playerWeights.combinations` weigh every
   * counted pair key by its count relative to the largest pair count.
   */
  lemma AnalyzeCombinationWeights(t: Tables, f: Factors, teams: seq<TeamEntry>)
    requires ValidTables(t) && Analyze(t, f, teams).Ok?
    ensures var a := Analyze(t, f, teams).value;
      a.playerWeights.combinations == a.statistics.combinationWeights
    ensures var w := Analyze(t, f, teams).value.statistics.combinationWeights;
      forall key :: key in w <==> key in PairKeysOf(t, teams)
    ensures var w := Analyze(t, f, teams).value.statistics.combinationWeights;
      forall key :: key in w ==>
        MaxCount(TallyOf(PairKeysOf(t, teams))) > 0 &&
        w[key] == Weight(multiset(PairKeysOf(t, teams))[key], MaxCount(TallyOf(PairKeysOf(t, teams))), f.combinationFrequency)
  {
    AnalyzeReport(t, f, teams);
    ReportWeights(t, f, |teams|, TallyOf(PlayerNamesOf(teams)), TallyOf(GoalieNamesOf(teams)), TallyOf(PairKeysOf(t, teams)));
    TallyOfShape(PairKeysOf(t, teams));
  }

  /**
   * With a non-negative factor every player weight lies in [1, 1 + factor],
   * the most frequent players weigh exactly 1 + factor, and weights follow
   * the order of the counts.
   */
  lemma AnalyzePlayerWeightBounds(t: Tables, f: Factors, teams: seq<TeamEntry>)
    requires ValidTables(t) && Analyze(t, f, teams).Ok? && f.playerSelection >= 0.0
    ensures var w := Analyze(t, f, teams).value.statistics.playerWeights;
      && (forall name :: name in w ==> 1.0 <= w[name] <= 1.0 + f.playerSelection)
      && (forall name :: name in w && multiset(PlayerNamesOf(teams))[name] == MaxCount(TallyOf(PlayerNamesOf(teams))) ==> w[name] == 1.0 + f.playerSelection)
      && (forall a, b :: a in w && b in w && multiset(PlayerNamesOf(teams))[a] <= multiset(PlayerNamesOf(teams))[b] ==> w[a] <= w[b])
  {
    var w := Analyze(t, f, teams).value.statistics.playerWeights;
    AnalyzePlayerWeights(t, f, teams);
    var players := PlayerNamesOf(teams);
    TallyOfMax(players);
    forall name | name in players ensures 1 <= multiset(players)[name] {
      assert name in multiset(players);
    }
    WeightsInRange(w, multiset(players), MaxCount(TallyOf(players)), f.playerSelection);
  }

  /** With a non-negative factor every goalie weight lies in [1, 1 + factor], the most frequent goalies weighing exactly 1 + factor. */
  lemma AnalyzeGoalieWeightBounds(t: Tables, f: Factors, teams: seq<TeamEntry>)
    requires ValidTables(t) && Analyze(t, f, teams).Ok? && f.goalieSelection >= 0.0
    ensures var w := Analyze(t, f, teams).value.statistics.goalieWeights;
      && (forall name :: name in w ==> 1.0 <= w[name] <= 1.0 + f.goalieSelection)
      && (forall name :: name in w && multiset(GoalieNamesOf(teams))[name] == MaxCount(TallyOf(GoalieNamesOf(teams))) ==> w[name] == 1.0 + f.goalieSelection)
  {
    var w := Analyze(t, f, teams).value.statistics.goalieWeights;
    AnalyzeGoalieWeights(t, f, teams);
    var goalies := GoalieNamesOf(teams);
    TallyOfMax(goalies);
    forall name | name in goalies ensures 1 <= multiset(goalies)[name] {
      assert name in multiset(goalies);
    }
    WeightsInRange(w, multiset(goalies), MaxCount(TallyOf(goalies)), f.goalieSelection);
  }

  /** With a non-negative factor every pair weight lies in [1, 1 + factor], and above 1 when the factor is positive. */
  lemma AnalyzeCombinationWeightBounds(t: Tables, f: Factors, teams: seq<TeamEntry>)
    requires ValidTables(t) && Analyze(t, f, teams).Ok? && f.combinationFrequency >= 0.0
    ensures var w := Analyze(t, f, teams).value.statistics.combinationWeights;
      && (forall key :: key in w ==> 1.0 <= w[key] <= 1.0 + f.combinationFrequency)
      && (forall key :: key in w && f.combinationFrequency > 0.0 ==> 1.0 < w[key])
  {
    var w := Analyze(t, f, teams).value.statistics.combinationWeights;
    AnalyzeCombinationWeights(t, f, teams);
    var keys := PairKeysOf(t, teams);
    TallyOfMax(keys);
    forall key | key in keys ensures 1 <= multiset(keys)[key] {
      assert key in multiset(keys);
    }
    WeightsInRange(w, multiset(keys), MaxCount(TallyOf(keys)), f.combinationFrequency);
  }

  /** The predicted players are at most five counted names, each with its roster id if found. */
  lemma PredictedPlayersListed(t: Tables, players: Tally)
    ensures var p := PredictPlayers(t, players);
      && |p| <= 5
      && (forall i :: 0 <= i < |p| ==> p[i].name in players.order && p[i].id == IdOf(FindByName(t.players, p[i].name)))
  {
    TopItems(players, 5);
  }

  /** The predicted players come most frequent first, and no name twice. */
  lemma PredictedPlayersOrdered(t: Tables, players: Tally)
    requires players.Valid()
    ensures var p := PredictPlayers(t, players);
      forall i, j :: 0 <= i < j < |p| ==> players.counts[p[i].name] >= players.counts[p[j].name] && p[i].name != p[j].name
  {
    TopOrdered(players, 5);
  }

  /** No counted name left out of the prediction was counted more often than one kept; fewer than five means none is left out. */
  lemma PredictedPlayersMostFrequent(t: Tables, players: Tally)
    ensures var p := PredictPlayers(t, players);
      forall x :: x in players.order && (forall i :: 0 <= i < |p| ==> p[i].name != x) ==>
        |p| == 5 && forall i :: 0 <= i < 5 ==> players.counts[x] <= players.counts[p[i].name]
  {
    var p, top := PredictPlayers(t, players), Top(Entries(players), 5);
    forall x | x in players.order && (forall i :: 0 <= i < |p| ==> p[i].name != x)
      ensures |p| == 5 && forall i :: 0 <= i < 5 ==> players.counts[x] <= players.counts[p[i].name]
    {
      forall i | 0 <= i < |top| ensures top[i].item != x {
        assert p[i].name == top[i].item;
      }
      LeftOutBelow(players, Entries(players), 5, x);
    }
  }

  /** The predicted goalie: a most frequent one, the first that `Object.entries` lists among equals. */
  lemma PredictedGoalie(t: Tables, goalies: Tally)
    requires goalies.order != []
    ensures var g := PredictGoalie(t, goalies);
      && g.name in goalies.order
      && g.id == IdOf(FindByName(t.goalies, g.name))
      && (forall k :: k in goalies.order ==> goalies.counts[k] <= goalies.counts[g.name])
      && exists i :: 0 <= i < |Listed(goalies)| && Listed(goalies)[i] == g.name &&
           forall j :: 0 <= j < i ==> goalies.counts[Listed(goalies)[j]] < goalies.counts[g.name]
  {
    SortedHead(goalies);
  }

  /**
   * Goalies named "9" then "3", once each: `Object.entries` lists the array
   * index "3" first, so "3" is predicted although "9" was counted first.
   */
  lemma PredictedGoalieIndexFirst(t: Tables, names: seq<string>)
    requires names == ["9", "3"]
    ensures TallyOf(names).order == ["9", "3"]
    ensures PredictGoalie(t, TallyOf(names)).name == "3"
  {
    NineThreeTally(names);
    IndexKeysListedFirst(names);
    var e := Entries(TallyOf(names));
    assert SortDescending(e)[0] == e[0] by {
      assert e[1..] == [e[1]];
      assert SortDescending(e[1..]) == [e[1]];
    }
  }

  /** `Object.entries` of the goalie counts "9" then "3" lists "3" first. */
  lemma IndexKeysListedFirst(names: seq<string>)
    requires names == ["9", "3"]
    ensures Entries(TallyOf(names)) == [Scored("3", 1.0), Scored("9", 1.0)]
  {
    var g := TallyOf(names);
    NineThreeTally(names);
    var c := Created(g);
    assert c == [Scored("9", 1.0), Scored("3", 1.0)];
    NineThreeOrder(c);
  }

  /** The listing of entries created as "9" then "3": the array indices ascending. */
  lemma NineThreeOrder(c: seq<Scored<string>>)
    requires c == [Scored("9", 1.0), Scored("3", 1.0)]
    ensures ObjectOrder(c) == [c[1], c[0]]
  {
    NineThreeIndices();
    assert IndexPart(c[1..]) == c[1..];
    assert IndexPart(c) == c;
    assert OtherPart(c[1..]) == [];
    assert OtherPart(c) == [];
    assert SortByIndex(c[1..]) == c[1..];
    assert SortByIndex(c) == [c[1], c[0]];
  }

  /** The goalie counts of "9" then "3": both keys once, "9" created first. */
  lemma NineThreeTally(names: seq<string>)
    requires names == ["9", "3"]
    ensures TallyOf(names) == Tally(["9", "3"], multiset{"9", "3"})
  {
    var e := EmptyTally();
    assert names[..1] == ["9"];
    assert ["9"][..0] == [];
    assert AddAll(e, ["9"]) == e.Add("9") == Tally(["9"], multiset{"9"});
    assert "3" !in multiset{"9"};
  }

  /** "9" and "3" are array indices, of values 9 and 3. */
  lemma NineThreeIndices()
    ensures IsArrayIndex("9") && IsArrayIndex("3")
    ensures IndexValue("3") == 3 && IndexValue("9") == 9
  {
    assert "9"[..0] == [] && "3"[..0] == [];
  }

  /** The prediction of a successful analysis, computed from the player and goalie tallies of the history. */
  lemma AnalyzePrediction(t: Tables, f: Factors, teams: seq<TeamEntry>)
    requires Analyze(t, f, teams).Ok?
    ensures TallyOf(GoalieNamesOf(teams)).order != []
    ensures Analyze(t, f, teams).value.prediction ==
      Prediction(PredictPlayers(t, TallyOf(PlayerNamesOf(teams))), PredictGoalie(t, TallyOf(GoalieNamesOf(teams))))
  {
    AnalyzeReport(t, f, teams);
  }

  /**
   * The frequency prediction of the analysis lists at most five players of
   * the history, most frequent first and no name twice. Ids are the roster's,
   * if the name is found.
   */
  lemma AnalyzePredictedPlayers(t: Tables, f: Factors, teams: seq<TeamEntry>)
    requires Analyze(t, f, teams).Ok?
    ensures var p := Analyze(t, f, teams).value.prediction.players;
      && |p| <= 5
      && (forall i :: 0 <= i < |p| ==> p[i].name in PlayerNamesOf(teams) && p[i].id == IdOf(FindByName(t.players, p[i].name)))
      && (forall i, j :: 0 <= i < j < |p| ==>
            multiset(PlayerNamesOf(teams))[p[i].name] >= multiset(PlayerNamesOf(teams))[p[j].name] && p[i].name != p[j].name)
  {
    var p := Analyze(t, f, teams).value.prediction.players;
    assert p == PredictPlayers(t, TallyOf(PlayerNamesOf(teams))) by {
      AnalyzePrediction(t, f, teams);
    }
    NamesPredicted(t, PlayerNamesOf(teams), p);
  }

  /** `PredictedPlayersListed` and `PredictedPlayersOrdered` for the tally of a list of names, counted in that list. */
  lemma NamesPredicted(t: Tables, names: seq<string>, p: seq<Predicted>)
    requires p == PredictPlayers(t, TallyOf(names))
    ensures |p| <= 5
    ensures forall i :: 0 <= i < |p| ==> p[i].name in names && p[i].id == IdOf(FindByName(t.players, p[i].name))
    ensures forall i, j :: 0 <= i < j < |p| ==> multiset(names)[p[i].name] >= multiset(names)[p[j].name] && p[i].name != p[j].name
  {
    var players := TallyOf(names);
    TallyOfShape(names);
    PredictedPlayersListed(t, players);
    assert forall i :: 0 <= i < |p| ==> p[i].name in players.order;
    NamesOrdered(t, players, multiset(names), p);
  }

  /** `PredictedPlayersOrdered` with the counts of a tally given as a multiset. */
  lemma NamesOrdered(t: Tables, players: Tally, counts: multiset<string>, p: seq<Predicted>)
    requires players.Valid() && players.counts == counts && p == PredictPlayers(t, players)
    ensures forall i, j :: 0 <= i < j < |p| ==> counts[p[i].name] >= counts[p[j].name] && p[i].name != p[j].name
  {
    PredictedPlayersOrdered(t, players);
  }

  /**
   * No player of the history left out of the prediction was picked more
   * often than a predicted one; fewer than five are predicted only when the
   * history has fewer than five distinct players.
   */
  lemma AnalyzePredictsMostFrequent(t: Tables, f: Factors, teams: seq<TeamEntry>)
    requires Analyze(t, f, teams).Ok?
    ensures var p := Analyze(t, f, teams).value.prediction.players;
      forall x :: x in PlayerNamesOf(teams) && (forall i :: 0 <= i < |p| ==> p[i].name != x) ==>
        |p| == 5 && forall i :: 0 <= i < 5 ==> multiset(PlayerNamesOf(teams))[x] <= multiset(PlayerNamesOf(teams))[p[i].name]
  {
    var p := Analyze(t, f, teams).value.prediction.players;
    assert p == PredictPlayers(t, TallyOf(PlayerNamesOf(teams))) by {
      AnalyzePrediction(t, f, teams);
    }
    NamesMostFrequent(t, PlayerNamesOf(teams), p);
  }

  /** `PredictedPlayersMostFrequent` for the tally of a list of names, counted in that list. */
  lemma NamesMostFrequent(t: Tables, names: seq<string>, p: seq<Predicted>)
    requires p == PredictPlayers(t, TallyOf(names))
    ensures forall x :: x in names && (forall i :: 0 <= i < |p| ==> p[i].name != x) ==>
      |p| == 5 && forall i :: 0 <= i < 5 ==> multiset(names)[x] <= multiset(names)[p[i].name]
  {
    TallyOfShape(names);
    PredictedPlayersMostFrequent(t, TallyOf(names));
  }

  /** The predicted goalie of the analysis: a most frequent one, the first that `Object.entries` lists among equals. */
  lemma AnalyzePredictedGoalie(t: Tables, f: Factors, teams: seq<TeamEntry>)
    requires Analyze(t, f, teams).Ok?
    ensures var g := Analyze(t, f, teams).value.prediction.goalie;
      var order := Listed(TallyOf(GoalieNamesOf(teams)));
      && g.name in GoalieNamesOf(teams)
      && g.id == IdOf(FindByName(t.goalies, g.name))
      && (forall k :: k in GoalieNamesOf(teams) ==> multiset(GoalieNamesOf(teams))[k] <= multiset(GoalieNamesOf(teams))[g.name])
      && exists i :: 0 <= i < |order| && order[i] == g.name &&
           forall j :: 0 <= j < i ==> multiset(GoalieNamesOf(teams))[order[j]] < multiset(GoalieNamesOf(teams))[g.name]
  {
    AnalyzePrediction(t, f, teams);
    TallyOfShape(GoalieNamesOf(teams));
    PredictedGoalie(t, TallyOf(GoalieNamesOf(teams)));
  }

  /** The number of player entries over the well-formed teams of a history. */
  function PlayerEntries(teams: seq<TeamEntry>): nat {
    if teams == [] then 0
    else
      var last := teams[|teams| - 1];
      PlayerEntries(teams[..|teams| - 1]) + (if last.Entry? then |last.team.players| else 0)
  }

  /** Every player entry of a well-formed team is counted once, under its name. */
  lemma {:induction false} PlayerNamesCount(teams: seq<TeamEntry>)
    ensures |PlayerNamesOf(teams)| == PlayerEntries(teams)
  {
    if teams != [] {
      PlayerNamesCount(teams[..|teams| - 1]);
    }
  }

  /** The player counts add up to the number of player entries of the well-formed teams. */
  lemma PlayerCountsSum(teams: seq<TeamEntry>)
    ensures var players := TallyOf(PlayerNamesOf(teams));
      SumCounts(players.order, players.counts) == PlayerEntries(teams)
  {
    var names := PlayerNamesOf(teams);
    TallyOfShape(names);
    SumCountsIsSize(TallyOf(names).order, TallyOf(names).counts);
    PlayerNamesCount(teams);
  }

  /** The frequency tables of a successful analysis, built from the tallies of the history. */
  lemma AnalyzeFrequencies(t: Tables, f: Factors, teams: seq<TeamEntry>)
    requires Analyze(t, f, teams).Ok?
    ensures var st := Analyze(t, f, teams).value.statistics;
      var players := Entries(TallyOf(PlayerNamesOf(teams)));
      && st.playerFrequency == ObjectOrder(SortDescending(players))
      && st.goalieFrequency == ObjectOrder(SortDescending(Entries(TallyOf(GoalieNamesOf(teams)))))
      && st.topCombinations == ObjectOrder(Top(Entries(TallyOf(PairKeysOf(t, teams))), 10))
      && st.topPlayers == ObjectOrder(Top(players, 10))
  {
    AnalyzeReport(t, f, teams);
  }

  /**
   * The statistics are objects built by `Object.fromEntries` from the entries
   * sorted by count: each holds the entries it was given (all of them for
   * the frequencies, at most ten for the top tables), lists its array-index
   * keys first and ascending, and the other keys most frequent first.
   */
  lemma AnalyzeStatistics(t: Tables, f: Factors, teams: seq<TeamEntry>)
    requires Analyze(t, f, teams).Ok?
    ensures var st := Analyze(t, f, teams).value.statistics;
      var players := Entries(TallyOf(PlayerNamesOf(teams)));
      && multiset(st.playerFrequency) == multiset(players)
      && IndicesFirst(st.playerFrequency) && Descending(OtherPart(st.playerFrequency))
      && |st.topPlayers| <= 10 && multiset(st.topPlayers) <= multiset(st.playerFrequency)
      && IndicesFirst(st.topPlayers) && Descending(OtherPart(st.topPlayers))
    ensures var st := Analyze(t, f, teams).value.statistics;
      && multiset(st.goalieFrequency) == multiset(Entries(TallyOf(GoalieNamesOf(teams))))
      && IndicesFirst(st.goalieFrequency) && Descending(OtherPart(st.goalieFrequency))
      && |st.topCombinations| <= 10 && multiset(st.topCombinations) <= multiset(Entries(TallyOf(PairKeysOf(t, teams))))
      && IndicesFirst(st.topCombinations) && Descending(OtherPart(st.topCombinations))
  {
    var players := TallyOf(PlayerNamesOf(teams));
    AnalyzeFrequencies(t, f, teams);
    SortedObject(players);
    SortedObject(TallyOf(GoalieNamesOf(teams)));
    TopObject(players, 10);
    TopObject(TallyOf(PairKeysOf(t, teams)), 10);
    assert multiset(Entries(players)) == multiset(SortDescending(Entries(players)));
  }

  /** A malformed entry anywhere in the history changes nothing but the number of games analysed. */
  lemma AnalyzeSkipsMalformed(t: Tables, f: Factors, a: seq<TeamEntry>, b: seq<TeamEntry>)
    ensures Analyze(t, f, a + [Malformed] + b).Err? <==> Analyze(t, f, a + b).Err?
    ensures Analyze(t, f, a + b).Ok? ==>
      var r := Analyze(t, f, a + b).value;
      Analyze(t, f, a + [Malformed] + b).value == r.(totalGamesAnalyzed := r.totalGamesAnalyzed + 1)
  {
    SkippedEntry(a, b, TeamNames);
    SkippedEntry(a, b, TeamGoalie);
    SkippedEntry(a, b, team => TeamPairKeys(t, team));
    assert PairKeysOf(t, a + [Malformed] + b) == PairKeysOf(t, a + b);
  }
}
