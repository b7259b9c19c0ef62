# FootballTeam-Guesser: a verified model of the prediction pipeline

The system predicts the next football "team" from a chronological history of
past selections. A team is five player positions, drawn from a pool of 47
players, plus a goalie drawn from a pool of 10. This project models the
pipeline in Dafny and proves what each stage promises:

- **Record codec.** `transformRawData` turns each tab-separated line of the
  raw draw file into a twelve-digit record string. It skips blank lines,
  lines without exactly six integers and lines whose numbers are out of
  range. `convertTeamToNames` splits a record string back into numbers and
  names them through the player and goalie tables.
- **Statistical weights.** `analyzeTeamPatterns` tallies player appearances,
  goalie appearances and co-selected pairs. Each count becomes the weight
  `1 + count / max * factor`. It also predicts a team from the most frequent
  players and goalie.
- **Encoding and training.** `calculatePlayerStats` computes per-position
  shares and pair chemistry. `prepareEnhancedOutput` builds the 342-wide
  target vector of a team: six blocks of 57 entries. `prepareTrainingData`
  builds one (input, target) sample per team after the first. `trainModel`
  adds the guards around the network's training run and the instability
  abort of its progress callback.
- **Decoding.** `predictNextTeam` encodes the history, runs the network and,
  per position, keeps the first of the three best candidates after the
  position-recency boost. It picks the best goalie and reports
  `confidence = sum of the five player scores / 6`. `predictMultipleTimes`
  keeps the first run of greatest confidence.
- **Accuracy analysis.** `analyzePredictionAccuracy` compares a prediction
  with every historical team. It counts overlaps, same-position hits and goalie
  hits, and tallies the numbers seen per position and overall.

## Layout

Each module sits in its own file:

- `wrappers.dfy`: `Option` and `Result`.
- `teams.dfy`: the reference tables, player and goalie references, and
  `getPlayerId`/`getGoalieId`.
- `stable_sort.dfy`: the stable descending `Array.prototype.sort`.
- `object_keys.dfy`: the order in which a JavaScript object lists its own
  keys.
- `tally.dfy`: count dictionaries, and the order in which `Object.entries`
  lists them.
- `pair_keys.dfy`: the analyzer's pair key.
- `pair_counts.dfy`: the analyzer's nested pair loops.
- `weights.dfy`: the analyzer's weight loops.
- `team_analyzer.dfy`: `analyzeTeamPatterns`.
- `settings.dfy`: `config.weights` and the constants.
- `ratios.dfy`: small facts about real quotients.
- `data_transformer.dfy`: `transformRawData`.
- `team_converter.dfy`: `convertTeamToNames`.
- `player_stats.dfy`: `calculatePlayerStats`.
- `encoder.dfy`: `prepareEnhancedOutput`.
- `training.dfy`: `prepareTrainingData`.
- `trainer.dfy`: `trainModel`.
- `predictor.dfy`: `predictNextTeam` and `predictMultipleTimes`.
- `accuracy.dfy`: `analyzePredictionAccuracy`.

Loops of the source are methods with loop invariants. Each is proved against
a function that states its result, and the lemmas are proved about those
functions. JavaScript dictionaries of counts are multisets, plus their key
insertion order. `Object.entries` and `Object.fromEntries` list an object's
keys as section 10.1.11.1 of ECMA-262 (OrdinaryOwnPropertyKeys) fixes it:
the array-index keys ("0", "3", "42", and so on) first in ascending numeric
order, then the other keys in insertion order. The arrays that the
source fills in place (the target vector, the input vectors,
`positionMatches`) are Dafny arrays.

## Where the code and the documented design differ (the model follows the code)

- **Confidence.** The design calls it the mean of the six slot
  probabilities, in [0, 1]. The code divides the sum of the five player
  scores by 6 and leaves the goalie out. With the shipped position weight
  1.48 it can exceed 1 (`Predictor.ConfidenceRange`).
- **Position boost.** The design picks the maximum of the three boosted
  candidates. The code boosts the three in place and returns
  `topPredictions[0]`, the best candidate before the boost
  (`Predictor.PickFacts`).
- **All runs failing.** The design makes a batch whose runs all fail an
  error. `predictMultipleTimes` returns `null` instead, modelled as `None`.
- **History without goalies.** `analyzeTeamPatterns` throws when no team
  names a goalie, including an empty history, because it reads
  `[0][0]` of an empty list. `prepareTrainingData` and `trainModel` pass this
  error on (`TeamAnalyzer.AnalyzeOutcome`, `Trainer.TrainModel`).
- **Pair-weight lookup.** Pair weights are looked up in the training loop as
  `${playerId}-${otherId}`. The analyzer stores them under the string-sorted
  key, so a pair is found only from the side whose id string sorts first:
  players 10 then 9 find "10-9", while 9 then 10 ask for "9-10" and miss it
  (`Training.ComboKeyOrder`).
  The position-preference and goalie-synergy tables the training loop reads
  are always empty, so those factors are always 1.
- **Goalie comparison.** `analyzePredictionAccuracy` compares the predicted
  goalie id with the historical goalie. History entries carry the goalie as
  a name, so only a goalie object can ever match
  (`Accuracy.GoalieCounterStrict`).

## Model

| member | source | states |
|---|---|---|
| Teams.FindById | src/teamConverter.js:21 | the row found has the id asked for and is in the table; no result means no row has that id |
| Teams.FindByName | src/aiPredictor.js:200 | the row found has the name asked for; no result means no row has that name |
| Teams.NameOfIdRoundTrip | src/aiPredictor.js:364 | in an injective table, looking up the name of the row found by id finds that same row again |
| Teams.IdOfNameRoundTrip | src/teamAnalyzer.js:186 | in an injective table, looking up the id of the row found by name finds that same row again |
| Teams.PlayerId | src/aiPredictor.js:198-204 | a resolved id is truthy (not 0); an object resolves to its own id exactly when that id is non-zero |
| Teams.PlayerIdResolves | src/aiPredictor.js:198-204 | a name resolves to an id in 1..47 whose row carries that name, and every name in the roster resolves |
| Teams.GoalieId | src/aiPredictor.js:205-211 | a resolved goalie id is non-zero and needs a goalie; an object resolves to its own non-zero id |
| Teams.GoalieIdResolves | src/aiPredictor.js:205-211 | a goalie name resolves to an id in 1..10 whose row carries that name |
| Teams.GoalieIdByName | src/aiPredictor.js:79 | only a bare goalie name resolves, to the same id as `getGoalieId`, within 1..10 |
| Teams.IdsInRange | src/aiPredictor.js:74 | every resolved id of a well-formed team indexes its pool (1..47, 1..10) |
| StableSort.SortDescending | src/aiPredictor.js:323-330 | the sort is a permutation of its input (same length, same multiset) |
| StableSort.FirstMax | src/aiPredictor.js:355 | reference index: the earliest entry whose score no entry exceeds |
| StableSort.SortIsDescending | src/aiPredictor.js:329 | the sorted entries come in non-increasing score order |
| StableSort.HeadIsFirstMax | src/aiPredictor.js:355 | stability: the head of the sort is the earliest entry of maximal score |
| StableSort.TopHead | src/aiPredictor.js:329-344 | the first entry of `.slice(0, k)` is the earliest entry of maximal score |
| StableSort.TopDominates | src/teamAnalyzer.js:181-183 | the kept prefix is descending, drawn from the input, and no dropped entry scores above a kept one |
| Tallies.AddValid | src/teamAnalyzer.js:84 | an increment keeps every key listed once, and exactly the keys with a count are listed |
| Tallies.AddAllCounts | src/teamAnalyzer.js:84 | a run of increments adds exactly its keys to the counts |
| Tallies.TallyOfCounts | src/teamAnalyzer.js:82-85 | a dictionary built by increments holds exactly the multiplicities of the keys |
| Tallies.MaxCount | src/teamAnalyzer.js:127-129 | `Math.max` of the values: no listed count exceeds it, and a non-empty dictionary attains it |
| Tallies.CountedBounds | src/teamAnalyzer.js:127 | every listed key counts between 1 and the maximum |
| Tallies.TallyOfShape | src/teamAnalyzer.js:75-124 | the dictionary lists exactly the keys seen, is empty only without increments, and otherwise has a positive maximum |
| Tallies.TallyOfMax | src/teamAnalyzer.js:127 | the maximum is the largest multiplicity of any key seen |
| ObjectKeys.ObjectOrder | src/teamAnalyzer.js:163-174 | an object lists exactly the entries it was built from, each once, rearranged |
| ObjectKeys.ObjectOrderIndicesFirst | src/teamAnalyzer.js:163-174 | an object lists every array-index key before every other key, the indices ascending |
| ObjectKeys.ObjectOrderOthers | src/teamAnalyzer.js:163-174 | the keys that are not array indices keep their creation order, and an object without array-index keys lists its keys in creation order |
| ObjectKeys.FromSortedEntries | src/teamAnalyzer.js:163-174 | `Object.fromEntries` of entries sorted by count keeps them all, lists the array indices first and ascending, and the other keys still most frequent first |
| Tallies.Entries | src/teamAnalyzer.js:132 | `Object.entries` yields exactly the keys of the dictionary, each with its count, in the object's listing order |
| Tallies.ListedKeys | src/teamAnalyzer.js:132 | `Object.entries` lists exactly the keys of the dictionary, each once |
| Tallies.ListedOrder | src/teamAnalyzer.js:132 | array-index keys are listed first and ascending, the other keys in insertion order, and every key in insertion order when none is an array index |
| Tallies.EntriesDistinct | src/teamAnalyzer.js:163 | the entries of a dictionary list no key twice |
| Tallies.TopItems | src/teamAnalyzer.js:170-174 | the first k entries by count are listed keys carrying their counts |
| Tallies.TopOrdered | src/teamAnalyzer.js:170-174 | the first k entries by count come most frequent first and list no key twice |
| Tallies.TopKeepsMostFrequent | src/teamAnalyzer.js:170-174 | no key left out counts more than a kept key, and fewer than k are kept only when every key is |
| Tallies.SortedHead | src/teamAnalyzer.js:189-190 | the head of the entries sorted by count is a key of maximal count, the first that `Object.entries` lists among equals |
| Tallies.SortedObject | src/teamAnalyzer.js:163-164 | the object of the entries sorted by count holds every entry, lists the array-index keys first and ascending, and the other keys most frequent first |
| Tallies.TopObject | src/teamAnalyzer.js:165-174 | the object of the first k entries by count holds at most k of the entries, in the same listing order |
| PairKeys.PairKeySymmetric | src/teamAnalyzer.js:105 | the pair key does not depend on which player comes first |
| PairKeys.PairKeyLexicographic | src/teamAnalyzer.js:105 | the default sort compares ids as strings: players 9 and 10 give "10-9" |
| PairCounts.Resolved | src/teamAnalyzer.js:99-102 | each position's id is what `getPlayerId` resolves it to |
| PairCounts.CountPairs | src/teamAnalyzer.js:94-109 | the nested loops add the keys of all rows, in loop order, to the combination counts |
| PairCounts.CountRow | src/teamAnalyzer.js:95-108 | the inner loop adds the keys of row i |
| PairCounts.CountPair | src/teamAnalyzer.js:96-107 | one turn adds the pair (i, j) exactly when both ids resolve |
| PairCounts.RowKeysCount | src/teamAnalyzer.js:94-109 | with every id resolved, row i adds one key per later position |
| PairCounts.RowKeysSound | src/teamAnalyzer.js:104-106 | every key counted comes from a pair i < j whose ids both resolve |
| PairCounts.RowKeysComplete | src/teamAnalyzer.js:104-106 | every pair i < j whose ids both resolve is counted |
| PairCounts.FiveResolvedPlayersTenPairs | src/teamAnalyzer.js:94-109 | a team of five resolved players adds ten pair keys |
| Weights.WeightBounds | src/teamAnalyzer.js:135 | a weight lies in [1, 1 + factor], above 1 for a positive factor, equals 1 + factor at the maximum, and grows with the count |
| Weights.GoalieWeightIsBase | src/teamAnalyzer.js:143-149 | the goalie weight is its base weight, because both bonus stubs answer 0 |
| Weights.WeightMapEntries | src/teamAnalyzer.js:153-159 | after the loop, the weight map holds exactly the visited keys, each with the weight of its count |
| Weights.NameWeightsEntries | src/teamAnalyzer.js:132-139 | `weights.players` holds exactly the counted names found in the roster, each with the weight of its count |
| Weights.IdWeightsEntries | src/teamAnalyzer.js:137 | `playerWeights.selection` holds the same weights, keyed by the roster id of each weighted name |
| Weights.PlayerWeights | src/teamAnalyzer.js:132-139 | the player loop over `Object.entries` produces exactly the name and id weight maps |
| Weights.GoalieWeights | src/teamAnalyzer.js:142-150 | the goalie loop weighs every counted goalie against the largest goalie count |
| Weights.CombinationWeights | src/teamAnalyzer.js:153-159 | the combination loop weighs every pair key against the largest pair count |
| Weights.WeightsInRange | src/teamAnalyzer.js:135 | the weights of a whole map lie in [1, 1 + factor], reach 1 + factor at the maximum, and follow the order of the counts |
| TeamAnalyzer.SkippedEntry | src/teamAnalyzer.js:76-79 | a malformed entry, wherever it sits, adds nothing to any tally |
| TeamAnalyzer.CountTeam | src/teamAnalyzer.js:76-123 | one team adds its names, its goalie and its pair keys to the three tallies |
| TeamAnalyzer.TallyTeams | src/teamAnalyzer.js:75-124 | the tallies are those of all well-formed entries, in history order |
| TeamAnalyzer.AnalyzeTeamPatterns | src/teamAnalyzer.js:41-200 | the method computes the analysis that the lemmas below characterise |
| TeamAnalyzer.NoGoalieNames | src/teamAnalyzer.js:88-91 | no goalie name is collected exactly when no well-formed entry has a truthy goalie |
| TeamAnalyzer.AnalyzeOutcome | src/teamAnalyzer.js:189-198 | throws exactly when no well-formed entry has a goalie; otherwise counts every entry as analysed and leaves the preference and synergy tables empty |
| TeamAnalyzer.AnalyzeReport | src/teamAnalyzer.js:126-198 | a successful analysis is the report of the history's three tallies, whose maxima are positive where they are divided by |
| TeamAnalyzer.ReportWeights | src/teamAnalyzer.js:126-159 | the report's weight tables are those computed from its tallies |
| TeamAnalyzer.AnalyzePlayerWeights | src/teamAnalyzer.js:132-139 | player weights cover exactly the counted names in the roster, by count over the largest count, by name and by id |
| TeamAnalyzer.AnalyzeGoalieWeights | src/teamAnalyzer.js:142-150 | every counted goalie is weighted by its count over the largest goalie count |
| TeamAnalyzer.AnalyzeCombinationWeights | src/teamAnalyzer.js:153-159 | every counted pair key is weighted by its count over the largest pair count |
| TeamAnalyzer.AnalyzePlayerWeightBounds | src/teamAnalyzer.js:135 | player weights lie in [1, 1 + factor], the most frequent weigh 1 + factor, and the weights follow the counts |
| TeamAnalyzer.AnalyzeGoalieWeightBounds | src/teamAnalyzer.js:143 | goalie weights lie in [1, 1 + factor], and the most frequent weigh 1 + factor |
| TeamAnalyzer.AnalyzeCombinationWeightBounds | src/teamAnalyzer.js:154-155 | pair weights lie in [1, 1 + factor], above 1 for a positive factor |
| TeamAnalyzer.PredictedPlayersListed | src/teamAnalyzer.js:181-187 | at most five predicted players, each a counted name with its roster id, if it has one |
| TeamAnalyzer.PredictedPlayersOrdered | src/teamAnalyzer.js:181-183 | the predicted players come most frequent first, with no name twice |
| TeamAnalyzer.PredictedPlayersMostFrequent | src/teamAnalyzer.js:181-183 | no name left out counts more than a predicted one |
| TeamAnalyzer.PredictedGoalie | src/teamAnalyzer.js:188-193 | the predicted goalie is a most frequent one, the first that `Object.entries` lists among equals, with its table id |
| TeamAnalyzer.IndexKeysListedFirst | src/teamAnalyzer.js:189 | goalies "9" then "3", once each, are listed "3" first: array indices ascend |
| TeamAnalyzer.PredictedGoalieIndexFirst | src/teamAnalyzer.js:188-193 | with goalies "9" then "3", once each, the prediction is "3" although "9" was counted first |
| TeamAnalyzer.AnalyzePredictedPlayers | src/teamAnalyzer.js:180-187 | the prediction lists at most five players of the history, most frequent first, with no name twice |
| TeamAnalyzer.AnalyzePredictsMostFrequent | src/teamAnalyzer.js:180-187 | no history player left out was picked more often than a predicted one; fewer than five only with fewer distinct players |
| TeamAnalyzer.AnalyzePredictedGoalie | src/teamAnalyzer.js:188-193 | the analysis predicts a most frequent goalie of the history, the first that `Object.entries` lists among equals |
| TeamAnalyzer.PlayerNamesCount | src/teamAnalyzer.js:82-85 | every player entry of a well-formed team is counted once |
| TeamAnalyzer.PlayerCountsSum | src/teamAnalyzer.js:82-85 | the player counts add up to the number of player entries |
| TeamAnalyzer.AnalyzeFrequencies | src/teamAnalyzer.js:162-174 | the four tables are the objects built from the tallies' entries sorted by count, the top tables from the first ten |
| TeamAnalyzer.AnalyzeStatistics | src/teamAnalyzer.js:162-175 | the frequency tables hold every counted entry, the top tables at most ten of them; each lists array-index keys first and ascending, then the other keys most frequent first |
| TeamAnalyzer.AnalyzeSkipsMalformed | src/teamAnalyzer.js:76-79 | a malformed entry changes nothing but the number of games analysed |
| DataTransformer.TrimStart | src/dataTransformer.js:19 | removes exactly the leading white space |
| DataTransformer.TrimEnd | src/dataTransformer.js:19 | removes exactly the trailing white space |
| DataTransformer.TrimEmptyIffBlank | src/dataTransformer.js:14 | a line is skipped as empty exactly when all of it is white space |
| DataTransformer.Split | src/dataTransformer.js:18 | at least one field, none containing the separator |
| DataTransformer.JoinSplit | src/dataTransformer.js:18 | joining the fields with the separator gives the line back |
| DataTransformer.DigitPrefix | src/dataTransformer.js:20 | the digits `parseInt` reads: a prefix made of digits of the radix |
| DataTransformer.ParseFields | src/dataTransformer.js:18-21 | filtering out `NaN` keeps at most one number per field |
| DataTransformer.DecimalString | src/dataTransformer.js:40 | `toString` gives at least one digit, and a single digit exactly below 10 |
| DataTransformer.Pad2Digits | src/dataTransformer.js:40 | a number below 100 pads to two digits that read back as the number |
| DataTransformer.PadShape | src/dataTransformer.js:39-41 | the joined string has two digits per number, and each pair reads back as its number |
| DataTransformer.LineRecord | src/dataTransformer.js:14-45 | a line gives a record exactly when it is not blank and holds six integers, five in 1..47 and the last in 1..10 |
| DataTransformer.RecordDigits | src/dataTransformer.js:39-45 | an accepted line's record is twelve digits whose k-th pair reads back as the line's k-th number |
| DataTransformer.PaddedDigits | src/dataTransformer.js:39-41 | six in-range numbers pad to twelve digits whose pairs read back as them |
| DataTransformer.TransformRawData | src/dataTransformer.js:9-52 | the results are the records of the lines, in reverse file order |
| DataTransformer.RecordsWellShaped | src/dataTransformer.js:24-45 | there are at most as many results as lines, and every result is twelve characters long |
| DataTransformer.LastValidLineFirst | src/dataTransformer.js:12 | a valid last line gives the first result |
| TeamConverter.DigitChunks | src/teamConverter.js:12 | `/\d{1,2}/g` yields runs of one or two digits, and none exactly when the string has no digit |
| TeamConverter.PlayerNames | src/teamConverter.js:20-26 | names of all ids when every id has a row, otherwise the first id without one |
| TeamConverter.ConvertTeamToNames | src/teamConverter.js:5-39 | non-strings and digitless strings are refused; succeeds exactly with six numbers, five players and a goalie found, and returns their names in order |
| TeamConverter.ChunksAfterPair | src/teamConverter.js:12 | two leading digits form the first chunk |
| TeamConverter.SplitPadded | src/teamConverter.js:12 | splitting padded numbers below 100 gives them back |
| TeamConverter.RecordRoundTrip | src/teamConverter.js:12 | a record written by the transformer splits back into the six numbers of its line |
| TeamConverter.ConvertRecord | src/teamConverter.js:19-37 | with complete tables, every written record converts to the names of its line's numbers |
| TeamConverter.NoDigitsExample | src/teamConverter.js:12 | a string without digits fails before any count or id check |
| TeamConverter.GreedyChunkExample | src/teamConverter.js:12 | "123" is read as 12 then 3 |
| Settings.ShippedRecencyIsZero | src/config.js:20-21 | with the shipped recency base and scale, every earlier team weighs 0 |
| Settings.RecencyGrows | src/aiPredictor.js:142-143 | recency lies between base and base + scale and does not decrease for later teams |
| PlayerStats.TeamSlotsCount | src/aiPredictor.js:28-36 | a team holds an (id, position) slot exactly when that position resolves to that id |
| PlayerStats.HistorySlotsCount | src/aiPredictor.js:27-37 | a history holds each slot once per team fielding that id at that position |
| PlayerStats.BumpStep | src/aiPredictor.js:31-34 | one increment opens a row of five zeros for a new id and adds one to its own entry only |
| PlayerStats.BumpAllDomain | src/aiPredictor.js:31-33 | rows are opened for exactly the ids of the slots, each five wide |
| PlayerStats.BumpAllCounts | src/aiPredictor.js:27-37 | each row entry counts the slots of that id and position |
| PlayerStats.PositionRows | src/aiPredictor.js:27-37 | each count row has five entries, each the number of teams fielding that id at that position |
| PlayerStats.PositionRowsDomain | src/aiPredictor.js:30-33 | an id has a row exactly when some team fields it |
| PlayerStats.RowsTotalPositive | src/aiPredictor.js:40 | every row total is positive, so the division is defined |
| PlayerStats.SharesDistribution | src/aiPredictor.js:39-42 | the shares of a row lie in [0, 1] and add up to 1 |
| PlayerStats.CountPositions | src/aiPredictor.js:27-37 | the first loop builds exactly the count rows |
| PlayerStats.CountTeamPositions | src/aiPredictor.js:28-36 | one team adds its slots to the rows |
| PlayerStats.MeetSeen | src/aiPredictor.js:56 | an increment adds one to that ordered pair only |
| PlayerStats.OpenSeen | src/aiPredictor.js:48-50 | opening a row changes no count |
| PlayerStats.RowChemSeen | src/aiPredictor.js:52-59 | the inner loop counts every other position's id once, and the own position never |
| PlayerStats.TeamChemSeen | src/aiPredictor.js:45-61 | one team adds, for every pair of ids, the number of ordered pairs of distinct positions holding them |
| PlayerStats.HistoryChemSeen | src/aiPredictor.js:44-62 | the chemistry of a history equals the reference count of ordered position pairs |
| PlayerStats.PairsAtSymmetric | src/aiPredictor.js:44-62 | the reference count is symmetric in the two players |
| PlayerStats.TeamChemKeys | src/aiPredictor.js:47-50 | a team opens an entry for exactly the ids it resolves |
| PlayerStats.HistoryChemKeys | src/aiPredictor.js:44-62 | chemistry has an entry for exactly the ids some team resolves |
| PlayerStats.CountChemistry | src/aiPredictor.js:44-62 | the third loop builds exactly the chemistry of the history |
| PlayerStats.TeamChemistry | src/aiPredictor.js:45-61 | one team's loop builds its chemistry |
| PlayerStats.RowChemistry | src/aiPredictor.js:52-59 | the inner loop builds its row's chemistry |
| PlayerStats.CalculatePlayerStats | src/aiPredictor.js:20-65 | the method computes the statistics that the lemmas below characterise |
| PlayerStats.PositionPreference | src/aiPredictor.js:27-42 | rows exist exactly for fielded ids; each entry is the share of the id's appearances at that position; the five lie in [0, 1] and sum to 1 |
| PlayerStats.PositionPreferenceInUnit | src/aiPredictor.js:41 | every share lies in [0, 1] |
| PlayerStats.Chemistry | src/aiPredictor.js:44-64 | `chemistry[a][b]` counts ordered pairs of distinct positions holding a and b; it is symmetric, and `goalieChemistry` stays empty |
| PlayerStats.SameIds | src/aiPredictor.js:30-50 | chemistry and position preference are keyed by the same ids |
| Encoder.EnhancedOutput | src/aiPredictor.js:67-86 | the 342 entries of the target vector, as `Encoder.OutputAt` gives them |
| Encoder.OutputRange | src/aiPredictor.js:73-81 | every entry is 0, or in [1, 2] for a player, or exactly 1 for a goalie; the player part of block 5 stays 0 |
| Encoder.PlayerEntry | src/aiPredictor.js:70-76 | entry i of block pos is marked exactly when that position resolves to id i + 1 |
| Encoder.PadEntry | src/aiPredictor.js:67-76 | entries 47..56 of each player block stay 0, because no resolved player id reaches them |
| Encoder.GoalieEntry | src/aiPredictor.js:67-83 | goalie entry i is 1 exactly when the goalie name resolves to id i + 1, and 0 otherwise |
| Encoder.PlayerRoundTrip | src/aiPredictor.js:70-76 | reading block pos back gives the id its position resolves to |
| Encoder.GoalieRoundTrip | src/aiPredictor.js:78-83 | reading the goalie entries back gives the goalie whose name is in the table |
| Training.ApplySum | src/aiPredictor.js:161 | each entry ends as its start plus every amount added at its index |
| Training.Bump | src/aiPredictor.js:161 | `input[index] += amount` |
| Training.AddPairs | src/aiPredictor.js:164-174 | the pair loop makes exactly its pair additions |
| Training.AddTeam | src/aiPredictor.js:145-188 | the position loop of one earlier team makes exactly that team's additions |
| Training.AddPosition | src/aiPredictor.js:146-187 | the player itself, then its pairs, then the goalie |
| Training.AddGoalie | src/aiPredictor.js:177-186 | the goalie addition when the goalie resolves |
| Training.BuildInput | src/aiPredictor.js:139-189 | the input vector of sample i |
| Training.PrepareTrainingData | src/aiPredictor.js:88-197 | the analyzer's error, or the samples built from its weights |
| Training.BuildSamples | src/aiPredictor.js:135-193 | the sample loop builds exactly the samples |
| Training.AppendSample | src/aiPredictor.js:191-192 | one turn appends the sample of the next team |
| Training.BuildSample | src/aiPredictor.js:136-192 | the input from the earlier teams, and the target of team i |
| Training.InputLayout | src/aiPredictor.js:139-189 | each entry is the sum of its additions; only player and goalie entries can be non-zero; zero recency makes every entry 0 |
| Training.ShippedInputsVanish | src/aiPredictor.js:142-143 | under the shipped weights every training input is all zeros |
| Training.SampleTargets | src/aiPredictor.js:191 | sample j's target reads back as the players and goalie of team j + 1 |
| Training.TrainingDataOutcome | src/aiPredictor.js:89-196 | fails exactly when no team names a goalie; otherwise one sample per team after the first |
| Training.ComboKeyOrder | src/aiPredictor.js:168 | the lookup key "9-10" differs from the analyzer's "10-9", while the lookup from 10 to 9 finds it |
| Training.ComboKeyMatches | src/aiPredictor.js:168 | the lookup key equals the analyzer's key exactly when the first id's string does not sort after the second's |
| Trainer.StreakMeansRising | src/aiPredictor.js:245-249 | the counter is at least r exactly when the error rose at the last r checkpoints |
| Trainer.FirstUnstable | src/aiPredictor.js:252-254 | the first checkpoint whose counter exceeds the limit; none before it does |
| Trainer.AbortNeedsRisingErrors | src/aiPredictor.js:245-254 | an abort needs more than limit + 1 checkpoints, the last limit + 1 of them each rising |
| Trainer.NeverRisingIsStable | src/aiPredictor.js:245-254 | an error that never rises never aborts |
| Trainer.CheckStability | src/aiPredictor.js:235-265 | the callback aborts at exactly the first unstable checkpoint |
| Trainer.PrepareData | src/aiPredictor.js:217 | fails exactly when no team names a goalie; otherwise one sample per team after the first |
| Trainer.TrainModel | src/aiPredictor.js:212-283 | each error happens exactly in its case (no teams, no goalie, a single team, an unstable run); otherwise it returns the network's result |
| Predictor.EncodeTeam | src/aiPredictor.js:291-309 | writes one team's block and leaves the rest of the input alone |
| Predictor.EncodeHistory | src/aiPredictor.js:288-310 | the input vector the network receives |
| Predictor.HistoryEntry | src/aiPredictor.js:296-299 | an entry of a team's block is marked exactly when its position resolves to that id |
| Predictor.HistoryRoundTrip | src/aiPredictor.js:290-310 | reading a team's block back gives the ids of its positions, whenever the team weighs something |
| Predictor.ShippedHistoryVanishes | src/aiPredictor.js:297-298 | under the shipped weights the network sees only zeros |
| Predictor.Candidates | src/aiPredictor.js:320-328 | candidate i has id i + 1 and the score of its entry |
| Predictor.Recent | src/aiPredictor.js:333 | `slice(-5)`: the last five teams, or all of them |
| Predictor.FewestPlayers | src/aiPredictor.js:333-335 | the size of the smallest team, capped at 5 |
| Predictor.FieldedBelow | src/aiPredictor.js:333-335 | a position can be read exactly below the size of the smallest of the last five teams |
| Predictor.PickFacts | src/aiPredictor.js:318-344 | the pick is the earliest candidate of maximal score, multiplied by the position weight when a recent team had it at that position |
| Predictor.GoaliePickFacts | src/aiPredictor.js:346-356 | the goalie is the earliest goalie candidate of maximal score, unboosted |
| Predictor.PredictFacts | src/aiPredictor.js:284-381 | throws exactly when a recent team has fewer than five players, at the first missing position; otherwise five ids in 1..47, a goalie in 1..10, confidence = sum / 6 |
| Predictor.PickBound | src/aiPredictor.js:338-344 | with scores in [0, 1] and a weight of at least 1, a pick scores between 0 and the weight |
| Predictor.ConfidenceRange | src/aiPredictor.js:359 | confidence lies in [0, 5 * position / 6], which exceeds 1 under the shipped weight |
| Predictor.BoostRecent | src/aiPredictor.js:338-342 | boosts the kept candidates in place |
| Predictor.PickPlayer | src/aiPredictor.js:318-345 | fails exactly when a recent team lacks the position; otherwise the pick |
| Predictor.PickPlayers | src/aiPredictor.js:318-345 | stops at the first missing position; otherwise the five picks |
| Predictor.PredictNextTeam | src/aiPredictor.js:284-381 | the prediction that `Predictor.PredictFacts` characterises |
| Predictor.BestRun | src/aiPredictor.js:391-394 | the kept run succeeded and lies among the runs made |
| Predictor.BestRunIsFirstMax | src/aiPredictor.js:384-400 | the kept run is the first of greatest confidence above -1; none means no such run |
| Predictor.KeepBetter | src/aiPredictor.js:389-397 | a run replaces the kept one only with strictly greater confidence |
| Predictor.PredictMultipleTimes | src/aiPredictor.js:382-401 | makes `config.predictionRuns` runs and returns the first run of greatest confidence, or null |
| Accuracy.Overlap | src/aiPredict.js:32 | at most the number of predicted ids |
| Accuracy.OverlapSameKeys | src/aiPredict.js:32 | only which keys the history holds matters |
| Accuracy.OverlapPermutation | src/aiPredict.js:32 | reordering the predicted ids does not change the overlap |
| Accuracy.OverlapOrderFree | src/aiPredict.js:28-32 | the overlap depends only on the multiset of ids and the set of historical keys |
| Accuracy.CountMatches | src/aiPredict.js:32 | the filter counts the overlap |
| Accuracy.MarkPositions | src/aiPredict.js:44-48 | one more hit at each position the team shares |
| Accuracy.RecordPositions | src/aiPredict.js:61-67 | each position's table gains the team's number at that position |
| Accuracy.RecordNumbers | src/aiPredict.js:70-76 | the overall table gains the team's numbers |
| Accuracy.CountOverlap | src/aiPredict.js:35-41 | the switch adds one to the counter of that overlap, and to none for 0 |
| Accuracy.CountTeam | src/aiPredict.js:28-58 | counts one team's overlap class, position hits and goalie hit |
| Accuracy.RecordTeam | src/aiPredict.js:61-76 | records one team's numbers per position and overall |
| Accuracy.ScanTeam | src/aiPredict.js:26-77 | one turn of the loop counts and records the team, keeping the loop's state exact, and throws exactly when the team has more than five players |
| Accuracy.Collect | src/aiPredict.js:90 | the returned object is the expected statistics |
| Accuracy.AnalyzePredictionAccuracy | src/aiPredict.js:9-91 | throws exactly for a team with more than five players, at the first one; otherwise returns the expected statistics |
| Accuracy.MatchingCovers | src/aiPredict.js:32-41 | every team falls in exactly one overlap class 0..5 |
| Accuracy.OverlapCountersBound | src/aiPredict.js:35-41 | the counters add up to the number of teams with a non-zero overlap |
| Accuracy.PositionCountersBound | src/aiPredict.js:44-48 | each position counter is at most the history's length; the sixth, `exactMatches` and `sequencePatterns` stay empty |
| Accuracy.GoalieCounterStrict | src/aiPredict.js:51-58 | goalie matches reach the history's length exactly when every goalie is an object with the predicted id; name-only goalies never match |
| Accuracy.FrequencyTotals | src/aiPredict.js:61-76 | the position tables sum to the teams having that position, and the overall table to the player entries |
| Accuracy.OverallIsSumOfPositions | src/aiPredict.js:61-76 | the overall table is the sum of the five position tables |

## Left out

- File reads and writes are parameters or absent. This covers
  `readFileSync` of the raw file and of the transformed results, model saving
  and `loadModel`. `transformRawData` receives the lines after
  `data.trim().split('\n')`.
- Console output is not modelled: warnings, progress lines, the statistics
  printout of `prepareTrainingData`, and the top-3 printout of
  `analyzePredictionAccuracy`. Neither is `toFixed` rounding:
  `weights.players`, `weights.goalies` and `weights.combinations` hold the
  unrounded weights.
- The brain.js network is a parameter. `predictNextTeam` takes `run` as a
  function assumed to answer with 342 scores. `predictMultipleTimes` takes
  one such function per run, which stands for run-to-run variation.
  Training's result is a parameter.
- `Trainer.TrainModel`: the errors at the logged checkpoints are a parameter.
  The `Date.now()` gating of the callback decides which checkpoints are
  logged, and it is not modelled.
- The `TeamPredictor` class holds only the network. Its methods are modelled
  as module-level functions and methods that take the network as a
  parameter.
- Floating point is modelled as exact reals. Weights, shares and
  confidences are computed without rounding.
- The analyzer's bonus stubs `calculatePositionBonus`,
  `calculateCombinationBonus`, `calculateRecentBonus`,
  `calculateCombinationSuccess` and `calculateCombinationRecency` are not
  modelled. Nothing calls them. The two goalie stubs that are called always
  answer 0.
- `timestamp` in the analysis is not modelled (a clock).
- The `goaliePlayerSynergy` tally that `analyzeTeamPatterns` builds per goalie
  is not modelled. The function never reads or returns it, so it has no
  observable effect.
- `Training.PrepareTrainingData`, `Trainer.TrainModel`: these require well-formed
  teams (at most five players, object ids in the pools) and valid tables. In
  JavaScript, a write beyond the 342 entries would grow the array, and the
  model does not follow that.
- `Predictor.PredictNextTeam`, `Predictor.PredictMultipleTimes`: these require
  every team to have at most five players and every resolved id to lie in
  its pool, so that each write stays inside its team's block. The converter
  returns exactly five player names, which meets both at the only call site.
- `PlayerStats.CalculatePlayerStats`: requires at most five players per
  team. A sixth position would write past `Array(5)`, and the model does not
  follow that.
- `Accuracy.AnalyzePredictionAccuracy`: requires a prediction of five players,
  which is what `predictMultipleTimes` returns. Historical ids are keyed by
  property name, so id 7 and the name "7" share an entry. Inherited
  JavaScript property names (such as `constructor`) are not modelled.
- The history entries of the analyzer may be malformed (`Malformed`). Those
  of the later stages are well-formed records, because `runAIPrediction`
  checks them before use.
- A player object's name is not checked against its id: the id alone is
  what `getPlayerId` reads.
- `prepareTrainingData` recomputes `calculatePlayerStats(teams)` on every turn
  of its sample loop. The model computes it once, because every turn gets the
  same value.
