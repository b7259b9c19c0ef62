/**
 * `prepareEnhancedOutput`: the 342-wide target vector of a team. Block `pos`
 * (57 entries from `pos * 57`) marks the player at that position with
 * 1 + its position preference; the goalie entries of block 5 mark the goalie
 * with 1.
 */
module Encoder {
  import opened Wrappers
  import opened Teams

  /** `playerStats.positionPreference[playerId]?.[position] || 0`. */
  function PrefAt(prefs: map<int, seq<real>>, id: int, pos: nat): real {
    if id in prefs && pos < |prefs[id]| then prefs[id][pos] else 0.0
  }

  /** `if (team.goalie)`, then `goalies.find(g => g.name === team.goalie)?.id`: only a bare name resolves. */
  function GoalieSlot(t: Tables, g: GoalieRef): Option<int> {
    if HasGoalie(g) then GoalieIdByName(t, g) else None
  }

  /** The player entries of the output after the first `n` positions have been written. */
  function PlayersUpTo(t: Tables, team: Team, prefs: map<int, seq<real>>, n: nat, k: nat): real {
    if k < 5 * BlockWidth then
      var pos, j := k / BlockWidth, k % BlockWidth;
      if pos < n && pos < |team.players| && PlayerId(t, team.players[pos]) == Some(j + 1)
      then 1.0 + PrefAt(prefs, j + 1, pos)
      else 0.0
    else 0.0
  }

  /** Entry `k` of the target vector of `team`. */
  function OutputAt(t: Tables, team: Team, prefs: map<int, seq<real>>, k: nat): real {
    if GoalieBase <= k < VectorWidth && GoalieSlot(t, team.goalie) == Some(k - GoalieBase + 1) then 1.0
    else PlayersUpTo(t, team, prefs, |team.players|, k)
  }

  /** Entry `j` of block `pos` sits at `pos * 57 + j`. */
  lemma BlockIndex(pos: nat, j: nat)
    requires j < BlockWidth
    ensures (pos * BlockWidth + j) / BlockWidth == pos
    ensures (pos * BlockWidth + j) % BlockWidth == j
  {
  }

  /** `prepareEnhancedOutput(team, playerStats)`, with `playerStats.positionPreference` as `prefs`. */
  method EnhancedOutput(t: Tables, team: Team, prefs: map<int, seq<real>>) returns (output: array<real>)
    requires ValidTables(t) && WellFormed(team)
    ensures output.Length == VectorWidth
    ensures forall k :: 0 <= k < VectorWidth ==> output[k] == OutputAt(t, team, prefs, k)
  {
    output := new real[VectorWidth](_ => 0.0);
    for pos := 0 to |team.players|
      invariant forall k :: 0 <= k < VectorWidth ==> output[k] == PlayersUpTo(t, team, prefs, pos, k)
    {
      var playerId := PlayerId(t, team.players[pos]);
      if playerId.Some? {
        IdsInRange(t, team, pos);
        var index := pos * BlockWidth + (playerId.value - 1);
        BlockIndex(pos, playerId.value - 1);
        output[index] := 1.0 + PrefAt(prefs, playerId.value, pos);
        forall k | 0 <= k < VectorWidth && k != index ensures PlayersUpTo(t, team, prefs, pos + 1, k) == PlayersUpTo(t, team, prefs, pos, k) {
          if k < 5 * BlockWidth && k / BlockWidth == pos {
            assert k % BlockWidth != playerId.value - 1;
          }
        }
      }
    }
    if HasGoalie(team.goalie) {
      var goalieId := GoalieIdByName(t, team.goalie);
      if goalieId.Some? {
        output[GoalieBase + (goalieId.value - 1)] := 1.0;
      }
    }
  }

  /** The index of the first non-zero entry of `b` at or after `from`. */
  function FirstNonZero(b: seq<real>, from: nat): Option<nat>
    decreases |b| - from
  {
    if from >= |b| then None
    else if b[from] != 0.0 then Some(from)
    else FirstNonZero(b, from + 1)
  }

  lemma {:induction false} FirstNonZeroFinds(b: seq<real>, from: nat, j: nat)
    requires from <= j < |b| && b[j] != 0.0
    requires forall i :: from <= i < |b| && i != j ==> b[i] == 0.0
    ensures FirstNonZero(b, from) == Some(j)
    decreases |b| - from
  {
    if from < j {
      FirstNonZeroFinds(b, from + 1, j);
    }
  }

  lemma {:induction false} FirstNonZeroNone(b: seq<real>, from: nat)
    requires forall i :: from <= i < |b| ==> b[i] == 0.0
    ensures FirstNonZero(b, from) == None
    decreases |b| - from
  {
    if from < |b| {
      FirstNonZeroNone(b, from + 1);
    }
  }

  /** Reads the player of block `pos` back from a target vector: the first marked entry. */
  function ReadPlayer(v: seq<real>, pos: nat): Option<int>
    requires pos < 5 && |v| == VectorWidth
  {
    var j := FirstNonZero(v[pos * BlockWidth..pos * BlockWidth + PlayerPool], 0);
    if j.Some? then Some(j.value + 1) else None
  }

  /** Reads the goalie back from a target vector. */
  function ReadGoalie(v: seq<real>): Option<int>
    requires |v| == VectorWidth
  {
    var j := FirstNonZero(v[GoalieBase..], 0);
    if j.Some? then Some(j.value + 1) else None
  }

  /** The target vector as a sequence. */
  function Output(t: Tables, team: Team, prefs: map<int, seq<real>>): (v: seq<real>)
    ensures |v| == VectorWidth
    ensures forall k :: 0 <= k < VectorWidth ==> v[k] == OutputAt(t, team, prefs, k)
  {
    seq(VectorWidth, k requires 0 <= k < VectorWidth => OutputAt(t, team, prefs, k))
  }

  /** Position preferences are shares, each in [0, 1]. */
  predicate ShareTable(prefs: map<int, seq<real>>) {
    forall id, p :: id in prefs && 0 <= p < |prefs[id]| ==> 0.0 <= prefs[id][p] <= 1.0
  }

  /**
   * Every entry of the target vector is 0, or between 1 and 2 for a player
   * (1 plus its share at that position), or exactly 1 for the goalie; the
   * player entries of block 5 stay 0.
   */
  lemma OutputRange(t: Tables, team: Team, prefs: map<int, seq<real>>, k: nat)
    requires ShareTable(prefs) && k < VectorWidth
    ensures OutputAt(t, team, prefs, k) == 0.0 || 1.0 <= OutputAt(t, team, prefs, k) <= 2.0
    ensures 5 * BlockWidth <= k < GoalieBase ==> OutputAt(t, team, prefs, k) == 0.0
    ensures GoalieBase <= k ==> OutputAt(t, team, prefs, k) == 0.0 || OutputAt(t, team, prefs, k) == 1.0
  {
  }

  /** Entry `i` of block `pos` is marked exactly when that position resolves to id `i + 1`. */
  lemma PlayerEntry(t: Tables, team: Team, prefs: map<int, seq<real>>, pos: nat, i: nat)
    requires ShareTable(prefs) && pos < 5 && i < PlayerPool
    ensures OutputAt(t, team, prefs, pos * BlockWidth + i) != 0.0 <==> pos < |team.players| && PlayerId(t, team.players[pos]) == Some(i + 1)
  {
    BlockIndex(pos, i);
  }

  /** Entries 47..56 of a player block, which no player id reaches, stay 0. */
  lemma PadEntry(t: Tables, team: Team, prefs: map<int, seq<real>>, pos: nat, i: nat)
    requires ValidTables(t) && WellFormed(team) && pos < 5 && PlayerPool <= i < BlockWidth
    ensures OutputAt(t, team, prefs, pos * BlockWidth + i) == 0.0
  {
    BlockIndex(pos, i);
    if pos < |team.players| {
      IdsInRange(t, team, pos);
    }
  }

  /** Goalie entry `i` is 1 exactly when the goalie resolves by name to id `i + 1`, and 0 otherwise. */
  lemma GoalieEntry(t: Tables, team: Team, prefs: map<int, seq<real>>, i: nat)
    requires i < GoaliePool
    ensures OutputAt(t, team, prefs, GoalieBase + i) == if GoalieSlot(t, team.goalie) == Some(i + 1) then 1.0 else 0.0
  {
  }

  /**
   * The target vector identifies the team: reading a block back gives the id
   * its position resolves to (none for a missing or unresolved position).
   */
  lemma PlayerRoundTrip(t: Tables, team: Team, prefs: map<int, seq<real>>, pos: nat)
    requires ValidTables(t) && WellFormed(team) && ShareTable(prefs) && pos < 5
    ensures ReadPlayer(Output(t, team, prefs), pos) == (if pos < |team.players| then PlayerId(t, team.players[pos]) else None)
  {
    var v := Output(t, team, prefs);
    var start := pos * BlockWidth;
    var b := v[start..start + PlayerPool];
    var id := if pos < |team.players| then PlayerId(t, team.players[pos]) else None;
    forall i | 0 <= i < |b| ensures b[i] != 0.0 <==> id == Some(i + 1) {
      assert b[i] == v[start + i];
      PlayerEntry(t, team, prefs, pos, i);
    }
    if id.Some? {
      IdsInRange(t, team, pos);
      FirstNonZeroFinds(b, 0, id.value - 1);
    } else {
      FirstNonZeroNone(b, 0);
    }
  }

  /** Reading the goalie entries back gives the goalie when it is a name of the goalie table. */
  lemma GoalieRoundTrip(t: Tables, team: Team, prefs: map<int, seq<real>>)
    requires ValidTables(t)
    ensures ReadGoalie(Output(t, team, prefs)) == GoalieSlot(t, team.goalie)
  {
    var v := Output(t, team, prefs);
    var b := v[GoalieBase..];
    var g := GoalieSlot(t, team.goalie);
    forall i | 0 <= i < |b| ensures b[i] != 0.0 <==> g == Some(i + 1) {
      assert b[i] == v[GoalieBase + i];
    }
    if g.Some? {
      FirstNonZeroFinds(b, 0, g.value - 1);
    } else {
      FirstNonZeroNone(b, 0);
    }
  }
}
