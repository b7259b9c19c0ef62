/**
 * The entities every stage shares: the reference tables of players and goalies,
 * the loosely typed player and goalie references found in team records, and the
 * id lookups `getPlayerId` / `getGoalieId` that resolve them.
 */
module Teams {
  import opened Wrappers

  /** Players are numbered 1..47, goalies 1..10. */
  const PlayerPool: nat := 47
  const GoaliePool: nat := 10
  /** One 57-wide block per slot: 47 player entries then 10 goalie entries. */
  const BlockWidth: nat := 57
  /** Six blocks: five player positions and the goalie slot. */
  const VectorWidth: nat := 342
  /** The goalie entries start at block 5, after its 47 player entries. */
  const GoalieBase: nat := 332

  /** One row of `teamMembers.json` or `goalies.json`. */
  datatype Member = Member(id: int, name: string)

  /** A reference table: the JSON array, searched with `Array.prototype.find`. */
  type Table = seq<Member>

  datatype Tables = Tables(players: Table, goalies: Table)

  /** `table.find(m => m.id === id)`: the first row with that id. */
  function FindById(table: Table, id: int): (r: Option<Member>)
    ensures r.Some? ==> r.value in table && r.value.id == id
    ensures r.None? ==> forall k :: 0 <= k < |table| ==> table[k].id != id
  {
    if |table| == 0 then None
    else if table[0].id == id then Some(table[0])
    else FindById(table[1..], id)
  }

  /** `table.find(m => m.name === name)`: the first row with that name. */
  function FindByName(table: Table, name: string): (r: Option<Member>)
    ensures r.Some? ==> r.value in table && r.value.name == name
    ensures r.None? ==> forall k :: 0 <= k < |table| ==> table[k].name != name
  {
    if |table| == 0 then None
    else if table[0].name == name then Some(table[0])
    else FindByName(table[1..], name)
  }

  /** Both ids and names identify a row. */
  predicate Injective(table: Table) {
    forall i, j :: 0 <= i < j < |table| ==> table[i].id != table[j].id && table[i].name != table[j].name
  }

  predicate IdsWithin(table: Table, n: nat) {
    forall k :: 0 <= k < |table| ==> 1 <= table[k].id <= n
  }

  /** Every id 1..n has a row. */
  predicate Complete(table: Table, n: nat) {
    forall id :: 1 <= id <= n ==> FindById(table, id).Some?
  }

  /** The reference data the system ships with: injective tables of the right id ranges. */
  predicate ValidTables(t: Tables) {
    Injective(t.players) && Injective(t.goalies) && IdsWithin(t.players, PlayerPool) && IdsWithin(t.goalies, GoaliePool)
  }

  /** In an injective table, the row found by id is found again by its name. */
  lemma {:induction false} NameOfIdRoundTrip(table: Table, id: int)
    requires Injective(table)
    requires FindById(table, id).Some?
    ensures FindByName(table, FindById(table, id).value.name) == FindById(table, id)
  {
    var m := FindById(table, id).value;
    if table[0].id == id {
    } else {
      assert Injective(table[1..]) by {
        forall i, j | 0 <= i < j < |table[1..]|
          ensures table[1..][i].id != table[1..][j].id && table[1..][i].name != table[1..][j].name
        {
          assert table[1..][i] == table[i + 1] && table[1..][j] == table[j + 1];
        }
      }
      NameOfIdRoundTrip(table[1..], id);
      assert m in table[1..];
      var k :| 0 <= k < |table[1..]| && table[1..][k] == m;
      assert table[0].name != table[k + 1].name;
    }
  }

  /** In an injective table, the row found by name is found again by its id. */
  lemma {:induction false} IdOfNameRoundTrip(table: Table, name: string)
    requires Injective(table)
    requires FindByName(table, name).Some?
    ensures FindById(table, FindByName(table, name).value.id) == FindByName(table, name)
  {
    var m := FindByName(table, name).value;
    if table[0].name == name {
    } else {
      assert Injective(table[1..]) by {
        forall i, j | 0 <= i < j < |table[1..]|
          ensures table[1..][i].id != table[1..][j].id && table[1..][i].name != table[1..][j].name
        {
          assert table[1..][i] == table[i + 1] && table[1..][j] == table[j + 1];
        }
      }
      IdOfNameRoundTrip(table[1..], name);
      assert m in table[1..];
      var k :| 0 <= k < |table[1..]| && table[1..][k] == m;
      assert table[0].id != table[k + 1].id;
    }
  }

  /**
   * A player as it appears in a team record: a bare name (the JSON written by the
   * converter) or a `{name, id}` object (built from the roster before training).
   */
  datatype PlayerRef = Named(name: string) | Record(id: int, name: string)

  /** A team's goalie: absent, a bare name, or a `{name, id}` object. */
  datatype GoalieRef = NoGoalie | GoalieNamed(name: string) | GoalieRecord(id: int, name: string)

  /** One team record: the players in position order (index = position) and the goalie. */
  datatype Team = Team(players: seq<PlayerRef>, goalie: GoalieRef)

  /** `typeof player === 'object' ? player.name : player`. */
  function PlayerName(p: PlayerRef): string {
    match p
    case Named(n) => n
    case Record(_, n) => n
  }

  /** JavaScript truthiness of `team.goalie`: absent and the empty name are falsy. */
  predicate HasGoalie(g: GoalieRef) {
    match g
    case NoGoalie => false
    case GoalieNamed(n) => n != ""
    case GoalieRecord(_, _) => true
  }

  /** `typeof team.goalie === 'object' ? team.goalie.name : team.goalie`, for a truthy goalie. */
  function GoalieName(g: GoalieRef): string
    requires HasGoalie(g)
  {
    match g
    case GoalieNamed(n) => n
    case GoalieRecord(_, n) => n
  }

  /** A truthy id: `undefined` and 0 are what `if (playerId)` rejects. */
  function Truthy(id: Option<int>): Option<int> {
    if id.Some? && id.value != 0 then id else None
  }

  /**
   * `getPlayerId(player)` as every caller uses it, behind `if (playerId)`:
   * a name is looked up in the player table, an object gives its own id.
   */
  function PlayerId(t: Tables, p: PlayerRef): (r: Option<int>)
    ensures r.Some? ==> r.value != 0
    ensures p.Record? ==> (r.Some? <==> p.id != 0) && (r.Some? ==> r.value == p.id)
  {
    match p
    case Named(n) =>
      var m := FindByName(t.players, n);
      Truthy(if m.Some? then Some(m.value.id) else None)
    case Record(id, _) => Truthy(Some(id))
  }

  /** A name resolves to the id of the row of that name, which the id finds again. */
  lemma PlayerIdResolves(t: Tables, p: PlayerRef)
    ensures var r := PlayerId(t, p);
      && (p.Named? && r.Some? ==> FindById(t.players, r.value).Some?)
      && (p.Named? && ValidTables(t) && r.Some? ==> 1 <= r.value <= PlayerPool && FindById(t.players, r.value).value.name == p.name)
      && (p.Named? && ValidTables(t) && FindByName(t.players, p.name).Some? ==> r.Some?)
  {
    if p.Named? {
      var m := FindByName(t.players, p.name);
      if m.Some? && m.value.id != 0 {
        if ValidTables(t) { IdOfNameRoundTrip(t.players, p.name); }
      }
    }
  }

  /** `getGoalieId(goalie)`: a name is looked up in the goalie table, an object gives its id. */
  function GoalieId(t: Tables, g: GoalieRef): (r: Option<int>)
    ensures r.Some? ==> r.value != 0 && !g.NoGoalie?
    ensures g.GoalieRecord? ==> (r.Some? <==> g.id != 0) && (r.Some? ==> r.value == g.id)
  {
    match g
    case NoGoalie => None
    case GoalieNamed(n) =>
      var m := FindByName(t.goalies, n);
      Truthy(if m.Some? then Some(m.value.id) else None)
    case GoalieRecord(id, _) => Truthy(Some(id))
  }

  /** A goalie name resolves to the id of the row of that name, which the id finds again. */
  lemma GoalieIdResolves(t: Tables, g: GoalieRef)
    ensures var r := GoalieId(t, g);
      && (g.GoalieNamed? && r.Some? ==> FindById(t.goalies, r.value).Some?)
      && (g.GoalieNamed? && ValidTables(t) && r.Some? ==> 1 <= r.value <= GoaliePool && FindById(t.goalies, r.value).value.name == g.name)
  {
    if g.GoalieNamed? {
      var m := FindByName(t.goalies, g.name);
      if m.Some? && m.value.id != 0 {
        if ValidTables(t) { IdOfNameRoundTrip(t.goalies, g.name); }
      }
    }
  }

  /**
   * `goalies.find(g => g.name === team.goalie)?.id`: the lookup the output encoder
   * and the predictor use, which only a bare name can satisfy.
   */
  function GoalieIdByName(t: Tables, g: GoalieRef): (r: Option<int>)
    ensures r.Some? ==> g.GoalieNamed?
    ensures r.Some? ==> r == GoalieId(t, g)
    ensures ValidTables(t) && r.Some? ==> 1 <= r.value <= GoaliePool
  {
    GoalieIdResolves(t, g);
    match g
    case GoalieNamed(n) =>
      var m := FindByName(t.goalies, n);
      Truthy(if m.Some? then Some(m.value.id) else None)
    case _ => None
  }

  /**
   * What the training and prediction stages rely on: at most five players
   * (a position is an index 0..4), objects carry ids within range.
   */
  predicate WellFormed(team: Team) {
    && |team.players| <= 5
    && (forall k :: 0 <= k < |team.players| && team.players[k].Record? ==> 1 <= team.players[k].id <= PlayerPool)
    && (team.goalie.GoalieRecord? ==> 1 <= team.goalie.id <= GoaliePool)
  }

  /** Under valid tables, every resolved id of a well-formed team is a real pool index. */
  lemma IdsInRange(t: Tables, team: Team, k: int)
    requires ValidTables(t) && WellFormed(team) && 0 <= k < |team.players|
    ensures PlayerId(t, team.players[k]).Some? ==> 1 <= PlayerId(t, team.players[k]).value <= PlayerPool
    ensures GoalieId(t, team.goalie).Some? ==> 1 <= GoalieId(t, team.goalie).value <= GoaliePool
  {
    PlayerIdResolves(t, team.players[k]);
    GoalieIdResolves(t, team.goalie);
  }
}
