/**
 * `calculatePlayerStats`: how often each player id was seen at each of the
 * five positions (normalised to shares per player), and the chemistry table
 * counting, for every ordered pair of ids, the position pairs of one team at
 * which both were fielded.
 */
module PlayerStats {
  import opened Wrappers
  import opened Teams
  import Ratios

  /** Every team of the history has at most five players, one per position. */
  predicate FivePositions(teams: seq<Team>) {
    forall k :: 0 <= k < |teams| ==> |teams[k].players| <= 5
  }

  // ---------------------------------------------------------------------------
  // Position preference
  // ---------------------------------------------------------------------------

  /** A resolved player id at a position. */
  datatype Slot = Slot(id: int, pos: nat)

  /** The slots of the first `n` positions of a team, in position order. */
  function TeamSlots(t: Tables, ps: seq<PlayerRef>, n: nat): seq<Slot>
    requires n <= |ps|
  {
    if n == 0 then []
    else
      var id := PlayerId(t, ps[n - 1]);
      TeamSlots(t, ps, n - 1) + (if id.Some? then [Slot(id.value, n - 1)] else [])
  }

  /** The slots of the first `n` teams, team after team. */
  function HistorySlots(t: Tables, teams: seq<Team>, n: nat): seq<Slot>
    requires n <= |teams|
  {
    if n == 0 then [] else HistorySlots(t, teams, n - 1) + TeamSlots(t, teams[n - 1].players, |teams[n - 1].players|)
  }

  /** `Array(5).fill(0)`. */
  const EmptyRow: seq<nat> := [0, 0, 0, 0, 0]

  /** `positionPreference[id][pos]++`, creating the row of five zeros first when the id is new. */
  function Bump(rows: map<int, seq<nat>>, s: Slot): map<int, seq<nat>> {
    var row := if s.id in rows then rows[s.id] else EmptyRow;
    if s.pos < |row| then rows[s.id := row[s.pos := row[s.pos] + 1]] else rows
  }

  /** The rows after bumping every slot of `slots` in turn. */
  function BumpAll(rows: map<int, seq<nat>>, slots: seq<Slot>): map<int, seq<nat>> {
    if slots == [] then rows else Bump(BumpAll(rows, slots[..|slots| - 1]), slots[|slots| - 1])
  }

  lemma BumpAllSnoc(rows: map<int, seq<nat>>, slots: seq<Slot>, s: Slot)
    ensures BumpAll(rows, slots + [s]) == Bump(BumpAll(rows, slots), s)
  {
    assert (slots + [s])[..|slots|] == slots;
  }

  /** The number of teams among the first `n` whose position `pos` resolves to `id`. */
  function TeamsAt(t: Tables, teams: seq<Team>, id: int, pos: nat, n: nat): nat
    requires n <= |teams|
  {
    if n == 0 then 0
    else
      var ps := teams[n - 1].players;
      TeamsAt(t, teams, id, pos, n - 1) + (if pos < |ps| && PlayerId(t, ps[pos]) == Some(id) then 1 else 0)
  }

  /** A team holds a slot exactly when that position resolves to that id. */
  lemma {:induction false} TeamSlotsCount(t: Tables, ps: seq<PlayerRef>, n: nat, s: Slot)
    requires n <= |ps|
    ensures multiset(TeamSlots(t, ps, n))[s] == if s.pos < n && PlayerId(t, ps[s.pos]) == Some(s.id) then 1 else 0
  {
    if n > 0 {
      TeamSlotsCount(t, ps, n - 1, s);
    }
  }

  /** The slots of a history hold each (id, position) once per team fielding that id there. */
  lemma {:induction false} HistorySlotsCount(t: Tables, teams: seq<Team>, n: nat, s: Slot)
    requires n <= |teams|
    ensures multiset(HistorySlots(t, teams, n))[s] == TeamsAt(t, teams, s.id, s.pos, n)
  {
    if n > 0 {
      HistorySlotsCount(t, teams, n - 1, s);
      TeamSlotsCount(t, teams[n - 1].players, |teams[n - 1].players|, s);
    }
  }

  /** Every slot of a history of at most five players per team has a position below 5. */
  lemma {:induction false} HistorySlotsNarrow(t: Tables, teams: seq<Team>, n: nat)
    requires n <= |teams| && FivePositions(teams)
    ensures forall s :: s in HistorySlots(t, teams, n) ==> s.pos < 5
  {
    if n > 0 {
      HistorySlotsNarrow(t, teams, n - 1);
      forall s | s in HistorySlots(t, teams, n) ensures s.pos < 5 {
        var ps := teams[n - 1].players;
        if s !in HistorySlots(t, teams, n - 1) {
          TeamSlotsCount(t, ps, |ps|, s);
          assert s in multiset(TeamSlots(t, ps, |ps|));
        }
      }
    }
  }

  /** One bump adds one to the slot's own entry, opening a row of zeros for a new id. */
  lemma BumpStep(rows: map<int, seq<nat>>, s: Slot)
    requires s.pos < 5
    requires forall id :: id in rows ==> |rows[id]| == 5
    ensures forall id :: id in Bump(rows, s) <==> id in rows || id == s.id
    ensures forall id :: id in Bump(rows, s) ==> |Bump(rows, s)[id]| == 5
    ensures forall id, p :: id in Bump(rows, s) && 0 <= p < 5 ==>
      Bump(rows, s)[id][p] == (if id in rows then rows[id][p] else 0) + (if Slot(id, p) == s then 1 else 0)
  {
  }

  /** Bumping slots of positions below 5 from no rows opens a five-wide row for exactly the ids of the slots. */
  lemma {:induction false} BumpAllDomain(slots: seq<Slot>)
    requires forall s :: s in slots ==> s.pos < 5
    ensures forall id :: id in BumpAll(map[], slots) <==> exists p :: Slot(id, p) in slots
    ensures forall id :: id in BumpAll(map[], slots) ==> |BumpAll(map[], slots)[id]| == 5
  {
    if slots != [] {
      var init, s := slots[..|slots| - 1], slots[|slots| - 1];
      assert slots == init + [s];
      assert forall x :: x in init ==> x in slots;
      BumpAllDomain(init);
      BumpStep(BumpAll(map[], init), s);
      forall id ensures id in BumpAll(map[], slots) <==> exists p :: Slot(id, p) in slots {
        if id in BumpAll(map[], slots) && id != s.id {
          var p :| Slot(id, p) in init;
          assert Slot(id, p) in slots;
        }
        if exists p :: Slot(id, p) in slots {
          var p :| Slot(id, p) in slots;
          assert Slot(id, p) in init || Slot(id, p) == s;
        }
      }
    }
  }

  /** Each entry of a row counts the slots of that id and position. */
  lemma {:induction false} BumpAllCounts(slots: seq<Slot>)
    requires forall s :: s in slots ==> s.pos < 5
    ensures forall id :: id in BumpAll(map[], slots) ==> |BumpAll(map[], slots)[id]| == 5
    ensures forall id, p :: id in BumpAll(map[], slots) && 0 <= p < 5 ==>
      BumpAll(map[], slots)[id][p] == multiset(slots)[Slot(id, p)]
  {
    if slots != [] {
      var init, s := slots[..|slots| - 1], slots[|slots| - 1];
      assert slots == init + [s];
      assert forall x :: x in init ==> x in slots;
      BumpAllDomain(init);
      BumpAllCounts(init);
      BumpStep(BumpAll(map[], init), s);
      forall id, p | id in BumpAll(map[], slots) && 0 <= p < 5
        ensures BumpAll(map[], slots)[id][p] == multiset(slots)[Slot(id, p)]
      {
        if id !in BumpAll(map[], init) {
          assert Slot(id, p) !in init;
        }
      }
    }
  }

  /** The total of a row. */
  function Total(row: seq<nat>): nat {
    if row == [] then 0 else Total(row[..|row| - 1]) + row[|row| - 1]
  }

  /** The count rows `calculatePlayerStats` builds from a history. */
  function Rows(t: Tables, teams: seq<Team>): map<int, seq<nat>> {
    BumpAll(map[], HistorySlots(t, teams, |teams|))
  }

  /** A history's rows: one of five entries for exactly the ids fielded at some position, each entry the number of teams fielding that id there. */
  lemma PositionRows(t: Tables, teams: seq<Team>)
    requires FivePositions(teams)
    ensures forall id :: id in Rows(t, teams) ==> |Rows(t, teams)[id]| == 5
    ensures forall id, p :: id in Rows(t, teams) && 0 <= p < 5 ==> Rows(t, teams)[id][p] == TeamsAt(t, teams, id, p, |teams|)
  {
    var slots := HistorySlots(t, teams, |teams|);
    HistorySlotsNarrow(t, teams, |teams|);
    BumpAllDomain(slots);
    BumpAllCounts(slots);
    forall id, p | 0 <= p < 5 ensures multiset(slots)[Slot(id, p)] == TeamsAt(t, teams, id, p, |teams|) {
      HistorySlotsCount(t, teams, |teams|, Slot(id, p));
    }
  }

  /** Some team of the history fields `id` at one of the five positions. */
  predicate Fielded(t: Tables, teams: seq<Team>, n: nat, id: int)
    requires n <= |teams|
  {
    exists p: nat :: p < 5 && TeamsAt(t, teams, id, p, n) > 0
  }

  /** An id has a row exactly when some team fields it at some position. */
  lemma PositionRowsDomain(t: Tables, teams: seq<Team>)
    requires FivePositions(teams)
    ensures forall id :: id in Rows(t, teams) <==> Fielded(t, teams, |teams|, id)
  {
    var slots := HistorySlots(t, teams, |teams|);
    HistorySlotsNarrow(t, teams, |teams|);
    BumpAllDomain(slots);
    assert Rows(t, teams) == BumpAll(map[], slots);
    forall id ensures id in Rows(t, teams) <==> Fielded(t, teams, |teams|, id) {
      if id in Rows(t, teams) {
        var p: nat :| Slot(id, p) in slots;
        HistorySlotsCount(t, teams, |teams|, Slot(id, p));
        assert p < 5 && TeamsAt(t, teams, id, p, |teams|) > 0;
      }
      if Fielded(t, teams, |teams|, id) {
        var p: nat :| p < 5 && TeamsAt(t, teams, id, p, |teams|) > 0;
        HistorySlotsCount(t, teams, |teams|, Slot(id, p));
        assert Slot(id, p) in multiset(slots);
      }
    }
  }

  /** Every row has a positive total, so the shares are well defined. */
  lemma RowsTotalPositive(t: Tables, teams: seq<Team>)
    requires FivePositions(teams)
    ensures forall id :: id in Rows(t, teams) ==> Total(Rows(t, teams)[id]) > 0
  {
    PositionRows(t, teams);
    PositionRowsDomain(t, teams);
    forall id | id in Rows(t, teams) ensures Total(Rows(t, teams)[id]) > 0 {
      var p: nat :| p < 5 && TeamsAt(t, teams, id, p, |teams|) > 0;
      TotalPositive(Rows(t, teams)[id], p);
    }
  }

  lemma {:induction false} TotalPositive(row: seq<nat>, p: nat)
    requires p < |row| && row[p] > 0
    ensures Total(row) > 0
  {
    if p < |row| - 1 {
      TotalPositive(row[..|row| - 1], p);
    }
  }

  lemma {:induction false} BumpAllAppend(rows: map<int, seq<nat>>, a: seq<Slot>, b: seq<Slot>)
    ensures BumpAll(rows, a + b) == BumpAll(BumpAll(rows, a), b)
    decreases |b|
  {
    if b != [] {
      var init, s := b[..|b| - 1], b[|b| - 1];
      assert b == init + [s];
      assert a + b == (a + init) + [s];
      BumpAllSnoc(rows, a + init, s);
      BumpAllSnoc(BumpAll(rows, a), init, s);
      BumpAllAppend(rows, a, init);
    } else {
      assert a + b == a;
    }
  }

  /** The first loop of `calculatePlayerStats`: count each resolved player at its position. */
  method CountPositions(t: Tables, teams: seq<Team>) returns (rows: map<int, seq<nat>>)
    requires FivePositions(teams)
    ensures rows == Rows(t, teams)
  {
    rows := map[];
    for i := 0 to |teams|
      invariant rows == BumpAll(map[], HistorySlots(t, teams, i))
    {
      var ps := teams[i].players;
      rows := CountTeamPositions(t, ps, rows);
      BumpAllAppend(map[], HistorySlots(t, teams, i), TeamSlots(t, ps, |ps|));
    }
  }

  /** The inner loop over one team's positions. */
  method CountTeamPositions(t: Tables, ps: seq<PlayerRef>, rows: map<int, seq<nat>>) returns (rows': map<int, seq<nat>>)
    ensures rows' == BumpAll(rows, TeamSlots(t, ps, |ps|))
  {
    rows' := rows;
    for pos := 0 to |ps|
      invariant rows' == BumpAll(rows, TeamSlots(t, ps, pos))
    {
      var id := PlayerId(t, ps[pos]);
      if id.Some? {
        assert TeamSlots(t, ps, pos + 1) == TeamSlots(t, ps, pos) + [Slot(id.value, pos)];
        BumpAllSnoc(rows, TeamSlots(t, ps, pos), Slot(id.value, pos));
        rows' := Bump(rows', Slot(id.value, pos));
      } else {
        assert TeamSlots(t, ps, pos + 1) == TeamSlots(t, ps, pos);
      }
    }
  }

  // ---------------------------------------------------------------------------
  // Normalisation
  // ---------------------------------------------------------------------------

  /** The sum of a sequence of reals, from the front. */
  function SumReals(s: seq<real>): real {
    if s == [] then 0.0 else SumReals(s[..|s| - 1]) + s[|s| - 1]
  }

  /** `row.map(count => count / d)`. */
  function Scale(row: seq<nat>, d: real): seq<real>
    requires d > 0.0
  {
    seq(|row|, i requires 0 <= i < |row| => row[i] as real / d)
  }

  /** Each count as a share of the row's total. */
  function Shares(row: seq<nat>): seq<real>
    requires Total(row) > 0
  {
    Scale(row, Total(row) as real)
  }

  /** Scaling a row scales its sum. */
  lemma {:induction false} ScaleSum(row: seq<nat>, d: real)
    requires d > 0.0
    ensures SumReals(Scale(row, d)) == Total(row) as real / d
  {
    if row != [] {
      var init := row[..|row| - 1];
      assert Scale(row, d)[..|row| - 1] == Scale(init, d);
      ScaleSum(init, d);
      assert Total(init) as real / d + row[|row| - 1] as real / d == (Total(init) + row[|row| - 1]) as real / d;
    }
  }

  /** Every count is at most its row's total. */
  lemma {:induction false} TotalBounds(row: seq<nat>, p: nat)
    requires p < |row|
    ensures row[p] <= Total(row)
  {
    if p < |row| - 1 {
      TotalBounds(row[..|row| - 1], p);
    }
  }

  /** The shares of a row lie in [0, 1] and add up to 1. */
  lemma SharesDistribution(row: seq<nat>)
    requires Total(row) > 0
    ensures |Shares(row)| == |row|
    ensures forall p :: 0 <= p < |row| ==> 0.0 <= Shares(row)[p] <= 1.0
    ensures SumReals(Shares(row)) == 1.0
  {
    var d := Total(row) as real;
    ScaleSum(row, d);
    Ratios.SelfQuotient(d);
    forall p | 0 <= p < |row| ensures 0.0 <= Shares(row)[p] <= 1.0 {
      TotalBounds(row, p);
      Ratios.QuotientMonotone(row[p] as real, d, d);
      Ratios.QuotientMonotone(0.0, row[p] as real, d);
    }
  }

  /** The second loop, `Object.keys(...).forEach`: every row replaced by its shares, independently of the others. */
  function Preferences(rows: map<int, seq<nat>>): map<int, seq<real>>
    requires forall id :: id in rows ==> Total(rows[id]) > 0
  {
    map id | id in rows :: Shares(rows[id])
  }

  // ---------------------------------------------------------------------------
  // Chemistry
  // ---------------------------------------------------------------------------

  /** `if (!stats.chemistry[id1]) stats.chemistry[id1] = {}`. */
  function Open(chem: map<int, map<int, nat>>, a: int): map<int, map<int, nat>> {
    if a in chem then chem else chem[a := map[]]
  }

  /** `stats.chemistry[id1][id2] = (stats.chemistry[id1][id2] || 0) + 1`. */
  function Meet(chem: map<int, map<int, nat>>, a: int, b: int): map<int, map<int, nat>> {
    var row := if a in chem then chem[a] else map[];
    chem[a := row[b := (if b in row then row[b] else 0) + 1]]
  }

  /** The chemistry entry of a pair, 0 when absent. */
  function Seen(chem: map<int, map<int, nat>>, a: int, b: int): nat {
    if a in chem && b in chem[a] then chem[a][b] else 0
  }

  /** The innermost loop after `n` positions: `id1` at `pos1` meets every other resolved position. */
  function RowChem(t: Tables, ps: seq<PlayerRef>, pos1: nat, a: int, chem: map<int, map<int, nat>>, n: nat): map<int, map<int, nat>>
    requires n <= |ps|
  {
    if n == 0 then chem
    else
      var c := RowChem(t, ps, pos1, a, chem, n - 1);
      var id2 := PlayerId(t, ps[n - 1]);
      if pos1 != n - 1 && id2.Some? then Meet(c, a, id2.value) else c
  }

  /** The loop over one team's first positions, as the first player of a pair. */
  function TeamChem(t: Tables, ps: seq<PlayerRef>, chem: map<int, map<int, nat>>, n: nat): map<int, map<int, nat>>
    requires n <= |ps|
  {
    if n == 0 then chem
    else
      var c := TeamChem(t, ps, chem, n - 1);
      var id1 := PlayerId(t, ps[n - 1]);
      if id1.Some? then RowChem(t, ps, n - 1, id1.value, Open(c, id1.value), |ps|) else c
  }

  /** The chemistry table after the first `n` teams. */
  function HistoryChem(t: Tables, teams: seq<Team>, n: nat): map<int, map<int, nat>>
    requires n <= |teams|
  {
    if n == 0 then map[] else TeamChem(t, teams[n - 1].players, HistoryChem(t, teams, n - 1), |teams[n - 1].players|)
  }

  /** The number of the first `n` positions of a team that resolve to `id`. */
  function Occ(t: Tables, ps: seq<PlayerRef>, id: int, n: nat): nat
    requires n <= |ps|
  {
    if n == 0 then 0 else Occ(t, ps, id, n - 1) + (if PlayerId(t, ps[n - 1]) == Some(id) then 1 else 0)
  }

  /**
   * The reference count of ordered pairs: per team, every position resolving
   * to `a` paired with every other position resolving to `b`.
   */
  function PairsAt(t: Tables, teams: seq<Team>, a: int, b: int, n: nat): int
    requires n <= |teams|
  {
    if n == 0 then 0
    else
      var ps := teams[n - 1].players;
      PairsAt(t, teams, a, b, n - 1) + Occ(t, ps, a, |ps|) * Occ(t, ps, b, |ps|) - (if a == b then Occ(t, ps, a, |ps|) else 0)
  }

  /** Some team among the first `n` resolves some position to `id`. */
  predicate Appears(t: Tables, teams: seq<Team>, n: nat, id: int)
    requires n <= |teams|
  {
    exists k, p :: 0 <= k < n && 0 <= p < |teams[k].players| && PlayerId(t, teams[k].players[p]) == Some(id)
  }

  lemma MeetSeen(chem: map<int, map<int, nat>>, a: int, b: int)
    ensures Meet(chem, a, b).Keys == chem.Keys + {a}
    ensures forall x, y :: Seen(Meet(chem, a, b), x, y) == Seen(chem, x, y) + (if x == a && y == b then 1 else 0)
  {
  }

  lemma OpenSeen(chem: map<int, map<int, nat>>, a: int)
    ensures Open(chem, a).Keys == chem.Keys + {a}
    ensures forall x, y :: Seen(Open(chem, a), x, y) == Seen(chem, x, y)
  {
  }

  /** The row of `id1` at `pos1` counts each other position's id once and opens no new entry. */
  lemma {:induction false} RowChemSeen(t: Tables, ps: seq<PlayerRef>, pos1: nat, a: int, chem: map<int, map<int, nat>>, n: nat, x: int, y: int)
    requires n <= |ps| && pos1 < |ps| && PlayerId(t, ps[pos1]) == Some(a) && a in chem
    ensures RowChem(t, ps, pos1, a, chem, n).Keys == chem.Keys
    ensures Seen(RowChem(t, ps, pos1, a, chem, n), x, y) + (if x == a && y == a && pos1 < n then 1 else 0)
         == Seen(chem, x, y) + (if x == a then Occ(t, ps, y, n) else 0)
  {
    if n > 0 {
      RowChemSeen(t, ps, pos1, a, chem, n - 1, x, y);
      var c := RowChem(t, ps, pos1, a, chem, n - 1);
      var id2 := PlayerId(t, ps[n - 1]);
      if pos1 != n - 1 && id2.Some? {
        MeetSeen(c, a, id2.value);
      }
    }
  }

  /** One team adds, for every pair of ids, the number of ordered pairs of distinct positions they hold. */
  lemma {:induction false} TeamChemSeen(t: Tables, ps: seq<PlayerRef>, chem: map<int, map<int, nat>>, n: nat, x: int, y: int)
    requires n <= |ps|
    ensures Seen(TeamChem(t, ps, chem, n), x, y) + (if x == y then Occ(t, ps, x, n) else 0)
         == Seen(chem, x, y) + Occ(t, ps, x, n) * Occ(t, ps, y, |ps|)
  {
    if n > 0 {
      TeamChemSeen(t, ps, chem, n - 1, x, y);
      var c := TeamChem(t, ps, chem, n - 1);
      var id1 := PlayerId(t, ps[n - 1]);
      if id1.Some? {
        OpenSeen(c, id1.value);
        RowChemSeen(t, ps, n - 1, id1.value, Open(c, id1.value), |ps|, x, y);
      }
      var m, k := Occ(t, ps, x, n - 1), Occ(t, ps, y, |ps|);
      assert (m + 1) * k == m * k + k;
    }
  }

  /** The chemistry of a history is the reference count of ordered pairs. */
  lemma {:induction false} HistoryChemSeen(t: Tables, teams: seq<Team>, n: nat, x: int, y: int)
    requires n <= |teams|
    ensures Seen(HistoryChem(t, teams, n), x, y) == PairsAt(t, teams, x, y, n)
  {
    if n > 0 {
      HistoryChemSeen(t, teams, n - 1, x, y);
      var ps := teams[n - 1].players;
      TeamChemSeen(t, ps, HistoryChem(t, teams, n - 1), |ps|, x, y);
    }
  }

  /** The reference count does not depend on which of the two players comes first. */
  lemma {:induction false} PairsAtSymmetric(t: Tables, teams: seq<Team>, a: int, b: int, n: nat)
    requires n <= |teams|
    ensures PairsAt(t, teams, a, b, n) == PairsAt(t, teams, b, a, n)
  {
    if n > 0 {
      PairsAtSymmetric(t, teams, a, b, n - 1);
      var ps := teams[n - 1].players;
      assert Occ(t, ps, a, |ps|) * Occ(t, ps, b, |ps|) == Occ(t, ps, b, |ps|) * Occ(t, ps, a, |ps|);
    }
  }

  /** A team's loop opens an entry for exactly the ids it resolves. */
  lemma {:induction false} TeamChemKeys(t: Tables, ps: seq<PlayerRef>, chem: map<int, map<int, nat>>, n: nat)
    requires n <= |ps|
    ensures forall id :: id in TeamChem(t, ps, chem, n) <==> id in chem || exists p :: 0 <= p < n && PlayerId(t, ps[p]) == Some(id)
  {
    if n > 0 {
      TeamChemKeys(t, ps, chem, n - 1);
      var c := TeamChem(t, ps, chem, n - 1);
      var id1 := PlayerId(t, ps[n - 1]);
      if id1.Some? {
        OpenSeen(c, id1.value);
        RowChemSeen(t, ps, n - 1, id1.value, Open(c, id1.value), |ps|, 0, 0);
      }
    }
  }

  /** The chemistry table has an entry for exactly the ids some team resolves. */
  lemma {:induction false} HistoryChemKeys(t: Tables, teams: seq<Team>, n: nat)
    requires n <= |teams|
    ensures forall id :: id in HistoryChem(t, teams, n) <==> Appears(t, teams, n, id)
  {
    if n > 0 {
      HistoryChemKeys(t, teams, n - 1);
      var ps := teams[n - 1].players;
      TeamChemKeys(t, ps, HistoryChem(t, teams, n - 1), |ps|);
      forall id ensures id in HistoryChem(t, teams, n) <==> Appears(t, teams, n, id) {
        if Appears(t, teams, n, id) {
          var k, p :| 0 <= k < n && 0 <= p < |teams[k].players| && PlayerId(t, teams[k].players[p]) == Some(id);
          if k < n - 1 {
            assert Appears(t, teams, n - 1, id);
          }
        }
        if id in HistoryChem(t, teams, n) {
          if id in HistoryChem(t, teams, n - 1) {
            var k, p :| 0 <= k < n - 1 && 0 <= p < |teams[k].players| && PlayerId(t, teams[k].players[p]) == Some(id);
            assert 0 <= k < n;
          } else {
            var p :| 0 <= p < |ps| && PlayerId(t, ps[p]) == Some(id);
            assert PlayerId(t, teams[n - 1].players[p]) == Some(id);
          }
        }
      }
    }
  }

  /** The third loop over all teams. */
  method CountChemistry(t: Tables, teams: seq<Team>) returns (chem: map<int, map<int, nat>>)
    ensures chem == HistoryChem(t, teams, |teams|)
  {
    chem := map[];
    for i := 0 to |teams|
      invariant chem == HistoryChem(t, teams, i)
    {
      chem := TeamChemistry(t, teams[i].players, chem);
    }
  }

  /** One team: every resolved player opens its entry and meets the players at the other positions. */
  method TeamChemistry(t: Tables, ps: seq<PlayerRef>, chem: map<int, map<int, nat>>) returns (chem': map<int, map<int, nat>>)
    ensures chem' == TeamChem(t, ps, chem, |ps|)
  {
    chem' := chem;
    for pos1 := 0 to |ps|
      invariant chem' == TeamChem(t, ps, chem, pos1)
    {
      var id1 := PlayerId(t, ps[pos1]);
      if id1.Some? {
        if id1.value !in chem' {
          chem' := chem'[id1.value := map[]];
        }
        chem' := RowChemistry(t, ps, pos1, id1.value, chem');
      }
    }
  }

  /** The innermost loop over the second player's position. */
  method RowChemistry(t: Tables, ps: seq<PlayerRef>, pos1: nat, a: int, chem: map<int, map<int, nat>>) returns (chem': map<int, map<int, nat>>)
    ensures chem' == RowChem(t, ps, pos1, a, chem, |ps|)
  {
    chem' := chem;
    for pos2 := 0 to |ps|
      invariant chem' == RowChem(t, ps, pos1, a, chem, pos2)
    {
      if pos1 != pos2 {
        var id2 := PlayerId(t, ps[pos2]);
        if id2.Some? {
          var row := if a in chem' then chem'[a] else map[];
          chem' := chem'[a := row[id2.value := (if id2.value in row then row[id2.value] else 0) + 1]];
        }
      }
    }
  }

  // ---------------------------------------------------------------------------
  // The statistics
  // ---------------------------------------------------------------------------

  /** The object `calculatePlayerStats` returns; `goalieChemistry` is never filled. */
  datatype Stats = Stats(
    positionPreference: map<int, seq<real>>,
    chemistry: map<int, map<int, nat>>,
    goalieChemistry: map<int, map<int, nat>>)

  /** The statistics of a history. */
  function StatsOf(t: Tables, teams: seq<Team>): Stats
    requires FivePositions(teams)
  {
    RowsTotalPositive(t, teams);
    Stats(Preferences(Rows(t, teams)), HistoryChem(t, teams, |teams|), map[])
  }

  /** `calculatePlayerStats(teams)`. */
  method CalculatePlayerStats(t: Tables, teams: seq<Team>) returns (stats: Stats)
    requires FivePositions(teams)
    ensures stats == StatsOf(t, teams)
  {
    var rows := CountPositions(t, teams);
    RowsTotalPositive(t, teams);
    var positionPreference := Preferences(rows);
    var chemistry := CountChemistry(t, teams);
    stats := Stats(positionPreference, chemistry, map[]);
  }

  /** How often a team of the history fields `id`, over all five positions. */
  function Appearances(t: Tables, teams: seq<Team>, id: int): nat {
    var n := |teams|;
    TeamsAt(t, teams, id, 0, n) + TeamsAt(t, teams, id, 1, n) + TeamsAt(t, teams, id, 2, n) + TeamsAt(t, teams, id, 3, n) + TeamsAt(t, teams, id, 4, n)
  }

  lemma TotalOfFive(row: seq<nat>)
    requires |row| == 5
    ensures Total(row) == row[0] + row[1] + row[2] + row[3] + row[4]
  {
    assert row[..4][..3] == row[..3] && row[..3][..2] == row[..2] && row[..2][..1] == row[..1] && row[..1][..0] == [];
    assert Total(row[..1]) == row[0];
    assert Total(row[..2]) == row[0] + row[1];
    assert Total(row[..3]) == row[0] + row[1] + row[2];
  }

  /**
   * `positionPreference` has a row exactly for the ids fielded somewhere; the
   * row holds, per position, the share of that id's appearances made there,
   * each share in [0, 1] and the five adding up to 1.
   */
  lemma PositionPreference(t: Tables, teams: seq<Team>)
    requires FivePositions(teams)
    ensures forall id :: id in StatsOf(t, teams).positionPreference <==> Fielded(t, teams, |teams|, id)
    ensures forall id :: id in StatsOf(t, teams).positionPreference ==>
      Appearances(t, teams, id) > 0 &&
      |StatsOf(t, teams).positionPreference[id]| == 5 &&
      SumReals(StatsOf(t, teams).positionPreference[id]) == 1.0 &&
      forall p :: 0 <= p < 5 ==>
        StatsOf(t, teams).positionPreference[id][p] == TeamsAt(t, teams, id, p, |teams|) as real / Appearances(t, teams, id) as real
  {
    PositionRows(t, teams);
    PositionRowsDomain(t, teams);
    RowsTotalPositive(t, teams);
    var rows := Rows(t, teams);
    forall id | id in rows
      ensures Appearances(t, teams, id) > 0
      ensures SumReals(Shares(rows[id])) == 1.0
      ensures forall p :: 0 <= p < 5 ==> Shares(rows[id])[p] == TeamsAt(t, teams, id, p, |teams|) as real / Appearances(t, teams, id) as real
    {
      TotalOfFive(rows[id]);
      SharesDistribution(rows[id]);
    }
  }

  /** Every share of `positionPreference` lies in [0, 1]. */
  lemma PositionPreferenceInUnit(t: Tables, teams: seq<Team>)
    requires FivePositions(teams)
    ensures forall id, p :: id in StatsOf(t, teams).positionPreference && 0 <= p < |StatsOf(t, teams).positionPreference[id]| ==>
      0.0 <= StatsOf(t, teams).positionPreference[id][p] <= 1.0
  {
    RowsTotalPositive(t, teams);
    var rows := Rows(t, teams);
    forall id | id in rows ensures forall p :: 0 <= p < |Shares(rows[id])| ==> 0.0 <= Shares(rows[id])[p] <= 1.0 {
      SharesDistribution(rows[id]);
    }
  }

  /**
   * `chemistry[a][b]` (0 when absent) counts, over all teams, the ordered
   * pairs of distinct positions resolving to `a` and `b`; the table is
   * symmetric, and `goalieChemistry` stays empty.
   */
  lemma Chemistry(t: Tables, teams: seq<Team>, a: int, b: int)
    requires FivePositions(teams)
    ensures Seen(StatsOf(t, teams).chemistry, a, b) == PairsAt(t, teams, a, b, |teams|)
    ensures Seen(StatsOf(t, teams).chemistry, a, b) == Seen(StatsOf(t, teams).chemistry, b, a)
    ensures StatsOf(t, teams).goalieChemistry == map[]
  {
    HistoryChemSeen(t, teams, |teams|, a, b);
    HistoryChemSeen(t, teams, |teams|, b, a);
    PairsAtSymmetric(t, teams, a, b, |teams|);
  }

  /** Teams at or after `n` do not change whether an id appears among the first `n`. */
  lemma {:induction false} FieldedAppears(t: Tables, teams: seq<Team>, n: nat, id: int)
    requires n <= |teams| && FivePositions(teams)
    ensures Appears(t, teams, n, id) <==> Fielded(t, teams, n, id)
  {
    if n > 0 {
      FieldedAppears(t, teams, n - 1, id);
      var ps := teams[n - 1].players;
      if Appears(t, teams, n, id) {
        var k, p :| 0 <= k < n && 0 <= p < |teams[k].players| && PlayerId(t, teams[k].players[p]) == Some(id);
        if k < n - 1 {
          assert 0 <= k < n - 1 && 0 <= p < |teams[k].players| && PlayerId(t, teams[k].players[p]) == Some(id);
          assert Appears(t, teams, n - 1, id);
          var q: nat :| q < 5 && TeamsAt(t, teams, id, q, n - 1) > 0;
          assert TeamsAt(t, teams, id, q, n) > 0;
        } else {
          assert TeamsAt(t, teams, id, p, n) > 0;
        }
      }
      if Fielded(t, teams, n, id) {
        var p: nat :| p < 5 && TeamsAt(t, teams, id, p, n) > 0;
        if TeamsAt(t, teams, id, p, n - 1) > 0 {
          assert Fielded(t, teams, n - 1, id);
          var k, q :| 0 <= k < n - 1 && 0 <= q < |teams[k].players| && PlayerId(t, teams[k].players[q]) == Some(id);
          assert 0 <= k < n;
        } else {
          assert PlayerId(t, teams[n - 1].players[p]) == Some(id);
        }
      }
    }
  }

  /** `chemistry` and `positionPreference` are keyed by the same ids: the ids some team resolves. */
  lemma SameIds(t: Tables, teams: seq<Team>)
    requires FivePositions(teams)
    ensures StatsOf(t, teams).chemistry.Keys == StatsOf(t, teams).positionPreference.Keys
    ensures forall id :: id in StatsOf(t, teams).chemistry <==> Appears(t, teams, |teams|, id)
  {
    HistoryChemKeys(t, teams, |teams|);
    PositionRowsDomain(t, teams);
    RowsTotalPositive(t, teams);
    var stats := StatsOf(t, teams);
    assert stats.positionPreference.Keys == Rows(t, teams).Keys;
    forall id ensures id in stats.chemistry <==> id in stats.positionPreference {
      FieldedAppears(t, teams, |teams|, id);
    }
  }
}
