/**
 * The nested pair loops of `analyzeTeamPatterns`: every pair of positions
 * i < j of one team whose ids both resolve adds its pair key to the
 * combination counts.
 */
module PairCounts {
  import opened Wrappers
  import opened Teams
  import opened Tallies
  import opened PairKeys

  /** The ids the pair loop resolves, position by position (`undefined` and 0 as `None`). */
  function Resolved(t: Tables, ps: seq<PlayerRef>): (ids: seq<Option<int>>)
    ensures |ids| == |ps|
    ensures forall k :: 0 <= k < |ps| ==> ids[k] == PlayerId(t, ps[k])
  {
    seq(|ps|, k requires 0 <= k < |ps| => PlayerId(t, ps[k]))
  }

  /**
   * The keys `key` makes of the pairs (i, j) of row `i` while `j` runs up to
   * `upper`: `if (id1 && id2)` counts a pair only when both ids resolve.
   */
  function Row(key: (int, int) -> string, ids: seq<Option<int>>, i: nat, upper: nat): seq<string>
    decreases upper
  {
    if upper <= i + 1 || upper > |ids| then []
    else if ids[i].Some? && ids[upper - 1].Some? then Row(key, ids, i, upper - 1) + [key(ids[i].value, ids[upper - 1].value)]
    else Row(key, ids, i, upper - 1)
  }

  /** The pair keys the inner loop of row `i` adds while `j` runs up to `upper`. */
  function RowKeys(ids: seq<Option<int>>, i: nat, upper: nat): seq<string> {
    Row(PairKey, ids, i, upper)
  }

  /** The keys the outer loop adds over the rows below `rows`, in loop order. */
  function AllKeys(ids: seq<Option<int>>, rows: nat): seq<string> {
    if rows == 0 then [] else AllKeys(ids, rows - 1) + RowKeys(ids, rows - 1, |ids|)
  }

  /** The pair keys one team contributes. */
  function TeamPairKeys(t: Tables, team: Team): seq<string> {
    AllKeys(Resolved(t, team.players), |team.players|)
  }

  /** The nested `for (i ...) for (j = i + 1 ...)` loops over the pairs of one team's players. */
  method CountPairs(t: Tables, ps: seq<PlayerRef>, combos: Tally) returns (combos': Tally)
    ensures combos' == AddAll(combos, AllKeys(Resolved(t, ps), |ps|))
  {
    ghost var ids := Resolved(t, ps);
    combos' := combos;
    for i := 0 to |ps|
      invariant combos' == AddAll(combos, AllKeys(ids, i))
    {
      combos' := CountRow(t, ps, i, combos');
      AddAllAppend(combos, AllKeys(ids, i), RowKeys(ids, i, |ids|));
    }
  }

  /** The inner loop: the pairs (i, j) for every j after i. */
  method CountRow(t: Tables, ps: seq<PlayerRef>, i: nat, combos: Tally) returns (combos': Tally)
    requires i < |ps|
    ensures combos' == AddAll(combos, RowKeys(Resolved(t, ps), i, |ps|))
  {
    ghost var ids := Resolved(t, ps);
    assert RowKeys(ids, i, i + 1) == [];
    combos' := combos;
    for j := i + 1 to |ps|
      invariant combos' == AddAll(combos, RowKeys(ids, i, j))
    {
      combos' := CountPair(t, ps, i, j, combos', combos);
    }
  }

  /** The inner loop's body: the pair (i, j) counts when both ids resolve (`if (id1 && id2)`). */
  method CountPair(t: Tables, ps: seq<PlayerRef>, i: nat, j: nat, combos: Tally, ghost start: Tally) returns (combos': Tally)
    requires i < j < |ps|
    requires combos == AddAll(start, RowKeys(Resolved(t, ps), i, j))
    ensures combos' == AddAll(start, RowKeys(Resolved(t, ps), i, j + 1))
  {
    ghost var ids := Resolved(t, ps);
    var id1 := PlayerId(t, ps[i]);
    var id2 := PlayerId(t, ps[j]);
    RowKeysStep(ids, i, j);
    combos' := combos;
    if id1.Some? && id2.Some? {
      var key := PairKey(id1.value, id2.value);
      AddAllSnoc(start, RowKeys(ids, i, j), key);
      combos' := combos.Add(key);
    }
  }

  /** Row `i` grows by the key of position `j` exactly when both ids resolve. */
  lemma RowKeysStep(ids: seq<Option<int>>, i: nat, j: nat)
    requires i < j < |ids|
    ensures ids[i].Some? && ids[j].Some? ==> RowKeys(ids, i, j + 1) == RowKeys(ids, i, j) + [PairKey(ids[i].value, ids[j].value)]
    ensures !(ids[i].Some? && ids[j].Some?) ==> RowKeys(ids, i, j + 1) == RowKeys(ids, i, j)
  {
  }

  /** With every id resolved, row `i` holds one key per later position. */
  lemma RowKeysCount(ids: seq<Option<int>>, i: nat, upper: nat)
    requires i < upper <= |ids|
    requires forall k :: 0 <= k < |ids| ==> ids[k].Some?
    ensures |RowKeys(ids, i, upper)| == upper - i - 1
  {
    RowCount(PairKey, ids, i, upper);
  }

  lemma {:induction false} RowCount(key: (int, int) -> string, ids: seq<Option<int>>, i: nat, upper: nat)
    requires i < upper <= |ids|
    requires forall k :: 0 <= k < |ids| ==> ids[k].Some?
    ensures |Row(key, ids, i, upper)| == upper - i - 1
    decreases upper
  {
    if upper > i + 1 {
      RowCount(key, ids, i, upper - 1);
    }
  }

  /** Every key of row `i` comes from a later position j below `upper`, both ids resolving. */
  lemma RowKeysSound(ids: seq<Option<int>>, i: nat, upper: nat, key: string)
    requires key in RowKeys(ids, i, upper)
    ensures exists j :: i < j < upper <= |ids| && ids[i].Some? && ids[j].Some? && key == PairKey(ids[i].value, ids[j].value)
  {
    var j := RowSound(PairKey, ids, i, upper, key);
  }

  lemma {:induction false} RowSound(f: (int, int) -> string, ids: seq<Option<int>>, i: nat, upper: nat, key: string) returns (j: nat)
    requires key in Row(f, ids, i, upper)
    ensures i < j < upper <= |ids| && ids[i].Some? && ids[j].Some? && key == f(ids[i].value, ids[j].value)
    decreases upper
  {
    if key in Row(f, ids, i, upper - 1) {
      j := RowSound(f, ids, i, upper - 1, key);
    } else {
      j := upper - 1;
    }
  }

  /** Every later position j below `upper` whose id resolves, with i's, puts its key in row `i`. */
  lemma RowKeysComplete(ids: seq<Option<int>>, i: nat, j: nat, upper: nat)
    requires i < j < upper <= |ids|
    requires ids[i].Some? && ids[j].Some?
    ensures PairKey(ids[i].value, ids[j].value) in RowKeys(ids, i, upper)
  {
    RowComplete(PairKey, ids, i, j, upper);
  }

  lemma {:induction false} RowComplete(f: (int, int) -> string, ids: seq<Option<int>>, i: nat, j: nat, upper: nat)
    requires i < j < upper <= |ids|
    requires ids[i].Some? && ids[j].Some?
    ensures f(ids[i].value, ids[j].value) in Row(f, ids, i, upper)
    decreases upper
  {
    if j < upper - 1 {
      RowComplete(f, ids, i, j, upper - 1);
    }
  }

  /** A team of five resolved players adds one key per unordered pair: ten in all. */
  lemma FiveResolvedPlayersTenPairs(t: Tables, team: Team)
    requires |team.players| == 5
    requires forall k :: 0 <= k < 5 ==> PlayerId(t, team.players[k]).Some?
    ensures |TeamPairKeys(t, team)| == 10
  {
    var ids := Resolved(t, team.players);
    RowKeysCount(ids, 0, 5);
    RowKeysCount(ids, 1, 5);
    RowKeysCount(ids, 2, 5);
    RowKeysCount(ids, 3, 5);
    RowKeysCount(ids, 4, 5);
    assert |AllKeys(ids, 1)| == 4;
    assert |AllKeys(ids, 2)| == 7;
    assert |AllKeys(ids, 3)| == 9;
    assert |AllKeys(ids, 4)| == 10;
  }
}
