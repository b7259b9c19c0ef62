/**
 * `convertTeamToNames`: splits a record string into numbers of one or two digits
 * and names them through the player and goalie tables, throwing on anything
 * that does not give five known players and a known goalie.
 */
module TeamConverter {
  import opened Wrappers
  import opened Teams
  import DT = DataTransformer

  /** The argument's JavaScript type matters: anything but a string is refused. */
  datatype Input = Text(s: string) | NonString

  /** The errors the converter throws. */
  datatype ConvertError =
    | NotAString               // "Input must be a string"
    | NoDigits                 // `match` returned null, so `.map` fails
    | WrongCount(count: nat)   // "Input must be exactly 6 numbers"
    | InvalidPlayer(num: int)  // "Invalid player number"
    | InvalidGoalie(num: int)  // "Invalid goalie number"

  /** `{ players, goalie }` with names. */
  datatype NamedTeam = NamedTeam(players: seq<string>, goalie: string)

  predicate AllDigits(s: string) {
    forall j :: 0 <= j < |s| ==> DT.IsDigit(s[j])
  }

  /** `s.match(/\d{1,2}/g)`: greedy runs of one or two digits, left to right, skipping everything else. */
  function DigitChunks(s: string): (r: seq<string>)
    ensures forall k :: 0 <= k < |r| ==> 1 <= |r[k]| <= 2 && AllDigits(r[k])
    ensures r == [] <==> forall j :: 0 <= j < |s| ==> !DT.IsDigit(s[j])
  {
    if s == [] then []
    else if !DT.IsDigit(s[0]) then
      var r := DigitChunks(s[1..]);
      assert forall j :: 1 <= j < |s| ==> s[j] == s[1..][j - 1];
      r
    else if |s| >= 2 && DT.IsDigit(s[1]) then [s[..2]] + DigitChunks(s[2..])
    else [s[..1]] + DigitChunks(s[1..])
  }

  /** `.map(num => parseInt(num))` over the chunks: each is a plain decimal numeral. */
  function Numbers(chunks: seq<string>): (ns: seq<nat>)
    requires forall k :: 0 <= k < |chunks| ==> AllDigits(chunks[k])
    ensures |ns| == |chunks|
  {
    if chunks == [] then []
    else
      assert AllDigits(chunks[0]);
      assert forall j :: 0 <= j < |chunks[0]| ==> DT.IsHexDigit(chunks[0][j]) by {
        forall j | 0 <= j < |chunks[0]| ensures DT.IsHexDigit(chunks[0][j]) { assert DT.IsDigit(chunks[0][j]); }
      }
      [DT.Value(chunks[0], false)] + Numbers(chunks[1..])
  }

  /**
   * `numbers.map(num => find player or throw)`: the names of the given ids in
   * order, or the first id that has no row.
   */
  function PlayerNames(table: Table, nums: seq<nat>): (r: Result<seq<string>, int>)
    ensures r.Ok? ==> |r.value| == |nums|
    ensures r.Ok? ==> forall k :: 0 <= k < |nums| ==> FindById(table, nums[k]).Some? && r.value[k] == FindById(table, nums[k]).value.name
    ensures r.Err? ==> exists k :: (0 <= k < |nums| && r.error == nums[k] && FindById(table, nums[k]).None?
                                    && forall j :: 0 <= j < k ==> FindById(table, nums[j]).Some?)
    ensures r.Ok? <==> forall k :: 0 <= k < |nums| ==> FindById(table, nums[k]).Some?
  {
    if nums == [] then Ok([])
    else
      match FindById(table, nums[0])
      case None => Err(nums[0])
      case Some(m) =>
        var rest := PlayerNames(table, nums[1..]);
        if rest.Err? then
          var k :| 0 <= k < |nums[1..]| && rest.error == nums[1..][k] && FindById(table, nums[1..][k]).None?
            && forall j :: 0 <= j < k ==> FindById(table, nums[1..][j]).Some?;
          assert forall j :: 0 <= j < k + 1 ==> FindById(table, nums[j]).Some? by {
            forall j | 0 <= j < k + 1 ensures FindById(table, nums[j]).Some? {
              if j > 0 { assert nums[j] == nums[1..][j - 1]; }
            }
          }
          Err(rest.error)
        else
          assert forall k :: 1 <= k < |nums| ==> nums[k] == nums[1..][k - 1];
          Ok([m.name] + rest.value)
  }

  /** The numbers a record string splits into. */
  function SplitNumbers(s: string): seq<nat> {
    Numbers(DigitChunks(s))
  }

  /** `convertTeamToNames(numberString)`. */
  function ConvertTeamToNames(t: Tables, input: Input): (r: Result<NamedTeam, ConvertError>)
    ensures input.NonString? ==> r == Err(NotAString)
    ensures input.Text? && (forall j :: 0 <= j < |input.s| ==> !DT.IsDigit(input.s[j])) ==> r == Err(NoDigits)
    ensures r.Ok? <==>
      && input.Text?
      && |SplitNumbers(input.s)| == 6
      && (forall k :: 0 <= k < 5 ==> FindById(t.players, SplitNumbers(input.s)[k]).Some?)
      && FindById(t.goalies, SplitNumbers(input.s)[5]).Some?
    ensures r.Ok? ==> (&& |r.value.players| == 5
                       && (forall k :: 0 <= k < 5 ==> r.value.players[k] == FindById(t.players, SplitNumbers(input.s)[k]).value.name)
                       && r.value.goalie == FindById(t.goalies, SplitNumbers(input.s)[5]).value.name)
  {
    match input
    case NonString => Err(NotAString)
    case Text(s) =>
      var chunks := DigitChunks(s);
      if chunks == [] then Err(NoDigits)
      else
        var numbers := Numbers(chunks);
        if |numbers| != 6 then Err(WrongCount(|numbers|))
        else
          var players := PlayerNames(t.players, numbers[..5]);
          assert forall k :: 0 <= k < 5 ==> numbers[..5][k] == numbers[k];
          if players.Err? then Err(InvalidPlayer(players.error))
          else
            var goalieNum := numbers[5];
            match FindById(t.goalies, goalieNum)
            case None => Err(InvalidGoalie(goalieNum))
            case Some(g) => Ok(NamedTeam(players.value, g.name))
  }

  /** Two leading digits make the first chunk whole. */
  lemma ChunksAfterPair(p: string, rest: string)
    requires |p| == 2 && AllDigits(p)
    ensures DigitChunks(p + rest) == [p] + DigitChunks(rest)
  {
    var s := p + rest;
    assert s[..2] == p;
    assert s[2..] == rest;
  }

  /** Splitting the padded digits of numbers below 100 gives back exactly those numbers. */
  lemma {:induction false} SplitPadded(ns: seq<nat>)
    requires forall k :: 0 <= k < |ns| ==> ns[k] < 100
    ensures SplitNumbers(DT.Pad(ns)) == ns
  {
    if ns != [] {
      DT.Pad2Digits(ns[0]);
      var p := DT.Pad2(ns[0]);
      ChunksAfterPair(p, DT.Pad(ns[1..]));
      SplitPadded(ns[1..]);
      assert DigitChunks(DT.Pad(ns)) == [p] + DigitChunks(DT.Pad(ns[1..]));
      assert Numbers([p] + DigitChunks(DT.Pad(ns[1..]))) == [DT.Value(p, false)] + Numbers(DigitChunks(DT.Pad(ns[1..])));
    }
  }

  /** A record string written by the transformer splits back into the six numbers of its line. */
  lemma RecordRoundTrip(line: string)
    requires DT.LineRecord(line).Some?
    ensures SplitNumbers(DT.LineRecord(line).value.numberString) == DT.Fields(line)
  {
    var ns := DT.Fields(line);
    assert DT.LineRecord(line).value.numberString == DT.Pad(DT.Naturals(ns));
    SplitInRange(ns);
  }

  lemma SplitInRange(ns: seq<int>)
    requires DT.InRange(ns)
    ensures SplitNumbers(DT.Pad(DT.Naturals(ns))) == ns
  {
    var nat6 := DT.Naturals(ns);
    SplitPadded(nat6);
    assert forall k :: 0 <= k < 6 ==> nat6[k] == ns[k];
  }

  /**
   * With complete tables, every record the transformer writes converts to the
   * names of its line's numbers: players in line order, then the goalie.
   */
  lemma ConvertRecord(t: Tables, line: string)
    requires Complete(t.players, PlayerPool) && Complete(t.goalies, GoaliePool)
    requires DT.LineRecord(line).Some?
    ensures ConvertTeamToNames(t, Text(DT.LineRecord(line).value.numberString)).Ok?
    ensures var team := ConvertTeamToNames(t, Text(DT.LineRecord(line).value.numberString)).value;
      && (forall k :: 0 <= k < 5 ==> team.players[k] == FindById(t.players, DT.Fields(line)[k]).value.name)
      && team.goalie == FindById(t.goalies, DT.Fields(line)[5]).value.name
  {
    RecordRoundTrip(line);
    ConvertInRange(t, DT.LineRecord(line).value.numberString, DT.Fields(line));
  }

  /** A string splitting into six in-range numbers converts, with complete tables, to their names. */
  lemma ConvertInRange(t: Tables, s: string, ns: seq<int>)
    requires Complete(t.players, PlayerPool) && Complete(t.goalies, GoaliePool)
    requires SplitNumbers(s) == ns && DT.InRange(ns)
    ensures ConvertTeamToNames(t, Text(s)).Ok?
    ensures var team := ConvertTeamToNames(t, Text(s)).value;
      && (forall k :: 0 <= k < 5 ==> team.players[k] == FindById(t.players, ns[k]).value.name)
      && team.goalie == FindById(t.goalies, ns[5]).value.name
  {
    assert forall k :: 0 <= k < 5 ==> FindById(t.players, ns[k]).Some?;
    assert FindById(t.goalies, ns[5]).Some?;
  }

  /** A string without digits fails before any check of count or ids. */
  lemma NoDigitsExample(t: Tables)
    ensures ConvertTeamToNames(t, Text("abc")) == Err(NoDigits)
  {
    assert DigitChunks("abc") == [] by {
      assert "abc"[1..] == "bc" && "bc"[1..] == "c" && "c"[1..] == [];
    }
  }

  /** Digits run together are chunked two by two: "123" is read as 12 and 3. */
  lemma GreedyChunkExample()
    ensures SplitNumbers("123") == [12, 3]
  {
    assert "123"[..2] == "12" && "123"[2..] == "3";
    assert "3"[..1] == "3" && "3"[1..] == [];
    assert DigitChunks("123") == ["12", "3"];
    assert "12"[..1] == "1" && "1"[..0] == [];
    assert DT.Value("1", false) == 1;
    assert DT.Value("12", false) == 12;
    assert DT.Value("3", false) == 3;
  }
}
