/** The shared race/score record and its trick-combo bookkeeping
    (Assets/Scripts/GameDataSO.cs). Float fields are exact reals. */
module GameData {
  import opened TrickData

  /** The points a trick adds to the pool when it differs from the previous one. */
  const TrickBaseScore: real := 100.0

  /** The sentinel "previous trick" name before any trick of a combo. */
  const NoTrickName: string := "none"

  /** The asset's fields. `lastTrickName` and `consecutiveTricks` are the
      private `_lastTrickName` and `_consecutiveTricks`; the latter starts at
      1 and is only ever set to 1 or incremented, hence `nat`. */
  datatype GameData = GameData(
    currentLap: int,
    maxLap: int,
    bestLapTime: real,
    bestTotalTime: real,
    totalTime: real,
    lastLapTime: real,
    currentTotalTime: real,
    currentLapTime: real,
    score: int,
    trickNames: seq<string>,
    trickMultiplier: int,
    trickPointPool: real,
    lastTrickName: string,
    consecutiveTricks: nat)

  /** The field initializers; the serialized `trickNames` list starts empty. */
  const Initial: GameData :=
    GameData(1, 0, 0.0, 0.0, 0.0, 0.0, 0.0, 0.0, 0, [], 1, 0.0, NoTrickName, 1)

  /** Records one executed trick in the current combo. A name different from
      the previous one raises the multiplier and adds the full base score; a
      repeat adds base score divided by the new repeat count. The scoring
      reads the asset name of the trick. */
  function DoTrick(g: GameData, trick: Trick): (r: GameData)
    ensures r.trickNames == g.trickNames + [trick.assetName]
    ensures r.lastTrickName == trick.assetName
    ensures trick.assetName != g.lastTrickName ==>
              && r.trickMultiplier == g.trickMultiplier + 1
              && r.trickPointPool == g.trickPointPool + TrickBaseScore
              && r.consecutiveTricks == 1
    ensures trick.assetName == g.lastTrickName ==>
              && r.trickMultiplier == g.trickMultiplier
              && r.consecutiveTricks == g.consecutiveTricks + 1
              && r.trickPointPool == g.trickPointPool + TrickBaseScore / (r.consecutiveTricks as real)
    // the race part of the record is untouched
    ensures r.(trickNames := g.trickNames, trickMultiplier := g.trickMultiplier, trickPointPool := g.trickPointPool,
               lastTrickName := g.lastTrickName, consecutiveTricks := g.consecutiveTricks) == g
  {
    var named := g.(trickNames := g.trickNames + [trick.assetName]);
    if trick.assetName != g.lastTrickName then
      named.(trickMultiplier := g.trickMultiplier + 1,
             trickPointPool := g.trickPointPool + TrickBaseScore,
             lastTrickName := trick.assetName,
             consecutiveTricks := 1)
    else
      var count := g.consecutiveTricks + 1;
      named.(consecutiveTricks := count,
             trickPointPool := g.trickPointPool + TrickBaseScore / (count as real),
             lastTrickName := trick.assetName)
  }

  /** Cashes the combo in: floor(pool * multiplier) is added to the score and
      the combo state returns to its starting values. */
  function CalculateTrickScore(g: GameData): (r: GameData)
    ensures r.score == g.score + (g.trickPointPool * g.trickMultiplier as real).Floor
    ensures r.trickNames == [] && r.trickPointPool == 0.0 && r.trickMultiplier == 1
    ensures r.consecutiveTricks == 1 && r.lastTrickName == NoTrickName
    ensures g.trickPointPool >= 0.0 && g.trickMultiplier >= 0 ==> r.score >= g.score
    ensures r.(score := g.score, trickNames := g.trickNames, trickPointPool := g.trickPointPool,
               trickMultiplier := g.trickMultiplier, consecutiveTricks := g.consecutiveTricks,
               lastTrickName := g.lastTrickName) == g
  {
    g.(score := g.score + (g.trickPointPool * g.trickMultiplier as real).Floor,
       trickNames := [],
       trickPointPool := 0.0,
       trickMultiplier := 1,
       consecutiveTricks := 1,
       lastTrickName := NoTrickName)
  }

  /** A second cash-in right after the first adds nothing. */
  lemma CashInTwiceIsCashInOnce(g: GameData)
    ensures CalculateTrickScore(CalculateTrickScore(g)) == CalculateTrickScore(g)
  {
  }

  /** Back to the start of a race: score, lap, lap and best times, pool,
      multiplier and names. `totalTime`, `maxLap`, the previous trick name
      and the repeat count are left as they were. */
  function ResetData(g: GameData): (r: GameData)
    ensures r.score == 0 && r.currentLap == 1 && r.trickMultiplier == 1
    ensures r.currentTotalTime == 0.0 && r.currentLapTime == 0.0 && r.bestLapTime == 0.0
    ensures r.bestTotalTime == 0.0 && r.lastLapTime == 0.0 && r.trickPointPool == 0.0
    ensures r.trickNames == []
    ensures r.maxLap == g.maxLap && r.totalTime == g.totalTime
    ensures r.lastTrickName == g.lastTrickName && r.consecutiveTricks == g.consecutiveTricks
  {
    g.(score := 0, currentLap := 1, currentTotalTime := 0.0, currentLapTime := 0.0,
       bestLapTime := 0.0, bestTotalTime := 0.0, lastLapTime := 0.0,
       trickMultiplier := 1, trickPointPool := 0.0, trickNames := [])
  }

  lemma ResetDataIdempotent(g: GameData)
    ensures ResetData(ResetData(g)) == ResetData(g)
  {
  }

  /** A series of executed tricks. */
  function DoTricks(g: GameData, ts: seq<Trick>): GameData
    decreases |ts|
  {
    if |ts| == 0 then g else DoTricks(DoTrick(g, ts[0]), ts[1..])
  }

  function AssetNames(ts: seq<Trick>): (r: seq<string>)
    ensures |r| == |ts| && forall i :: 0 <= i < |ts| ==> r[i] == ts[i].assetName
    decreases |ts|
  {
    if |ts| == 0 then [] else [ts[0].assetName] + AssetNames(ts[1..])
  }

  /** How many names differ from the name right before them, the first one
      being compared with `previous`. */
  function NameChanges(previous: string, names: seq<string>): nat
    decreases |names|
  {
    if |names| == 0 then 0
    else (if names[0] != previous then 1 else 0) + NameChanges(names[0], names[1..])
  }

  /** One trick adds more than 0 and at most the base score to the pool. */
  lemma DoTrickPoolStep(g: GameData, t: Trick)
    ensures g.trickPointPool < DoTrick(g, t).trickPointPool <= g.trickPointPool + TrickBaseScore
  {
    if t.assetName == g.lastTrickName {
      var c := DoTrick(g, t).consecutiveTricks as real;
      assert c >= 1.0;
      assert TrickBaseScore / c <= TrickBaseScore;
    }
  }

  lemma {:induction false} DoTricksNames(g: GameData, ts: seq<Trick>)
    ensures DoTricks(g, ts).trickNames == g.trickNames + AssetNames(ts)
    decreases |ts|
  {
    if |ts| > 0 {
      var g1 := DoTrick(g, ts[0]);
      DoTricksNames(g1, ts[1..]);
      assert AssetNames(ts) == [ts[0].assetName] + AssetNames(ts[1..]);
      assert g1.trickNames + AssetNames(ts[1..]) == g.trickNames + AssetNames(ts);
    }
  }

  lemma {:induction false} DoTricksMultiplier(g: GameData, ts: seq<Trick>)
    ensures DoTricks(g, ts).trickMultiplier == g.trickMultiplier + NameChanges(g.lastTrickName, AssetNames(ts))
    decreases |ts|
  {
    if |ts| > 0 {
      var g1 := DoTrick(g, ts[0]);
      DoTricksMultiplier(g1, ts[1..]);
      assert AssetNames(ts) == [ts[0].assetName] + AssetNames(ts[1..]);
    }
  }

  lemma {:induction false} DoTricksLastName(g: GameData, ts: seq<Trick>)
    requires |ts| > 0
    ensures DoTricks(g, ts).lastTrickName == ts[|ts| - 1].assetName
    decreases |ts|
  {
    if |ts| > 1 {
      DoTricksLastName(DoTrick(g, ts[0]), ts[1..]);
      assert ts[1..][|ts[1..]| - 1] == ts[|ts| - 1];
    }
  }

  /** Over a whole combo the names are appended in order and the multiplier
      grows by the number of name changes. */
  lemma DoTricksNamesAndMultiplier(g: GameData, ts: seq<Trick>)
    ensures var r := DoTricks(g, ts);
            && r.trickNames == g.trickNames + AssetNames(ts)
            && r.trickMultiplier == g.trickMultiplier + NameChanges(g.lastTrickName, AssetNames(ts))
            && (|ts| > 0 ==> r.lastTrickName == ts[|ts| - 1].assetName)
  {
    DoTricksNames(g, ts);
    DoTricksMultiplier(g, ts);
    if |ts| > 0 {
      DoTricksLastName(g, ts);
    }
  }

  /** Each trick of a combo adds more than 0 and at most the base score to
      the pool, and the race fields are untouched. */
  lemma {:induction false} DoTricksPoolBounds(g: GameData, ts: seq<Trick>)
    ensures var r := DoTricks(g, ts);
            && g.trickPointPool <= r.trickPointPool <= g.trickPointPool + TrickBaseScore * |ts| as real
            && (|ts| > 0 ==> g.trickPointPool < r.trickPointPool)
            && r.score == g.score && r.currentLap == g.currentLap && r.totalTime == g.totalTime
    decreases |ts|
  {
    if |ts| > 0 {
      var g1 := DoTrick(g, ts[0]);
      DoTrickPoolStep(g, ts[0]);
      DoTricksPoolBounds(g1, ts[1..]);
      assert TrickBaseScore * |ts| as real == TrickBaseScore + TrickBaseScore * |ts[1..]| as real;
    }
  }

  /** From a fresh combo, two different trick names give multiplier 3 and a
      pool of 200; the same name twice gives multiplier 2 and a pool of 150. */
  /** The field initializers are a rest state: resetting the asset or cashing
      in an empty combo leaves them as they are. */
  lemma InitialIsRestState()
    ensures ResetData(Initial) == Initial
    ensures CalculateTrickScore(Initial) == Initial
  {
  }

  /** From the initializers, Kickflip then Heelflip builds a pool of 200 at
      multiplier 3, which cashes in as 600 points and a fresh combo. */
  lemma InitialComboScore()
    ensures var kick := Trick("kick", "Kickflip", [Right], 0.5);
            var flip := Trick("flip", "Heelflip", [Left], 0.5);
            var cashed := CalculateTrickScore(DoTrick(DoTrick(Initial, kick), flip));
            cashed.score == 600 && cashed.trickPointPool == 0.0 && cashed.trickMultiplier == 1
  {
    var kick := Trick("kick", "Kickflip", [Right], 0.5);
    var flip := Trick("flip", "Heelflip", [Left], 0.5);
    ComboExamples(Initial);
    var g2 := DoTrick(DoTrick(Initial, kick), flip);
    assert (g2.trickPointPool * g2.trickMultiplier as real).Floor == 600;
  }

  lemma ComboExamples(g: GameData)
    requires g.trickMultiplier == 1 && g.trickPointPool == 0.0 && g.lastTrickName == NoTrickName
             && g.consecutiveTricks == 1
    ensures var kick := Trick("kick", "Kickflip", [Right], 0.5);
            var flip := Trick("flip", "Heelflip", [Left], 0.5);
            && DoTrick(DoTrick(g, kick), flip).trickMultiplier == 3
            && DoTrick(DoTrick(g, kick), flip).trickPointPool == 200.0
            && DoTrick(DoTrick(g, kick), kick).trickMultiplier == 2
            && DoTrick(DoTrick(g, kick), kick).trickPointPool == 150.0
  {
  }
}
