/** Lap and checkpoint validation (Assets/Scripts/Tracker.cs). A collider is
    an opaque value of type `C`, a checkpoint pose (position and rotation)
    an opaque value of type `P`. The trigger callback receives the collider,
    whether it is on the "Finish" layer, the dot product of the finish
    line's forward vector with the player's direction of travel, and the
    collider's pose. */
module Tracker {
  import opened Common
  import opened GameData
  import opened HighScore

  /** A finish crossing counts only when the dot product exceeds this. */
  const FinishAlignment: real := 0.5

  /** The lap count the tracker configures at start. */
  const RaceLaps: int := 3

  /** The tracker's own state: the required checkpoints, those hit this lap,
      and the last checkpoint pose if one was ever recorded. */
  datatype Tracker<C, P> = Tracker(required: set<C>, triggered: set<C>, lastCheckpoint: Option<P>)

  /** The tracker together with what it writes: the shared game data and
      the leaderboard of the high-score manager. */
  datatype Race<C, P> = Race(tracker: Tracker<C, P>, data: GameData, board: seq<Entry>)

  /** The non-null colliders of the inspector list. */
  function RequiredSet<C(!new)>(checkpoints: seq<Option<C>>): (r: set<C>)
    ensures forall c :: c in r <==> Some(c) in checkpoints
  {
    set i | 0 <= i < |checkpoints| && checkpoints[i].Some? :: checkpoints[i].value
  }

  /** `Start`: the game data is reset with three laps, the required set is
      built, nothing is triggered and no pose is recorded. */
  function Start<C(!new), P>(checkpoints: seq<Option<C>>, data: GameData, board: seq<Entry>): (r: Race<C, P>)
    ensures r.tracker == Tracker(RequiredSet(checkpoints), {}, None)
    ensures r.data == ResetData(data).(maxLap := RaceLaps)
    ensures r.board == board
  {
    Race(Tracker(RequiredSet(checkpoints), {}, None), ResetData(data).(maxLap := RaceLaps), board)
  }

  /** The last recorded checkpoint pose, `None` before any was recorded. */
  function TryGetLastCheckpointPose<C, P>(t: Tracker<C, P>): Option<P>
  {
    t.lastCheckpoint
  }

  /** `Tracker.HasTriggeredAllRequiredCheckpoints` checks the required set element by element. */
  method HasTriggeredAllRequiredCheckpoints<C(==)>(required: set<C>, triggered: set<C>) returns (r: bool)
    ensures r <==> required <= triggered
    ensures required == {} ==> r
  {
    if |required| == 0 {
      return true;
    }
    var remaining := required;
    while remaining != {}
      invariant remaining <= required
      invariant forall c :: c in required && c !in remaining ==> c in triggered
      decreases remaining
    {
      var c :| c in remaining;
      if c !in triggered {
        return false;
      }
      remaining := remaining - {c};
    }
    return true;
  }

  /** The valid-crossing bookkeeping shared by every lap: the last lap time
      is taken, and the best lap replaced when it is 0 or beaten. */
  function RecordLap(d: GameData): (r: GameData)
    ensures r.lastLapTime == d.currentLapTime
    ensures r.bestLapTime == (if d.currentLapTime < d.bestLapTime || d.bestLapTime == 0.0 then d.currentLapTime else d.bestLapTime)
    ensures r.(lastLapTime := d.lastLapTime, bestLapTime := d.bestLapTime) == d
  {
    var d1 := d.(lastLapTime := d.currentLapTime);
    if d.currentLapTime < d.bestLapTime || d.bestLapTime == 0.0 then d1.(bestLapTime := d.currentLapTime) else d1
  }

  /** `OnTriggerEnter` for the collider `other`. */
  function OnTriggerEnter<C(==), P>(race: Race<C, P>, other: C, isFinish: bool, dot: real, pose: P): (r: Race<C, P>)
    // a required checkpoint is marked and its pose remembered; nothing else changes
    ensures other in race.tracker.required ==>
              r == race.(tracker := race.tracker.(triggered := race.tracker.triggered + {other},
                                                  lastCheckpoint := Some(pose)))
    // anything else that is not a valid crossing changes nothing
    ensures other !in race.tracker.required && (!isFinish || dot <= FinishAlignment
                                                || !(race.tracker.required <= race.tracker.triggered)) ==>
              r == race
    // a valid crossing records the lap times and, when the board is usable, starts a fresh lap of checkpoints
    ensures other !in race.tracker.required && isFinish && dot > FinishAlignment
            && race.tracker.required <= race.tracker.triggered ==>
              && r.data.lastLapTime == race.data.currentLapTime
              && r.data.bestLapTime == (if race.data.currentLapTime < race.data.bestLapTime || race.data.bestLapTime == 0.0
                                        then race.data.currentLapTime else race.data.bestLapTime)
              && r.tracker.required == race.tracker.required
              && r.tracker.lastCheckpoint == race.tracker.lastCheckpoint
              && (race.data.currentLap != race.data.maxLap || |race.board| > 0 ==> r.tracker.triggered == {})
              && r.data.score == race.data.score && r.data.trickNames == race.data.trickNames
    // on a lap before the last: next lap, lap timer restarted, board untouched
    ensures other !in race.tracker.required && isFinish && dot > FinishAlignment
            && race.tracker.required <= race.tracker.triggered && race.data.currentLap != race.data.maxLap ==>
              && r.data.currentLap == race.data.currentLap + 1
              && r.data.currentLapTime == 0.0
              && r.data.totalTime == race.data.totalTime
              && r.board == race.board
              && r.data == RecordLap(race.data).(currentLap := race.data.currentLap + 1, currentLapTime := 0.0)
              && r.tracker == race.tracker.(triggered := {})
    // on the last lap: the lap stays, the total time is taken and an eligible time is entered
    ensures other !in race.tracker.required && isFinish && dot > FinishAlignment
            && race.tracker.required <= race.tracker.triggered && race.data.currentLap == race.data.maxLap ==>
              && r.data.currentLap == race.data.currentLap
              && r.data.currentLapTime == race.data.currentLapTime
              && r.data.totalTime == race.data.currentTotalTime
              && r.data == RecordLap(race.data).(totalTime := race.data.currentTotalTime)
              && (|race.board| > 0 ==> r.tracker == race.tracker.(triggered := {}))
              && r.board == (if |race.board| > 0 && IsEligibleForLeaderboard(race.board, race.data.currentTotalTime)
                             then AddNewScore(race.board, Some(""), race.data.currentTotalTime)
                             else race.board)
    // the failed eligibility test on an empty board aborts the callback before the checkpoints are cleared
    ensures other !in race.tracker.required && isFinish && dot > FinishAlignment
            && race.tracker.required <= race.tracker.triggered && race.data.currentLap == race.data.maxLap
            && |race.board| == 0 ==>
              r.tracker == race.tracker
  {
    var t := race.tracker;
    if other in t.required then
      race.(tracker := t.(triggered := t.triggered + {other}, lastCheckpoint := Some(pose)))
    else if !isFinish then race
    else if !(dot > FinishAlignment) then race
    else if !(t.required <= t.triggered) then race
    else
      var d1 := RecordLap(race.data);
      if d1.currentLap == d1.maxLap then
        var d2 := d1.(totalTime := d1.currentTotalTime);
        if |race.board| == 0 then
          // indexing the last entry of an empty list throws here
          Race(t, d2, race.board)
        else
          var board :=
            if IsEligibleForLeaderboard(race.board, d2.totalTime)
            then AddNewScore(race.board, Some(""), d2.totalTime)
            else race.board;
          Race(t.(triggered := {}), d2, board)
      else
        Race(t.(triggered := {}), d1.(currentLap := d1.currentLap + 1, currentLapTime := 0.0), race.board)
  }

  /** Before any checkpoint is entered there is no pose to respawn at. */
  lemma StartHasNoPose<C(!new), P>(checkpoints: seq<Option<C>>, data: GameData, board: seq<Entry>)
    ensures TryGetLastCheckpointPose(Start<C, P>(checkpoints, data, board).tracker) == None
  {
  }

  /** After a required checkpoint the pose query answers with its pose. */
  lemma CheckpointPoseIsRecorded<C, P>(race: Race<C, P>, other: C, isFinish: bool, dot: real, pose: P)
    requires other in race.tracker.required
    ensures var r := OnTriggerEnter(race, other, isFinish, dot, pose);
            TryGetLastCheckpointPose(r.tracker) == Some(pose) && other in r.tracker.triggered
  {
  }

  /** What every race reachable from `Start` satisfies: only required
      checkpoints are ever triggered, the lap counter stays in
      [1, maxLap], and the leaderboard holds at most ten entries. */
  ghost predicate RaceInv<C, P>(race: Race<C, P>)
  {
    && race.tracker.triggered <= race.tracker.required
    && 1 <= race.data.currentLap <= race.data.maxLap
    && |race.board| <= MaxScores
  }

  lemma StartEstablishesInv<C(!new), P>(checkpoints: seq<Option<C>>, data: GameData, board: seq<Entry>)
    requires |board| <= MaxScores
    ensures RaceInv(Start<C, P>(checkpoints, data, board))
  {
  }

  lemma OnTriggerEnterPreservesInv<C, P>(race: Race<C, P>, other: C, isFinish: bool, dot: real, pose: P)
    requires RaceInv(race)
    ensures RaceInv(OnTriggerEnter(race, other, isFinish, dot, pose))
  {
  }

  /** `Update`: one frame's delta added to the race clock and the lap clock. */
  function AdvanceTime<C, P>(race: Race<C, P>, dt: real): (r: Race<C, P>)
    ensures r.data.currentTotalTime == race.data.currentTotalTime + dt
    ensures r.data.currentLapTime == race.data.currentLapTime + dt
    ensures r.tracker == race.tracker && r.board == race.board
    ensures r.data.(currentTotalTime := race.data.currentTotalTime, currentLapTime := race.data.currentLapTime) == race.data
  {
    race.(data := race.data.(currentTotalTime := race.data.currentTotalTime + dt,
                             currentLapTime := race.data.currentLapTime + dt))
  }

  /** A three-lap race without required checkpoints: laps of 20, 15 and 15
      seconds give lap 2, then lap 3, then the finish with a total of 50, a
      best and last lap of 15, and an anonymous entry of 50 at the top of the
      default board. */
  lemma ThreeLapRace<C(!new), P>(finishLine: C, pose: P, data: GameData)
    ensures var r0 := Start<C, P>([], data, HighScoreData(true));
            var r1 := OnTriggerEnter(AdvanceTime(r0, 20.0), finishLine, true, 1.0, pose);
            var r2 := OnTriggerEnter(AdvanceTime(r1, 15.0), finishLine, true, 1.0, pose);
            var r3 := OnTriggerEnter(AdvanceTime(r2, 15.0), finishLine, true, 1.0, pose);
            && r1.data.currentLap == 2 && r2.data.currentLap == 3 && r3.data.currentLap == 3
            && r3.data.totalTime == 50.0 && r3.data.bestLapTime == 15.0 && r3.data.lastLapTime == 15.0
            && r3.board[0] == Entry(AnonymousName, 50.0)
  {
    var r0 := Start<C, P>([], data, HighScoreData(true));
    var r1 := OnTriggerEnter(AdvanceTime(r0, 20.0), finishLine, true, 1.0, pose);
    assert r1.data.bestLapTime == 20.0;
    var r2 := OnTriggerEnter(AdvanceTime(r1, 15.0), finishLine, true, 1.0, pose);
    assert r2.data.bestLapTime == 15.0 && r2.data.currentTotalTime == 35.0;
    var a2 := AdvanceTime(r2, 15.0);
    var r3 := OnTriggerEnter(a2, finishLine, true, 1.0, pose);
    assert a2.data.currentTotalTime == 50.0;
    assert IsEligibleForLeaderboard(a2.board, 50.0);
    assert StoredName(Some("")) == AnonymousName;
    AddToSortedBoard(a2.board, Some(""), 50.0);
    assert InsertIndex(a2.board, Entry(AnonymousName, 50.0)) == 0;
  }
}
