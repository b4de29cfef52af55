# Skateboard trick, lap and leaderboard logic — a Dafny model

This project models the discrete game logic of a Unity skateboarding racer as
pure functions over immutable records, and proves properties of it. It covers:

- **Trick input** (`TrickData`, `TrickInput`, `PlayerController`).
  - Stick input is classified into one of four directions.
  - New directions are debounced and pushed into a bounded FIFO buffer.
  - The trick catalog is searched for the longest trick whose direction list ends the buffer; on a tie the earlier catalog entry wins.
  - A quick path runs a one-direction trick while the trigger is held.
  - A flag machine tracks the trick lock, the pending landing boost, the grounded edge, the ragdoll switch and the jump charge.
- **Locomotion guards** (`Locomotion`): the two deadline comparisons of the physics step (air-turn suppression and the overspeed window) and the horizontal speed cap, as real-valued guards.
- **Trick scoring** (`GameData`): combo bookkeeping.
  - A change of trick name raises the multiplier.
  - A repeated trick adds a diminishing share of the base score.
  - Cash-in, plus a full reset.
- **Leaderboard** (`HighScore`): insertion into a list that is stably sorted by time (lower is better) and capped at ten entries, and the eligibility test against the last entry.
- **Lap validation** (`Tracker`):
  - Required checkpoints accumulate into a triggered set.
  - A finish crossing counts only in the right direction and with every required checkpoint hit.
  - A valid crossing advances the lap, or finishes the race and records the time on the leaderboard.
- **Track piece selection** (`TrackSnapping`): height-bounded filtering of the analysed pieces, with a least-bad fallback and a random pick.
- **HUD combo text** (`UiUpdater`): the " + "-joined trick names, capped at four plus " + ...", and the "pool x multiplier" text.

How engine services are modelled:

- Engine inputs are explicit parameters: the ground ray-cast result (`grounded`), `Time.time` (`now`), `Time.deltaTime` (`dt`), the body's velocity, the finish-line dot product, the finish-layer test, and the `Random.Range` draw (`roll`).
- The trick-unlock coroutine is the event `Unlock`; the scheduled delay is kept as data in `pendingUnlock`.
- Colliders, poses and prefabs are opaque type parameters.
- Unity `float`s are exact `real`s.

Three behaviours of the code are worth knowing:

- **No respawn.** The code never restores the controller after a fall. `RagdollIsAbsorbing` proves that no event leaves the ragdoll state.
- **Landing while locked keeps the buffer.** A landing that finds a trick still locked returns before the buffer is cleared. That landing leaves the buffer and marker as they were (`Update`).
- **Input callbacks ignore the ragdoll.** Only `Update` and `FixedUpdate` check the ragdoll flag. `OnMove`, `OnTrick` and `OnJump` still change state while ragdolled.

Two further quirks are modelled as written:

- `DoTrick` compares the trick's asset name with the sentinel previous name `"none"`, so a trick asset called `none` scores as a repeat when it opens a combo.
- `IsEligibleForLeaderboard` indexes the last board entry, so it throws on an empty board. In the tracker's finish path the exception happens before the triggered checkpoints are cleared. `Tracker.OnTriggerEnter` keeps the tracker unchanged in that case.

## Model

| member | source | states |
|---|---|---|
| TrickInput.MapInputToDirection | Assets/Scripts/PlayerController.cs:395-415 | no direction exactly when both axes are below the deadzone; otherwise Left/Right by the sign of x when the horizontal axis is not smaller (ties go horizontal), else Down/Up by the sign of y; each case is an if-and-only-if |
| TrickInput.ClassifiedAxisClearsDeadzone | Assets/Scripts/PlayerController.cs:402-414 | a reported direction's own axis reaches the deadzone on the right side of zero and dominates the other axis |
| TrickInput.BufferDirection | Assets/Scripts/PlayerController.cs:386-393 | the new direction is the last element; the result is a suffix of the old buffer plus the direction; it grows by one below a positive capacity or with a capacity <= 0, and keeps its length at or above a positive capacity |
| TrickInput.BufferAllKeepsNewest | Assets/Scripts/PlayerController.cs:386-393 | with a positive capacity, any series of pushes leaves exactly the newest min(capacity, total) directions in arrival order, so the buffer never outgrows the capacity |
| TrickInput.BufferAllUnbounded | Assets/Scripts/PlayerController.cs:389 | with a capacity <= 0 nothing is ever evicted: the buffer is the old buffer followed by every pushed direction |
| TrickInput.MatchesSuffix | Assets/Scripts/PlayerController.cs:443-453 | the element-by-element loop answers true exactly when the pattern equals the last pattern-length elements of the buffer |
| TrickInput.SearchFrom | Assets/Scripts/PlayerController.cs:425-440 | the foreach scan, continued from any point where its invariant holds, ends with the earliest of the longest matching entries, or none when nothing matches |
| TrickInput.FindBestTrickFromBuffer | Assets/Scripts/PlayerController.cs:417-441 | none for an empty catalog or buffer; none exactly when no entry with a non-empty direction list ends the buffer; a returned entry matches, no matching entry is longer, and every earlier matching entry is strictly shorter |
| TrickInput.FirstSingleFrom | Assets/Scripts/PlayerController.cs:461-469 | the first entry from a given index whose direction list is exactly [d], or none when no later entry is |
| TrickInput.SingleDirectionTrick | Assets/Scripts/PlayerController.cs:460-469 | the quick-trick lookup finds the first one-direction entry for d, and finds nothing exactly when no entry is [d] |
| TrickInput.LongestSuffixWins | Assets/Scripts/PlayerController.cs:425-438 | with Left, Up, Right buffered, [Up, Right] is chosen over the earlier [Right] |
| PlayerController.DefaultConfig | Assets/Scripts/PlayerController.cs:24-69 | the inspector defaults the discrete logic reads: deadzone 0.5, buffer capacity 8, air-turn suppression 0.12 s, jump cooldown 0.1 s, hold maximum 0.5 s, max speed 10, landing boost impulse 3, overspeed multiplier 1.5 for 0.75 s; `Scenario180` runs under it |
| PlayerController.Clamp | Assets/Scripts/PlayerController.cs:253 | the result lies within the bounds when they are ordered, is the value itself inside them, and is the violated bound outside them |
| PlayerController.HoldJump | Assets/Scripts/PlayerController.cs:251-254 | the jump charge grows by the frame delta but stays within [0, holdMax] |
| PlayerController.ExecuteTrick | Assets/Scripts/PlayerController.cs:472-499 | the trick lock is set, the unlock is scheduled after max(0.01, trickTime), a landing boost is marked only when airborne, and nothing else changes |
| PlayerController.TryExecuteSingleDirectionTrick | Assets/Scripts/PlayerController.cs:455-470 | no effect while locked, grounded, or without a one-direction trick for d; airborne and unlocked, the first catalog entry whose directions are exactly [d] is executed |
| PlayerController.OnMove | Assets/Scripts/PlayerController.cs:181-213 | the deadzone changes only the raw input and resets the marker; a repeat of the marker changes nothing but the raw input; a new direction is handed to `OnNewDirection` with the raw input recorded, so it becomes the marker and is buffered only while airborne; with the trigger held, airborne and unlocked, it runs the first one-direction trick for it (lock, boost, unlock after its trickTime); with the trigger released no trick starts |
| PlayerController.OnNewDirection | Assets/Scripts/PlayerController.cs:186-207 | a new direction is the marker afterwards, is buffered only while airborne, and holds off air turning exactly on an airborne Left/Right tap with a positive duration (the deadline is kept otherwise); with the trigger held, airborne and unlocked, it runs the first one-direction trick for it, and otherwise leaves the trick state alone; every other field is unchanged |
| PlayerController.BufferIfAirborne | Assets/Scripts/PlayerController.cs:188-197 | grounded input changes nothing; airborne input is buffered and, for Left/Right with a positive duration, reopens the air-turn suppression window from now; in every other case the deadline is kept; no other field changes |
| PlayerController.OnTrick | Assets/Scripts/PlayerController.cs:368-384 | the trigger level is always recorded; without a rising edge across 0.5, while locked or when grounded nothing else happens; a valid press executes the best suffix match, if any |
| PlayerController.RisingEdge | Assets/Scripts/PlayerController.cs:372 | a press is a sample above 0.5 after one at or below it; `HeldTriggerPressesOnce` is its partner |
| PlayerController.HeldTriggerPressesOnce | Assets/Scripts/PlayerController.cs:370-375 | after a sample above 0.5 is recorded, a further sample above 0.5 is no press and only updates the trigger level, so holding the trigger fires at most one trick |
| PlayerController.UnlockFired | Assets/Scripts/PlayerController.cs:501-505 | the unlock releases the lock, drops the scheduled unlock and changes nothing else |
| PlayerController.EnterRagdoll | Assets/Scripts/PlayerController.cs:266-287 | afterwards the controller is ragdolled; a second entry changes nothing; a first entry hands the last airborne velocity to the ragdoll bodies |
| PlayerController.EnterRagdollIdempotent | Assets/Scripts/PlayerController.cs:266-268 | entering the ragdoll twice gives the same state as entering it once |
| PlayerController.ApplyLandingTrickBoost | Assets/Scripts/PlayerController.cs:507-530 | with a positive impulse, a positive duration and a multiplier above 1, only the overspeed deadline moves to now + duration; otherwise the state is untouched |
| PlayerController.Update | Assets/Scripts/PlayerController.cs:128-165 | ragdolled: no change; a landing while locked falls without using the boost or clearing the combo; a clean landing uses up the boost and clears buffer and marker; take-off clears them; with no edge the trick state is untouched; the lock is never changed; a held jump charges first; each edge changes only the fields it names (a frame per edge) |
| PlayerController.FixedUpdate | Assets/Scripts/PlayerController.cs:167-179 | ragdolled or grounded: no change; airborne: only the last airborne velocity is replaced |
| PlayerController.OnJump | Assets/Scripts/PlayerController.cs:221-249 | ignored during the cooldown and while airborne; a press starts charging from zero; a release ends the hold and records the jump time |
| PlayerController.InitialSatisfiesInv | Assets/Scripts/PlayerController.cs:71-91 | the field defaults satisfy the controller invariant |
| PlayerController.OnMovePreservesInv | Assets/Scripts/PlayerController.cs:181-213 | stick input keeps the buffer within capacity and the lock paired with its scheduled unlock |
| PlayerController.OnNewDirectionPreservesInv | Assets/Scripts/PlayerController.cs:186-207 | a new direction, buffered and possibly run as a quick trick, keeps the invariant |
| PlayerController.BufferIfAirbornePreservesInv | Assets/Scripts/PlayerController.cs:188-197 | buffering keeps the buffer within a positive capacity |
| PlayerController.TryExecuteSinglePreservesInv | Assets/Scripts/PlayerController.cs:455-470 | the quick trick locks only with an unlock of at least 0.01 scheduled |
| PlayerController.ExecuteTrickPreservesInv | Assets/Scripts/PlayerController.cs:476-498 | executing a trick pairs the new lock with an unlock of at least 0.01 |
| PlayerController.OnTrickPreservesInv | Assets/Scripts/PlayerController.cs:368-384 | the trigger callback keeps the invariant |
| PlayerController.UpdatePreservesInv | Assets/Scripts/PlayerController.cs:128-165 | a frame keeps the jump charge within [0, holdMax] and feeds the ragdoll bodies exactly when ragdolled |
| PlayerController.ApplyPreservesInv | Assets/Scripts/PlayerController.cs:128-505 | every event keeps the invariant: the frame update, the physics step, the stick, jump and trigger callbacks, and the unlock coroutine |
| PlayerController.RunPreservesInv | Assets/Scripts/PlayerController.cs:128-505 | along any sequence of frames, physics steps, input callbacks and unlocks, the buffer never outgrows a positive capacity and a lock exists exactly while an unlock is scheduled |
| PlayerController.RagdollIsAbsorbing | Assets/Scripts/PlayerController.cs:266-269 | once ragdolled, no sequence of events leaves the ragdoll state (the code has no respawn) |
| PlayerController.BoostAtMostOnce | Assets/Scripts/PlayerController.cs:149-153 | after a clean landing, the next grounded frame has no edge and no boost left to apply |
| PlayerController.AirborneTap | Assets/Scripts/PlayerController.cs:186-207 | an airborne new direction with the trigger released is buffered and becomes the marker, leaving the trick state alone |
| PlayerController.Scenario180 | Assets/Scripts/PlayerController.cs:368-384 | Left then Right in the air, then the trigger, with a catalog holding [Left, Right]: the trick locks with a boost marked and an unlock after its 0.6 s, and the unlock releases it |
| Locomotion.AllowedMaxSpeed | Assets/Scripts/PlayerController.cs:355-359 | the cap is the base speed once the overspeed window has closed, never below it for a non-negative base, and base times the multiplier while the window is open and the multiplier is at least 1 |
| Locomotion.TurnAllowed | Assets/Scripts/PlayerController.cs:329-330 | yaw input applies when the stick leaves 0.01 and the board is grounded or the suppression deadline has passed; `TapSuppressesAirTurn` is its partner |
| Locomotion.ClampHorizontalSpeed | Assets/Scripts/PlayerController.cs:361-365 | a cap above 0.0001 is never exceeded; speed never grows; a speed within the cap, or any speed under a cap of at most 0.0001, is kept |
| Locomotion.ClampIdempotent | Assets/Scripts/PlayerController.cs:361-365 | clamping an already clamped speed changes nothing |
| Locomotion.SpeedClampExamples | Assets/Scripts/PlayerController.cs:355-365 | 15 is cut to 10 outside the window and kept inside a 1.5 window |
| Locomotion.TapSuppressesAirTurn | Assets/Scripts/PlayerController.cs:193-196 | after an airborne Left/Right tap, air turning is refused at every moment before the suppression ends |
| Locomotion.BoostOpensOverspeedWindow | Assets/Scripts/PlayerController.cs:526-529 | after a boosted landing the speed cap is raised by the multiplier for the whole overspeed duration |
| GameData.DoTrick | Assets/Scripts/GameDataSO.cs:27-45 | the name is always appended; a new name raises the multiplier, adds 100 and restarts the repeat count; a repeat keeps the multiplier and adds 100 divided by the new count; race fields are untouched |
| GameData.CalculateTrickScore | Assets/Scripts/GameDataSO.cs:47-55 | the score grows by floor(pool x multiplier), never shrinking for non-negative inputs, and the combo returns to its start values with the sentinel name "none" |
| GameData.CashInTwiceIsCashInOnce | Assets/Scripts/GameDataSO.cs:47-55 | a second cash-in adds nothing |
| GameData.ResetData | Assets/Scripts/GameDataSO.cs:65-77 | score, times, pool and names are zeroed and lap and multiplier set to 1, while the total time, the lap count, the previous trick name and the repeat count survive |
| GameData.ResetDataIdempotent | Assets/Scripts/GameDataSO.cs:65-77 | resetting twice equals resetting once |
| GameData.DoTrickPoolStep | Assets/Scripts/GameDataSO.cs:32-44 | each trick adds more than 0 and at most 100 to the pool |
| GameData.DoTricksNames | Assets/Scripts/GameDataSO.cs:30 | over a combo the asset names are appended in order |
| GameData.DoTricksMultiplier | Assets/Scripts/GameDataSO.cs:32-36 | over a combo the multiplier grows by the number of name changes, the first name being compared with the previous trick name |
| GameData.DoTricksLastName | Assets/Scripts/GameDataSO.cs:36-43 | after a non-empty combo the previous trick name is the last trick's asset name |
| GameData.DoTricksNamesAndMultiplier | Assets/Scripts/GameDataSO.cs:27-45 | over a combo the names are appended in order, the multiplier grows by the number of name changes, and the last name is the last trick's |
| GameData.DoTricksPoolBounds | Assets/Scripts/GameDataSO.cs:27-45 | a combo of n tricks adds between 0 (strictly, if n > 0) and 100 n to the pool and leaves score, lap and total time unchanged |
| GameData.ComboExamples | Assets/Scripts/GameDataSO.cs:32-44 | two different tricks give multiplier 3 and pool 200; the same trick twice gives multiplier 2 and pool 150 |
| GameData.InitialIsRestState | Assets/Scripts/GameDataSO.cs:9-25 | the field initializers (lap 1, multiplier 1, previous name "none", repeat count 1, everything else zero or empty) are unchanged by a reset and by cashing in the empty combo |
| GameData.InitialComboScore | Assets/Scripts/GameDataSO.cs:9-55 | from the field initializers, Kickflip then Heelflip cashes in as 600 points and leaves a fresh combo |
| HighScore.HighScoreData | Assets/Scripts/HighScore.cs:80-87 | a dummy board holds exactly ten ("John Doe", 100) entries; otherwise the board is empty |
| HighScore.StoredName | Assets/Scripts/HighScore.cs:42 | a missing or whitespace-only name is stored as "Anonymous"; any other name is kept and holds a non-whitespace character |
| HighScore.InsertByScore | Assets/Scripts/HighScore.cs:35 | one insertion step of the stable sort adds exactly one entry |
| HighScore.InsertSplits | Assets/Scripts/HighScore.cs:35 | insertion splits the list at one index: every entry before it has a score no greater than the new one (so ties stay in front of it), and, in a sorted list, every entry after it has a greater score |
| HighScore.InsertKeepsContents | Assets/Scripts/HighScore.cs:35 | insertion adds the entry and loses nothing (multiset equality) |
| HighScore.InsertKeepsSorted | Assets/Scripts/HighScore.cs:35 | insertion into a sorted list keeps it sorted |
| HighScore.InsertKeepsSortedAndContents | Assets/Scripts/HighScore.cs:35 | insertion into a sorted list yields a sorted permutation of the list plus the entry |
| HighScore.SortByScore | Assets/Scripts/HighScore.cs:35 | the sort keeps the length |
| HighScore.SortByScoreSortsAndPermutes | Assets/Scripts/HighScore.cs:35 | the sort yields an ascending permutation of its input |
| HighScore.InsertIsStable | Assets/Scripts/HighScore.cs:35 | among entries of any one score, the inserted entry comes after the existing ones |
| HighScore.SortByScoreIsStable | Assets/Scripts/HighScore.cs:35 | for every score, the entries with that score come out in their input order, which is the `OrderBy` stability guarantee |
| HighScore.SortSortedIsIdentity | Assets/Scripts/HighScore.cs:35 | sorting an already sorted board changes nothing |
| HighScore.AddNewScore | Assets/Scripts/HighScore.cs:40-51 | the kept board is sorted, holds min(10, old size + 1) entries, is a prefix of the stable sort of the old board plus the new entry, and contains nothing else |
| HighScore.AddToSortedBoard | Assets/Scripts/HighScore.cs:44-48 | on a sorted board the new entry is placed after every entry that is not worse and before every worse one, and is kept when that place is within the first ten |
| HighScore.EligibleEntrySurvives | Assets/Scripts/HighScore.cs:38-48 | a time that beats the last entry of a board of at most ten is on the board afterwards, whether or not the stored board was sorted |
| HighScore.DefaultBoardEligibility | Assets/Scripts/HighScore.cs:38 | on the default board a time of 90 is eligible and one of 100 is not (the test is strict) |
| HighScore.IsEligibleForLeaderboard | Assets/Scripts/HighScore.cs:38 | a time is eligible when it is strictly below the last entry's; its partners are `EligibleIffBeatsSomeEntry`, `EligibleEntrySurvives` and `DefaultBoardEligibility` |
| HighScore.EligibleIffBeatsSomeEntry | Assets/Scripts/HighScore.cs:38 | on a sorted board a time is eligible exactly when it beats at least one entry |
| Tracker.RequiredSet | Assets/Scripts/Tracker.cs:36-44 | the required set holds exactly the non-null colliders of the inspector list |
| Tracker.Start | Assets/Scripts/Tracker.cs:30-45 | game data is reset with three laps, nothing is triggered, no pose is recorded, the board is untouched |
| Tracker.HasTriggeredAllRequiredCheckpoints | Assets/Scripts/Tracker.cs:119-131 | the loop answers true exactly when every required checkpoint was triggered, in particular for an empty required set |
| Tracker.RecordLap | Assets/Scripts/Tracker.cs:85-90 | the last lap time is the current lap time; the best lap is replaced exactly when it is 0 or strictly beaten; nothing else changes |
| Tracker.TryGetLastCheckpointPose | Assets/Scripts/Tracker.cs:19-28 | the pose of the last recorded checkpoint, or none before one is recorded; its partners are `StartHasNoPose` and `CheckpointPoseIsRecorded` |
| Tracker.OnTriggerEnter | Assets/Scripts/Tracker.cs:53-117 | a required checkpoint is marked with its pose remembered; a crossing that is not on the finish layer, is in the wrong direction (dot <= 0.5) or has missing checkpoints changes nothing; a valid crossing before the last lap records the lap, moves to the next lap with the lap timer at 0 and clears the checkpoints, and nothing else changes; on the last lap it records the lap and the total time, enters an eligible time, and clears the checkpoints when the board is non-empty, with nothing else changed |
| Tracker.StartHasNoPose | Assets/Scripts/Tracker.cs:19-28 | before any checkpoint the pose query reports none |
| Tracker.CheckpointPoseIsRecorded | Assets/Scripts/Tracker.cs:55-67 | after a required checkpoint the pose query returns its pose and the checkpoint counts as triggered |
| Tracker.StartEstablishesInv | Assets/Scripts/Tracker.cs:30-45 | a started race triggers only required checkpoints, has lap 1 of 3 and a board of at most ten |
| Tracker.OnTriggerEnterPreservesInv | Assets/Scripts/Tracker.cs:53-117 | every trigger keeps the triggered set within the required set, the lap within [1, maxLap] and the board within ten entries |
| Tracker.AdvanceTime | Assets/Scripts/Tracker.cs:47-51 | a frame adds its delta to the race clock and the lap clock and changes nothing else |
| Tracker.ThreeLapRace | Assets/Scripts/Tracker.cs:53-117 | laps of 20, 15 and 15 s reach lap 3 and finish with total 50, best and last lap 15, and an anonymous 50 at the top of the default board |
| TrackSnapping.ValidOptions | Assets/Scripts/TrackSnapping.cs:123-127 | the filter keeps exactly the pieces that keep the height within the inclusive bounds, and is no longer than the input |
| TrackSnapping.ValidOptionsInOrder | Assets/Scripts/TrackSnapping.cs:123-127 | the filter is the in-bounds pieces taken at a strictly increasing list of indices that holds exactly the in-bounds indices, i.e. the order-preserving `Where` that the random draw indexes |
| TrackSnapping.ValidOptionsCounts | Assets/Scripts/TrackSnapping.cs:123-127 | each in-bounds piece occurs in the filter as often as among the analysed pieces, and no other piece occurs |
| TrackSnapping.LeastBadFrom | Assets/Scripts/TrackSnapping.cs:133 | the fallback piece has the least absolute height change, and is the first such piece as a stable ordering takes it |
| TrackSnapping.Candidates | Assets/Scripts/TrackSnapping.cs:123-136 | the candidate list is the filtered list when it is non-empty, otherwise the single first least-bad piece, and empty exactly when no piece was analysed |
| TrackSnapping.PickValidPiece | Assets/Scripts/TrackSnapping.cs:120-140 | null exactly when no piece was analysed; otherwise the prefab of the candidate at the drawn index, which is an in-bounds piece whenever one exists and else the first piece of least absolute height change |
| TrackSnapping.PickIsACandidate | Assets/Scripts/TrackSnapping.cs:139 | every roll in range picks the prefab of a candidate |
| TrackSnapping.EveryFitCanBeDrawn | Assets/Scripts/TrackSnapping.cs:123-139 | every in-bounds piece is the result of some roll in range |
| TrackSnapping.PickExamples | Assets/Scripts/TrackSnapping.cs:129-134 | at the ceiling the down ramp is the only fit, and with two up ramps the smaller rise wins |
| UiUpdater.BuildTrickDescription | Assets/Scripts/UI_Updater.cs:51-62 | the loop with its early break yields the first four names joined by " + ", followed by " + ..." when there are more |
| UiUpdater.ShortComboIsJoined | Assets/Scripts/UI_Updater.cs:52-61 | with one to four names the description is exactly their " + " join |
| UiUpdater.DescriptionIgnoresTail | Assets/Scripts/UI_Updater.cs:54-57 | names from index 4 on never influence the description |
| UiUpdater.FiveTrickDescription | Assets/Scripts/UI_Updater.cs:52-61 | five names give "a + b + c + d + ..." |
| UiUpdater.NatToString | Assets/Scripts/UI_Updater.cs:50 | the decimal rendering of a whole number is a non-empty string of digits |
| UiUpdater.NatToStringRoundTrip | Assets/Scripts/UI_Updater.cs:50 | reading the digits back gives the number |
| UiUpdater.ComboHud | Assets/Scripts/UI_Updater.cs:48-68 | without tricks both combo texts are empty; otherwise the description and floor(pool) " x " multiplier |
| UiUpdater.HudBlankAfterCashIn | Assets/Scripts/UI_Updater.cs:64-68 | after a cash-in both combo texts are blank |

## Left out

- Rigidbody locomotion in `MovePlayer`: forces, friction and yaw integration are float physics on an engine body. Only the two deadline guards and the speed cap are kept, in `Locomotion`, on speed magnitudes.
- Jump impulse arithmetic and `AddForce` in `OnJump`: float physics. Only the cooldown and grounded guards, the hold flag, the charge clamp and the jump time are kept.
- The landing boost impulse direction and `AddForce`: physics. Only the overspeed deadline is kept, plus whether the boost was applied (`Landing.Landed(boosted)`).
- Mesh and camera orientation in `PlayerController`, and the quaternion math of `SnapWithConstraints`: float vector numerics.
- Animator and clip playback in `ExecuteTrick`, `EnterRagdoll` and `OnJump` (the `Jump`/`JumpStart` flags), and the collider and rigid-body switches of `SetControllerEnabled`/`SetRagdollEnabled`: engine side effects. The ragdoll switch is the `isRagdoll` flag together with the velocity handed over.
- `Awake` of the controller: reference wiring.
- The unlock coroutine's timing: the delay is kept as data and its firing is the `Unlock` event. Nothing forces that event to come after the delay.
- Respawn: no code restores the controller after a fall, so none is modelled.
- A null catalog entry or null direction list: represented as an entry with an empty direction list, which both searches skip in the same way.
- `TrackSnapping.Generate`, `AnalyzePrefabs` and `ClearTrack`: prefab instantiation, socket lookup and destruction.
- `SaveSystem` file and JSON I/O, `LoadHighscores`, the `SaveGame` call in `AddNewScore`, and the `HighScoreManager` singleton `Awake`: persistence and engine lifecycle. The board is passed in and returned.
- The lap-time, clock and best-time strings, and the `ToString` overrides: float formatting.
- The `Debug.Log` calls: console output.
- The tracker's rigid-body lookup: the dot product is an input.
- Triggers arriving before `Start` has built the required set: not modelled.
- HighScore.IsEligibleForLeaderboard: requires a non-empty board, since `HighScoreManager.IsEligibleForLeaderboard` indexes the last element and throws on an empty one. The tracker models that throw explicitly.
- GameData.CalculateTrickScore: the score is an unbounded integer. The 32-bit overflow of `FloorToInt` and of the `int` score is not modelled, and neither is float rounding of the pool.
- UiUpdater.ComboHud: the pool is shown through its floor as a decimal integer. C# float formatting of very large values (exponent notation) is not modelled.
- `RandomBailText`, `StorySceneChanger`, `GameMenu`, `TrackPiece`, `GrassInteractor` and the customization UI scripts: UI, scene navigation and cosmetics outside the modelled logic.
