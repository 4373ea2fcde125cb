# Kung-fu chess: a verified model

Kung-fu chess is chess without turns. Commands arrive at any time; a piece that is sent off travels for a while, may
collide with others on the way, and rests when it has arrived. A piece may also jump: it stays on its cell, airborne,
and eliminates the first enemy that lands there. This project models the engine that runs such a game, the server
objects around it, and proves what they keep.

The model has two layers. Every operation is a function on values (boards as maps, motion lists as sequences, sessions
and stores as records), about which the theorems are stated and over which runs are defined. Every stateful class of
the program is a Dafny class with the same fields, whose methods run the same loops over shared mutable objects and are
proved to compute those functions.

| part | value layer | object layer |
|---|---|---|
| values, board, pieces | `Values` | `BoardObject` |
| simulated time, collisions, rests | `Arbiter`, `ArbiterKernel`, `ArbiterConservation`, `ArbiterFate`, `ArbiterTime`, `ArbiterLaws` | `ArbiterObject` |
| movement rules | `Rules` | `MovementObject` |
| engine, one tick | `Engine`, `EngineAnchoring`, `EngineSound`, `EngineCalm`, `EngineReplay`, `EngineForecast`, `EngineAirborne`, `EngineLaws` | `EngineObject` |
| scores and history | `Stats`, `EngineMaterial`, `EngineSides`, `Decimal` | `TrackerObject` |
| whole games | `EngineRuns`, `EngineEndgame`, `EngineWitness` | `SetupObject` |
| snapshots | `Snapshots` | `SnapshotObject` |
| board text | `BoardText`, `Layouts` | `TextObject` |
| matchmaking | `Matchmaking` | `MatchmakerObject` |
| connection registries | `FlatStore`, `Registry` | `RegistryObject` |
| sessions, rooms, disconnects | `Seating`, `Lobby` | `SessionObject`, `LobbyObject`, `GatewayObject` |

`dafny verify dfyconfig.toml` checks the whole project.

The two law modules and the lemmas named after what something *tells* say what the operations do in the terms of colors,
cells, kinds and times alone, without the functions that the operations are built from.

## The notions the theorems use

- *Anchored*: every active motion's piece stands on the grid at the motion's source. Motions do not reserve their
  source; a captured piece keeps its motion. So `wait` can move the wrong piece, and `Witness` gives such a tick.
- *Clean tick*: no arrival of the tick lands on the source of a motion that was active when the tick began and that no
  earlier event of the tick has concluded. It depends on the arbiter alone: `AnchoringExact` shows that it is exactly
  what the engine needs, and `CleanOnMotionsExact` states it on the list of motions, so it can be checked before the
  tick.
- *Sound*, *calm*, *good*: the invariants of all runs, of clean runs, and of clean runs together with kings and geometry.
  A run is any interleaving of move requests, jump requests, ticks of any length and resignations. It ends at a tick
  that raises, in the engine or in the tracker.
- *Seated*, *consistent*: the invariants of one session and of the whole lobby. The lobby's environment never reuses a
  room id, closes a connection once, and lets a connection join a room where it may; `JoinExactly` shows that the last
  condition cannot be weakened. Every coroutine is one step.

## Where the documentation and the code differ

The model follows the code.

- `real_time_arbiter.py:138-142` says that a late collision is lost by the motion that started later. It is lost by the
  motion that is still moving, whichever started first.
- `matchmaker.py:58-63` speaks of overlapping windows. A pair is accepted when the wider of the two windows covers the
  gap.
- `redis_connection_registry.py:9` writes the stored identity with a colon. The separator is NUL.
- There is one airborne marker. Air-capture clears it while the jump goes on, and the landing of an older jump clears
  the marker of a newer one. So a set marker implies a live jump, and not the converse.
- `CAPTURED` is not final for a piece off the board: a later rest or idle event overwrites it.
- A resignation does not look at whether the game is already over, and replaces the winner.

## Model

| member | source | states |
|---|---|---|
| `CollisionKernel.SweepIsKernel` | kungfu_chess/realtime/real_time_arbiter.py:76-98 | A due motion is swept out exactly when an earlier survivor clashes with it: the index-order loop computes the greedy kernel. |
| `CollisionKernel.SurvivorsAreKernel` | kungfu_chess/realtime/real_time_arbiter.py:76-98 | No two survivors clash, and every eliminated motion clashes with an earlier survivor. |
| `CollisionKernel.KernelIsUnique` | kungfu_chess/realtime/real_time_arbiter.py:76-98 | Any set of motions with those two properties is the set of survivors. |
| `CollisionKernel.SweepDistinct` | kungfu_chess/realtime/real_time_arbiter.py:83-96 | Each loser of the pass is reported once. |
| `CollisionKernel.KeptMeaning` | kungfu_chess/realtime/real_time_arbiter.py:97-98 | The survivors keep their starting order, and a JUMP always survives. |
| `MotionConservation.AdvanceConserves` | kungfu_chess/realtime/real_time_arbiter.py:100-198 | For every piece and any motion list: motions before the call = motions still active + arrivals + eliminations + landings, with exactly one rest per arrival or landing. No motion is lost or resolved twice. |
| `MotionConservation.AdvanceRests` | kungfu_chess/realtime/real_time_arbiter.py:107-117 | The rest list after a call is the rests with time left followed by one entry for each rest event, in order. |
| `PieceFate.Fate` | kungfu_chess/realtime/real_time_arbiter.py:122-136 | The whole list of events of a moving piece in one call: none and still moving, one elimination, an arrival followed by its rest, or a landing rest; and nothing else. |
| `PieceFate.RestFate` | kungfu_chess/realtime/real_time_arbiter.py:107-117 | A resting piece that is not moving is woken exactly when its rest runs out, and nothing else happens to it. |
| `PieceFate.NoFate` | kungfu_chess/realtime/real_time_arbiter.py:100-136 | A piece without motion and rest is not mentioned by any event. |
| `PieceFate.DueTrace` | kungfu_chess/realtime/real_time_arbiter.py:186-198 | Among distinct due motions, each resolved one ends exactly once. |
| `PieceFate.FlyingTrace` | kungfu_chess/realtime/real_time_arbiter.py:138-151 | A motion still in flight either stays, with no event, or is eliminated once as a late collision and leaves the list. |
| `SimulatedTime.AdvanceKeepsOneActivity` | kungfu_chess/realtime/real_time_arbiter.py:107-190 | Time keeps every piece to at most one motion and at most one rest, never both. |
| `SimulatedTime.RestsAfter` | kungfu_chess/realtime/real_time_arbiter.py:107-117 | The rests of one piece after a call: the one that runs on, followed by those its own events start. |
| `SimulatedTime.TickSplit` | kungfu_chess/realtime/real_time_arbiter.py:100-126 | If everything lasts longer than x, waiting x and then y gives the state and events of waiting x + y. |
| `SimulatedTime.QuietTicks` | kungfu_chess/realtime/real_time_arbiter.py:100-126 | A sequence of ticks that everything outlasts reports nothing and has the same effect as its sum: motions and rests are that much shorter. |
| `SimulatedTime.TicksMerge` | kungfu_chess/realtime/real_time_arbiter.py:100-126 | Any sequence of ticks that everything outlasts can be merged into the tick after it. |
| `SimulatedTime.MotionsShrink` | kungfu_chess/realtime/real_time_arbiter.py:122-126 | After a tick every remaining time is positive and has dropped by the whole tick. |
| `SimulatedTime.MotionsDrain` | kungfu_chess/realtime/real_time_arbiter.py:100-136 | Once the ticks add up to the longest remaining time, no motion is left. |
| `SimulatedTime.RestsDrain` | kungfu_chess/realtime/real_time_arbiter.py:107-120 | Without motions, no rest is left once the ticks add up to the longest one. |
| `ArbiterLaws.EliminatedByEnemy` | kungfu_chess/realtime/real_time_arbiter.py:89-165 | For every elimination of a call, of any motion list: the piece has a MOVE, and an enemy contends with it, by a MOVE with the same target or the two cells swapped, or by a JUMP on the target. |
| `ArbiterLaws.FriendsAreSafe` | kungfu_chess/realtime/real_time_arbiter.py:89-165 | While all active motions are of one color, nothing is eliminated. |
| `ArbiterLaws.EnemiesDoNotBothArrive` | kungfu_chess/realtime/real_time_arbiter.py:76-98 | Of two enemy MOVEs that come due in the same call with the same target or swapped cells, at most one arrives. |
| `ArbiterLaws.LosesToEarlier` | kungfu_chess/realtime/real_time_arbiter.py:83-98 | A due motion is out of the collision pass exactly when an earlier motion that is not out is an enemy MOVE with its target or with the two cells swapped; said of colors and cells. |
| `ArbiterLaws.LosersFirst` | kungfu_chess/realtime/real_time_arbiter.py:83-136 | Of two enemy MOVEs that contend in one call, the loser is reported before the winner arrives. |
| `ArbiterLaws.NoRivalLeft` | kungfu_chess/realtime/real_time_arbiter.py:138-151 | After a call, no enemy MOVE in flight has a target on which a piece has just arrived. |
| `ArbiterLaws.ArrivalTells` | kungfu_chess/realtime/real_time_arbiter.py:174-184 | Each arrival names piece, source and target of a MOVE that has come due. |
| `ArbiterLaws.RestsTold` | kungfu_chess/realtime/real_time_arbiter.py:174-198 | A MOVE that arrives starts the long rest, a JUMP that comes due the short one, with the configured durations, and a motion is reported in no other way. |
| `ArbiterLaws.LandingClearsMarker` | kungfu_chess/realtime/real_time_arbiter.py:186-190 | If any JUMP comes due in a call, the marker is off afterwards. |
| `ArbiterLaws.ArrivalsInOrder` | kungfu_chess/realtime/real_time_arbiter.py:125-136 | Arrivals are reported in the order in which their MOVEs were started. |
| `ArbiterLaws.DistanceIsLeast` | kungfu_chess/realtime/real_time_arbiter.py:50-60 | The number of squares of a move is the least that covers both its rows and its columns. |
| `Rules.RayFromBoard` | kungfu_chess/rules/piece_rules.py:103-119 | From a cell on the board, a ray is decided by the emptiness of the cells in between alone. |
| `Rules.LegalShape` | kungfu_chess/rules/rule_engine.py:48-68 | An accepted move stays on the board, leaves its cell and is a displacement of its kind, with friendly capture on or off. |
| `MovementObject.KingDestinations` | kungfu_chess/rules/piece_rules.py:17-28 | The two nested loops give exactly the neighbouring cells on the board. |
| `MovementObject.KnightDestinations` | kungfu_chess/rules/piece_rules.py:49-57 | The loop over the offsets gives exactly the knight steps on the board. |
| `MovementObject.PawnDestinations` | kungfu_chess/rules/piece_rules.py:72-98 | Exactly the single step onto an empty cell, the double step from the start row of a tall enough board, and the diagonals that are occupied. |
| `MovementObject.RayDestinations` | kungfu_chess/rules/piece_rules.py:107-118 | The unbounded loop ends on every board, with exactly the cells reached along the direction over empty cells only. |
| `MovementObject.SlidingDestinations` | kungfu_chess/rules/piece_rules.py:103-119 | The union of the rays: a cell is in the result exactly when it lies on a ray of a listed direction. |
| `MovementObject.LegalDestinations` | kungfu_chess/rules/piece_rules.py:17-98 | For each of the six kinds, the computed set is the closed-form reachability. |
| `MovementObject.RuleEngine.ValidateMove` | kungfu_chess/rules/rule_engine.py:48-68 | The verdict, with its order of reasons, is that of the closed form; no destination set is needed to know it. |
| `Engine.ApplyAll` | kungfu_chess/engine/game_engine.py:157-173 | Applying any batch keeps the coherence of board cells and pieces, even when an event raises in the middle. |
| `Engine.EventSourced` | kungfu_chess/realtime/real_time_arbiter.py:100-198 | Every event comes from an active motion or rest of its own piece, with that motion's source and target. |
| `Engine.Ticked` | kungfu_chess/realtime/real_time_arbiter.py:100-136 | After time has passed and before any event is applied, only states have changed, to CAPTURED, and every event refers to a known piece and a cell on the board. |
| `Anchoring.ReplayExact` | kungfu_chess/engine/game_engine.py:130-173 | For an orderly batch on anchored motions: it is clean exactly when every event finds its own piece and the motions it does not conclude stay anchored. |
| `Anchoring.AnchoringExact` | kungfu_chess/engine/game_engine.py:157-173 | From an anchored state, a tick moves and removes exactly the right pieces and keeps every active motion anchored if and only if it is clean. |
| `Anchoring.CleanTickSucceeds` | kungfu_chess/model/board.py:40-52 | A clean tick never pops an empty cell. |
| `Anchoring.TickOrderly` | kungfu_chess/realtime/real_time_arbiter.py:128-136 | The events of a call conclude each motion once, and name its source. |
| `Anchoring.StillActive` | kungfu_chess/realtime/real_time_arbiter.py:125-136 | A motion is active after a call exactly when no event of the call concludes it. |
| `Forecast.ScheduledFate` | kungfu_chess/realtime/real_time_arbiter.py:153-198 | What becomes of a MOVE that comes due and survives the collision pass: the first one that the marker captures is eliminated, and every other one arrives and rests, also a second intruder on the same cell. |
| `Forecast.CleanOnMotionsExact` | kungfu_chess/realtime/real_time_arbiter.py:122-151 | A tick is clean exactly when, on the list of motions alone, every scheduled MOVE that is not captured in the air lands on the source of no other pending motion, except one that lost the collision pass, had its turn before, or had its own target taken by then. |
| `Airborne.AirCapture` | kungfu_chess/realtime/real_time_arbiter.py:153-172 | With the marker over a JUMP that stays in flight, in any anchored state and whether or not the tick is clean: of all due survivors exactly the first enemy onto that cell is eliminated, and all other MOVEs arrive. |
| `Witness.UncleanTickMovesWrongPiece` | kungfu_chess/engine/game_engine.py:135-149 | From an opening position, two accepted requests and 999 ms lead by a clean run to a tick that is not clean: there the arrival of one piece moves another, and its own piece is gone. |
| `Soundness.TickSound` | kungfu_chess/engine/game_engine.py:157-173 | A tick that does not raise, clean or not, keeps coherent references, one activity per piece, rest states for resting pieces on the board, and a marker only over a live JUMP. |
| `Soundness.MoveSound` | kungfu_chess/engine/game_engine.py:90-110 | So does every move request, accepted or refused. |
| `Soundness.JumpSound` | kungfu_chess/engine/game_engine.py:112-128 | So does every jump request, accepted or refused. |
| `Soundness.MarkerAfter` | kungfu_chess/realtime/real_time_arbiter.py:153-196 | After a call a set marker is over the source of a JUMP that is still active. |
| `Soundness.RestOrigin` | kungfu_chess/realtime/real_time_arbiter.py:174-190 | A rest entry after a call either ran on or was started by the last event of its own piece. |
| `Calmness.TickCalm` | kungfu_chess/engine/game_engine.py:151-173 | A clean tick keeps every motion anchored and every piece on the board in exactly the state its motion or rest dictates, never CAPTURED. |
| `Calmness.MoveCalm` | kungfu_chess/engine/game_engine.py:90-110 | A move request keeps that. |
| `Calmness.JumpCalm` | kungfu_chess/engine/game_engine.py:112-128 | A jump request keeps that. |
| `Calmness.EliminatedLeaves` | kungfu_chess/engine/game_engine.py:130-133 | A faithfully eliminated piece is off the board when the batch ends. |
| `Replay.OwnStep` | kungfu_chess/engine/game_engine.py:130-149 | Everything a faithful event does to any one piece: its kind, its cell, its presence on the board, and the game-over flag. |
| `Replay.ReplayKings` | kungfu_chess/engine/game_engine.py:38-40 | A faithful batch keeps game over equivalent to: forced, or a king is missing. |
| `Replay.ReplayGeometry` | kungfu_chess/engine/game_engine.py:29-35 | Through a clean batch pawns only go forward, bishops keep their square color, and no pawn is left on its promotion row. |
| `Material.StepMaterial` | kungfu_chess/engine/game_engine.py:130-149 | One faithful event lowers the value on the board by exactly its victim and raises it by exactly the promotion gain. |
| `Material.ReplayMaterial` | kungfu_chess/engine/game_engine.py:157-173 | Over a clean batch, value on the board plus value taken changes only by promotions. |
| `Material.DoneArrivals` | kungfu_chess/engine/game_engine.py:165-166 | The returned list has as many arrivals as the arbiter reported. |
| `Material.GainsFrozen` | kungfu_chess/ui/game_stats_tracker.py:21-33 | What a batch scores is not changed by later events of the batch, because scored pieces are off the board. |
| `Material.ProcessTotals` | kungfu_chess/ui/game_stats_tracker.py:21-44 | The tracker raises exactly when some event cannot be recorded; otherwise it adds exactly the gains of the batch and one history entry per arrival. |
| `Material.ProcessChronological` | kungfu_chess/ui/game_stats_tracker.py:21-44 | With a non-negative tick the history stays in order and not in the future, also when recording stops at an error. |
| `Stats.NotationNamesTarget` | kungfu_chess/ui/game_stats_tracker.py:35-44 | Two moves with the same notation have the same target cell. |
| `Material.BatchRecordable` | kungfu_chess/ui/game_stats_tracker.py:35-44 | What a tick did, clean or not, can be recorded exactly when each of its arrivals is in one of the 26 columns that have a letter. |
| `Runs.Run` | kungfu_chess/engine/game_engine.py:90-173 | Every state reachable by any interleaving of requests, jumps, ticks and resignations is sound, as long as no tick has raised. |
| `Runs.PassGoesOn` | kungfu_chess/server/session/game_session.py:230-234 | After a clean tick the session goes on exactly when each arrival is in a column that has a letter. |
| `Runs.CleanRunIsGood` | kungfu_chess/engine/game_engine.py:90-173 | Along every clean run, on boards of any size, motions stay anchored, states exact, and game over holds exactly when it was forced or a king has left the board; with at most 26 columns no tick raises. |
| `Runs.GameOverForever` | kungfu_chess/engine/game_engine.py:68-76 | In every run, clean or not, game over never goes back. |
| `Runs.CleanRunGeometry` | kungfu_chess/engine/game_engine.py:29-35 | Over whole clean runs, on boards of any size: every occupied cell on the board, pawns only advance, none on its promotion row if none started there, bishops keep their square color. |
| `Runs.CleanRunConservesMaterial` | kungfu_chess/ui/game_stats_tracker.py:21-44 | Over whole clean runs that the tracker can record: scores plus value on the board = initial value + promotion gain times promotions, and the history grew by one entry per arrival. |
| `Runs.HistoryChronological` | kungfu_chess/ui/game_stats_tracker.py:35-44 | With non-negative ticks the history is chronological in every run. |
| `Airborne.AirborneSafety` | kungfu_chess/realtime/real_time_arbiter.py:130-165 | A JUMP that stays in flight keeps its motion through any tick. Its piece keeps its cell if and only if no due survivor targets that cell, or the marker is over it and the only one that does is an enemy; otherwise the piece is off the board afterwards. |
| `Airborne.JumpKept` | kungfu_chess/realtime/real_time_arbiter.py:130-165 | A clean tick is safe for every JUMP that stays in flight. |
| `EngineLaws.LoneIntruderFalls` | kungfu_chess/realtime/real_time_arbiter.py:153-172 | Under the marker, an enemy that is the only MOVE to come due onto the jumper is eliminated and does nothing else. |
| `EngineLaws.MoveReasons` | kungfu_chess/engine/game_engine.py:90-110 | When a move is refused for game over, an empty source or a busy piece, and that a refused request changes nothing. |
| `EngineLaws.FriendlyExactly` | kungfu_chess/rules/rule_engine.py:56-58 | With friendly capture off a move that nothing else refuses is refused for its destination exactly when a piece of the same color stands there; with friendly capture on, never. |
| `EngineLaws.TargetColorIsFree` | kungfu_chess/rules/rule_engine.py:56-58 | With friendly capture on, the answer to a request does not depend on the color of the piece on the destination. |
| `EngineLaws.LegalExactly` | kungfu_chess/rules/piece_rules.py:17-119 | An otherwise unobjectionable request is accepted exactly when rows and columns make a displacement of the kind and no piece stands in between; pawns go up the board if White, down if Black. |
| `EngineLaws.MoveStarts` | kungfu_chess/realtime/real_time_arbiter.py:50-60 | An accepted move of n squares starts one motion of n times the time of a square, marks the piece as moving and changes nothing else. |
| `EngineLaws.JumpStarts` | kungfu_chess/engine/game_engine.py:112-128 | When a jump is refused, among others while the marker is set, and the whole effect of an accepted one. |
| `EngineLaws.MarkerStands` | kungfu_chess/engine/game_engine.py:90-128 | No request moves a marker that is set. |
| `EngineLaws.PromotedAtTheEdge` | kungfu_chess/engine/game_engine.py:29-35 | A pawn that arrives is a queen afterwards exactly when the row further on is off the board. |
| `EngineLaws.CleanRunPawns` | kungfu_chess/engine/game_engine.py:29-35 | Over clean runs from a start where every pawn has a row before it: every pawn on the board still has one and has only gone forward, White to lower rows, Black to higher ones. |
| `EngineLaws.CleanRunKings` | kungfu_chess/engine/game_engine.py:38-40 | Over clean runs the game is over exactly when it was forced or some king is off the board. |
| `EngineLaws.LastResignationDecides` | kungfu_chess/engine/game_engine.py:68-76 | The winner after any run is the one named by the last resignation. |
| `EngineLaws.NoWinnerDeclared` | kungfu_chess/engine/game_engine.py:68-76 | Without a resignation no winner is declared, also when a king falls. |
| `EngineLaws.RestingStates` | kungfu_chess/engine/game_engine.py:151-155 | Through a clean tick a piece that arrived is in long rest, one that landed in short rest, one that woke up idle, and one that rests on as it was. |
| `EngineLaws.EliminatedAreMarked` | kungfu_chess/realtime/real_time_arbiter.py:92-163 | When the events of a tick are about to be applied, exactly the pieces it eliminates have been marked captured. |
| `EngineLaws.ArrivalMarks` | kungfu_chess/engine/game_engine.py:135-149 | An own arrival moves its piece, marks the piece on the destination captured, reports it with the kind before promotion, and changes no other record. |
| `EngineLaws.EliminationEmpties` | kungfu_chess/engine/game_engine.py:130-133 | An elimination empties the cell of its piece and changes no record. |
| `Sides.ProcessTells` | kungfu_chess/ui/game_stats_tracker.py:21-44 | Over a batch the white score grows by the worth of what white arrivals take and of the black pieces eliminated, the black score likewise, and the history by one entry per arrival with its letters, its row counted from below and the time after the batch. |
| `Sides.CleanRunScores` | kungfu_chess/ui/game_stats_tracker.py:25-33 | Over clean runs in which no arrival takes a piece of its own color: the score of each color plus the value of the opponent's pieces on the board is constant up to the opponent's promotions. |
| `Endgame.OpeningIsGood` | kungfu_chess/engine/game_engine.py:56-66 | A fresh game satisfies the invariant of clean runs. |
| `Endgame.OverDrains` | kungfu_chess/engine/game_engine.py:91-92 | After game over no request starts a motion, so all are gone once the ticks add up to the longest. |
| `Endgame.StillBoard` | kungfu_chess/engine/game_engine.py:157-173 | A finished game without motions never changes its board again, and no tick raises. |
| `Endgame.BoardFinallyConstant` | kungfu_chess/engine/game_engine.py:90-173 | From any sound state with game over, the board is constant from a computable moment on and no further tick raises, whatever commands follow, clean or not. |
| `Endgame.DrainInCalls` | kungfu_chess/realtime/real_time_arbiter.py:100-136 | Without commands: all motions are gone after max(1, ceil(longest / ms)) calls of ms, all rests after max(1, ceil(rest / ms)) more. |
| `Snapshots.RunOnSchedule` | kungfu_chess/realtime/real_time_arbiter.py:50-60 | In every run with non-negative ticks, the time left of each motion lies in (0, the time it started with]. |
| `Snapshots.ProgressInRange` | kungfu_chess/engine/snapshot_builder.py:19-30 | The shown fraction of a MOVE in flight is the elapsed share of its time and lies in [0, 1). |
| `Snapshots.ProgressTells` | kungfu_chess/engine/snapshot_builder.py:19-30 | For a MOVE of n squares the fraction is the time gone over the time of n squares. |
| `Snapshots.ShownInPlace` | kungfu_chess/engine/snapshot_builder.py:19-30 | A piece that jumps or has no motion is shown in place, without a target. |
| `Snapshots.ShotsTell` | kungfu_chess/engine/snapshot_builder.py:38-51 | There is exactly one shot for each piece on the board that is not marked captured, with its id, kind, color, cell and state, and no other. |
| `Snapshots.FlightIsOneMotion` | kungfu_chess/realtime/real_time_arbiter.py:122-126 | A piece that keeps moving through a run is in one and the same motion, shortened by the time passed. |
| `Snapshots.ProgressNeverDecreases` | kungfu_chess/engine/snapshot_builder.py:19-30 | While a piece stays in flight, over any run, its shown target is fixed and its fraction never decreases. |
| `Snapshots.CalmShowsAll` | kungfu_chess/engine/snapshot_builder.py:38-51 | On clean runs a snapshot leaves out no piece that is on the board. |
| `SnapshotObject.MotionInfoOf` | kungfu_chess/engine/snapshot_builder.py:19-30 | The search by object identity and the arithmetic give the target and fraction of the piece's only motion. |
| `SnapshotObject.BuildSnapshot` | kungfu_chess/engine/snapshot_builder.py:33-63 | The loop shows exactly the pieces on the board that are not marked captured, each once; the other fields are those of the board, the arbiter, the engine and the tracker if there is one. |
| `BoardObject.Board.AddPiece` | kungfu_chess/model/board.py:32-35 | An occupied cell is refused and left alone. |
| `BoardObject.Board.RemovePiece` | kungfu_chess/model/board.py:37-38 | The cell is emptied, and what stood there is returned. |
| `BoardObject.Board.MovePiece` | kungfu_chess/model/board.py:40-52 | Fails without a change on an empty source; otherwise moves whatever stood there, marks the piece on the target captured, and changes no other record. |
| `ArbiterObject.RealTimeArbiter.StartMotion` | kungfu_chess/realtime/real_time_arbiter.py:50-60 | Appends one MOVE and marks the piece; nothing else changes. |
| `ArbiterObject.RealTimeArbiter.StartJump` | kungfu_chess/realtime/real_time_arbiter.py:62-74 | Appends one JUMP, sets the marker and marks the piece; nothing else changes. |
| `ArbiterObject.RealTimeArbiter.GetMotionFor` | kungfu_chess/realtime/real_time_arbiter.py:37-42 | Finds a motion of this very piece object, or there is none. |
| `ArbiterObject.EliminateSimultaneousCollisions` | kungfu_chess/realtime/real_time_arbiter.py:76-98 | The nested loops over objects compute the sweep, its survivors and its events, and mark exactly the losers. |
| `ArbiterObject.CountDown` | kungfu_chess/realtime/real_time_arbiter.py:108-115 | Counting down in place while collecting indices reports exactly the rests that run out. |
| `ArbiterObject.PopAll` | kungfu_chess/realtime/real_time_arbiter.py:116-117 | Popping the collected indices backwards removes exactly those entries. |
| `ArbiterObject.LateStep` | kungfu_chess/realtime/real_time_arbiter.py:144-150 | Removing by dataclass equality from the list that is being thinned removes the intended motion, because everything before it differs. |
| `ArbiterObject.RealTimeArbiter.ResolveLateCollision` | kungfu_chess/realtime/real_time_arbiter.py:138-151 | Thins the live list to the motions that are on time, and reports the others in order. |
| `ArbiterObject.RealTimeArbiter.ResolveAirCapture` | kungfu_chess/realtime/real_time_arbiter.py:153-165 | Eliminates exactly under the air-capture condition, and then clears the marker and nothing else. |
| `ArbiterObject.RealTimeArbiter.ResolveArrivals` | kungfu_chess/realtime/real_time_arbiter.py:134-135 | Resolving object by object computes the fold over the due motions. |
| `ArbiterObject.RealTimeArbiter.AdvanceTime` | kungfu_chess/realtime/real_time_arbiter.py:100-136 | The method refines the function on values: the same new state and events, and piece states written exactly for the eliminated. |
| `EngineObject.GameEngine.RequestMove` | kungfu_chess/engine/game_engine.py:90-110 | Refines the request on values with its order of reasons, and keeps the engine sound. |
| `EngineObject.GameEngine.RequestJump` | kungfu_chess/engine/game_engine.py:112-128 | Refines the request on values with its order of reasons, and keeps the engine sound. |
| `EngineObject.GameEngine.ForceGameOver` | kungfu_chess/engine/game_engine.py:68-76 | Sets the flag and the winner, and keeps the engine sound. |
| `EngineObject.GameEngine.ApplyArrival` | kungfu_chess/engine/game_engine.py:135-149 | Moves, captures, promotes and notes the captured king as the event on values does, or raises without a change. |
| `EngineObject.GameEngine.ApplyElimination` | kungfu_chess/engine/game_engine.py:130-133 | Empties the reported cell and notes a lost king as the event on values does. |
| `EngineObject.GameEngine.Wait` | kungfu_chess/engine/game_engine.py:157-173 | The loop over the raw events refines the tick on values, including what stays applied when an event raises, and keeps the engine sound. |
| `TrackerObject.GameStatsTracker.Process` | kungfu_chess/ui/game_stats_tracker.py:21-44 | The loop computes the scores and the history of the batch, up to the first event that raises IndexError, and reports whether there was one. |
| `TrackerObject.SessionTick` | kungfu_chess/server/session/game_session.py:230-234 | Engine and tracker together take the tick of a run, on boards of any size, including where either of them raises. |
| `Decimal.RoundTrip` | kungfu_chess/server/network/redis_connection_registry.py:99-104 | The number written into a text is the number read back. |
| `Decimal.Notation` | kungfu_chess/ui/game_stats_tracker.py:38-42 | Numbers are written in decimal: one more digit for every factor of ten, and a minus sign. |
| `Matchmaking.MatchIsFirst` | kungfu_chess/server/matchmaking/matchmaker.py:58-72 | A pair is found exactly when one suits, and it is the lexicographically first. |
| `Matchmaking.EarlierWindowCounts` | kungfu_chess/server/matchmaking/matchmaker.py:69-71 | In joining order, a pair suits exactly when the window of the earlier entry covers the gap. |
| `Matchmaking.RoundsDown` | kungfu_chess/server/matchmaking/matchmaker.py:87-90 | Floor division rounds down, also for a negative interval. |
| `Matchmaking.WindowSteps` | kungfu_chess/server/matchmaking/matchmaker.py:87-90 | The window is the configured range plus one step for every full interval waited. |
| `Matchmaking.TimesOutExactly` | kungfu_chess/server/matchmaking/matchmaker.py:74-80 | An entry is swept exactly from the moment it has waited for the configured time. |
| `Matchmaking.SuitsForever` | kungfu_chess/server/matchmaking/matchmaker.py:87-90 | A pair that suits goes on suiting. |
| `Matchmaking.SuitsExactlyFrom` | kungfu_chess/server/matchmaking/matchmaker.py:87-90 | With a growing window, two entries suit exactly from a moment that can be computed when they join. |
| `Matchmaking.TimedOutPrefix` | kungfu_chess/server/matchmaking/matchmaker.py:74-80 | In joining order the queue is the timed-out entries followed by the others. |
| `Matchmaking.RunAccounts` | kungfu_chess/server/matchmaking/matchmaker.py:46-80 | Along every run usernames are unique, and every entry that came in is in exactly one place: waiting, matched, expired or withdrawn. |
| `Matchmaking.RunInOrder` | kungfu_chess/server/matchmaking/matchmaker.py:46-80 | When times never go back the queue is always in joining order. |
| `Matchmaking.RunInOrderMeans` | kungfu_chess/server/matchmaking/matchmaker.py:69-80 | Then timed-out entries are a prefix, and only the earlier window counts, in every reachable queue. |
| `MatchmakerObject.Matchmaker.CancelEntry` | kungfu_chess/server/matchmaking/matchmaker.py:52-56 | Rebuilds the queue without the username and says whether it was there. |
| `MatchmakerObject.Matchmaker.EnqueueEntry` | kungfu_chess/server/matchmaking/matchmaker.py:46-50 | Replaces an entry of the same username and appends. |
| `MatchmakerObject.Matchmaker.FindMatchNow` | kungfu_chess/server/matchmaking/matchmaker.py:58-90 | The nested loops return the found pair and remove exactly its two entries, or change nothing; with a widening interval of 0 the call raises exactly when anybody is waiting. |
| `MatchmakerObject.Matchmaker.SweepTimeouts` | kungfu_chess/server/matchmaking/matchmaker.py:74-80 | Parts the queue into what is returned and what stays. |
| `Registry.KeysNeverCollide` | kungfu_chess/server/network/redis_connection_registry.py:32-34 | Whatever the ids contain, no two of the three key formats ever give the same key. |
| `Registry.IdentityExact` | kungfu_chess/server/network/redis_connection_registry.py:96-104 | An identity is read back as stored exactly when the username has no NUL; otherwise reading raises. |
| `FlatStore.AgreesIndexed` | kungfu_chess/server/network/redis_connection_registry.py:111-136 | The members of a room's set are exactly the connections whose room key names it. |
| `FlatStore.AssignAgrees` | kungfu_chess/server/network/redis_connection_registry.py:111-116 | Reassigning keeps that, whatever room the connection was in. |
| `FlatStore.ForgetAgrees` | kungfu_chess/server/network/redis_connection_registry.py:81-86 | Forgetting keeps that. |
| `FlatStore.RemoveRoomAgrees` | kungfu_chess/server/network/redis_connection_registry.py:130-136 | Removing a room keeps that. |
| `Registry.StepRepresents` | kungfu_chess/server/network/redis_connection_registry.py:77-136 | Every call on the shared store matches the same call on the plain dictionaries, and no command meets a key of the wrong type. |
| `Registry.RegistryRefines` | kungfu_chess/server/network/redis_connection_registry.py:77-136 | After any sequence of calls through any number of instances, room, membership and identity queries answer as the plain registry does, except that an identity whose username contains NUL raises. |
| `Registry.SocketsAreLocal` | kungfu_chess/server/network/redis_connection_registry.py:77-92 | Each instance knows exactly the sockets of the calls made through it. |
| `Registry.ApplyTells` | kungfu_chess/server/network/connection_registry.py:45-88 | What each call on the dictionaries does to the connection it names, and that it leaves every other connection alone. |
| `RegistryObject.RedisConnectionRegistry.Forget` | kungfu_chess/server/network/redis_connection_registry.py:81-86 | Computes the step on the store and on the local sockets. |
| `RegistryObject.RedisConnectionRegistry.AssignRoom` | kungfu_chess/server/network/redis_connection_registry.py:111-116 | Computes the step on the store. |
| `RegistryObject.RedisConnectionRegistry.ForgetRoom` | kungfu_chess/server/network/redis_connection_registry.py:121-125 | Computes the step on the store. |
| `RegistryObject.RedisConnectionRegistry.MarkLoggedIn` | kungfu_chess/server/network/redis_connection_registry.py:96-97 | Computes the step on the store. |
| `RegistryObject.RedisConnectionRegistry.ForgetLogin` | kungfu_chess/server/network/redis_connection_registry.py:106-107 | Computes the step on the store. |
| `RegistryObject.RedisConnectionRegistry.IdentityOf` | kungfu_chess/server/network/redis_connection_registry.py:99-104 | Answers nobody, somebody or an error as the stored text decides. |
| `RegistryObject.RedisConnectionRegistry.RemoveRoomEntries` | kungfu_chess/server/network/redis_connection_registry.py:130-136 | The collected deletions compute the step on the store. |
| `RegistryObject.ConnectionRegistry.Forget` | kungfu_chess/server/network/connection_registry.py:48-51 | Removes the connection from all three dictionaries. |
| `RegistryObject.ConnectionRegistry.AssignRoom` | kungfu_chess/server/network/connection_registry.py:73-74 | Overwrites the room of the connection. |
| `RegistryObject.ConnectionRegistry.RemoveRoomEntries` | kungfu_chess/server/network/connection_registry.py:85-88 | Deleting one stale entry after the other removes exactly the entries of the room. |
| `Seating.JoinExact` | kungfu_chess/server/session/game_session.py:78-155 | A join keeps the seating invariant exactly when the connection is fresh for it, which the caller can check. |
| `Seating.JoinKeepsColors` | kungfu_chess/server/session/room_manager.py:143-162 | A join leaves every seated player with its color. |
| `Seating.JoinSeats` | kungfu_chess/server/session/room_manager.py:143-165 | The joiner is bound to the player it names, or takes the next seat (WHITE first), or watches. |
| `Seating.OwnersUnique` | kungfu_chess/server/session/game_session.py:97-110 | At most one connection owns the piece on a cell, and no spectator owns any. |
| `Seating.OwnsItsColor` | kungfu_chess/server/session/game_session.py:97-110 | The connection bound to a player owns a piece exactly when it has that player's color; unbound connections own nothing, and nobody owns an empty cell. |
| `Seating.FirstTwoOwn` | kungfu_chess/server/session/game_session.py:78-110 | The first to join owns exactly the white pieces, the second exactly the black ones. |
| `Seating.OtherUnique` | kungfu_chess/server/session/game_session.py:224-226 | The opponent of a seated player is unique and has the other color. |
| `SessionObject.GameSession.AssignColor` | kungfu_chess/server/session/game_session.py:78-88 | Seats the connection under its own id, and returns the color it then has. |
| `SessionObject.GameSession.RebindConnection` | kungfu_chess/server/session/game_session.py:115-128 | Moves a player to a new connection and drops the old binding; an unknown player changes nothing. |
| `SessionObject.GameSession.RecordJoin` | kungfu_chess/server/session/game_session.py:132-155 | Renames the placeholder, or rebinds a known player; raises exactly when the placeholder exists without a binding, which is then already removed. |
| `SessionObject.GameSession.OwnsPieceAt` | kungfu_chess/server/session/game_session.py:104-110 | Ownership is decided by the color bound to the connection and the piece on the cell. |
| `SessionObject.GameSession.OtherPlayer` | kungfu_chess/server/session/game_session.py:224-226 | Finds another player exactly when there is one. |
| `SessionObject.GameSession.Resign` | kungfu_chess/server/session/game_session.py:179-197 | Ends the game for the opponent's color, whether or not it was over, and keeps the engine sound. |
| `Lobby.RunConsistent` | kungfu_chess/server/session/disconnect_coordinator.py:55-98 | Over all interleavings of room creation, cancellation, join, disconnect and timer firing in which a connection joins only where it may: sessions stay seated, at most one timer per room and player, and at most one resignation per room. |
| `Lobby.JoinExactly` | kungfu_chess/server/session/room_manager.py:116-170 | In a consistent lobby, a join by an open connection keeps the lobby consistent exactly when the room does not exist, or the connection is fresh for its session and is no player of another room. |
| `Lobby.CancelTells` | kungfu_chess/server/session/room_manager.py:96-106 | A cancelled room is gone with exactly its registry entries; timers and other rooms stay. |
| `Lobby.RegistryFollows` | kungfu_chess/server/network/ws_gateway.py:134-135 | A closed connection is in no dictionary; one that joined an existing room is registered there; a join to no room changes nothing. |
| `Lobby.ArmedExactly` | kungfu_chess/server/session/disconnect_coordinator.py:55-83 | In an existing room a timer is armed for a player exactly when the connection bound to that player is closed, and then only one. |
| `Lobby.RejoinDisarms` | kungfu_chess/server/session/room_manager.py:143-148 | The timer that was running when a player came back never resigns that seat, whatever happens later. |
| `Lobby.SupersededCloseIsSilent` | kungfu_chess/server/session/disconnect_coordinator.py:55-64 | The late close of a connection that is no longer anybody's arms nothing. |
| `Lobby.FireResigns` | kungfu_chess/server/session/disconnect_coordinator.py:87-98 | A timer that fires in an existing room resigns a player whose connection is closed, rates the game once exactly when there is a rating service and an opponent, and removes the room; otherwise it resigns nobody. |
| `Lobby.ColorForever` | kungfu_chess/server/session/game_session.py:115-128 | As long as its room exists a player keeps its color, over any number of disconnects and reconnects. |
| `LobbyObject.DisconnectMonitor.Start` | kungfu_chess/server/session/disconnect_monitor.py:28-32 | Arms once; starting again changes nothing. |
| `LobbyObject.DisconnectMonitor.Cancel` | kungfu_chess/server/session/disconnect_monitor.py:34-38 | Disarms, in any state. |
| `LobbyObject.MonitorTable.PopAndCancel` | kungfu_chess/server/session/room_manager.py:145-148 | Takes the timer of a seat out of the table and disarms exactly that one. |
| `LobbyObject.MonitorTable.ArmNew` | kungfu_chess/server/session/disconnect_coordinator.py:73-83 | Arms a new timer unless one is listed. |
| `LobbyObject.RoomManager.CreateRoom` | kungfu_chess/server/session/room_manager.py:75-94 | Adds a vacant session with its own running loop. |
| `LobbyObject.RoomManager.CancelRoom` | kungfu_chess/server/session/room_manager.py:96-106 | Stops the loop of the room, removes the room and exactly its registry entries, or reports that there is none. |
| `LobbyObject.RoomManager.HandleJoinRoom` | kungfu_chess/server/session/room_manager.py:116-170 | Takes the join on rooms, registry and timers together. |
| `LobbyObject.DisconnectCoordinator.OnDisconnect` | kungfu_chess/server/session/disconnect_coordinator.py:55-83 | Arms exactly for the player whose bound connection closed. |
| `LobbyObject.DisconnectCoordinator.FireMonitor` | kungfu_chess/server/session/disconnect_coordinator.py:87-98 | Takes the firing step on the table, the rooms and the registry, and reports the resignation. |
| `GatewayObject.Gateway.CreateRoom` | kungfu_chess/server/network/ws_gateway.py:140-141 | Takes the creation step of the lobby. |
| `GatewayObject.Gateway.CancelRoom` | kungfu_chess/server/network/ws_gateway.py:143-144 | Takes the cancellation step of the lobby, and says whether there was a room. |
| `GatewayObject.Gateway.JoinRoom` | kungfu_chess/server/network/ws_gateway.py:201-206 | Takes the join step of the lobby, and says whether there was a room. |
| `GatewayObject.Gateway.ConnectionClosed` | kungfu_chess/server/network/ws_gateway.py:134-135 | Takes the closing step of the lobby, the disconnect before the registry forgets the connection, and withdraws the user that was logged in on it from the queue. |
| `GatewayObject.Gateway.CancelByIdentity` | kungfu_chess/server/matchmaking/matchmaking_coordinator.py:82-86 | Withdraws exactly the entry of the user that is logged in on the connection, if matchmaking is configured and anybody is. |
| `BoardText.ValidateMeans` | kungfu_chess/io/board_parser.py:12-21 | Validation accepts exactly rows of equal width made of tokens. |
| `BoardText.RowErrorMeans` | kungfu_chess/io/board_parser.py:17-21 | The token that is reported is the first bad one of its row. |
| `BoardText.FirstErrorTells` | kungfu_chess/io/board_parser.py:12-21 | The error is that of the first wrong row: its width if that differs from the first row, otherwise its first bad token. |
| `BoardText.LineEndings` | kungfu_chess/io/board_parser.py:28-29 | Lines end at a line feed, a carriage return, or both together. |
| `BoardText.BlanksPart` | kungfu_chess/io/board_parser.py:28-29 | Words are parted by spaces and tabs. |
| `BoardText.RowsNotEmpty` | kungfu_chess/io/board_parser.py:28-29 | No row of a text is empty. |
| `BoardText.RowsKeepWords` | kungfu_chess/io/board_parser.py:28-29 | Splitting any text into rows loses, adds and reorders no word of it. |
| `BoardText.RenderRoundTrip` | kungfu_chess/io/board_printer.py:9-20 | Splitting a rendered text gives back the rows it was rendered from. |
| `BoardText.PrintThenParse` | kungfu_chess/io/board_parser.py:12-52 | The printed text of any non-empty board is accepted, and whatever board it describes shows the same token in every cell. |
| `BoardText.PrintedToken` | kungfu_chess/io/board_printer.py:9-20 | The printed token of a cell is the letters of the piece there, or a dot if there is none or it is marked captured. |
| `Layouts.PlaceRowsGood` | kungfu_chess/io/board_parser.py:32-50 | The pieces placed in reading order show exactly the tokens, each idle on its own cell and in its start row, with distinct ids. |
| `Layouts.LayoutDepicts` | kungfu_chess/io/board_parser.py:32-52 | The parsed board depicts the rows and its references are coherent. |
| `Layouts.ParsedToken` | kungfu_chess/io/board_parser.py:32-50 | A dot places nothing; two letters place an idle piece of the color and kind they name, on the cell and with the start row where they stand. |
| `Layouts.LettersTell` | kungfu_chess/io/board_printer.py:9-20 | The letters of the text are w and b, and those of the move history with P for the pawn. |
| `Layouts.ParseThenPrint` | kungfu_chess/io/board_printer.py:9-20 | The board the parser makes of an accepted text is printed with the same words in the same lines, and parsing that gives the same rows again. |
| `TextObject.CheckRows` | kungfu_chess/io/board_parser.py:12-21 | The loops report the first error, a wrong width before a bad token of the same row. |
| `TextObject.Parse` | kungfu_chess/io/board_parser.py:27-52 | Fails exactly on the texts that validation refuses, with that error; otherwise returns the board of the text, and adding a piece never meets an occupied cell. |
| `TextObject.ToText` | kungfu_chess/io/board_printer.py:9-20 | The loops render the tokens of the board. |
| `TextObject.PrintAndParse` | kungfu_chess/io/board_parser.py:27-52 | Printing a board and parsing the text gives a new board that shows the same. |
| `TextObject.ParseAndPrint` | kungfu_chess/io/board_parser.py:27-52 | Parsing and printing yields that normal form, or the error of the parser. |
| `SetupObject.NewEngine` | kungfu_chess/server/session/game_session.py:26-29 | An engine on the board of an accepted text starts a run in its opening state. |

## Left out

- Injected policies: promotion, game over, movement tables and the identity resolver are the default ones. The
  corresponding fields are not in the classes.
- The `selected_cell` field of the engine, which nothing reads; the snapshot takes the cell as a parameter.
- A column number below 0, which Python would count from the end: cells of a board never have one.
- Ticks that are not clean, beyond coherence, soundness, the history's order, air-capture, the safety of jumpers and the
  witness.
- SnapshotObject.BuildSnapshot: does not say in which order pieces are listed, because the grid is a map here; the same
  holds for the lists of connections in the registries.
- Player records are values inside the player map: the program never holds a second reference to one.
- Floating-point rounding of the shown progress: it is a real number here.
- Other texts that Python's `int` accepts (spaces, underscores, a plus sign): the registry only reads numbers it wrote.
- `WRONGTYPE` replies of the store: keys of the registry are proved to hold the type its commands expect.
- Reuse of a room id: creating a room again replaces the session and leaves the old loop running; the lobby's runs
  exclude it.
- The shard allocator, room directory, activity log, event bus and all messages to clients.
- WebSockets, asyncio scheduling and timer durations: a timer may fire at any step while it is armed.
- Login, passwords, SQL repositories and the rating arithmetic: a rating update is only counted.
- Rendering, sprites, mouse mapping, menus, configuration and the test-script language: they keep no invariant that is
  hard to see.
- The text of the standard starting position is not evaluated; every well-formed text gives an opening.
