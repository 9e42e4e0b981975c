# Haxball client game-state reducer

This project models the state logic of the browser client of a small
multiplayer football ("haxball") game, `public/js/game.js`. The client keeps a
single `gameState` record. Socket.IO handlers change it, and so does a
`requestAnimationFrame` game loop. The model states all of that as one pure
reducer, `Client.Step(state, event, clock)`. An event is one of:

- a message arriving at an instant (`Receive`);
- one frame of the game loop with the keys held at that instant (`Frame`);
- the name form confirmed with the text of its field (`ConfirmName`);
- the user confirming that they leave the game (`Leave`).

Each step yields the new `State` and the messages the client emits:
`join-game`, `player-input`, `kickoff-countdown-complete` and `leave-game`.

The modules follow the parts of the client:

- `Types`: the `gameState` record and its parts, plus the counting of emitted messages.
- `InputSampler`: `sendPlayerInput`. It turns the key map into an intent and emits the intent only when it changed.
- `Latency`: the ping sample at the top of `game-update`.
- `Reconcile`: the rest of `game-update`. It merges the snapshot into the known players, then takes the ball and score verbatim.
- `Prediction`: `performClientPrediction`. It moves the local player by the last intent and blends it toward the server target.
- `Kickoff`: the `game-started`, `goal-scored`, `kickoff-complete` and `kickoff-restrictions-end` handlers, plus the countdown and latch logic of `drawKickoffCountdown`.
- `Session`: `player-left`, `new-host`, the result of `game-ended`, `resetGameState`, and the name form's confirm button.
- `Client`: the message dispatcher, the frame of `gameLoop`, the event runner, and the properties of whole event sequences.

The current instant (`Date.now()`) and the pressed-key map (`keysPressed`)
are parameters. Positions are `real`, instants are `int` milliseconds.

`Kickoff.Clock` selects how the countdown finds its start instant:

- `AsWritten` is the code as it stands. Its countdown never runs; see "Findings".
- `LazyStart` sets an absent start to the current frame's instant, which is the evidently intended behaviour.

Behaviour the code has that a reader might not expect, which the model keeps:

- `goal-scored` and `game-started` do not clear the `kickoffCountdownComplete` latch. Only `kickoff-complete` and `resetGameState` do.
- A `game-update` that arrives after `game-ended` is still applied.
- The message order `game-started` → `kickoff-complete` → `kickoff-restrictions-end` is not enforced. Each handler writes its flags whatever the current phase is (`Client.HandlePhase`).

## Model

| member | source | states |
|---|---|---|
| Types.Initial | public/js/game.js:53-75 | the page starts outside a game, not host, with no players (so the sampler is not eligible), no last intent, ping 0, no countdown start and a clear latch |
| InputSampler.Sample | public/js/game.js:652-658 | each direction is held exactly when its arrow key or its WASD key is held, shoot exactly when Space is |
| InputSampler.SampleIdle | public/js/game.js:652-658 | the intent is all-false exactly when none of the nine bound keys is held |
| InputSampler.SampleReadsOnlyBoundKeys | public/js/game.js:652-658 | the intent depends only on the nine bound key codes (arrows, WASD, Space); two key maps that agree on them give the same intent |
| InputSampler.Changed | public/js/game.js:660-666 | the field-by-field comparison reports a change exactly when there is no previous intent or it differs from the new one |
| InputSampler.SendPlayerInput | public/js/game.js:643-672 | outside a game, or for a spectator or absent local player, nothing changes and nothing is sent; otherwise the sampled intent is sent exactly when it differs from the last one, and the emission records the intent and its instant; no other field changes |
| InputSampler.RepeatIsSilent | public/js/game.js:660-672 | sampling the same keys on the next frame emits nothing |
| Latency.OnSnapshot | public/js/game.js:230-236 | with an outstanding input, ping is the time since it was sent and the send time is cleared; without one, the state is untouched; only ping and the send time ever change |
| Latency.NoSampleWithoutInput | public/js/game.js:231-235 | a second snapshot without a new input changes nothing, so one input gives at most one ping sample |
| Reconcile.MergePlayers | public/js/game.js:239-255 | the set of known players is kept and snapshot-only ids are ignored; every known player in the snapshot gets the snapshot position as target and the snapshot velocity; remote players are moved to it; the local player's displayed position is kept |
| Reconcile.MergeIdempotent | public/js/game.js:239-255 | merging the same snapshot twice equals merging it once |
| Reconcile.ApplySnapshot | public/js/game.js:229-264 | the whole `game-update`: ping sample, player merge, ball and score replaced by the snapshot's, every other field unchanged; whether the local player is controllable (present and not a spectator) does not change |
| Prediction.Axis | public/js/game.js:690-694 | the axis direction is -1, 0 or +1; it is 0 exactly when both keys or neither are held |
| Prediction.Direction | public/js/game.js:687-694 | dx is [right] − [left] and dy is [down] − [up], with every key unset when there is no last intent; each component is 0 exactly when its two keys agree |
| Prediction.Displacement | public/js/game.js:696-709 | no direction gives no step; each component has the sign of its direction; a straight step is exactly 2 along its axis; a diagonal step has equal components and length 2 up to the double constant for 1/√2 (squared length in (3.9999, 4]) |
| Prediction.Predict | public/js/game.js:679-714 | the target is stored (the displayed position when the target is unset or has x = 0); the new offset from the target is 4/5 of the offset after the predicted step; name, team and velocity are kept |
| Prediction.IdleContracts | public/js/game.js:706-714 | an idle frame keeps the target and shrinks both offsets to 4/5 |
| Prediction.MovingOffsetBounded | public/js/game.js:697-714 | a moving frame's offset is at most 4/5 of the old offset plus one prediction step of 2 |
| Prediction.IdleConverges | public/js/game.js:711-714 | after n idle frames the target is unchanged and each offset is the initial one scaled by 0.8 per frame |
| Prediction.DecayRate | public/js/game.js:711-714 | an offset scaled by 0.8 for n frames is at most the initial offset divided by 1 + n/4 |
| Prediction.IdleWithin | public/js/game.js:711-714 | after n idle frames the displayed position is within (initial offset)/(1 + n/4) of the target on both axes, so it converges to the target |
| Prediction.PredictLocal | public/js/game.js:674-677 | only a local, non-spectator player is moved; every other player and field is unchanged, and the set of players is kept |
| Kickoff.NextKickoffTeam | public/js/game.js:278 | after a red goal blue kicks off, after any other goal red does; a red or blue scorer never kicks off next |
| Kickoff.OnGameStarted | public/js/game.js:188-197 | ball, players and score come from the payload; game, kickoff and restriction flags are set; the kickoff team is the payload's; the start instant is cleared; the latch is kept |
| Kickoff.OnGoalScored | public/js/game.js:266-279 | score replaced, kickoff and restriction set, the other team kicks off, start instant cleared; the latch, game flag, players and ball are kept |
| Kickoff.OnKickoffComplete | public/js/game.js:116-120 | kickoff off, start instant and latch cleared, restriction stays on; nothing else changes |
| Kickoff.OnRestrictionsEnd | public/js/game.js:123-124 | only the restriction flag changes, to off |
| Kickoff.CountdownStart | public/js/game.js:927-932 | without a kickoff there is no countdown; as written the countdown measures from the stored start only when it is present and non-zero; with lazy start an absent start becomes the current instant |
| Kickoff.CountdownText | public/js/game.js:953-963 | the text is one of "3", "2", "1", "GO!"; it is "3" exactly below 1000 ms and "GO!" exactly from 3000 ms on |
| Kickoff.CountdownTextByPhase | public/js/game.js:953-963 | inside the 4000 ms countdown the text is the (elapsed / 1000)-th of "3", "2", "1", "GO!" |
| Kickoff.TeamLabel | public/js/game.js:1001 | the label is RED exactly for the red team and BLUE otherwise, an unset team included |
| Kickoff.Overlay | public/js/game.js:935-1003 | an overlay is drawn exactly while the countdown runs and less than 4000 ms have elapsed; its text follows the 1000 ms phases; its team label is RED exactly for the red team |
| Kickoff.Countdown | public/js/game.js:935-945 | at most one notice; it is sent exactly when a host with a clear latch sees the countdown reach 4000 ms; the latch is set by it and by nothing else; as written the start instant is never written |
| Session.Without | public/js/game.js:159-161 | the filtered list holds exactly the members of the original with a different id, and equals the original when the id is absent |
| Session.WithoutAppend | public/js/game.js:159-161 | filtering a concatenation is the concatenation of the filtered parts, so the kept members stay in their order and with their repetitions |
| Session.WithoutSingle | public/js/game.js:160 | a single member is kept exactly when its id differs from the departed one |
| Session.PlayerLeft | public/js/game.js:153-166 | an unknown id changes nothing; a known one leaves the players, and each team list becomes that list filtered by `Session.Without`, so no member is added or reordered and every other member stays; no other field changes |
| Session.PlayerLeftIdempotent | public/js/game.js:153-161 | a repeated departure of the same id changes nothing more |
| Session.TrimSpec | public/js/game.js:333 | the trimmed name is empty exactly when the field holds only white space; otherwise it starts and ends with a non-space character and is the field with only white space cut from both ends |
| Session.TrimIdempotent | public/js/game.js:333 | trimming a trimmed name changes nothing |
| Session.ConfirmName | public/js/game.js:332-338 | the form either changes nothing and sends nothing, or sets a non-empty player name, changes nothing else, and sends `join-game` with that name |
| Session.ConfirmNameSpec | public/js/game.js:332-338 | a field that is blank after trimming is ignored; otherwise the trimmed field becomes the player's name and is sent with `join-game` |
| Session.NewHost | public/js/game.js:179-180 | the client is host exactly when the announced id is its own; nothing else changes |
| Session.SingleHost | public/js/game.js:180 | two clients with different ids cannot both become host from one announcement |
| Session.Winner | public/js/game.js:296-302 | red wins exactly when its score is higher, blue wins exactly when its score is higher, a draw exactly on equal scores |
| Session.WinnerSymmetric | public/js/game.js:296-302 | swapping the two scores swaps the winner |
| Session.Reset | public/js/game.js:1137-1159 | the result is the page's initial state with the player's name and id kept; game, host and latch flags are off and the start instant is absent |
| Client.Step | public/js/game.js:102-311 | messages emit nothing; leaving (lines 415-425) sends `leave-game`, ends the game and keeps the player id; confirming a name changes only the name; only `joined-game` and leaving can change the player id |
| Client.Handle | public/js/game.js:102-311 | only `kickoff-complete` touches the latch, and it clears it; the start instant is only ever cleared; host status changes only on `room-joined` and `new-host`; `game-update` keeps the local player's displayed position |
| Client.FrameStep | public/js/game.js:598-605 | an inactive game makes a frame a no-op; a frame keeps the game, host, kickoff and restriction flags, the kickoff team, the player id and the set of players; an eligible frame records the sampled intent |
| Client.FrameEmits | public/js/game.js:598-612 | a frame sends at most a `player-input` followed by a countdown notice, and nothing else |
| Client.FrameInputs | public/js/game.js:598-672 | a frame emits one `player-input` exactly when the sampler is eligible and the intent changed, otherwise none |
| Client.FrameCountdown | public/js/game.js:939-945 | a frame emits at most one notice, exactly when the game is on, the client is host, the latch is clear and 4000 ms have elapsed (the countdown runs only while `kickoff` is on, lines 736-738); the latch is set exactly then |
| Client.FramePredicts | public/js/game.js:602-605 | on an eligible frame prediction reads `lastInput`, which `sendPlayerInput` has just brought up to date with the live keys |
| Client.NameSilent | public/js/game.js:332-338 | confirming a name changes only the name and sends neither a notice nor an input |
| Client.StepLatch | public/js/game.js:939-944 | an event other than `kickoff-complete` or leaving never clears the latch, and sends a notice only while the latch is clear, setting it |
| Client.AtMostOneNotice | public/js/game.js:939-944 | between two latch-clearing events, any run of events sends at most one notice, and none once the latch is set |
| Client.NonHostSilent | public/js/game.js:941 | a client that is not host, and receives no message making it host, never sends a notice |
| Client.AsWrittenStep | public/js/game.js:927-932 | as written, no single event sets an unset start instant or sends a notice |
| Client.CountdownNeverRunsAsWritten | public/js/game.js:927-932 | as written, from a state without a start instant (the initial one included) no event sequence ever sets it or sends a notice |
| Client.LazyStartNotifiesOnce | public/js/game.js:927-945 | with lazy start, a host with a clear latch sends exactly one notice for `game-started` followed by two frames 4000 ms apart |
| Client.InputsMatchChanges | public/js/game.js:643-672 | during a game, a run of frames interleaved with `game-update` snapshots sends exactly as many `player-input` messages as there are changes of the intent sampled by its frames |
| Client.PlayingStep | public/js/game.js:229-264 | a snapshot keeps the sampler eligible and its last intent and sends no input; a frame records the sampled intent and sends one input exactly when it changed |
| Client.InactiveFramesInert | public/js/game.js:598-599 | once the game is inactive, frames change nothing and emit nothing |
| Client.LeaveStopsFrames | public/js/game.js:415-425 | leaving sends `leave-game` once and resets the record; frames after it change nothing and send nothing |
| Client.HandlePhase | public/js/game.js:116-292 | `game-started` enters the countdown; `goal-scored` re-enters it during a game; `kickoff-complete` goes to live-restricted; `kickoff-restrictions-end` goes to live-free unless the countdown is on; `game-ended` makes the game inactive; other messages keep the phase |
| Client.FrameKeepsPhase | public/js/game.js:598-612 | a frame never changes the kickoff phase |

## Left out

- Drawing: the canvas, players, ball, ping colour, debug dots and the countdown's scaling animation. Only the countdown's text and team label are modelled (`Kickoff.Overlay`).
- The Socket.IO transport, reconnection and message delivery. Messages arrive as events in the order given.
- The `canvas-size` emission of `game-started` (lines 207-216) and the field-dimension emissions. They report page geometry, not game state.
- The `kickoff-countdown-complete` listener at lines 111-114. It calls `io.to(roomId)`, but `roomId` is not declared in the page and the client's `io` has no `to`, so it throws before doing anything.
- User-interface handlers: drag and drop of team members, chat, the clipboard, the start-game button, the room-code input, and the `settings-updated` form fields. They write no field of `State` (`SettingsUpdated` keeps the state).
- The name form is modelled by `Session.ConfirmName`, but only its `playerName` write and its `join-game` emission. The `create-room` emission and the screen switch that follow it depend on the page's `action` field, which is not part of `State`.
- Session.TrimSpec: the white-space set is the one JavaScript's `trim` uses, stated over Unicode code points; UTF-16 surrogate pairs are not modelled.
- Notifications and chat lines (`showNotification`, `addChatMessage`), including the result text of `game-ended`. Only the winner (`Session.Winner`) is modelled.
- The `kickoff-complete` handler's chat line calls `toUpperCase` on `kickoffTeam`, which throws when `game-started` carried no team. The throw happens after every state write, so the model's state is unaffected.
- The `keysPressed` map is a parameter of each frame, not part of `State`. Its clearing by `resetGameState` and its `keydown`/`keyup` listeners are not modelled.
- Prediction.Predict: the diagonal normalisation `dx / Math.sqrt(2)` is the double constant 0.7071067811865475, and all arithmetic is exact real arithmetic rather than IEEE doubles.
- Client.FrameStep: a frame uses one instant for both the input timestamp and the countdown, while the code calls `Date.now()` separately in each.
- Client.Handle: its own contract states only the cross-cutting facts; each handler's full effect is the contract of the function it calls (`Kickoff.OnGameStarted`, `Reconcile.ApplySnapshot`, `Session.PlayerLeft`, …).
- `game-ended` schedules a screen switch after 3000 ms (`setTimeout`). It is a display change only.
- `game-started` calls `gameLoop()` itself (line 219), so every `game-started` starts one more `requestAnimationFrame` chain. The model's frames are free events in any number and order, which covers any number of chains but does not count them.
- Leaving is modelled only for the confirmed answer of the `confirm` dialog (line 416); a cancelled dialog does nothing.
- `goal-scored` calls `team.toUpperCase()` (line 268) before any write, so a payload without `team` throws and changes nothing. The model's `GoalScored` always carries a team string.

## Findings

| source | as written | input that shows it | evidently intended | confidence | as-written member | corrected member |
|---|---|---|---|---|---|---|
| public/js/game.js:927-932 | `drawKickoffCountdown` returns when `kickoffStartTime` is falsy. `game-started` and `goal-scored` set it to `null`, and nothing else sets it. So the lazy initialisation after the guard never runs, no countdown is drawn, and the host never sends `kickoff-countdown-complete`. | a host receives `game-started`, then frames arrive at t and at t + 4000 ms: no notice is sent | the first frame of a kickoff sets the start instant; 4000 ms later the host sends exactly one notice | not executed | Client.CountdownNeverRunsAsWritten | Client.LazyStartNotifiesOnce |
