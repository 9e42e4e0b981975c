/**
 * The client's game-state reducer: every socket handler, the per-frame game
 * loop and leaving the game, as one pure step function over `State`.
 * The current instant and the pressed-key map arrive as parameters.
 */
module Client {
  import opened Types
  import opened InputSampler
  import Reconcile
  import Prediction
  import Kickoff
  import Session

  /** The inbound socket messages, with the payload fields the handlers read. */
  datatype Msg =
    | JoinedGame(playerId: string)
    | RoomCreated(roomId: string)
    | KickoffComplete
    | KickoffRestrictionsEnd
    | RoomJoined(roomId: string, players: map<string, Player>, teams: Teams, isHost: bool)
    | PlayerJoined(players: map<string, Player>, teams: Teams)
    | PlayerLeft(playerId: string)
    | TeamsUpdated(teams: Teams)
    | SettingsUpdated
    | NewHost(hostId: string)
    | GameStarted(ball: Ball, players: map<string, Player>, score: Score, kickoffTeam: Option<string>)
    | GameUpdate(snapshot: Reconcile.Snapshot)
    | GoalScored(team: string, scorer: Option<string>, score: Score)
    | GameEnded(score: Score)
      /** `connect`, `disconnect`, `chat-message`, `error`: user notifications only. */
    | Notification

  /**
   * What drives the reducer: a message arriving at instant `now`, one frame of
   * the game loop with the keys held at `now`, the name form confirmed with
   * the text of its field, or the user leaving the game (the confirmed branch
   * of the leave dialog).
   */
  datatype Event =
    | Receive(msg: Msg, now: int)
    | Frame(keys: KeyMap, now: int)
    | ConfirmName(field: string)
    | Leave

  /** The socket handlers' effect on the state. */
  function Handle(s: State, m: Msg, now: int): (r: State)
    ensures m.KickoffComplete? ==> !r.kickoffCountdownComplete
    ensures !m.KickoffComplete? ==> r.kickoffCountdownComplete == s.kickoffCountdownComplete
    ensures r.kickoffStartTime == None || r.kickoffStartTime == s.kickoffStartTime
    ensures !m.RoomJoined? && !m.NewHost? ==> r.isHost == s.isHost
    ensures !m.JoinedGame? ==> r.playerId == s.playerId
    ensures m.GameUpdate? ==> r.playerId == s.playerId && r.players.Keys == s.players.Keys
    ensures m.GameUpdate? && s.playerId in s.players ==>
      r.players[s.playerId].x == s.players[s.playerId].x && r.players[s.playerId].y == s.players[s.playerId].y
  {
    match m
    case JoinedGame(id) => s.(playerId := id)
    case RoomCreated(room) => s.(currentRoom := Some(room))
    case KickoffComplete => Kickoff.OnKickoffComplete(s)
    case KickoffRestrictionsEnd => Kickoff.OnRestrictionsEnd(s)
    case RoomJoined(room, players, teams, host) =>
      s.(currentRoom := Some(room), players := players, teams := teams, isHost := host)
    case PlayerJoined(players, teams) => s.(players := players, teams := teams)
    case PlayerLeft(id) => Session.PlayerLeft(s, id)
    case TeamsUpdated(teams) => s.(teams := teams)
    case SettingsUpdated => s
    case NewHost(hostId) => Session.NewHost(s, hostId)
    case GameStarted(ball, players, score, team) => Kickoff.OnGameStarted(s, ball, players, score, team)
    case GameUpdate(snap) => Reconcile.ApplySnapshot(s, snap, now)
    case GoalScored(team, _, score) => Kickoff.OnGoalScored(s, team, score)
    case GameEnded(_) => s.(gameActive := false)
    case Notification => s
  }

  /**
   * One frame of `gameLoop`: nothing once the game is inactive; otherwise
   * sample and maybe emit the input, predict the local player, and run the
   * countdown while a kickoff is on.
   */
  function FrameStep(s: State, keys: KeyMap, now: int, clock: Kickoff.Clock): (r: Stepped)
    ensures !s.gameActive ==> r == Stepped(s, [])
    ensures && r.state.gameActive == s.gameActive && r.state.isHost == s.isHost
            && r.state.kickoff == s.kickoff && r.state.kickoffRestrictions == s.kickoffRestrictions
            && r.state.kickoffTeam == s.kickoffTeam && r.state.playerId == s.playerId
            && r.state.players.Keys == s.players.Keys && Controls(r.state) == Controls(s)
    ensures Eligible(s) ==> r.state.lastInput == Some(Sample(keys))
  {
    if !s.gameActive then Stepped(s, [])
    else
      var a := SendPlayerInput(s, keys, now);
      var b := Prediction.PredictLocal(a.state);
      var c := if b.kickoff then Kickoff.Countdown(b, now, clock) else Stepped(b, []);
      Stepped(c.state, a.out + c.out)
  }

  /** A frame sends at most an input and a notice, in that order, and nothing else. */
  lemma FrameEmits(s: State, keys: KeyMap, now: int, clock: Kickoff.Clock)
    ensures var out := FrameStep(s, keys, now, clock).out;
      && |out| <= 2
      && (forall o :: o in out ==> o.PlayerInput? || o.KickoffCountdownComplete?)
      && (|out| == 2 ==> out[0].PlayerInput? && out[1].KickoffCountdownComplete?)
  {
    if s.gameActive {
      var a := SendPlayerInput(s, keys, now);
      var b := Prediction.PredictLocal(a.state);
      var c := if b.kickoff then Kickoff.Countdown(b, now, clock) else Stepped(b, []);
      assert c.out == [] || c.out == [KickoffCountdownComplete];
    }
  }

  /** A frame emits a `player-input` exactly when the sampler is eligible and the intent changed. */
  lemma FrameInputs(s: State, keys: KeyMap, now: int, clock: Kickoff.Clock)
    ensures Inputs(FrameStep(s, keys, now, clock).out) == (if Eligible(s) && s.lastInput != Some(Sample(keys)) then 1 else 0)
  {
    if s.gameActive {
      var a := SendPlayerInput(s, keys, now);
      var b := Prediction.PredictLocal(a.state);
      var c := if b.kickoff then Kickoff.Countdown(b, now, clock) else Stepped(b, []);
      OccurrencesAppend(a.out, c.out, IsInput);
      assert Inputs(c.out) == 0;
    }
  }

  /**
   * A frame sends at most one countdown-complete notice: exactly when the
   * game is on, this client is the host, the latch is clear and the
   * countdown has run 4000 ms; the latch is set by it and by nothing else.
   */
  lemma FrameCountdown(s: State, keys: KeyMap, now: int, clock: Kickoff.Clock)
    ensures var r := FrameStep(s, keys, now, clock);
      && Notices(r.out) <= 1
      && (Notices(r.out) == 1 <==>
           && s.gameActive && s.isHost && !s.kickoffCountdownComplete
           && Kickoff.CountdownStart(s, now, clock).Some?
           && now - Kickoff.CountdownStart(s, now, clock).value >= Kickoff.CountdownDuration)
      && r.state.kickoffCountdownComplete == (s.kickoffCountdownComplete || Notices(r.out) == 1)
      && (s.gameActive && Kickoff.CountdownStart(s, now, clock).Some? ==>
           r.state.kickoffStartTime == Kickoff.CountdownStart(s, now, clock))
      && (Kickoff.CountdownStart(s, now, clock).None? ==> r.state.kickoffStartTime == s.kickoffStartTime)
  {
    if s.gameActive {
      var a := SendPlayerInput(s, keys, now);
      var b := Prediction.PredictLocal(a.state);
      var c := if b.kickoff then Kickoff.Countdown(b, now, clock) else Stepped(b, []);
      OccurrencesAppend(a.out, c.out, IsNotice);
      assert Notices(a.out) == 0;
      assert Kickoff.CountdownStart(b, now, clock) == Kickoff.CountdownStart(s, now, clock);
      assert Notices(c.out) == (if c.out == [] then 0 else 1);
    } else {
      assert Notices([]) == 0;
    }
  }

  /**
   * Prediction follows the intent the sampler has just recorded, which is the
   * last one emitted, rather than reading the keys itself.
   */
  lemma FramePredicts(s: State, keys: KeyMap, now: int, clock: Kickoff.Clock)
    requires Eligible(s)
    ensures var r := FrameStep(s, keys, now, clock);
      && r.state.players[s.playerId] == Prediction.Predict(s.players[s.playerId], r.state.lastInput)
      && r.state.lastInput == Some(Sample(keys))
  {
    var a := SendPlayerInput(s, keys, now);
    var b := Prediction.PredictLocal(a.state);
    assert Controls(a.state);
    assert b.players[s.playerId] == Prediction.Predict(s.players[s.playerId], Some(Sample(keys)));
  }

  /** One event: messages emit nothing, a frame emits what the loop sends, leaving sends `leave-game`. */
  function Step(s: State, e: Event, clock: Kickoff.Clock): (r: Stepped)
    ensures e.Receive? ==> r.out == []
    ensures e.Leave? ==> r.out == [LeaveGame] && !r.state.gameActive && r.state.playerId == s.playerId
    ensures e.ConfirmName? ==> r.state == s.(playerName := r.state.playerName) && |r.out| <= 1
    ensures !e.Leave? && !(e.Receive? && e.msg.JoinedGame?) ==> r.state.playerId == s.playerId
  {
    match e
    case Receive(m, now) => Stepped(Handle(s, m, now), [])
    case Frame(keys, now) => FrameStep(s, keys, now, clock)
    case ConfirmName(field) => Session.ConfirmName(s, field)
    case Leave => Stepped(Session.Reset(s), [LeaveGame])
  }

  /** Events applied in order; the emissions are concatenated. */
  function Run(s: State, evs: seq<Event>, clock: Kickoff.Clock): Stepped
    decreases |evs|
  {
    if evs == [] then Stepped(s, [])
    else
      var first := Step(s, evs[0], clock);
      var rest := Run(first.state, evs[1..], clock);
      Stepped(rest.state, first.out + rest.out)
  }

  /** The spans of `Run` are additive in the emissions it counts. */
  lemma RunCounts(s: State, evs: seq<Event>, clock: Kickoff.Clock)
    requires evs != []
    ensures var first := Step(s, evs[0], clock);
      var rest := Run(first.state, evs[1..], clock);
      && Run(s, evs, clock).state == rest.state
      && Notices(Run(s, evs, clock).out) == Notices(first.out) + Notices(rest.out)
      && Inputs(Run(s, evs, clock).out) == Inputs(first.out) + Inputs(rest.out)
  {
    var first := Step(s, evs[0], clock);
    var rest := Run(first.state, evs[1..], clock);
    OccurrencesAppend(first.out, rest.out, IsNotice);
    OccurrencesAppend(first.out, rest.out, IsInput);
  }

  // ---------------------------------------------------------------------
  // The countdown-complete latch
  // ---------------------------------------------------------------------

  /** Only `kickoff-complete` and leaving the game clear the latch. */
  predicate ClearsLatch(e: Event) {
    e.Leave? || (e.Receive? && e.msg.KickoffComplete?)
  }

  /** One event that does not clear the latch emits a notice only while it is clear, and then sets it. */
  lemma StepLatch(s: State, e: Event, clock: Kickoff.Clock)
    requires !ClearsLatch(e)
    ensures var r := Step(s, e, clock);
      && (s.kickoffCountdownComplete ==> r.state.kickoffCountdownComplete)
      && Notices(r.out) <= (if s.kickoffCountdownComplete then 0 else 1)
      && (Notices(r.out) > 0 ==> r.state.kickoffCountdownComplete)
  {
    match e
    case Receive(m, now) =>
      assert Notices([]) == 0;
    case Frame(keys, now) =>
      FrameCountdown(s, keys, now, clock);
    case ConfirmName(field) =>
      NameSilent(s, field, clock);
  }

  /** Confirming a name touches only the name and sends neither a notice nor an input. */
  lemma NameSilent(s: State, field: string, clock: Kickoff.Clock)
    ensures var r := Step(s, ConfirmName(field), clock);
      && Notices(r.out) == 0 && Inputs(r.out) == 0
      && r.state == s.(playerName := r.state.playerName)
  {
    var name := Session.Trim(field);
    if name != [] {
      OccurrencesSingle(JoinGame(name), IsNotice);
      OccurrencesSingle(JoinGame(name), IsInput);
    }
  }

  /**
   * Between two latch-clearing events any sequence of events, ticks
   * included, yields at most one countdown-complete notice, and none when
   * the latch was already set.
   */
  lemma {:induction false} AtMostOneNotice(s: State, evs: seq<Event>, clock: Kickoff.Clock)
    requires forall i :: 0 <= i < |evs| ==> !ClearsLatch(evs[i])
    ensures Notices(Run(s, evs, clock).out) <= (if s.kickoffCountdownComplete then 0 else 1)
    ensures s.kickoffCountdownComplete ==> Run(s, evs, clock).state.kickoffCountdownComplete
    ensures Notices(Run(s, evs, clock).out) > 0 ==> Run(s, evs, clock).state.kickoffCountdownComplete
    decreases |evs|
  {
    if evs != [] {
      var first := Step(s, evs[0], clock);
      StepLatch(s, evs[0], clock);
      AtMostOneNotice(first.state, evs[1..], clock);
      RunCounts(s, evs, clock);
    }
  }

  /** The events that can make this client the host. */
  predicate GrantsHost(e: Event) {
    e.Receive? && (e.msg.RoomJoined? || e.msg.NewHost?)
  }

  /** A client that is not the host, and is not made host, never sends a notice. */
  lemma {:induction false} NonHostSilent(s: State, evs: seq<Event>, clock: Kickoff.Clock)
    requires !s.isHost
    requires forall i :: 0 <= i < |evs| ==> !GrantsHost(evs[i])
    ensures Notices(Run(s, evs, clock).out) == 0
    ensures !Run(s, evs, clock).state.isHost
    decreases |evs|
  {
    if evs != [] {
      var first := Step(s, evs[0], clock);
      assert Notices(first.out) == 0 && !first.state.isHost by {
        match evs[0]
        case Receive(m, now) =>
          assert Notices([]) == 0;
        case Frame(keys, now) =>
          FrameCountdown(s, keys, now, clock);
        case ConfirmName(field) =>
          NameSilent(s, field, clock);
        case Leave =>
          assert Notices([LeaveGame]) == 0;
      }
      NonHostSilent(first.state, evs[1..], clock);
      RunCounts(s, evs, clock);
    }
  }

  // ---------------------------------------------------------------------
  // The countdown as written never starts
  // ---------------------------------------------------------------------

  /**
   * As written, once the start instant is unset no event ever sets it, so
   * no frame runs the countdown and no notice is sent. The page starts in
   * such a state (`Initial().kickoffStartTime == None`).
   */
  lemma {:induction false} CountdownNeverRunsAsWritten(s: State, evs: seq<Event>)
    requires s.kickoffStartTime == None
    ensures Run(s, evs, Kickoff.AsWritten).state.kickoffStartTime == None
    ensures Notices(Run(s, evs, Kickoff.AsWritten).out) == 0
    decreases |evs|
  {
    if evs != [] {
      var first := Step(s, evs[0], Kickoff.AsWritten);
      AsWrittenStep(s, evs[0]);
      CountdownNeverRunsAsWritten(first.state, evs[1..]);
      RunCounts(s, evs, Kickoff.AsWritten);
    }
  }

  /** As written, one event from a state without a start instant sets none and sends no notice. */
  lemma AsWrittenStep(s: State, e: Event)
    requires s.kickoffStartTime == None
    ensures Step(s, e, Kickoff.AsWritten).state.kickoffStartTime == None
    ensures Notices(Step(s, e, Kickoff.AsWritten).out) == 0
  {
    match e
    case Receive(m, now) =>
      assert Notices([]) == 0;
    case Frame(keys, now) =>
      assert Kickoff.CountdownStart(s, now, Kickoff.AsWritten).None?;
      FrameCountdown(s, keys, now, Kickoff.AsWritten);
    case ConfirmName(field) =>
      NameSilent(s, field, Kickoff.AsWritten);
    case Leave =>
      OccurrencesSingle(LeaveGame, IsNotice);
  }

  /**
   * With the start instant set on the first rendered frame, a host whose
   * latch is clear sends exactly one notice for `game-started` followed by a
   * frame and a second frame 4000 ms or more later.
   */
  lemma LazyStartNotifiesOnce(s: State, ball: Ball, players: map<string, Player>, score: Score,
                              team: Option<string>, k1: KeyMap, k2: KeyMap, t0: int, t1: int)
    requires s.isHost && !s.kickoffCountdownComplete
    requires t1 - t0 >= Kickoff.CountdownDuration
    ensures Notices(Run(s, [Receive(GameStarted(ball, players, score, team), t0), Frame(k1, t0), Frame(k2, t1)], Kickoff.LazyStart).out) == 1
  {
    var evs := [Receive(GameStarted(ball, players, score, team), t0), Frame(k1, t0), Frame(k2, t1)];
    var s1 := Handle(s, evs[0].msg, t0);
    assert s1.gameActive && s1.kickoff && s1.kickoffStartTime == None && s1.isHost && !s1.kickoffCountdownComplete;
    var f1 := FrameStep(s1, k1, t0, Kickoff.LazyStart);
    assert Kickoff.CountdownStart(s1, t0, Kickoff.LazyStart) == Some(t0);
    FrameCountdown(s1, k1, t0, Kickoff.LazyStart);
    assert Notices(f1.out) == 0;
    var s2 := f1.state;
    assert s2.gameActive && s2.kickoff && s2.kickoffStartTime == Some(t0) && s2.isHost && !s2.kickoffCountdownComplete;
    var f2 := FrameStep(s2, k2, t1, Kickoff.LazyStart);
    assert Kickoff.CountdownStart(s2, t1, Kickoff.LazyStart) == Some(t0);
    FrameCountdown(s2, k2, t1, Kickoff.LazyStart);
    assert Notices(f2.out) == 1;
    RunCounts(s, evs, Kickoff.LazyStart);
    assert evs[1..] == [Frame(k1, t0), Frame(k2, t1)];
    RunCounts(s1, evs[1..], Kickoff.LazyStart);
    assert evs[1..][1..] == [Frame(k2, t1)];
    RunCounts(s2, evs[1..][1..], Kickoff.LazyStart);
    assert Notices(Run(f2.state, [], Kickoff.LazyStart).out) == 0;
  }

  // ---------------------------------------------------------------------
  // Input emission and the end of a game
  // ---------------------------------------------------------------------

  predicate AllFrames(evs: seq<Event>) {
    forall i :: 0 <= i < |evs| ==> evs[i].Frame?
  }

  /** The events of a game in progress: frames and the `game-update` snapshots between them. */
  predicate Playing(e: Event) {
    e.Frame? || (e.Receive? && e.msg.GameUpdate?)
  }

  /** The key maps sampled by the frames of a run, in order; other events sample nothing. */
  function KeysOf(evs: seq<Event>): (ks: seq<KeyMap>)
    ensures |ks| <= |evs|
    ensures AllFrames(evs) ==> |ks| == |evs| && forall i :: 0 <= i < |evs| ==> ks[i] == evs[i].keys
    decreases |evs|
  {
    if evs == [] then []
    else if evs[0].Frame? then [evs[0].keys] + KeysOf(evs[1..])
    else KeysOf(evs[1..])
  }

  /**
   * During a game, frames interleaved with snapshots emit exactly one
   * `player-input` per actual change of the sampled intent, and none while
   * the same keys stay held; snapshots neither emit nor disturb the sampler.
   */
  lemma {:induction false} InputsMatchChanges(s: State, evs: seq<Event>, clock: Kickoff.Clock)
    requires Eligible(s)
    requires forall i :: 0 <= i < |evs| ==> Playing(evs[i])
    ensures Inputs(Run(s, evs, clock).out) == Changes(s.lastInput, KeysOf(evs))
    decreases |evs|
  {
    if evs != [] {
      var first := Step(s, evs[0], clock);
      RunCounts(s, evs, clock);
      PlayingStep(s, evs[0], clock);
      InputsMatchChanges(first.state, evs[1..], clock);
      if evs[0].Frame? {
        assert KeysOf(evs) == [evs[0].keys] + KeysOf(evs[1..]);
      }
    }
  }

  /** One event of a game in progress keeps the sampler eligible; only a frame samples. */
  lemma PlayingStep(s: State, e: Event, clock: Kickoff.Clock)
    requires Eligible(s) && Playing(e)
    ensures var r := Step(s, e, clock);
      && Eligible(r.state)
      && r.state.lastInput == (if e.Frame? then Some(Sample(e.keys)) else s.lastInput)
      && Inputs(r.out) == (if e.Frame? && s.lastInput != Some(Sample(e.keys)) then 1 else 0)
  {
    if e.Frame? {
      FrameInputs(s, e.keys, e.now, clock);
    } else {
      assert Step(s, e, clock).state == Reconcile.ApplySnapshot(s, e.msg.snapshot, e.now);
      assert Inputs([]) == 0;
    }
  }

  /** Once the game is inactive the loop is stopped: frames change nothing and emit nothing. */
  lemma {:induction false} InactiveFramesInert(s: State, evs: seq<Event>, clock: Kickoff.Clock)
    requires !s.gameActive && AllFrames(evs)
    ensures Run(s, evs, clock) == Stepped(s, [])
    decreases |evs|
  {
    if evs != [] {
      InactiveFramesInert(s, evs[1..], clock);
    }
  }

  /**
   * Leaving sends `leave-game` once and resets the record; the loop is then
   * stopped, so any frames that follow change nothing and send nothing.
   */
  lemma LeaveStopsFrames(s: State, frames: seq<Event>, clock: Kickoff.Clock)
    requires AllFrames(frames)
    ensures Run(s, [Leave] + frames, clock) == Stepped(Session.Reset(s), [LeaveGame])
  {
    var evs := [Leave] + frames;
    assert evs[0] == Leave && evs[1..] == frames;
    InactiveFramesInert(Session.Reset(s), frames, clock);
  }

  // ---------------------------------------------------------------------
  // Kickoff phases
  // ---------------------------------------------------------------------

  /** The phases of the kickoff ritual, read off the state's flags. */
  datatype Phase = Inactive | CountdownRunning | LiveRestricted | LiveFree

  function PhaseOf(s: State): Phase {
    if !s.gameActive then Inactive
    else if s.kickoff then CountdownRunning
    else if s.kickoffRestrictions then LiveRestricted
    else LiveFree
  }

  /**
   * How each message moves the phase. A restriction lifted during the
   * countdown leaves the countdown running; messages outside the kickoff
   * handlers keep the phase.
   */
  lemma HandlePhase(s: State, m: Msg, now: int)
    ensures m.GameStarted? ==> PhaseOf(Handle(s, m, now)) == CountdownRunning
    ensures m.GoalScored? ==> PhaseOf(Handle(s, m, now)) == (if s.gameActive then CountdownRunning else Inactive)
    ensures m.KickoffComplete? ==> PhaseOf(Handle(s, m, now)) == (if s.gameActive then LiveRestricted else Inactive)
    ensures m.KickoffRestrictionsEnd? ==>
      PhaseOf(Handle(s, m, now)) == (if !s.gameActive then Inactive else if s.kickoff then CountdownRunning else LiveFree)
    ensures m.GameEnded? ==> PhaseOf(Handle(s, m, now)) == Inactive
    ensures !m.GameStarted? && !m.GoalScored? && !m.KickoffComplete? && !m.KickoffRestrictionsEnd? && !m.GameEnded? ==>
      PhaseOf(Handle(s, m, now)) == PhaseOf(s)
  {
  }

  /** The client never leaves the countdown on its own: frames keep the phase. */
  lemma FrameKeepsPhase(s: State, keys: KeyMap, now: int, clock: Kickoff.Clock)
    ensures PhaseOf(FrameStep(s, keys, now, clock).state) == PhaseOf(s)
  {
  }
}
