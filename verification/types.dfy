/**
 * The records the browser client of the arena game keeps in its single
 * shared `gameState` object (public/js/game.js), as immutable values.
 * Positions are `real` (an idealisation of JavaScript doubles); instants and
 * durations are `int` milliseconds as `Date.now()` returns them.
 */
module Types {

  /** A value that may be absent; stands for JavaScript's `null` and `undefined`. */
  datatype Option<+T> = None | Some(value: T)

  /** A point or an offset on the field. */
  datatype Vec = Vec(x: real, y: real)

  /**
   * One entry of the `players` map. `x`/`y` is the displayed position;
   * `server` is the pair `serverX`/`serverY`, absent until a snapshot or the
   * predictor first stores it.
   */
  datatype Player = Player(name: string, team: string, x: real, y: real, vx: real, vy: real, server: Option<Vec>)

  /** One element of a team list in `teams`. */
  datatype Member = Member(id: string, name: string)

  datatype Teams = Teams(red: seq<Member>, blue: seq<Member>, spectator: seq<Member>)

  datatype Ball = Ball(x: real, y: real, vx: real, vy: real)

  datatype Score = Score(red: int, blue: int)

  /** The four directions and the shoot action sent as `player-input`. */
  datatype Intent = Intent(left: bool, right: bool, up: bool, down: bool, shoot: bool)

  /** The per-player part of a `game-update` snapshot. */
  datatype Entity = Entity(x: real, y: real, vx: real, vy: real)

  /** What the client emits on the socket (the parts this model keeps). */
  datatype Outbound =
    | JoinGame(name: string)
    | PlayerInput(intent: Intent)
    | KickoffCountdownComplete
    | LeaveGame

  /**
   * The `gameState` record. Fields the source leaves `undefined` until some
   * handler writes them (`kickoff`, `kickoffRestrictions`, `kickoffTeam`,
   * `lastInput`) are `false`/`None` here, which is how every reader treats them.
   */
  datatype State = State(
    playerName: string,
    playerId: string,
    currentRoom: Option<string>,
    isHost: bool,
    teams: Teams,
    players: map<string, Player>,
    ball: Option<Ball>,
    score: Score,
    lastInput: Option<Intent>,
    lastInputTime: int,
    gameActive: bool,
    ping: int,
    kickoff: bool,
    kickoffRestrictions: bool,
    kickoffTeam: Option<string>,
    kickoffStartTime: Option<int>,
    kickoffCountdownComplete: bool)

  /** The outcome of one handler: the new state and what it emitted, in order. */
  datatype Stepped = Stepped(state: State, out: seq<Outbound>)

  /** The state the page starts with. */
  function Initial(): (r: State)
    ensures !r.gameActive && !r.isHost && !r.kickoff && !r.kickoffRestrictions
    ensures r.players == map[] && !Controls(r)
    ensures r.lastInput == None && r.lastInputTime == 0 && r.ping == 0
    ensures r.kickoffStartTime == None && !r.kickoffCountdownComplete
  {
    State(
      playerName := "",
      playerId := "",
      currentRoom := None,
      isHost := false,
      teams := Teams([], [], []),
      players := map[],
      ball := None,
      score := Score(0, 0),
      lastInput := None,
      lastInputTime := 0,
      gameActive := false,
      ping := 0,
      kickoff := false,
      kickoffRestrictions := false,
      kickoffTeam := None,
      kickoffStartTime := None,
      kickoffCountdownComplete := false)
  }

  /** The local player is in `players` and is not a spectator. */
  predicate Controls(s: State) {
    s.playerId in s.players && s.players[s.playerId].team != "spectator"
  }

  /** How many elements of `out` satisfy `kind`. */
  function Occurrences(out: seq<Outbound>, kind: Outbound -> bool): nat
    decreases |out|
  {
    if out == [] then 0 else (if kind(out[0]) then 1 else 0) + Occurrences(out[1..], kind)
  }

  lemma OccurrencesAppend(a: seq<Outbound>, b: seq<Outbound>, kind: Outbound -> bool)
    ensures Occurrences(a + b, kind) == Occurrences(a, kind) + Occurrences(b, kind)
    decreases |a|
  {
    if a != [] {
      assert (a + b)[0] == a[0];
      assert (a + b)[1..] == a[1..] + b;
      OccurrencesAppend(a[1..], b, kind);
    } else {
      assert a + b == b;
    }
  }

  /** A one-element output counts its element alone. */
  lemma OccurrencesSingle(o: Outbound, kind: Outbound -> bool)
    ensures Occurrences([o], kind) == (if kind(o) then 1 else 0)
  {
    assert [o][1..] == [];
  }

  predicate IsNotice(o: Outbound) { o.KickoffCountdownComplete? }

  predicate IsInput(o: Outbound) { o.PlayerInput? }

  /** Number of `kickoff-countdown-complete` notices in `out`. */
  function Notices(out: seq<Outbound>): nat { Occurrences(out, IsNotice) }

  /** Number of `player-input` emissions in `out`. */
  function Inputs(out: seq<Outbound>): nat { Occurrences(out, IsInput) }
}
