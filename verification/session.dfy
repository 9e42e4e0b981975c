/**
 * Roster and session handlers: `player-left`, `new-host`, the result of
 * `game-ended`, and `resetGameState`.
 */
module Session {
  import opened Types

  /** `list.filter(p => p.id !== id)`. */
  function Without(ms: seq<Member>, id: string): (r: seq<Member>)
    ensures forall m :: m in r ==> m in ms && m.id != id
    ensures forall m :: m in ms && m.id != id ==> m in r
    ensures |r| <= |ms|
    ensures (forall m :: m in ms ==> m.id != id) ==> r == ms
    decreases |ms|
  {
    if ms == [] then []
    else if ms[0].id == id then Without(ms[1..], id)
    else [ms[0]] + Without(ms[1..], id)
  }

  /** Filtering distributes over concatenation, so it keeps the order (and repetitions) of the kept members. */
  lemma {:induction false} WithoutAppend(a: seq<Member>, b: seq<Member>, id: string)
    ensures Without(a + b, id) == Without(a, id) + Without(b, id)
    decreases |a|
  {
    if a == [] {
      assert a + b == b;
    } else {
      assert (a + b)[0] == a[0];
      assert (a + b)[1..] == a[1..] + b;
      WithoutAppend(a[1..], b, id);
    }
  }

  /** A single member is kept exactly when its id differs. */
  lemma WithoutSingle(m: Member, id: string)
    ensures Without([m], id) == (if m.id == id then [] else [m])
  {
    assert [m][1..] == [];
  }

  /** No team list holds a member with this id. */
  predicate OffTeams(t: Teams, id: string) {
    && (forall m :: m in t.red ==> m.id != id)
    && (forall m :: m in t.blue ==> m.id != id)
    && (forall m :: m in t.spectator ==> m.id != id)
  }

  /** Every member of `before` other than `id` is still on the same team in `after`. */
  predicate OthersKept(before: Teams, after: Teams, id: string) {
    && (forall m :: m in before.red && m.id != id ==> m in after.red)
    && (forall m :: m in before.blue && m.id != id ==> m in after.blue)
    && (forall m :: m in before.spectator && m.id != id ==> m in after.spectator)
  }

  /** `player-left`: a known player leaves `players` and all three team lists; an unknown id changes nothing. */
  function PlayerLeft(s: State, id: string): (r: State)
    ensures id !in s.players ==> r == s
    ensures id in s.players ==>
      && r.players.Keys == s.players.Keys - {id}
      && (forall other :: other in r.players ==> r.players[other] == s.players[other])
      && OffTeams(r.teams, id)
      && OthersKept(s.teams, r.teams, id)
      && r.teams == Teams(Without(s.teams.red, id), Without(s.teams.blue, id), Without(s.teams.spectator, id))
    ensures r == s.(players := r.players, teams := r.teams)
  {
    if id in s.players then
      s.(players := s.players - {id},
         teams := Teams(Without(s.teams.red, id), Without(s.teams.blue, id), Without(s.teams.spectator, id)))
    else
      s
  }

  /** A second `player-left` for the same id changes nothing more. */
  lemma PlayerLeftIdempotent(s: State, id: string)
    ensures PlayerLeft(PlayerLeft(s, id), id) == PlayerLeft(s, id)
  {
  }

  /** The characters JavaScript's `String.prototype.trim` removes (white space and line terminators). */
  predicate IsSpace(c: char) {
    var n := c as int;
    n == 0x09 || n == 0x0A || n == 0x0B || n == 0x0C || n == 0x0D || n == 0x20 || n == 0xA0
    || n == 0x1680 || (0x2000 <= n <= 0x200A) || n == 0x2028 || n == 0x2029 || n == 0x202F
    || n == 0x205F || n == 0x3000 || n == 0xFEFF
  }

  /** `s` without its leading white space. */
  function TrimStart(s: string): (r: string)
    ensures |r| <= |s| && r == s[|s| - |r|..]
    ensures forall i :: 0 <= i < |s| - |r| ==> IsSpace(s[i])
    ensures r == [] || !IsSpace(r[0])
    decreases |s|
  {
    if s != [] && IsSpace(s[0]) then TrimStart(s[1..]) else s
  }

  /** `s` without its trailing white space. */
  function TrimEnd(s: string): (r: string)
    ensures |r| <= |s| && r == s[..|r|]
    ensures forall i :: |r| <= i < |s| ==> IsSpace(s[i])
    ensures r == [] || !IsSpace(r[|r| - 1])
    decreases |s|
  {
    if s != [] && IsSpace(s[|s| - 1]) then TrimEnd(s[..|s| - 1]) else s
  }

  /** `r` sits in `s` at offset `k` with only white space before and after it. */
  predicate Framed(s: string, r: string, k: int) {
    && 0 <= k <= k + |r| <= |s|
    && r == s[k..k + |r|]
    && (forall i :: 0 <= i < k ==> IsSpace(s[i]))
    && (forall i :: k + |r| <= i < |s| ==> IsSpace(s[i]))
  }

  /** `value.trim()`: the text between the leading and the trailing white space. */
  function Trim(s: string): (r: string)
    ensures |r| <= |s|
  {
    TrimEnd(TrimStart(s))
  }

  /**
   * The trimmed text is empty exactly when `s` is all white space; otherwise
   * it starts and ends with other characters, and it is `s` with only white
   * space cut from both ends.
   */
  lemma TrimSpec(s: string)
    ensures Trim(s) == [] <==> forall i :: 0 <= i < |s| ==> IsSpace(s[i])
    ensures Trim(s) != [] ==> !IsSpace(Trim(s)[0]) && !IsSpace(Trim(s)[|Trim(s)| - 1])
    ensures exists k :: Framed(s, Trim(s), k)
  {
    var t := TrimStart(s);
    var r := TrimEnd(t);
    assert r != [] ==> r[0] == t[0];
    assert Framed(s, r, |s| - |t|);
  }

  /** Trimming a trimmed name changes nothing. */
  lemma TrimIdempotent(s: string)
    ensures Trim(Trim(s)) == Trim(s)
  {
    TrimSpec(s);
    var r := Trim(s);
    assert TrimStart(r) == r;
    assert TrimEnd(r) == r;
  }

  /**
   * The name form's confirm button: a name that is blank after trimming is
   * ignored; otherwise it becomes the player's name and `join-game` is sent
   * with it.
   */
  function ConfirmName(s: State, field: string): (r: Stepped)
    ensures r.out == [] ==> r == Stepped(s, [])
    ensures r.out != [] ==>
      && r.out == [JoinGame(r.state.playerName)] && r.state.playerName != []
      && r.state == s.(playerName := r.state.playerName)
  {
    var name := Trim(field);
    if name == [] then Stepped(s, [])
    else Stepped(s.(playerName := name), [JoinGame(name)])
  }

  /** A blank field is ignored; any other field sets the trimmed name and sends it. */
  lemma ConfirmNameSpec(s: State, field: string)
    ensures (forall i :: 0 <= i < |field| ==> IsSpace(field[i])) ==> ConfirmName(s, field) == Stepped(s, [])
    ensures (exists i :: 0 <= i < |field| && !IsSpace(field[i])) ==>
      ConfirmName(s, field) == Stepped(s.(playerName := Trim(field)), [JoinGame(Trim(field))])
  {
    TrimSpec(field);
  }

  /** `new-host`: this client is host exactly when the announced id is its own. */
  function NewHost(s: State, hostId: string): (r: State)
    ensures r.isHost <==> hostId == s.playerId
    ensures r == s.(isHost := r.isHost)
  {
    s.(isHost := hostId == s.playerId)
  }

  /** Two clients with different ids cannot both become host from the same announcement. */
  lemma SingleHost(a: State, b: State, hostId: string)
    requires a.playerId != b.playerId
    ensures !(NewHost(a, hostId).isHost && NewHost(b, hostId).isHost)
  {
  }

  datatype Outcome = RedWins | BlueWins | Draw

  /** The result `game-ended` announces from the final score. */
  function Winner(score: Score): (o: Outcome)
    ensures o == RedWins <==> score.red > score.blue
    ensures o == BlueWins <==> score.blue > score.red
    ensures o == Draw <==> score.red == score.blue
  {
    if score.red > score.blue then RedWins
    else if score.blue > score.red then BlueWins
    else Draw
  }

  function Mirror(o: Outcome): Outcome {
    match o
    case RedWins => BlueWins
    case BlueWins => RedWins
    case Draw => Draw
  }

  /** Swapping the two scores swaps the winner. */
  lemma WinnerSymmetric(score: Score)
    ensures Winner(Score(score.blue, score.red)) == Mirror(Winner(score))
  {
  }

  /** `resetGameState`: a fresh record that keeps only the player's name and id. */
  function Reset(s: State): (r: State)
    ensures r == Initial().(playerName := s.playerName, playerId := s.playerId)
    ensures !r.gameActive && !r.isHost && !r.kickoffCountdownComplete && r.kickoffStartTime == None
  {
    State(
      playerName := s.playerName,
      playerId := s.playerId,
      currentRoom := None,
      isHost := false,
      teams := Teams([], [], []),
      players := map[],
      ball := None,
      score := Score(0, 0),
      lastInput := None,
      lastInputTime := 0,
      gameActive := false,
      ping := 0,
      kickoff := false,
      kickoffRestrictions := false,
      kickoffTeam := None,
      kickoffStartTime := None,
      kickoffCountdownComplete := false)
  }
}
