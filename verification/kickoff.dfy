/**
 * The kickoff state machine: the `game-started`, `goal-scored`,
 * `kickoff-complete` and `kickoff-restrictions-end` handlers and the
 * countdown/latch logic of `drawKickoffCountdown`.
 */
module Kickoff {
  import opened Types

  /** Four phases of 1000 ms: "3", "2", "1", "GO!". */
  const CountdownDuration: int := 4000
  const PhaseLength: int := 1000

  /**
   * Where the countdown takes its start instant from. `AsWritten` is the
   * source: it returns when the start is falsy (absent or 0), so the lazy
   * initialisation after that guard never runs. `LazyStart` is the evidently
   * intended behaviour: an absent start is set to the current frame's instant.
   */
  datatype Clock = AsWritten | LazyStart

  /** The team that kicks off after a goal. */
  function NextKickoffTeam(scorer: string): (t: string)
    ensures t == "blue" <==> scorer == "red"
    ensures t == "red" <==> scorer != "red"
    ensures (scorer == "red" || scorer == "blue") ==> t != scorer && (t == "red" || t == "blue")
  {
    if scorer == "red" then "blue" else "red"
  }

  /** `game-started`: the payload is taken over and a countdown episode begins. */
  function OnGameStarted(s: State, ball: Ball, players: map<string, Player>, score: Score, team: Option<string>): (r: State)
    ensures r.gameActive && r.kickoff && r.kickoffRestrictions
    ensures r.kickoffTeam == team && r.kickoffStartTime == None
    ensures r.ball == Some(ball) && r.players == players && r.score == score
    ensures r.kickoffCountdownComplete == s.kickoffCountdownComplete
    ensures r == s.(ball := r.ball, players := r.players, score := r.score, gameActive := true,
                    kickoff := true, kickoffRestrictions := true, kickoffTeam := team, kickoffStartTime := None)
  {
    s.(ball := Some(ball),
       players := players,
       score := score,
       gameActive := true,
       kickoff := true,
       kickoffRestrictions := true,
       kickoffTeam := team,
       kickoffStartTime := None)
  }

  /** `goal-scored`: the score is replaced and a new episode begins; the latch is left alone. */
  function OnGoalScored(s: State, team: string, score: Score): (r: State)
    ensures r.kickoff && r.kickoffRestrictions && r.kickoffStartTime == None
    ensures r.kickoffTeam == Some(NextKickoffTeam(team)) && r.score == score
    ensures r.kickoffCountdownComplete == s.kickoffCountdownComplete
    ensures r.gameActive == s.gameActive && r.players == s.players && r.ball == s.ball
    ensures r == s.(score := score, kickoff := true, kickoffRestrictions := true,
                    kickoffTeam := r.kickoffTeam, kickoffStartTime := None)
  {
    s.(score := score,
       kickoff := true,
       kickoffRestrictions := true,
       kickoffTeam := Some(NextKickoffTeam(team)),
       kickoffStartTime := None)
  }

  /** `kickoff-complete`: the countdown ends, the latch is cleared, the restriction stays. */
  function OnKickoffComplete(s: State): (r: State)
    ensures !r.kickoff && r.kickoffRestrictions && !r.kickoffCountdownComplete && r.kickoffStartTime == None
    ensures r == s.(kickoff := false, kickoffStartTime := None, kickoffCountdownComplete := false, kickoffRestrictions := true)
  {
    s.(kickoff := false,
       kickoffStartTime := None,
       kickoffCountdownComplete := false,
       kickoffRestrictions := true)
  }

  /** `kickoff-restrictions-end`: only the restriction flag changes. */
  function OnRestrictionsEnd(s: State): (r: State)
    ensures !r.kickoffRestrictions
    ensures r == s.(kickoffRestrictions := false)
  {
    s.(kickoffRestrictions := false)
  }

  /**
   * The instant this frame's countdown measures from, or `None` when the
   * countdown does nothing (no kickoff, or as written an unset start).
   */
  function CountdownStart(s: State, now: int, clock: Clock): (r: Option<int>)
    ensures !s.kickoff ==> r == None
    ensures clock == AsWritten ==> (r.Some? <==> s.kickoff && s.kickoffStartTime.Some? && s.kickoffStartTime.value != 0)
    ensures clock == AsWritten && r.Some? ==> r == s.kickoffStartTime
    ensures clock == LazyStart && s.kickoff ==> r == Some(if s.kickoffStartTime.Some? then s.kickoffStartTime.value else now)
  {
    if !s.kickoff then None
    else
      match clock
      case AsWritten =>
        if s.kickoffStartTime.None? || s.kickoffStartTime.value == 0 then None else s.kickoffStartTime
      case LazyStart =>
        match s.kickoffStartTime
        case None => Some(now)
        case Some(t) => Some(t)
  }

  /** The number shown while the countdown runs. */
  function CountdownText(elapsed: int): (t: string)
    ensures t == "3" || t == "2" || t == "1" || t == "GO!"
    ensures t == "3" <==> elapsed < PhaseLength
    ensures t == "GO!" <==> elapsed >= 3 * PhaseLength
  {
    if elapsed < 1000 then "3"
    else if elapsed < 2000 then "2"
    else if elapsed < 3000 then "1"
    else "GO!"
  }

  /** Inside the countdown the text is the `elapsed / 1000`-th of "3", "2", "1", "GO!". */
  lemma CountdownTextByPhase(elapsed: int)
    requires 0 <= elapsed < CountdownDuration
    ensures elapsed / PhaseLength < 4
    ensures CountdownText(elapsed) == ["3", "2", "1", "GO!"][elapsed / PhaseLength]
  {
    var k := elapsed / PhaseLength;
    assert k * PhaseLength <= elapsed < (k + 1) * PhaseLength;
    if elapsed < 1000 {
      assert k == 0;
    } else if elapsed < 2000 {
      assert k == 1;
    } else if elapsed < 3000 {
      assert k == 2;
    } else {
      assert k == 3;
    }
  }

  /** The team line under the countdown. */
  function TeamLabel(team: Option<string>): (l: string)
    ensures l == "RED" <==> team == Some("red")
    ensures l == "BLUE" <==> team != Some("red")
  {
    if team == Some("red") then "RED" else "BLUE"
  }

  /** What the countdown overlay shows on one frame. */
  datatype Banner = Banner(text: string, team: string)

  function Overlay(s: State, now: int, clock: Clock): (r: Option<Banner>)
    ensures r.Some? <==> CountdownStart(s, now, clock).Some? && now - CountdownStart(s, now, clock).value < CountdownDuration
    ensures r.Some? ==> var e := now - CountdownStart(s, now, clock).value;
      && (e < 1000 ==> r.value.text == "3")
      && (1000 <= e < 2000 ==> r.value.text == "2")
      && (2000 <= e < 3000 ==> r.value.text == "1")
      && (3000 <= e ==> r.value.text == "GO!")
      && (r.value.team == "RED" <==> s.kickoffTeam == Some("red"))
      && (r.value.team == "RED" || r.value.team == "BLUE")
  {
    match CountdownStart(s, now, clock)
    case None => None
    case Some(start) =>
      if now - start >= CountdownDuration then None
      else Some(Banner(CountdownText(now - start), TeamLabel(s.kickoffTeam)))
  }

  /**
   * The state part of `drawKickoffCountdown`: once the countdown has run its
   * 4000 ms, a host that has not yet done so notifies the server and sets
   * the latch.
   */
  function Countdown(s: State, now: int, clock: Clock): (r: Stepped)
    ensures r.out == [] || r.out == [KickoffCountdownComplete]
    ensures r.out != [] <==>
      && s.isHost && !s.kickoffCountdownComplete
      && CountdownStart(s, now, clock).Some?
      && now - CountdownStart(s, now, clock).value >= CountdownDuration
    ensures r.state.kickoffCountdownComplete == (s.kickoffCountdownComplete || r.out != [])
    ensures CountdownStart(s, now, clock).None? ==> r == Stepped(s, [])
    ensures CountdownStart(s, now, clock).Some? ==>
      r.state == s.(kickoffStartTime := CountdownStart(s, now, clock), kickoffCountdownComplete := r.state.kickoffCountdownComplete)
    ensures clock == AsWritten ==> r.state.kickoffStartTime == s.kickoffStartTime
  {
    match CountdownStart(s, now, clock)
    case None => Stepped(s, [])
    case Some(start) =>
      var s1 := s.(kickoffStartTime := Some(start));
      if now - start >= CountdownDuration then
        if s1.isHost && !s1.kickoffCountdownComplete then
          Stepped(s1.(kickoffCountdownComplete := true), [KickoffCountdownComplete])
        else
          Stepped(s1, [])
      else
        Stepped(s1, [])
  }
}
