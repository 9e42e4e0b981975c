/**
 * The prediction engine (`performClientPrediction`): moves the local
 * player's displayed position by the last emitted intent and blends it
 * toward the server target every frame.
 */
module Prediction {
  import opened Types

  const PredictionAmount: real := 2.0
  const LerpFactor: real := 0.2
  /** `1 / Math.sqrt(2)` as a double; stands in for the diagonal normalisation. */
  const DiagonalComponent: real := 0.7071067811865475

  function Abs(r: real): real {
    if r < 0.0 then -r else r
  }

  /** One axis of the direction: `-1` for the negative key, `+1` for the positive one. */
  function Axis(negative: bool, positive: bool): (d: int)
    ensures -1 <= d <= 1
    ensures d == 0 <==> negative == positive
    ensures d == 1 <==> positive && !negative
    ensures d == -1 <==> negative && !positive
  {
    var d := if negative then -1 else 0;
    if positive then d + 1 else d
  }

  /** `(dx, dy)` from `gameState.lastInput || {}`; with no intent every key is unset. */
  function Direction(input: Option<Intent>): (d: (int, int))
    ensures -1 <= d.0 <= 1 && -1 <= d.1 <= 1
    ensures d.0 == 0 <==> input.None? || input.value.left == input.value.right
    ensures d.1 == 0 <==> input.None? || input.value.up == input.value.down
    ensures d.0 == (if input.Some? && input.value.right then 1 else 0) - (if input.Some? && input.value.left then 1 else 0)
    ensures d.1 == (if input.Some? && input.value.down then 1 else 0) - (if input.Some? && input.value.up then 1 else 0)
  {
    match input
    case None => (0, 0)
    case Some(i) => (Axis(i.left, i.right), Axis(i.up, i.down))
  }

  /** The displacement of one frame: a fixed step, its diagonal components normalised. */
  function Displacement(d: (int, int)): (v: Vec)
    ensures d == (0, 0) ==> v == Vec(0.0, 0.0)
    ensures (v.x > 0.0 <==> d.0 > 0) && (v.x < 0.0 <==> d.0 < 0)
    ensures (v.y > 0.0 <==> d.1 > 0) && (v.y < 0.0 <==> d.1 < 0)
    ensures -1 <= d.0 <= 1 && -1 <= d.1 <= 1 ==>
      Abs(v.x) <= PredictionAmount && Abs(v.y) <= PredictionAmount
    // a diagonal step is shorter on each axis than a straight one, so its length is not doubled
    ensures d.0 != 0 && d.1 != 0 && -1 <= d.0 <= 1 && -1 <= d.1 <= 1 ==>
      Abs(v.x) < PredictionAmount && Abs(v.y) < PredictionAmount
    // a straight step is exactly one prediction step long
    ensures -1 <= d.0 <= 1 && -1 <= d.1 <= 1 && (d.0 == 0) != (d.1 == 0) ==>
      Abs(v.x) + Abs(v.y) == PredictionAmount
    // a diagonal step has equal components and, up to the double constant, the same length
    ensures -1 <= d.0 <= 1 && -1 <= d.1 <= 1 && d.0 != 0 && d.1 != 0 ==>
      Abs(v.x) == Abs(v.y) && 3.9999 < v.x * v.x + v.y * v.y <= PredictionAmount * PredictionAmount
  {
    if d.0 != 0 && d.1 != 0 then
      Vec(d.0 as real * DiagonalComponent * PredictionAmount, d.1 as real * DiagonalComponent * PredictionAmount)
    else
      Vec(d.0 as real * PredictionAmount, d.1 as real * PredictionAmount)
  }

  /** `!currentPlayer.serverX`: an absent target and an `x` of zero both read as unset. */
  predicate Unset(p: Player) {
    p.server.None? || p.server.value.x == 0.0
  }

  /** The position the frame blends toward; an unset target is replaced by the displayed position. */
  function Target(p: Player): Vec {
    if Unset(p) then Vec(p.x, p.y) else p.server.value
  }

  function Predict(p: Player, input: Option<Intent>): (r: Player)
    ensures r.server == Some(Target(p))
    ensures r.name == p.name && r.team == p.team && r.vx == p.vx && r.vy == p.vy
    // the new offset from the target is 4/5 of the offset after the predicted move
    ensures r.x - Target(p).x == (1.0 - LerpFactor) * (p.x + Displacement(Direction(input)).x - Target(p).x)
    ensures r.y - Target(p).y == (1.0 - LerpFactor) * (p.y + Displacement(Direction(input)).y - Target(p).y)
  {
    var t := Target(p);
    var d := Direction(input);
    var v := Displacement(d);
    var mx := if d.0 != 0 || d.1 != 0 then p.x + v.x else p.x;
    var my := if d.0 != 0 || d.1 != 0 then p.y + v.y else p.y;
    p.(server := Some(t),
       x := mx * (1.0 - LerpFactor) + t.x * LerpFactor,
       y := my * (1.0 - LerpFactor) + t.y * LerpFactor)
  }

  /** Idle: the new position lies on the segment from the old one to the target, 1/5 of the way. */
  predicate Idle(input: Option<Intent>) {
    Direction(input) == (0, 0)
  }

  /** An idle frame keeps the target and shrinks both offsets by the factor 4/5. */
  lemma IdleContracts(p: Player, input: Option<Intent>)
    requires Idle(input)
    ensures Target(Predict(p, input)) == Target(p)
    ensures Predict(p, input).x - Target(p).x == 0.8 * (p.x - Target(p).x)
    ensures Predict(p, input).y - Target(p).y == 0.8 * (p.y - Target(p).y)
  {
    var r := Predict(p, input);
    assert Displacement(Direction(input)) == Vec(0.0, 0.0);
    if Unset(r) {
      assert r.server.value.x == 0.0;
      assert Target(p).x == 0.0;
      assert Unset(p);
    }
  }

  /** With a moving intent the offset still shrinks to at most 4/5 of the old offset plus one step. */
  lemma MovingOffsetBounded(p: Player, input: Option<Intent>)
    ensures Abs(Predict(p, input).x - Target(p).x) <= 0.8 * (Abs(p.x - Target(p).x) + PredictionAmount)
    ensures Abs(Predict(p, input).y - Target(p).y) <= 0.8 * (Abs(p.y - Target(p).y) + PredictionAmount)
  {
    var v := Displacement(Direction(input));
    assert -PredictionAmount <= v.x <= PredictionAmount;
    assert -PredictionAmount <= v.y <= PredictionAmount;
  }

  /** `n` consecutive frames with the same intent and no snapshot. */
  function Iterate(p: Player, input: Option<Intent>, n: nat): Player
    decreases n
  {
    if n == 0 then p else Iterate(Predict(p, input), input, n - 1)
  }

  /** An offset after `n` idle frames: the first one scaled by `0.8` per frame, that is by `0.8^n`. */
  function Decay(o: real, n: nat): real
    decreases n
  {
    if n == 0 then o else Decay(0.8 * o, n - 1)
  }

  /** After `n` idle frames the target is the same and each offset is `Decay` of the first one. */
  lemma {:induction false} IdleConverges(p: Player, input: Option<Intent>, n: nat)
    requires Idle(input)
    ensures Target(Iterate(p, input, n)) == Target(p)
    ensures Iterate(p, input, n).x - Target(p).x == Decay(p.x - Target(p).x, n)
    ensures Iterate(p, input, n).y - Target(p).y == Decay(p.y - Target(p).y, n)
    decreases n
  {
    if n > 0 {
      var q := Predict(p, input);
      IdleContracts(p, input);
      IdleConverges(q, input, n - 1);
      assert Iterate(p, input, n) == Iterate(q, input, n - 1);
    }
  }

  /** `v` is at most `o` divided by `1 + n/4`. */
  predicate WithinRate(o: real, v: real, n: nat) {
    Abs(v) * (1.0 + 0.25 * n as real) <= Abs(o)
  }

  /**
   * The rate of the decay: after `n` frames an offset is at most the first
   * one divided by `1 + n/4`, so it drops below any tolerance `eps > 0` once
   * `n >= 4 * offset / eps`.
   */
  lemma {:induction false} DecayRate(o: real, n: nat)
    ensures WithinRate(o, Decay(o, n), n)
    decreases n
  {
    if n > 0 {
      DecayRate(0.8 * o, n - 1);
      RateStep(Abs(Decay(0.8 * o, n - 1)), (n - 1) as real, Abs(o));
    }
  }

  /** From `a * (1 + m/4) <= 0.8 * b` follows `a * (1 + (m + 1)/4) <= b`. */
  lemma RateStep(a: real, m: real, b: real)
    requires a >= 0.0 && m >= 0.0
    requires a * (1.0 + 0.25 * m) <= 0.8 * b
    ensures a * (1.0 + 0.25 * (m + 1.0)) <= b
  {
    assert a * (1.0 + 0.25 * (m + 1.0)) == a * (1.0 + 0.25 * m) + 0.25 * a;
    assert a <= a * (1.0 + 0.25 * m);
  }

  /** Idle frames bring the displayed position toward the target at that rate on both axes. */
  lemma IdleWithin(p: Player, input: Option<Intent>, n: nat)
    requires Idle(input)
    ensures WithinRate(p.x - Target(p).x, Iterate(p, input, n).x - Target(p).x, n)
    ensures WithinRate(p.y - Target(p).y, Iterate(p, input, n).y - Target(p).y, n)
  {
    IdleConverges(p, input, n);
    DecayRate(p.x - Target(p).x, n);
    DecayRate(p.y - Target(p).y, n);
  }

  /** `performClientPrediction` on the whole state: only the local, non-spectator player moves. */
  function PredictLocal(s: State): (r: State)
    ensures r == s.(players := r.players)
    ensures r.players.Keys == s.players.Keys
    ensures forall id :: id in s.players && id != s.playerId ==> r.players[id] == s.players[id]
    ensures Controls(s) ==> r.players[s.playerId] == Predict(s.players[s.playerId], s.lastInput)
    ensures !Controls(s) ==> r == s
    ensures Controls(r) == Controls(s)
  {
    if s.playerId in s.players && s.players[s.playerId].team != "spectator" then
      s.(players := s.players[s.playerId := Predict(s.players[s.playerId], s.lastInput)])
    else
      s
  }
}
