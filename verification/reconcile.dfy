/**
 * The reconciliation applier: the rest of the `game-update` handler, which
 * merges an authoritative snapshot into the local state.
 */
module Reconcile {
  import opened Types
  import Latency

  /** The payload of `game-update`. */
  datatype Snapshot = Snapshot(players: map<string, Entity>, ball: Ball, score: Score)

  /**
   * One known player under its snapshot entry: the server target and the
   * velocity always follow the snapshot, the displayed position only when
   * `moveDisplayed` holds.
   */
  function MergeOne(p: Player, e: Entity, moveDisplayed: bool): Player {
    p.(server := Some(Vec(e.x, e.y)),
       x := if moveDisplayed then e.x else p.x,
       y := if moveDisplayed then e.y else p.y,
       vx := e.vx,
       vy := e.vy)
  }

  function MergePlayers(players: map<string, Player>, snap: map<string, Entity>, localId: string): (r: map<string, Player>)
    ensures r.Keys == players.Keys
    ensures forall id :: id in players && id !in snap ==> r[id] == players[id]
    ensures forall id :: id in players && id in snap ==>
      && r[id].server == Some(Vec(snap[id].x, snap[id].y))
      && r[id].vx == snap[id].vx && r[id].vy == snap[id].vy
      && r[id].name == players[id].name && r[id].team == players[id].team
    ensures forall id :: id in players && id in snap && id != localId ==>
      r[id].x == snap[id].x && r[id].y == snap[id].y
    ensures localId in players ==> r[localId].x == players[localId].x && r[localId].y == players[localId].y
  {
    map id | id in players :: if id in snap then MergeOne(players[id], snap[id], id != localId) else players[id]
  }

  /** Applying the same snapshot twice is the same as applying it once. */
  lemma MergeIdempotent(players: map<string, Player>, snap: map<string, Entity>, localId: string)
    ensures MergePlayers(MergePlayers(players, snap, localId), snap, localId) == MergePlayers(players, snap, localId)
  {
    var once := MergePlayers(players, snap, localId);
    var twice := MergePlayers(once, snap, localId);
    forall id | id in players
      ensures twice[id] == once[id]
    {
      if id in snap {
        assert once[id] == MergeOne(players[id], snap[id], id != localId);
        assert twice[id] == MergeOne(once[id], snap[id], id != localId);
      }
    }
  }

  /** The whole `game-update` handler: latency sample, player merge, ball and score verbatim. */
  function ApplySnapshot(s: State, snap: Snapshot, now: int): (r: State)
    ensures r.players == MergePlayers(s.players, snap.players, s.playerId)
    ensures r.ball == Some(snap.ball) && r.score == snap.score
    ensures r.lastInputTime <= 0
    ensures s.lastInputTime > 0 ==> r.ping == now - s.lastInputTime
    ensures s.lastInputTime <= 0 ==> r.ping == s.ping && r.lastInputTime == s.lastInputTime
    ensures r == s.(players := r.players, ball := r.ball, score := r.score, ping := r.ping, lastInputTime := r.lastInputTime)
    ensures Controls(r) == Controls(s)
  {
    var t := Latency.OnSnapshot(s, now);
    t.(players := MergePlayers(t.players, snap.players, t.playerId), ball := Some(snap.ball), score := snap.score)
  }
}
