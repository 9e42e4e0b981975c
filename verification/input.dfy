/**
 * The input sampler (`sendPlayerInput`): turns the pressed-key map into an
 * intent and emits it only when it differs from the last one emitted.
 */
module InputSampler {
  import opened Types

  /** `keysPressed`: `keydown` stores `true` under the key code, `keyup` `false`. */
  type KeyMap = map<string, bool>

  /** A code never pressed is absent from the map and reads as not held. */
  predicate Held(keys: KeyMap, code: string) {
    code in keys && keys[code]
  }

  /** Each direction is bound to an arrow key and a WASD key; Space shoots. */
  function Sample(keys: KeyMap): (i: Intent)
    ensures i.left <==> Held(keys, "ArrowLeft") || Held(keys, "KeyA")
    ensures i.right <==> Held(keys, "ArrowRight") || Held(keys, "KeyD")
    ensures i.up <==> Held(keys, "ArrowUp") || Held(keys, "KeyW")
    ensures i.down <==> Held(keys, "ArrowDown") || Held(keys, "KeyS")
    ensures i.shoot <==> Held(keys, "Space")
  {
    Intent(
      left := Held(keys, "ArrowLeft") || Held(keys, "KeyA"),
      right := Held(keys, "ArrowRight") || Held(keys, "KeyD"),
      up := Held(keys, "ArrowUp") || Held(keys, "KeyW"),
      down := Held(keys, "ArrowDown") || Held(keys, "KeyS"),
      shoot := Held(keys, "Space"))
  }

  /** The nine codes the sampler reads. */
  predicate Bound(code: string) {
    code in ["ArrowLeft", "KeyA", "ArrowRight", "KeyD", "ArrowUp", "KeyW", "ArrowDown", "KeyS", "Space"]
  }

  /** The intent is all-false exactly when none of the nine bound codes is held. */
  lemma SampleIdle(keys: KeyMap)
    ensures Sample(keys) == Intent(false, false, false, false, false) <==> forall code :: Bound(code) ==> !Held(keys, code)
  {
  }

  /** Keys outside the nine bound codes never influence the intent. */
  lemma SampleReadsOnlyBoundKeys(k1: KeyMap, k2: KeyMap)
    requires forall code :: Bound(code) ==> Held(k1, code) == Held(k2, code)
    ensures Sample(k1) == Sample(k2)
  {
    assert Bound("ArrowLeft") && Bound("KeyA") && Bound("ArrowRight") && Bound("KeyD");
    assert Bound("ArrowUp") && Bound("KeyW") && Bound("ArrowDown") && Bound("KeyS") && Bound("Space");
  }

  /**
   * The source's field-by-field comparison against `lastInput?.field`; when
   * there is no last intent every field compares against `undefined`, so the
   * input always counts as changed.
   */
  function Changed(input: Intent, last: Option<Intent>): (r: bool)
    ensures r <==> last != Some(input)
  {
    match last
    case None => true
    case Some(l) =>
      input.left != l.left || input.right != l.right || input.up != l.up
      || input.down != l.down || input.shoot != l.shoot
  }

  /** The sampler runs only during a game, for a local player who is not a spectator. */
  predicate Eligible(s: State) {
    s.gameActive && Controls(s)
  }

  function SendPlayerInput(s: State, keys: KeyMap, now: int): (r: Stepped)
    ensures !Eligible(s) ==> r == Stepped(s, [])
    ensures Eligible(s) ==> r.state.lastInput == Some(Sample(keys))
    ensures r.out != [] <==> Eligible(s) && s.lastInput != Some(Sample(keys))
    ensures r.out != [] ==> r.out == [PlayerInput(Sample(keys))] && r.state.lastInputTime == now
    ensures r.out == [] ==> r.state == s
    ensures r.state == s.(lastInput := r.state.lastInput, lastInputTime := r.state.lastInputTime)
  {
    if !s.gameActive then Stepped(s, [])
    else if !Controls(s) then Stepped(s, [])
    else
      var input := Sample(keys);
      if Changed(input, s.lastInput) then
        Stepped(s.(lastInput := Some(input), lastInputTime := now), [PlayerInput(input)])
      else
        Stepped(s, [])
  }

  /** Holding the same keys on the next frame emits nothing. */
  lemma RepeatIsSilent(s: State, keys: KeyMap, t1: int, t2: int)
    ensures SendPlayerInput(SendPlayerInput(s, keys, t1).state, keys, t2).out == []
  {
  }

  /**
   * The number of actual intent changes along a sequence of sampled key maps,
   * starting from the last emitted intent `last`.
   */
  function Changes(last: Option<Intent>, frames: seq<KeyMap>): (n: nat)
    ensures n <= |frames|
    decreases |frames|
  {
    if frames == [] then 0
    else
      var input := Sample(frames[0]);
      (if last != Some(input) then 1 else 0) + Changes(Some(input), frames[1..])
  }
}
