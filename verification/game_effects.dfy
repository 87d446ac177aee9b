/**
 * The game-effect manager: an actor's active effects form a doubly linked
 * chain with the newest effect at its head; a sprint effect is attached by
 * drawing a fresh effect id from the map channel and prepending the effect,
 * after which the movement modifier is recomputed from the first sprint in
 * the chain.
 *
 * The chain is a sequence, head first; the `Next` of entry k is entry k + 1
 * and its `Previous` is entry k - 1. The modifier is a multiple of 0.1 in the
 * source and is kept here in integer tenths.
 */
module GameEffects {

  import opened Wrappers
  import opened Messages

  /** The effect type id of sprint. */
  const SprintTypeId: int := 247

  /** The movement modifier with no sprint attached (1.0), in tenths. */
  const BaseMovementMod: int := 10

  datatype GameEffect = GameEffect(effectId: int, typeId: int, effectLevel: int, duration: int, effectTime: int)

  /** The active effects of an actor, newest first. */
  type EffectChain = seq<GameEffect>

  /** The `Next` link of entry k. */
  function Next(chain: EffectChain, k: int): Option<GameEffect>
    requires 0 <= k < |chain|
  {
    if k + 1 < |chain| then Some(chain[k + 1]) else None
  }

  /** The `Previous` link of entry k. */
  function Previous(chain: EffectChain, k: int): Option<GameEffect>
    requires 0 <= k < |chain|
  {
    if k == 0 then None else Some(chain[k - 1])
  }

  /**
   * AddToList: the new effect becomes the head with no predecessor, its
   * successor is the old head, the old head's predecessor is the new effect,
   * and every other link of the old chain is kept.
   */
  function AddToList(chain: EffectChain, e: GameEffect): (r: EffectChain)
    ensures |r| == |chain| + 1 && r[0] == e
    ensures Previous(r, 0) == None
    ensures Next(r, 0) == (if |chain| == 0 then None else Some(chain[0]))
    ensures |chain| > 0 ==> Previous(r, 1) == Some(e)
    ensures forall k :: 0 <= k < |chain| ==> r[k + 1] == chain[k] && Next(r, k + 1) == Next(chain, k)
    ensures forall k :: 1 <= k < |chain| ==> Previous(r, k + 1) == Previous(chain, k)
  {
    [e] + chain
  }

  /**
   * The movement modifier in tenths: 1.0, plus 0.1 and 0.1 per effect level
   * of the first sprint found walking the chain from its head.
   */
  function MovementModifier(chain: EffectChain): (tenths: int)
  {
    if |chain| == 0 then BaseMovementMod
    else if chain[0].typeId == SprintTypeId then BaseMovementMod + 1 + chain[0].effectLevel
    else MovementModifier(chain[1..])
  }

  /** Entry j is a sprint and no entry before it is. */
  predicate FirstSprintAt(chain: EffectChain, j: int) {
    0 <= j < |chain| && chain[j].typeId == SprintTypeId
    && forall k :: 0 <= k < j ==> chain[k].typeId != SprintTypeId
  }

  /** The modifier is decided by the first sprint in the chain. */
  lemma {:induction false} MovementModifierIsFirstSprint(chain: EffectChain, j: int)
    requires FirstSprintAt(chain, j)
    ensures MovementModifier(chain) == BaseMovementMod + 1 + chain[j].effectLevel
    decreases j
  {
    if j > 0 {
      assert chain[0].typeId != SprintTypeId;
      assert FirstSprintAt(chain[1..], j - 1) by {
        forall k | 0 <= k < j - 1 ensures chain[1..][k].typeId != SprintTypeId {
          assert chain[1..][k] == chain[k + 1];
        }
      }
      MovementModifierIsFirstSprint(chain[1..], j - 1);
    }
  }

  /** Without a sprint in the chain the modifier is the base 1.0. */
  lemma {:induction false} MovementModifierWithoutSprint(chain: EffectChain)
    requires forall k :: 0 <= k < |chain| ==> chain[k].typeId != SprintTypeId
    ensures MovementModifier(chain) == BaseMovementMod
    decreases |chain|
  {
    if |chain| > 0 {
      assert chain[0].typeId != SprintTypeId;
      assert forall k :: 0 <= k < |chain| - 1 ==> chain[1..][k] == chain[k + 1];
      MovementModifierWithoutSprint(chain[1..]);
    }
  }

  /**
   * UpdateMovementMod: walks the chain from the head and stops at the first
   * sprint; the owning client is sent the modifier, addressed to the actor.
   */
  method UpdateMovementMod(client: ClientId, actorId: int, chain: EffectChain) returns (sent: Message)
    ensures sent == Message(client, Entity(actorId), MovementModChange(MovementModifier(chain)))
  {
    var movementMod := BaseMovementMod;
    var i := 0;
    while i < |chain|
      invariant 0 <= i <= |chain|
      invariant movementMod == BaseMovementMod
      invariant MovementModifier(chain[i..]) == MovementModifier(chain)
    {
      if chain[i].typeId == SprintTypeId {
        movementMod := movementMod + 1 + chain[i].effectLevel;
        break;
      }
      assert chain[i..][1..] == chain[i + 1..];
      i := i + 1;
    }
    sent := Message(client, Entity(actorId), MovementModChange(movementMod));
  }

  /** The map channel's effect-id counter, the actor's chain and what was sent. */
  datatype SprintResult = SprintResult(currentEffectId: int, chain: EffectChain, sent: seq<Message>)

  /**
   * AttachSprint: draws the next effect id, prepends a sprint effect of the
   * given level and duration with a reset timer, tells the owning client about
   * the attached effect and then about the new movement modifier, which is the
   * new sprint's: 1.1 plus 0.1 per level, whatever sprints were attached before.
   */
  function AttachSprint(currentEffectId: int, client: ClientId, actorId: int, chain: EffectChain,
                        effectLevel: int, duration: int): (r: SprintResult)
    ensures r.currentEffectId == currentEffectId + 1
    ensures r.chain == AddToList(chain, GameEffect(r.currentEffectId, SprintTypeId, effectLevel, duration, 0))
    ensures r.sent == [
      Message(client, Entity(actorId), GameEffectAttached(SprintTypeId, r.currentEffectId, effectLevel, duration)),
      Message(client, Entity(actorId), MovementModChange(BaseMovementMod + 1 + effectLevel))]
  {
    var effectId := currentEffectId + 1;
    var e := GameEffect(effectId, SprintTypeId, effectLevel, duration, 0);
    var chain' := AddToList(chain, e);
    SprintResult(effectId, chain', [
      Message(client, Entity(actorId), GameEffectAttached(e.typeId, e.effectId, e.effectLevel, e.duration)),
      Message(client, Entity(actorId), MovementModChange(MovementModifier(chain')))])
  }

  /** Every effect id in the chain is at most the channel's counter. */
  predicate IdsAtMost(chain: EffectChain, currentEffectId: int) {
    forall k :: 0 <= k < |chain| ==> chain[k].effectId <= currentEffectId
  }

  /** Effect ids strictly decrease from the head, so no two entries share one. */
  predicate IdsDescending(chain: EffectChain) {
    forall i, j :: 0 <= i < j < |chain| ==> chain[i].effectId > chain[j].effectId
  }

  /**
   * Attaching a sprint keeps the chain's ids below the counter and strictly
   * descending, hence pairwise distinct.
   */
  lemma AttachSprintKeepsIdsFresh(currentEffectId: int, client: ClientId, actorId: int, chain: EffectChain,
                                  effectLevel: int, duration: int)
    requires IdsAtMost(chain, currentEffectId) && IdsDescending(chain)
    ensures var r := AttachSprint(currentEffectId, client, actorId, chain, effectLevel, duration);
            IdsAtMost(r.chain, r.currentEffectId) && IdsDescending(r.chain)
            && forall i, j :: 0 <= i < j < |r.chain| ==> r.chain[i].effectId != r.chain[j].effectId
  {
  }

  /** The modifier sent by AttachSprint is what a later UpdateMovementMod on the new chain computes. */
  lemma AttachSprintModifierAgrees(currentEffectId: int, client: ClientId, actorId: int, chain: EffectChain,
                                   effectLevel: int, duration: int)
    ensures var r := AttachSprint(currentEffectId, client, actorId, chain, effectLevel, duration);
            r.sent[1].kind == MovementModChange(MovementModifier(r.chain))
            && FirstSprintAt(r.chain, 0)
  {
  }
}
