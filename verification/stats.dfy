/**
 * The integer part of PlayerManager.UpdateStatsValues: recomputes the maxima
 * of body, mind, spirit, health, chi, power and regen from the player's level
 * and spent attribute points, and clamps or refills the current values.
 */
module Stats {

  import opened Messages
  import opened Advancement

  /** An actor attribute record: current value, current maximum, unboosted maximum. */
  datatype Attribute = Attribute(current: int, currentMax: int, normalMax: int)

  /** The attribute records UpdateStatsValues recomputes (armor is not modelled). */
  datatype ActorStats = ActorStats(
    body: Attribute,
    mind: Attribute,
    spirit: Attribute,
    health: Attribute,
    chi: Attribute,
    power: Attribute,
    regen: Attribute)

  /** The recomputed stats and the attribute-info packet sent to the player's client. */
  datatype StatsUpdate = StatsUpdate(stats: ActorStats, sent: seq<Message>)

  /** A primary attribute: its maximum is recomputed and current refilled to it (no bonus applies). */
  function Primary(normalMax: int): (a: Attribute)
    ensures a.normalMax == normalMax
    ensures a.current == a.currentMax == a.normalMax
  {
    var bonus := 0;
    Attribute(normalMax + bonus, normalMax + bonus, normalMax)
  }

  /**
   * A resource pool (health, chi, power): its maximum is recomputed; current
   * is refilled on a full reset and otherwise only lowered to the new maximum.
   */
  function Pool(prev: Attribute, normalMax: int, fullReset: bool): (a: Attribute)
    ensures a.currentMax == a.normalMax == normalMax
    ensures a.current <= a.currentMax
    ensures fullReset ==> a.current == a.currentMax
    ensures !fullReset ==> a.current <= prev.current && (a.current == prev.current || a.current == a.currentMax)
  {
    var bonus := 0;
    var currentMax := normalMax + bonus;
    var current := if fullReset then currentMax else if prev.current < currentMax then prev.current else currentMax;
    Attribute(current, currentMax, normalMax)
  }

  /** UpdateStatsValues: the integer formulas of lines 498-529 and 565-571. */
  function UpdateStatsValues(p: PlayerData, s: ActorStats, fullReset: bool): (r: StatsUpdate)
    ensures r.stats.body.normalMax == 10 + 2 * (p.level - 1) + p.spentBody
    ensures r.stats.mind.normalMax == 10 + 2 * (p.level - 1) + p.spentMind
    ensures r.stats.spirit.normalMax == 10 + 2 * (p.level - 1) + p.spentSpirit
    ensures r.stats.health.normalMax == 100 + 16 * (p.level - 1) + 6 * p.spentBody
    ensures r.stats.chi.normalMax == 100 + 8 * (p.level - 1) + 3 * p.spentSpirit
    ensures r.stats.power.normalMax == 100 + 8 * (p.level - 1) + 3 * p.spentMind
    ensures r.stats.regen.normalMax ==
      100 + 2 * (p.level - 1) + 6 * (if r.stats.spirit.currentMax > 10 then r.stats.spirit.currentMax - 10 else 0)
    ensures r.stats.body == Primary(r.stats.body.normalMax)
    ensures r.stats.mind == Primary(r.stats.mind.normalMax)
    ensures r.stats.spirit == Primary(r.stats.spirit.normalMax)
    ensures r.stats.health == Pool(s.health, r.stats.health.normalMax, fullReset)
    ensures r.stats.chi == Pool(s.chi, r.stats.chi.normalMax, fullReset)
    ensures r.stats.power == Pool(s.power, r.stats.power.normalMax, fullReset)
    ensures r.stats.regen.currentMax == r.stats.regen.normalMax
    ensures r.stats.regen.current == s.regen.current
    ensures r.sent == [Message(p.client, Entity(p.actorId), AttributeInfo)]
  {
    var body := Primary(10 + (p.level - 1) * 2 + p.spentBody);
    var mind := Primary(10 + (p.level - 1) * 2 + p.spentMind);
    var spirit := Primary(10 + (p.level - 1) * 2 + p.spentSpirit);
    var health := Pool(s.health, 100 + (p.level - 1) * 2 * 8 + p.spentBody * 6, fullReset);
    var chi := Pool(s.chi, 100 + (p.level - 1) * 2 * 4 + p.spentSpirit * 3, fullReset);
    var spiritExcess := if 0 > spirit.currentMax - 10 then 0 else spirit.currentMax - 10;
    var regenNormalMax := 100 + (p.level - 1) * 2 + spiritExcess * 6;
    var regenBonus := 0;
    var regen := Attribute(s.regen.current, regenNormalMax + regenBonus, regenNormalMax);
    var power := Pool(s.power, 100 + (p.level - 1) * 2 * 4 + p.spentMind * 3, fullReset);
    StatsUpdate(ActorStats(body, mind, spirit, health, chi, power, regen),
                [Message(p.client, Entity(p.actorId), AttributeInfo)])
  }

  /** The record invariant `0 <= current <= currentMax`. */
  predicate Consistent(a: Attribute) {
    0 <= a.current <= a.currentMax
  }

  /**
   * A second non-reset recomputation with no change in between changes nothing,
   * whether the first one was a full reset or not.
   */
  lemma RecomputeIsIdempotent(p: PlayerData, s: ActorStats, fullReset: bool)
    ensures var once := UpdateStatsValues(p, s, fullReset).stats;
            UpdateStatsValues(p, once, false).stats == once
  {
  }

  /**
   * For a player of level at least 1 with non-negative spent points, a
   * recomputation keeps every recomputed pool consistent, provided the
   * current values were not negative before.
   */
  lemma RecomputeKeepsPoolsConsistent(p: PlayerData, s: ActorStats, fullReset: bool)
    requires p.level >= 1 && p.spentBody >= 0 && p.spentMind >= 0 && p.spentSpirit >= 0
    requires s.health.current >= 0 && s.chi.current >= 0 && s.power.current >= 0
    ensures var r := UpdateStatsValues(p, s, fullReset).stats;
      && Consistent(r.body) && Consistent(r.mind) && Consistent(r.spirit)
      && Consistent(r.health) && Consistent(r.chi) && Consistent(r.power)
  {
  }

  /**
   * Gaining a level raises body, mind and spirit maxima by 2, health by 16,
   * chi and power by 8, and regen by 14 once spirit is above its base 10.
   */
  lemma LevelUpRaisesMaxima(p: PlayerData, s: ActorStats, fullReset: bool)
    requires p.level >= 1 && p.spentSpirit >= 0
    ensures var before := UpdateStatsValues(p, s, fullReset).stats;
            var after := UpdateStatsValues(p.(level := p.level + 1), s, fullReset).stats;
      && after.body.normalMax == before.body.normalMax + 2
      && after.mind.normalMax == before.mind.normalMax + 2
      && after.spirit.normalMax == before.spirit.normalMax + 2
      && after.health.normalMax == before.health.normalMax + 16
      && after.chi.normalMax == before.chi.normalMax + 8
      && after.power.normalMax == before.power.normalMax + 8
      && after.regen.normalMax == before.regen.normalMax + 14
  {
  }

  /**
   * The attribute budget and the primary maxima agree: while attribute points
   * remain, body + mind + spirit maxima fall short of their level ceiling
   * 30 + 8 * (level - 1) by exactly the points left to spend.
   */
  lemma AttributeBudgetMatchesMaxima(p: PlayerData, s: ActorStats, fullReset: bool)
    requires GetAvailableAttributePoints(p) > 0
    ensures var r := UpdateStatsValues(p, s, fullReset).stats;
      r.body.normalMax + r.mind.normalMax + r.spirit.normalMax
        == 30 + 8 * (p.level - 1) - GetAvailableAttributePoints(p)
  {
  }
}
