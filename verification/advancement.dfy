/**
 * Player advancement: the attribute-point and skill-point budgets and the
 * all-or-nothing skill level-up request (PlayerManager.GetAvailableAttributePoints,
 * GetSkillPointsAvailable and LevelSkills).
 *
 * The player's skill dictionary is a sequence of entries in enumeration order;
 * `UniqueSkillIds` is the dictionary's key invariant.
 */
module Advancement {

  import opened Wrappers
  import opened Messages
  import opened SkillTables

  /** One entry of the skill dictionary: skill id and its current level. */
  datatype SkillEntry = SkillEntry(skillId: int, level: int)

  /** The part of PlayerData the advancement rules read and write. */
  datatype PlayerData = PlayerData(
    client: ClientId,
    actorId: int,
    level: int,
    spentBody: int,
    spentMind: int,
    spentSpirit: int,
    skills: seq<SkillEntry>)

  /** No skill id occurs twice (the keys of a dictionary). */
  predicate UniqueSkillIds(skills: seq<SkillEntry>) {
    forall i, j :: 0 <= i < j < |skills| ==> skills[i].skillId != skills[j].skillId
  }

  /** `Skills[skillId].SkillLevel`, or None when the key is missing (KeyNotFoundException). */
  function LevelOf(skills: seq<SkillEntry>, skillId: int): Option<int> {
    if |skills| == 0 then None
    else if skills[0].skillId == skillId then Some(skills[0].level)
    else LevelOf(skills[1..], skillId)
  }

  // ---------------------------------------------------------------------------
  // Attribute points
  // ---------------------------------------------------------------------------

  /** Attribute points spent on body, mind and spirit together. */
  function SpentAttributePoints(p: PlayerData): int {
    p.spentBody + p.spentMind + p.spentSpirit
  }

  /**
   * Two attribute points per level above the first, minus those spent,
   * clamped at zero.
   */
  function GetAvailableAttributePoints(p: PlayerData): (r: int)
    ensures r >= 0
    ensures r == 0 <==> SpentAttributePoints(p) >= 2 * (p.level - 1)
    ensures r > 0 ==> r + SpentAttributePoints(p) == 2 * (p.level - 1)
  {
    var points := p.level * 2 - 2 - p.spentBody - p.spentMind - p.spentSpirit;
    if points > 0 then points else 0
  }

  // ---------------------------------------------------------------------------
  // Skill points
  // ---------------------------------------------------------------------------

  /** What a skill at `level` has cost; levels outside 0..5 are skipped (cost nothing). */
  function SkillLevelCost(level: int): (r: int)
    ensures r >= 0
    ensures 0 <= level <= MaxSkillLevel ==> 2 * r == level * (level + 1)
    ensures !(0 <= level <= MaxSkillLevel) ==> r == 0
  {
    if 0 <= level <= MaxSkillLevel then
      RequiredPointsAreTriangular(level);
      RequiredSkillLevelPoints(level)
    else 0
  }

  /** Total cost of all skill levels held. */
  function SpentSkillPoints(skills: seq<SkillEntry>): int {
    if |skills| == 0 then 0 else SkillLevelCost(skills[0].level) + SpentSkillPoints(skills[1..])
  }

  /** Two skill points per level above the first, plus five for the recruit skills. */
  function SkillPointBudget(level: int): int {
    (level - 1) * 2 + 5
  }

  /** The skill points left: the budget minus the spent cost, clamped at zero. */
  function SkillPointsAvailable(p: PlayerData): (r: int)
    ensures r >= 0
    ensures r > 0 ==> r + SpentSkillPoints(p.skills) == SkillPointBudget(p.level)
    ensures r == 0 <==> SpentSkillPoints(p.skills) >= SkillPointBudget(p.level)
  {
    var points := SkillPointBudget(p.level) - SpentSkillPoints(p.skills);
    if points > 0 then points else 0
  }

  /** The loop of GetSkillPointsAvailable: subtract each skill's cost from the budget. */
  method GetSkillPointsAvailable(p: PlayerData) returns (r: int)
    ensures r >= 0
    ensures r == SkillPointsAvailable(p)
  {
    var pointsAvailable := (p.level - 1) * 2;
    pointsAvailable := pointsAvailable + 5;
    var i := 0;
    while i < |p.skills|
      invariant 0 <= i <= |p.skills|
      invariant pointsAvailable + SpentSkillPoints(p.skills) - SpentSkillPoints(p.skills[i..])
                == SkillPointBudget(p.level)
    {
      assert p.skills[i..][1..] == p.skills[i + 1..];
      var skillLevel := p.skills[i].level;
      if 0 <= skillLevel <= MaxSkillLevel {
        pointsAvailable := pointsAvailable - RequiredSkillLevelPoints(skillLevel);
      }
      i := i + 1;
    }
    r := if 0 > pointsAvailable then 0 else pointsAvailable;
  }

  // ---------------------------------------------------------------------------
  // LevelSkills
  // ---------------------------------------------------------------------------

  /** One (skill id, requested level) pair of a level-skills packet. */
  datatype SkillRequest = SkillRequest(skillId: int, level: int)

  /** One entry of the temporary level-up dictionary: the level increase of a skill. */
  datatype LevelUp = LevelUp(skillId: int, delta: int)

  /** Why a level-skills request is rejected; each is an exception thrown before any update. */
  datatype SkillError =
    | InvalidSkillId                  // skill id -1
    | UnknownSkill(skillId: int)      // the player has no such skill (dictionary lookup fails)
    | InvalidSkillLevel               // below the current level or above 5
    | LevelOutsideCostTable           // current level negative: the cost table index faults
    | DuplicateSkill(skillId: int)    // the same skill twice (dictionary Add fails)
    | NotEnoughSkillPoints

  /** The validated plan: the points left after all requests and the level-ups to apply. */
  datatype LevelUpPlan = LevelUpPlan(pointsLeft: int, ups: seq<LevelUp>)

  /** Some level-up of `ups` is for `skillId` (the dictionary already holds the key). */
  predicate Planned(ups: seq<LevelUp>, skillId: int) {
    exists k :: 0 <= k < |ups| && ups[k].skillId == skillId
  }

  /**
   * The validation loop: walks the requests in order, failing with the first
   * error met, subtracting each request's extra cost from `points` and
   * recording its level increase.
   */
  function ValidateRequests(skills: seq<SkillEntry>, reqs: seq<SkillRequest>, points: int, ups: seq<LevelUp>)
    : Result<LevelUpPlan, SkillError>
    decreases |reqs|
  {
    if |reqs| == 0 then Ok(LevelUpPlan(points, ups))
    else
      var r := reqs[0];
      if r.skillId == -1 then Err(InvalidSkillId)
      else match LevelOf(skills, r.skillId)
        case None => Err(UnknownSkill(r.skillId))
        case Some(oldLevel) =>
          if r.level < oldLevel || r.level > MaxSkillLevel then Err(InvalidSkillLevel)
          else if oldLevel < 0 then Err(LevelOutsideCostTable)
          else if Planned(ups, r.skillId) then Err(DuplicateSkill(r.skillId))
          else
            var extra := RequiredSkillLevelPoints(r.level) - RequiredSkillLevelPoints(oldLevel);
            ValidateRequests(skills, reqs[1..], points - extra, ups + [LevelUp(r.skillId, r.level - oldLevel)])
  }

  /** `Skills[skillId].SkillLevel += delta`. */
  function AddLevel(skills: seq<SkillEntry>, skillId: int, delta: int): (r: seq<SkillEntry>)
    ensures |r| == |skills|
    ensures forall i :: 0 <= i < |r| ==> r[i].skillId == skills[i].skillId
  {
    if |skills| == 0 then []
    else
      var head := if skills[0].skillId == skillId then SkillEntry(skillId, skills[0].level + delta) else skills[0];
      [head] + AddLevel(skills[1..], skillId, delta)
  }

  /** The update loop: apply every planned level increase in order. */
  function ApplyLevelUps(skills: seq<SkillEntry>, ups: seq<LevelUp>): (r: seq<SkillEntry>)
    ensures |r| == |skills|
    ensures forall i :: 0 <= i < |r| ==> r[i].skillId == skills[i].skillId
    decreases |ups|
  {
    if |ups| == 0 then skills else ApplyLevelUps(AddLevel(skills, ups[0].skillId, ups[0].delta), ups[1..])
  }

  // --- the reference reading of a request ------------------------------------

  /** A request the source accepts on its own: known skill, level not lowered, at most 5. */
  predicate RequestValid(skills: seq<SkillEntry>, r: SkillRequest) {
    && r.skillId != -1
    && LevelOf(skills, r.skillId).Some?
    && 0 <= LevelOf(skills, r.skillId).value <= r.level <= MaxSkillLevel
  }

  predicate AllRequestsValid(skills: seq<SkillEntry>, reqs: seq<SkillRequest>) {
    forall i :: 0 <= i < |reqs| ==> RequestValid(skills, reqs[i])
  }

  /** No skill is named twice in the request. */
  predicate DistinctRequests(reqs: seq<SkillRequest>) {
    forall i, j :: 0 <= i < j < |reqs| ==> reqs[i].skillId != reqs[j].skillId
  }

  /** Total extra cost of raising every requested skill from its current level. */
  function ExtraCost(skills: seq<SkillEntry>, reqs: seq<SkillRequest>): int {
    if |reqs| == 0 then 0
    else
      SkillLevelCost(reqs[0].level) - SkillLevelCost(LevelOf(skills, reqs[0].skillId).GetOr(0))
      + ExtraCost(skills, reqs[1..])
  }

  /** The level-ups a valid request asks for, in request order. */
  function RequestedUps(skills: seq<SkillEntry>, reqs: seq<SkillRequest>): (r: seq<LevelUp>)
    ensures |r| == |reqs|
    ensures forall i :: 0 <= i < |r| ==> r[i].skillId == reqs[i].skillId
  {
    if |reqs| == 0 then []
    else
      [LevelUp(reqs[0].skillId, reqs[0].level - LevelOf(skills, reqs[0].skillId).GetOr(0))]
      + RequestedUps(skills, reqs[1..])
  }

  /** The level the request asks for `skillId`, if it names it (first mention). */
  function RequestedLevel(reqs: seq<SkillRequest>, skillId: int): (r: Option<int>)
    ensures r.Some? <==> exists i :: 0 <= i < |reqs| && reqs[i].skillId == skillId
  {
    if |reqs| == 0 then None
    else if reqs[0].skillId == skillId then Some(reqs[0].level)
    else
      var r := RequestedLevel(reqs[1..], skillId);
      assert forall i :: 1 <= i < |reqs| ==> reqs[i] == reqs[1..][i - 1];
      r
  }

  /** The request LevelSkills carries out: every entry valid, no duplicates, affordable. */
  predicate AcceptableRequest(p: PlayerData, reqs: seq<SkillRequest>) {
    && AllRequestsValid(p.skills, reqs)
    && DistinctRequests(reqs)
    && ExtraCost(p.skills, reqs) <= SkillPointsAvailable(p)
  }

  /** The state after a level-skills request and what was sent. */
  datatype LevelResult = LevelResult(player: PlayerData, outcome: Outcome<SkillError>, sent: seq<Message>)

  /**
   * LevelSkills: validate every request against the unchanged player, then
   * check the point total, and only then apply all level increases and send
   * the skills, abilities and allocation-point packets.
   */
  function LevelSkills(p: PlayerData, reqs: seq<SkillRequest>): (r: LevelResult)
    requires UniqueSkillIds(p.skills)
    ensures r.outcome.Pass? <==> AcceptableRequest(p, reqs)
    ensures r.outcome.Fail? ==> r.player == p && r.sent == []
    ensures r.outcome.Pass? ==> r.player == p.(skills := r.player.skills)
    ensures r.outcome.Pass? ==> forall id :: LevelOf(r.player.skills, id) == ExpectedLevel(reqs, p.skills, id)
    ensures r.outcome.Pass? ==> |r.sent| == 3
    ensures r.outcome.Pass? ==> r.sent == [
      Message(p.client, Entity(p.actorId), Skills),
      Message(p.client, Entity(p.actorId), Abilities),
      Message(p.client, Entity(p.actorId), AvailableAllocationPoints(GetAvailableAttributePoints(p), SkillPointsAvailable(r.player)))]
  {
    match ValidateRequests(p.skills, reqs, SkillPointsAvailable(p), [])
    case Err(e) =>
      ValidateAcceptsExactly(p.skills, reqs, SkillPointsAvailable(p), []);
      LevelResult(p, Fail(e), [])
    case Ok(plan) =>
      ValidateAcceptsExactly(p.skills, reqs, SkillPointsAvailable(p), []);
      ValidatePlansRequestedUps(p.skills, reqs, SkillPointsAvailable(p), []);
      if plan.pointsLeft < 0 then LevelResult(p, Fail(NotEnoughSkillPoints), [])
      else
        assert [] + RequestedUps(p.skills, reqs) == RequestedUps(p.skills, reqs);
        var p' := p.(skills := ApplyLevelUps(p.skills, plan.ups));
        assert GetAvailableAttributePoints(p') == GetAvailableAttributePoints(p);
        LevelSkillsSetsRequestedLevels(p.skills, reqs);
        var addr := Entity(p.actorId);
        LevelResult(p', Pass, [
          Message(p.client, addr, Skills),
          Message(p.client, addr, Abilities),
          Message(p.client, addr, AvailableAllocationPoints(GetAvailableAttributePoints(p'), SkillPointsAvailable(p')))
        ])
  }

  // --- proofs ----------------------------------------------------------------

  /**
   * The validation loop succeeds exactly on valid, duplicate-free requests
   * that name no skill already planned.
   */
  lemma {:induction false} ValidateAcceptsExactly(skills: seq<SkillEntry>, reqs: seq<SkillRequest>, points: int, ups: seq<LevelUp>)
    ensures ValidateRequests(skills, reqs, points, ups).Ok? <==>
      && AllRequestsValid(skills, reqs)
      && DistinctRequests(reqs)
      && (forall i :: 0 <= i < |reqs| ==> !Planned(ups, reqs[i].skillId))
    decreases |reqs|
  {
    if |reqs| > 0 {
      var r := reqs[0];
      var tail := reqs[1..];
      assert forall i :: 1 <= i < |reqs| ==> reqs[i] == tail[i - 1];
      if r.skillId != -1 && LevelOf(skills, r.skillId).Some? {
        var oldLevel := LevelOf(skills, r.skillId).value;
        if !(r.level < oldLevel || r.level > MaxSkillLevel) && oldLevel >= 0 && !Planned(ups, r.skillId) {
          var extra := RequiredSkillLevelPoints(r.level) - RequiredSkillLevelPoints(oldLevel);
          var u := LevelUp(r.skillId, r.level - oldLevel);
          ValidateAcceptsExactly(skills, tail, points - extra, ups + [u]);
          PlannedAppend(ups, u);
        } else if Planned(ups, r.skillId) {
          assert !(forall i :: 0 <= i < |reqs| ==> !Planned(ups, reqs[i].skillId));
        } else {
          assert !RequestValid(skills, reqs[0]);
        }
      } else {
        assert !RequestValid(skills, reqs[0]);
      }
    }
  }

  /**
   * When the validation loop succeeds it leaves the reference cost subtracted
   * and the reference level-ups appended.
   */
  lemma {:induction false} ValidatePlansRequestedUps(skills: seq<SkillEntry>, reqs: seq<SkillRequest>, points: int, ups: seq<LevelUp>)
    requires ValidateRequests(skills, reqs, points, ups).Ok?
    ensures ValidateRequests(skills, reqs, points, ups).value
      == LevelUpPlan(points - ExtraCost(skills, reqs), ups + RequestedUps(skills, reqs))
    decreases |reqs|
  {
    if |reqs| > 0 {
      var r := reqs[0];
      var oldLevel := LevelOf(skills, r.skillId).value;
      var extra := RequiredSkillLevelPoints(r.level) - RequiredSkillLevelPoints(oldLevel);
      var u := LevelUp(r.skillId, r.level - oldLevel);
      assert ValidateRequests(skills, reqs, points, ups) == ValidateRequests(skills, reqs[1..], points - extra, ups + [u]);
      ValidatePlansRequestedUps(skills, reqs[1..], points - extra, ups + [u]);
      assert extra == SkillLevelCost(r.level) - SkillLevelCost(oldLevel);
      assert ExtraCost(skills, reqs) == extra + ExtraCost(skills, reqs[1..]);
      assert RequestedUps(skills, reqs) == [u] + RequestedUps(skills, reqs[1..]);
      assert ups + [u] + RequestedUps(skills, reqs[1..]) == ups + RequestedUps(skills, reqs);
    }
  }

  /** Appending a level-up plans exactly one more skill. */
  lemma PlannedAppend(ups: seq<LevelUp>, u: LevelUp)
    ensures forall id :: Planned(ups + [u], id) <==> Planned(ups, id) || id == u.skillId
  {
    var ups' := ups + [u];
    forall id ensures Planned(ups', id) <==> Planned(ups, id) || id == u.skillId {
      if Planned(ups', id) {
        var k :| 0 <= k < |ups'| && ups'[k].skillId == id;
        if k < |ups| { assert ups[k] == ups'[k]; }
      }
      if id == u.skillId { assert ups'[|ups|].skillId == id; }
      if Planned(ups, id) {
        var k :| 0 <= k < |ups| && ups[k].skillId == id;
        assert ups'[k] == ups[k];
      }
    }
  }

  /** Raising one skill changes the looked-up level of that skill only. */
  lemma {:induction false} LevelOfAddLevel(skills: seq<SkillEntry>, skillId: int, delta: int, other: int)
    ensures LevelOf(AddLevel(skills, skillId, delta), other) ==
      if other == skillId && LevelOf(skills, skillId).Some?
      then Some(LevelOf(skills, skillId).value + delta)
      else LevelOf(skills, other)
    decreases |skills|
  {
    if |skills| > 0 {
      LevelOfAddLevel(skills[1..], skillId, delta, other);
      assert AddLevel(skills, skillId, delta)[1..] == AddLevel(skills[1..], skillId, delta);
    }
  }

  /** The level a request leaves skill `id` at, starting from table `t`. */
  function ExpectedLevel(reqs: seq<SkillRequest>, t: seq<SkillEntry>, id: int): Option<int> {
    if RequestedLevel(reqs, id).Some? then RequestedLevel(reqs, id) else LevelOf(t, id)
  }

  /** A skill named by the first request is not named again by the rest of a duplicate-free request. */
  lemma HeadNotRequestedAgain(reqs: seq<SkillRequest>)
    requires |reqs| > 0 && DistinctRequests(reqs)
    ensures RequestedLevel(reqs[1..], reqs[0].skillId).None?
    ensures DistinctRequests(reqs[1..])
  {
    var tail := reqs[1..];
    forall i, j | 0 <= i < j < |tail| ensures tail[i].skillId != tail[j].skillId {
      assert reqs[i + 1] == tail[i] && reqs[j + 1] == tail[j];
    }
  }

  /**
   * Applying the level-ups of a valid, duplicate-free request to any skill
   * table that agrees with `skills` on the requested skills sets each of them
   * to its requested level and leaves every other skill as it was.
   */
  lemma {:induction false} ApplyRequestedUps(skills: seq<SkillEntry>, t: seq<SkillEntry>, reqs: seq<SkillRequest>, id: int)
    requires AllRequestsValid(skills, reqs) && DistinctRequests(reqs)
    requires forall i :: 0 <= i < |reqs| ==> LevelOf(t, reqs[i].skillId) == LevelOf(skills, reqs[i].skillId)
    ensures LevelOf(ApplyLevelUps(t, RequestedUps(skills, reqs)), id) == ExpectedLevel(reqs, t, id)
    decreases |reqs|
  {
    if |reqs| > 0 {
      var r := reqs[0];
      var tail := reqs[1..];
      HeadNotRequestedAgain(reqs);
      var oldLevel := LevelOf(skills, r.skillId).value;
      var t' := AddLevel(t, r.skillId, r.level - oldLevel);
      FirstUpKeepsAgreement(skills, t, reqs);
      ApplyRequestedUps(skills, t', tail, id);
      LevelOfAddLevel(t, r.skillId, r.level - oldLevel, id);
      assert RequestedUps(skills, reqs) == [LevelUp(r.skillId, r.level - oldLevel)] + RequestedUps(skills, tail);
      assert ApplyLevelUps(t, RequestedUps(skills, reqs)) == ApplyLevelUps(t', RequestedUps(skills, tail));
    }
  }

  /** The update of a successful LevelSkills sets exactly the requested levels. */
  lemma LevelSkillsSetsRequestedLevels(skills: seq<SkillEntry>, reqs: seq<SkillRequest>)
    requires AllRequestsValid(skills, reqs) && DistinctRequests(reqs)
    ensures forall id :: LevelOf(ApplyLevelUps(skills, RequestedUps(skills, reqs)), id) == ExpectedLevel(reqs, skills, id)
  {
    forall id ensures LevelOf(ApplyLevelUps(skills, RequestedUps(skills, reqs)), id) == ExpectedLevel(reqs, skills, id) {
      ApplyRequestedUps(skills, skills, reqs, id);
    }
  }

  /** Raising a skill the table does not hold changes nothing. */
  lemma {:induction false} AddLevelAbsent(skills: seq<SkillEntry>, skillId: int, delta: int)
    requires LevelOf(skills, skillId).None?
    ensures AddLevel(skills, skillId, delta) == skills
    decreases |skills|
  {
    if |skills| > 0 {
      AddLevelAbsent(skills[1..], skillId, delta);
    }
  }

  /** Raising one held skill changes the spent cost by the difference of its two level costs. */
  lemma {:induction false} SpentAfterAddLevel(skills: seq<SkillEntry>, skillId: int, delta: int)
    requires UniqueSkillIds(skills)
    requires LevelOf(skills, skillId).Some?
    ensures SpentSkillPoints(AddLevel(skills, skillId, delta)) ==
      SpentSkillPoints(skills) - SkillLevelCost(LevelOf(skills, skillId).value)
      + SkillLevelCost(LevelOf(skills, skillId).value + delta)
    decreases |skills|
  {
    var rest := skills[1..];
    assert UniqueSkillIds(rest) by {
      forall i, j | 0 <= i < j < |rest| ensures rest[i].skillId != rest[j].skillId {
        assert skills[i + 1] == rest[i] && skills[j + 1] == rest[j];
      }
    }
    assert AddLevel(skills, skillId, delta)[1..] == AddLevel(rest, skillId, delta);
    if skills[0].skillId == skillId {
      if LevelOf(rest, skillId).Some? {
        LevelOfMeansHeld(rest, skillId);
        assert false;
      }
      AddLevelAbsent(rest, skillId, delta);
    } else {
      SpentAfterAddLevel(rest, skillId, delta);
    }
  }

  /** A looked-up skill is held by some entry. */
  lemma {:induction false} LevelOfMeansHeld(skills: seq<SkillEntry>, skillId: int)
    requires LevelOf(skills, skillId).Some?
    ensures exists k :: 0 <= k < |skills| && skills[k].skillId == skillId
    decreases |skills|
  {
    if skills[0].skillId != skillId {
      LevelOfMeansHeld(skills[1..], skillId);
      var k :| 0 <= k < |skills[1..]| && skills[1..][k].skillId == skillId;
      assert skills[k + 1] == skills[1..][k];
    }
  }

  /**
   * Applying a valid, duplicate-free request to a table that agrees with
   * `skills` on the requested skills adds exactly the request's extra cost
   * to the spent points.
   */
  lemma {:induction false} SpentAfterRequestedUps(skills: seq<SkillEntry>, t: seq<SkillEntry>, reqs: seq<SkillRequest>)
    requires UniqueSkillIds(t)
    requires AllRequestsValid(skills, reqs) && DistinctRequests(reqs)
    requires forall i :: 0 <= i < |reqs| ==> LevelOf(t, reqs[i].skillId) == LevelOf(skills, reqs[i].skillId)
    ensures SpentSkillPoints(ApplyLevelUps(t, RequestedUps(skills, reqs))) == SpentSkillPoints(t) + ExtraCost(skills, reqs)
    decreases |reqs|
  {
    if |reqs| > 0 {
      var r := reqs[0];
      var tail := reqs[1..];
      var oldLevel := LevelOf(skills, r.skillId).value;
      var t' := AddLevel(t, r.skillId, r.level - oldLevel);
      FirstUpKeepsAgreement(skills, t, reqs);
      SpentAfterFirstUp(skills, t, reqs);
      SpentAfterRequestedUps(skills, t', tail);
      assert RequestedUps(skills, reqs) == [LevelUp(r.skillId, r.level - oldLevel)] + RequestedUps(skills, tail);
      assert ApplyLevelUps(t, RequestedUps(skills, reqs)) == ApplyLevelUps(t', RequestedUps(skills, tail));
    }
  }

  /**
   * After the first requested skill is raised, the rest of a valid,
   * duplicate-free request is still valid, duplicate-free and in agreement
   * between the raised table and `skills`.
   */
  lemma FirstUpKeepsAgreement(skills: seq<SkillEntry>, t: seq<SkillEntry>, reqs: seq<SkillRequest>)
    requires |reqs| > 0
    requires AllRequestsValid(skills, reqs) && DistinctRequests(reqs)
    requires forall i :: 0 <= i < |reqs| ==> LevelOf(t, reqs[i].skillId) == LevelOf(skills, reqs[i].skillId)
    ensures LevelOf(skills, reqs[0].skillId).Some?
    ensures var t' := AddLevel(t, reqs[0].skillId, reqs[0].level - LevelOf(skills, reqs[0].skillId).value);
      && AllRequestsValid(skills, reqs[1..]) && DistinctRequests(reqs[1..])
      && (forall i :: 0 <= i < |reqs[1..]| ==> LevelOf(t', reqs[1..][i].skillId) == LevelOf(skills, reqs[1..][i].skillId))
  {
    var r := reqs[0];
    var tail := reqs[1..];
    HeadNotRequestedAgain(reqs);
    assert RequestValid(skills, reqs[0]);
    var oldLevel := LevelOf(skills, r.skillId).value;
    var t' := AddLevel(t, r.skillId, r.level - oldLevel);
    forall i | 0 <= i < |tail| ensures LevelOf(t', tail[i].skillId) == LevelOf(skills, tail[i].skillId) {
      assert reqs[i + 1] == tail[i];
      assert reqs[0].skillId != reqs[i + 1].skillId;
      LevelOfAddLevel(t, r.skillId, r.level - oldLevel, tail[i].skillId);
    }
    assert AllRequestsValid(skills, tail) by {
      forall i | 0 <= i < |tail| ensures RequestValid(skills, tail[i]) {
        assert reqs[i + 1] == tail[i];
      }
    }
  }

  /** Raising the first requested skill keeps skill ids unique and adds that skill's extra cost. */
  lemma SpentAfterFirstUp(skills: seq<SkillEntry>, t: seq<SkillEntry>, reqs: seq<SkillRequest>)
    requires |reqs| > 0 && UniqueSkillIds(t)
    requires AllRequestsValid(skills, reqs) && DistinctRequests(reqs)
    requires forall i :: 0 <= i < |reqs| ==> LevelOf(t, reqs[i].skillId) == LevelOf(skills, reqs[i].skillId)
    ensures LevelOf(skills, reqs[0].skillId).Some?
    ensures var t' := AddLevel(t, reqs[0].skillId, reqs[0].level - LevelOf(skills, reqs[0].skillId).value);
      && UniqueSkillIds(t')
      && SpentSkillPoints(t') == SpentSkillPoints(t) + SkillLevelCost(reqs[0].level) - SkillLevelCost(LevelOf(skills, reqs[0].skillId).value)
  {
    var r := reqs[0];
    assert RequestValid(skills, reqs[0]);
    var oldLevel := LevelOf(skills, r.skillId).value;
    var t' := AddLevel(t, r.skillId, r.level - oldLevel);
    SpentAfterAddLevel(t, r.skillId, r.level - oldLevel);
    assert UniqueSkillIds(t') by {
      forall i, j | 0 <= i < j < |t'| ensures t'[i].skillId != t'[j].skillId {
        assert t'[i].skillId == t[i].skillId && t'[j].skillId == t[j].skillId;
      }
    }
  }

  /** A valid request never refunds points. */
  lemma {:induction false} ExtraCostNonNegative(skills: seq<SkillEntry>, reqs: seq<SkillRequest>)
    requires AllRequestsValid(skills, reqs)
    ensures ExtraCost(skills, reqs) >= 0
    decreases |reqs|
  {
    if |reqs| > 0 {
      assert RequestValid(skills, reqs[0]);
      RequiredPointsMonotone(LevelOf(skills, reqs[0].skillId).value, reqs[0].level);
      assert AllRequestsValid(skills, reqs[1..]) by {
        forall i | 0 <= i < |reqs[1..]| ensures RequestValid(skills, reqs[1..][i]) {
          assert reqs[i + 1] == reqs[1..][i];
        }
      }
      ExtraCostNonNegative(skills, reqs[1..]);
    }
  }

  /**
   * A successful LevelSkills spends exactly the request's extra cost: the
   * skill points left afterwards are the points before minus that cost, and
   * that is the value the allocation-point packet reports.
   */
  lemma LevelSkillsSpendsExactly(p: PlayerData, reqs: seq<SkillRequest>)
    requires UniqueSkillIds(p.skills)
    requires LevelSkills(p, reqs).outcome.Pass?
    ensures SkillPointsAvailable(LevelSkills(p, reqs).player) == SkillPointsAvailable(p) - ExtraCost(p.skills, reqs)
    ensures LevelSkills(p, reqs).sent[2].kind.skillPoints == SkillPointsAvailable(p) - ExtraCost(p.skills, reqs)
  {
    ValidateAcceptsExactly(p.skills, reqs, SkillPointsAvailable(p), []);
    ValidatePlansRequestedUps(p.skills, reqs, SkillPointsAvailable(p), []);
    assert [] + RequestedUps(p.skills, reqs) == RequestedUps(p.skills, reqs);
    SpentAfterRequestedUps(p.skills, p.skills, reqs);
    ExtraCostNonNegative(p.skills, reqs);
  }
}
