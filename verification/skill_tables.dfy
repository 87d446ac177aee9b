/**
 * The constant skill tables of the player manager: skill index -> skill id,
 * skill id -> skill index, and the cumulative point cost of each skill level.
 * The two index tables are written as `match` functions on the array index;
 * the 200-entry id table lists its non-empty cells, every other cell holds -1.
 */
module SkillTables {

  /** Number of entries of the skill index -> skill id array. */
  const SkillCount: int := 73

  /** Number of entries of the skill id -> skill index array. */
  const SkillIdLimit: int := 200

  /** Highest skill level. */
  const MaxSkillLevel: int := 5

  /** Marker for "no skill" in the id -> index table. */
  const NoSkill: int := -1

  /** Element `i` of the skill index -> skill id array (indexing outside it faults in the source). */
  function SkillIdOfIndex(i: int): int
    requires 0 <= i < SkillCount
  {
    match i
    case 0 => 1
    case 1 => 8
    case 2 => 14
    case 3 => 19
    case 4 => 20
    case 5 => 21
    case 6 => 22
    case 7 => 23
    case 8 => 24
    case 9 => 25
    case 10 => 26
    case 11 => 28
    case 12 => 30
    case 13 => 31
    case 14 => 32
    case 15 => 34
    case 16 => 35
    case 17 => 36
    case 18 => 37
    case 19 => 39
    case 20 => 40
    case 21 => 43
    case 22 => 47
    case 23 => 48
    case 24 => 49
    case 25 => 50
    case 26 => 54
    case 27 => 55
    case 28 => 57
    case 29 => 58
    case 30 => 63
    case 31 => 66
    case 32 => 67
    case 33 => 68
    case 34 => 72
    case 35 => 73
    case 36 => 77
    case 37 => 79
    case 38 => 80
    case 39 => 82
    case 40 => 89
    case 41 => 92
    case 42 => 102
    case 43 => 110
    case 44 => 111
    case 45 => 113
    case 46 => 114
    case 47 => 121
    case 48 => 135
    case 49 => 136
    case 50 => 147
    case 51 => 148
    case 52 => 149
    case 53 => 150
    case 54 => 151
    case 55 => 152
    case 56 => 153
    case 57 => 154
    case 58 => 155
    case 59 => 156
    case 60 => 157
    case 61 => 158
    case 62 => 159
    case 63 => 160
    case 64 => 161
    case 65 => 162
    case 66 => 163
    case 67 => 164
    case 68 => 165
    case 69 => 166
    case 70 => 172
    case 71 => 173
    case 72 => 174
    case _ => NoSkill
  }

  /** Element `id` of the skill id -> skill index array; -1 marks an unused id. */
  function SkillIndexOfIdCell(id: int): int
    requires 0 <= id < SkillIdLimit
  {
    match id
    case 1 => 0
    case 8 => 1
    case 14 => 2
    case 19 => 3
    case 20 => 4
    case 21 => 5
    case 22 => 6
    case 23 => 7
    case 24 => 8
    case 25 => 9
    case 26 => 10
    case 28 => 11
    case 30 => 12
    case 31 => 13
    case 32 => 14
    case 34 => 15
    case 35 => 16
    case 36 => 17
    case 37 => 18
    case 39 => 19
    case 40 => 20
    case 43 => 21
    case 47 => 22
    case 48 => 23
    case 49 => 24
    case 50 => 25
    case 54 => 26
    case 55 => 27
    case 57 => 28
    case 58 => 29
    case 63 => 30
    case 66 => 31
    case 67 => 32
    case 68 => 33
    case 72 => 34
    case 73 => 35
    case 77 => 36
    case 79 => 37
    case 80 => 38
    case 82 => 39
    case 89 => 40
    case 92 => 41
    case 102 => 42
    case 110 => 43
    case 111 => 44
    case 113 => 45
    case 114 => 46
    case 121 => 47
    case 135 => 48
    case 136 => 49
    case 147 => 50
    case 148 => 51
    case 149 => 52
    case 150 => 53
    case 151 => 54
    case 152 => 55
    case 153 => 56
    case 154 => 57
    case 155 => 58
    case 156 => 59
    case 157 => 60
    case 158 => 61
    case 159 => 62
    case 160 => 63
    case 161 => 64
    case 162 => 65
    case 163 => 66
    case 164 => 67
    case 165 => 68
    case 166 => 69
    case 172 => 70
    case 173 => 71
    case 174 => 72
    case _ => NoSkill
  }

  /** Cost table: points needed to bring a skill from level 0 to `level`. */
  function RequiredSkillLevelPoints(level: int): int
    requires 0 <= level <= MaxSkillLevel
  {
    match level
    case 0 => 0
    case 1 => 1
    case 2 => 3
    case 3 => 6
    case 4 => 10
    case _ => 15
  }

  /**
   * Skill index of a skill id. Ids below 0 or from 200 on give -1 instead of
   * indexing outside the table; inside it the table cell is returned, which is
   * either -1 or an index whose skill id is `skillId` again.
   */
  function GetSkillIndexById(skillId: int): (r: int)
    ensures r == NoSkill || 0 <= r < SkillCount
    ensures (skillId < 0 || skillId >= SkillIdLimit) ==> r == NoSkill
    ensures r != NoSkill ==> SkillIdOfIndex(r) == skillId
  {
    if skillId < 0 then NoSkill
    else if skillId >= SkillIdLimit then NoSkill
    else SkillIndexOfIdCell(skillId)
  }

  /** Every skill index maps to a valid skill id whose lookup gives the index back. */
  lemma SkillIndexRoundTrip(i: int)
    requires 0 <= i < SkillCount
    ensures 0 <= SkillIdOfIndex(i) < SkillIdLimit
    ensures GetSkillIndexById(SkillIdOfIndex(i)) == i
  {
  }

  /** The two tables are inverse bijections between the 73 indices and the used skill ids. */
  lemma SkillTablesAreInverse(skillId: int)
    ensures GetSkillIndexById(skillId) != NoSkill <==>
              exists i :: 0 <= i < SkillCount && SkillIdOfIndex(i) == skillId
  {
    if exists i :: 0 <= i < SkillCount && SkillIdOfIndex(i) == skillId {
      var i :| 0 <= i < SkillCount && SkillIdOfIndex(i) == skillId;
      SkillIndexRoundTrip(i);
    }
  }

  /** The cost of a level is the triangular number 0+1+...+level. */
  lemma RequiredPointsAreTriangular(level: int)
    requires 0 <= level <= MaxSkillLevel
    ensures 2 * RequiredSkillLevelPoints(level) == level * (level + 1)
  {
  }

  /** Raising a skill never costs negative points: the cost table is monotone. */
  lemma RequiredPointsMonotone(lo: int, hi: int)
    requires 0 <= lo <= hi <= MaxSkillLevel
    ensures RequiredSkillLevelPoints(lo) <= RequiredSkillLevelPoints(hi)
    ensures lo < hi ==> RequiredSkillLevelPoints(lo) < RequiredSkillLevelPoints(hi)
  {
  }
}
