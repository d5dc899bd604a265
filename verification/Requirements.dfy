/** How a homework row becomes a training target, and when that target is one the engine can recommend. */
module Requirements {
  import opened Options
  import opened Numbers
  import opened Frontier

  /** The merged number fields of a row; None is a field nobody gave. */
  datatype Fields = Fields(elite: Option<int>, level: Option<int>, skillLevel: Option<int>, potentiality: Option<int>)

  /** What the catalogue knows about the operator. */
  datatype Operator = Operator(rarity: int, skills: nat, maxLevel: Option<seq<int>>)

  datatype Warning = BadSkill | OverLimit

  datatype Requirement = Requirement(target: Target, warnings: set<Warning>)

  function Given(field: Option<int>, fallback: int): int { if field.Some? then field.value else fallback }

  /** The elite phase the skill number and the skill level ask for on their own. */
  function SkillPhase(skill: int, skillLevel: int): int {
    if skill == 3 || skillLevel > 7 then 2 else if skill == 2 || skillLevel > 4 then 1 else 0
  }

  function Skill(row: Option<int>, operator: Operator): int { if operator.skills == 0 then 0 else Given(row, 1) }

  function SkillLevel(row: Option<int>, fields: Fields, operator: Operator): int {
    if Skill(row, operator) == 0 then 1 else Given(fields.skillLevel, 1)
  }

  /**
   What a row asks of a target: the elite phase that was given, that the skill needs and that the module
   needs; the given level in the given phase; and the unlock level in the module's own phase.
   */
  ghost predicate Demanded(row: Option<int>, fields: Fields, operator: Operator, moduleId: Option<string>, unlock: Option<Unlock>, t: Target) {
    var elite := Given(fields.elite, 0);
    && t.skill == Skill(row, operator) && t.moduleId == moduleId
    && t.skillLevel >= SkillLevel(row, fields, operator) && t.potential >= Given(fields.potentiality, 1)
    && t.elite >= elite && t.elite >= SkillPhase(t.skill, SkillLevel(row, fields, operator))
    && (t.elite == elite ==> t.level >= Given(fields.level, 1))
    && (t.elite > elite ==> t.level >= 1)
    && (unlock.Some? ==> t.elite >= unlock.value.phase)
    && (unlock.Some? && t.elite == unlock.value.phase ==> t.level >= unlock.value.level)
  }

  /** The skill number does not name a skill the operator has. */
  predicate NoSuchSkill(row: Option<int>, operator: Operator) {
    operator.skills > 0 && !(1 <= Given(row, 1) <= Min(3, operator.skills))
  }

  /** Some field exceeds what the operator can reach. */
  predicate Exceeds(operator: Operator, t: Target) {
    || operator.maxLevel.None?
    || t.elite < 0 || t.elite >= |operator.maxLevel.value|
    || t.level < 1 || t.level > operator.maxLevel.value[t.elite]
    || t.skillLevel < 1 || (operator.rarity <= 3 && t.skillLevel > 7) || t.skillLevel > 10
    || t.potential < 1 || t.potential > 6
  }

  /** The requirement of a row: the least target it asks for, and a warning for each thing that is wrong. */
  ghost predicate Parsed(row: Option<int>, fields: Fields, operator: Operator, moduleId: Option<string>, unlock: Option<Unlock>, r: Requirement) {
    && Demanded(row, fields, operator, moduleId, unlock, r.target)
    && (forall t :: Demanded(row, fields, operator, moduleId, unlock, t) ==> Covers(t, r.target))
    && (BadSkill in r.warnings <==> NoSuchSkill(row, operator))
    && (OverLimit in r.warnings <==> Exceeds(operator, r.target))
  }

  method Parse(row: Option<int>, fields: Fields, operator: Operator, moduleId: Option<string>, unlock: Option<Unlock>)
    returns (r: Requirement)
    requires moduleId.Some? <==> unlock.Some?
    ensures Parsed(row, fields, operator, moduleId, unlock, r)
  {
    var warnings: set<Warning> := {};
    var skill := if operator.skills == 0 then 0 else Given(row, 1);
    if skill < 0 || skill > 3 || (skill == 0 && operator.skills != 0) || (operator.skills > 0 && skill > operator.skills) {
      warnings := warnings + {BadSkill};
    }
    var skillLevel := if skill == 0 then 1 else Given(fields.skillLevel, 1);
    var elite := Max(Given(fields.elite, 0), SkillPhase(skill, skillLevel));
    var level := if elite == Given(fields.elite, 0) then Given(fields.level, 1) else 1;
    if unlock.Some? {
      var phase := unlock.value.phase;
      if elite <= phase {
        level := Max(if elite == phase then level else 1, unlock.value.level);
        elite := phase;
      }
    }
    var target := Target(skill, moduleId, elite, level, skillLevel, Given(fields.potentiality, 1));
    if operator.maxLevel.None? || elite < 0 || elite >= |operator.maxLevel.value| || level < 1 || level > operator.maxLevel.value[elite]
       || skillLevel < 1 || skillLevel > (if operator.rarity <= 3 then 7 else 10) || target.potential < 1 || target.potential > 6 {
      warnings := warnings + {OverLimit};
    }
    r := Requirement(target, warnings);
  }

  /** A row has one requirement. */
  lemma ParsedOnce(row: Option<int>, fields: Fields, operator: Operator, moduleId: Option<string>, unlock: Option<Unlock>, r: Requirement, q: Requirement)
    requires Parsed(row, fields, operator, moduleId, unlock, r) && Parsed(row, fields, operator, moduleId, unlock, q)
    ensures r == q
  {
    CoversOrder(r.target, q.target, r.target);
    forall w: Warning ensures w in r.warnings <==> w in q.warnings {
      assert w == BadSkill || w == OverLimit;
    }
  }

  /** Elite and level the row asks for itself, before the module has its say. */
  function OwnTraining(row: Option<int>, fields: Fields, operator: Operator): (int, int) {
    var phase := SkillPhase(Skill(row, operator), SkillLevel(row, fields, operator));
    if Given(fields.elite, 0) >= phase then (Given(fields.elite, 0), Given(fields.level, 1)) else (phase, 1)
  }

  /** The row's own training stays unless the module's phase is as high; then the unlock level counts too. */
  lemma TargetTraining(row: Option<int>, fields: Fields, operator: Operator, moduleId: Option<string>, unlock: Option<Unlock>, r: Requirement)
    requires Parsed(row, fields, operator, moduleId, unlock, r)
    ensures var (elite, level) := OwnTraining(row, fields, operator);
            && (unlock.None? || elite > unlock.value.phase ==> r.target.elite == elite && r.target.level == level)
            && (unlock.Some? && elite <= unlock.value.phase ==>
                  r.target.elite == unlock.value.phase && r.target.level >= unlock.value.level && (elite == r.target.elite ==> r.target.level >= level))
  {
    var (elite, level) := OwnTraining(row, fields, operator);
    var t := r.target;
    if unlock.None? || elite > unlock.value.phase {
      assert Demanded(row, fields, operator, moduleId, unlock, t.(elite := elite, level := level));
    } else {
      var most := Max(Max(level, 1), unlock.value.level);
      assert Demanded(row, fields, operator, moduleId, unlock, t.(elite := unlock.value.phase, level := most));
    }
  }

  /** A row without warnings is what the engine's loops take: within the limits, but perhaps below the unlock level. */
  lemma CleanRowIsReady(row: Option<int>, fields: Fields, operator: Operator, moduleId: Option<string>, unlock: Option<Unlock>, r: Requirement)
    requires Parsed(row, fields, operator, moduleId, unlock, r) && r.warnings == {}
    ensures Ready(Limits(operator.maxLevel.value, unlock), r.target) && 0 <= r.target.elite < |operator.maxLevel.value|
  {
    assert BadSkill !in r.warnings && OverLimit !in r.warnings;
    var least := r.target.(skillLevel := SkillLevel(row, fields, operator));
    assert Demanded(row, fields, operator, moduleId, unlock, least);
  }

  /**
   A row without warnings is feasible exactly when it has no module, or its own elite phase does not
   exceed the module's unlock phase, or its own level already meets the unlock level.
   */
  lemma CleanRowIsFeasible(row: Option<int>, fields: Fields, operator: Operator, moduleId: Option<string>, unlock: Option<Unlock>, r: Requirement)
    requires Parsed(row, fields, operator, moduleId, unlock, r) && r.warnings == {}
    ensures Feasible(Limits(operator.maxLevel.value, unlock), r.target) <==>
            var (elite, level) := OwnTraining(row, fields, operator);
            unlock.None? || elite <= unlock.value.phase || level >= unlock.value.level
  {
    CleanRowIsReady(row, fields, operator, moduleId, unlock, r);
    TargetTraining(row, fields, operator, moduleId, unlock, r);
  }
}
