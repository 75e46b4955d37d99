/**
 * The legacy engine's two skills (rpg/skills.py): `Health`, which adds
 * health on spawn, and `Regenerate`, which heals on a repeating tick
 * from being hurt until death, up to the cap that the player's `Health`
 * skill allows.
 */
module LegacySkillEffects {
  import opened Results
  import opened OrderedMaps
  import opened LegacySkills
  import SkillEffects

  type Repeat = SkillEffects.Repeat
  type Tick = SkillEffects.Tick

  /**
   * The `Health` class. Only the functions of a class body matter to its
   * table; the other names Python puts there carry no `_events`.
   */
  const HealthClass: SkillClass := SkillClass(
    "Health", "Health", "Gain +25 health for each level on spawn.",
    [Entry("_spawn", AttrValue("Health._spawn", Some(["player_spawn"])))],
    None)

  /** The `Regenerate` class. */
  const RegenerateClass: SkillClass := SkillClass(
    "Regenerate", "Regenerate", "Regenerate +1 health for each level every second.",
    [Entry("__init__", AttrValue("Regenerate.__init__", None)),
     Entry("_start_repeat", AttrValue("Regenerate._start_repeat", Some(["player_victim"]))),
     Entry("_stop_repeat", AttrValue("Regenerate._stop_repeat", Some(["player_death"]))),
     Entry("_tick", AttrValue("Regenerate._tick", None)),
     Entry("_find_health_skill", AttrValue("Regenerate._find_health_skill", None))],
    None)

  /** Registering a value listed under one event sets just that entry. */
  lemma RegisterSingle(table: map<string, FunctionId>, id: FunctionId, e: string)
    ensures Register(table, AttrValue(id, Some([e]))) == table[e := id]
  {
    var r := Register(table, AttrValue(id, Some([e])));
    assert forall k :: k in r <==> k in table[e := id];
  }

  /** `Health` reacts to spawning only. */
  lemma HealthTable()
    ensures ClassTable(HealthClass) == map["player_spawn" := "Health._spawn"]
  {
    var vs := Values(HealthClass.attrs);
    assert vs == [HealthClass.attrs[0].value];
    assert vs[..0] == [];
    RegisterSingle(map[], "Health._spawn", "player_spawn");
  }

  /** `Regenerate` starts on being hurt and stops on death; its other functions are not callbacks. */
  lemma RegenerateTable()
    ensures ClassTable(RegenerateClass)
            == map["player_victim" := "Regenerate._start_repeat", "player_death" := "Regenerate._stop_repeat"]
  {
    var a := RegenerateClass.attrs;
    var vs := Values(a);
    assert vs == [a[0].value] + [a[1].value] + [a[2].value] + [a[3].value] + [a[4].value];
    var t1 := map["player_victim" := "Regenerate._start_repeat"];
    var t2 := t1["player_death" := "Regenerate._stop_repeat"];
    CallbackTableSnoc([], a[0].value);
    CallbackTableSnoc([a[0].value], a[1].value);
    RegisterSingle(map[], "Regenerate._start_repeat", "player_victim");
    CallbackTableSnoc([a[0].value] + [a[1].value], a[2].value);
    RegisterSingle(t1, "Regenerate._stop_repeat", "player_death");
    CallbackTableSnoc([a[0].value] + [a[1].value] + [a[2].value], a[3].value);
    CallbackTableSnoc([a[0].value] + [a[1].value] + [a[2].value] + [a[3].value], a[4].value);
  }

  /** Neither class caps its level. */
  lemma LegacyClassesUncapped()
    ensures HealthClass.maxLevel.None? && RegenerateClass.maxLevel.None?
  {
  }

  /** `Health` displays under its class name. */
  lemma HealthDisplayName()
    ensures DisplayName(HealthClass.name) == "Health"
  {
    DisplayNameKeepsPlainNames(HealthClass.name);
  }

  /** `Regenerate` displays under its class name. */
  lemma RegenerateDisplayName()
    ensures DisplayName(RegenerateClass.name) == "Regenerate"
  {
    DisplayNameKeepsPlainNames(RegenerateClass.name);
  }

  /** `Health._spawn`: 25 health per level is added to the spawn health. */
  function HealthSpawn(health: int, level: int): (r: int)
    ensures r - health == 25 * level
  {
    health + level * 25
  }

  /** The spawn bonus is the same in both generations. */
  lemma SpawnBonusUnchanged(health: int, level: int)
    ensures HealthSpawn(health, level) == SkillEffects.HealthOnSpawn(health, level)
  {
  }

  /**
   * `Regenerate._find_health_skill`: the position of the first of the
   * player's skills whose class is exactly `Health`.
   */
  function FindHealthSkill(skills: seq<Skill>): (r: Option<nat>)
    ensures r.Some? ==> r.value < |skills| && skills[r.value].cls == HealthClass
    ensures r.Some? ==> forall j :: 0 <= j < r.value ==> skills[j].cls != HealthClass
    ensures r.None? <==> forall j :: 0 <= j < |skills| ==> skills[j].cls != HealthClass
    decreases |skills|
  {
    if skills == [] then None
    else if skills[0].cls == HealthClass then Some(0)
    else
      match FindHealthSkill(skills[1..])
      case None => None
      case Some(k) => Some(k + 1)
  }

  /** The regeneration cap: 100, plus 25 per level of the `Health` skill found, if any. */
  function RegenerateCap(healthLevel: Option<int>): int {
    100 + (if healthLevel.Some? then healthLevel.value * 25 else 0)
  }

  /**
   * `Regenerate._tick`: below the cap, heal by the level but not past the
   * cap and keep going; at or above it, stop and leave health alone.
   */
  function RegenerateTick(health: int, level: int, healthLevel: Option<int>): (r: Tick)
    ensures health < RegenerateCap(healthLevel) ==>
      r.repeat == SkillEffects.Running && r.value == SkillEffects.Min(health + level, RegenerateCap(healthLevel))
    ensures health >= RegenerateCap(healthLevel) ==> r == SkillEffects.Tick(health, SkillEffects.Stopped)
  {
    var cap := RegenerateCap(healthLevel);
    if health < cap then SkillEffects.Tick(SkillEffects.Min(health + level, cap), SkillEffects.Running)
    else SkillEffects.Tick(health, SkillEffects.Stopped)
  }

  /** Without a `Health` skill the cap is the base 100, as with a level-0 one. */
  lemma MissingHealthSkillCountsAsZero()
    ensures RegenerateCap(None) == RegenerateCap(Some(0)) == SkillEffects.MaxHealth(0)
  {
  }

  /**
   * Unlike the current `Regeneration`, the legacy tick that reaches the cap
   * keeps the repeat running; only the next tick stops it. Health above the
   * cap is left as it is, where the current tick cuts it.
   */
  lemma LegacyTickStopsOneLater(health: int, level: int, healthLevel: int)
    requires health < SkillEffects.MaxHealth(healthLevel) <= health + level
    ensures RegenerateTick(health, level, Some(healthLevel))
            == SkillEffects.Tick(SkillEffects.MaxHealth(healthLevel), SkillEffects.Running)
    ensures RegenerateTick(SkillEffects.MaxHealth(healthLevel), level, Some(healthLevel))
            == SkillEffects.Tick(SkillEffects.MaxHealth(healthLevel), SkillEffects.Stopped)
    ensures SkillEffects.RegenerationTick(health, level, healthLevel)
            == SkillEffects.Tick(SkillEffects.MaxHealth(healthLevel), SkillEffects.Stopped)
  {
  }

  /** A player above the cap keeps the surplus through a legacy tick. */
  lemma LegacyTickKeepsSurplus(health: int, level: int, healthLevel: Option<int>)
    requires health > RegenerateCap(healthLevel)
    ensures RegenerateTick(health, level, healthLevel).value == health
  {
  }

  /**
   * A `Regenerate` skill's repeat: whether it runs, and the position of the
   * `Health` skill captured as the tick's argument when it was started.
   */
  datatype Regen = Regen(repeat: Repeat, healthSkill: Option<nat>)

  /** The effect of a `Regenerate` callback call on its repeat. */
  function RunRegenerateCallback(c: Call, skills: seq<Skill>, st: Regen): (r: Regen)
    ensures c.callback == "Regenerate._start_repeat" ==>
      r.repeat == SkillEffects.Running && r.healthSkill == FindHealthSkill(skills)
    ensures c.callback == "Regenerate._stop_repeat" ==> r == st.(repeat := SkillEffects.Stopped)
    ensures c.callback !in {"Regenerate._start_repeat", "Regenerate._stop_repeat"} ==> r == st
  {
    if c.callback == "Regenerate._start_repeat" then Regen(SkillEffects.Running, FindHealthSkill(skills))
    else if c.callback == "Regenerate._stop_repeat" then st.(repeat := SkillEffects.Stopped)
    else st
  }

  /** An event delivered to a `Regenerate` skill through `execute_callback`. */
  function RegenerateOnEvent(s: Skill, event: string, skills: seq<Skill>, st: Regen): (r: Regen)
    requires s.cls == RegenerateClass
  {
    match ExecuteCallback(s, event, map[])
    case None => st
    case Some(c) => RunRegenerateCallback(c, skills, st)
  }

  /** Being hurt starts the repeat, capturing the player's `Health` skill. */
  lemma RegenerateStartsOnHurt(s: Skill, skills: seq<Skill>, st: Regen)
    requires s.cls == RegenerateClass
    ensures RegenerateOnEvent(s, "player_victim", skills, st) == Regen(SkillEffects.Running, FindHealthSkill(skills))
  {
    RegenerateTable();
    assert ExecuteCallback(s, "player_victim", map[]) == Some(Call("Regenerate._start_repeat", s, map[]));
  }

  /** Death stops the repeat. */
  lemma RegenerateStopsOnDeath(s: Skill, skills: seq<Skill>, st: Regen)
    requires s.cls == RegenerateClass
    ensures RegenerateOnEvent(s, "player_death", skills, st) == st.(repeat := SkillEffects.Stopped)
  {
    RegenerateTable();
    assert ExecuteCallback(s, "player_death", map[]) == Some(Call("Regenerate._stop_repeat", s, map[]));
  }

  /** Every other event leaves the repeat alone. */
  lemma RegenerateIgnoresOthers(s: Skill, event: string, skills: seq<Skill>, st: Regen)
    requires s.cls == RegenerateClass
    requires event != "player_victim" && event != "player_death"
    ensures RegenerateOnEvent(s, event, skills, st) == st
  {
    RegenerateTable();
    OnlyTwoEvents(ClassTable(s.cls), event);
  }

  /** An event other than hurt and death is not in a table keyed by those two. */
  lemma OnlyTwoEvents(table: map<string, FunctionId>, event: string)
    requires table == map["player_victim" := "Regenerate._start_repeat", "player_death" := "Regenerate._stop_repeat"]
    requires event != "player_victim" && event != "player_death"
    ensures event !in table
  {
  }

  /**
   * A tick of a running `Regenerate` skill of `level`: the cap comes from
   * the captured `Health` skill's level at tick time.
   */
  function RegenerateTickOn(health: int, level: int, skills: seq<Skill>, st: Regen): (r: Tick)
    ensures st.healthSkill.None? || st.healthSkill.value >= |skills| ==> r == RegenerateTick(health, level, None)
    ensures st.healthSkill.Some? && st.healthSkill.value < |skills| ==>
      r == RegenerateTick(health, level, Some(skills[st.healthSkill.value].level))
  {
    var healthLevel := if st.healthSkill.Some? && st.healthSkill.value < |skills|
                       then Some(skills[st.healthSkill.value].level) else None;
    RegenerateTick(health, level, healthLevel)
  }
}
