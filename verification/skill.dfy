/**
 * Skill types and skill instances of the current engine
 * (addons/source-python/plugins/rpg/skill.py).
 */
module SkillTypes {
  import opened Results
  import opened EventArgs

  /** A level cap; `Unbounded` is Python's `math.inf`. */
  datatype MaxLevel = Unbounded | AtMost(cap: int) {
    /** `max_level > level`. */
    predicate Exceeds(level: int) {
      Unbounded? || cap > level
    }
  }

  /**
   * The shared, read-only definition of a skill. An event callback may be
   * registered as `None`, which `Trigger` treats like a missing entry.
   */
  datatype SkillType = SkillType(
    key: string,
    langStrings: Option<StringsId>,
    maxLevel: MaxLevel,
    variables: Variables,
    initCallback: Option<CallbackId>,
    eventCallbacks: map<string, Option<CallbackId>>)

  /**
   * `SkillType(key, ...)` with its keyword defaults: an omitted `max_level`
   * is unbounded, and a `None` (or omitted) `variables` or
   * `event_callbacks` becomes an empty mapping.
   */
  function NewSkillType(
    key: string,
    langStrings: Option<StringsId>,
    maxLevel: Option<MaxLevel>,
    variables: Option<Variables>,
    initCallback: Option<CallbackId>,
    eventCallbacks: Option<map<string, Option<CallbackId>>>): (t: SkillType)
    ensures t.key == key && t.langStrings == langStrings && t.initCallback == initCallback
    ensures maxLevel.None? ==> t.maxLevel == Unbounded
    ensures maxLevel.Some? ==> t.maxLevel == maxLevel.value
    ensures variables.None? ==> t.variables == map[]
    ensures variables.Some? ==> t.variables == variables.value
    ensures eventCallbacks.None? ==> t.eventCallbacks == map[]
    ensures eventCallbacks.Some? ==> t.eventCallbacks == eventCallbacks.value
  {
    SkillType(key, langStrings, maxLevel.GetOr(Unbounded), variables.GetOr(map[]),
              initCallback, eventCallbacks.GetOr(map[]))
  }

  /**
   * One call of a callback: which callback, the event name it was looked up
   * under, the type's strings and variables, and the remaining keyword arguments.
   */
  datatype Invocation = Invocation(
    event: string,
    callback: CallbackId,
    strings: Option<StringsId>,
    variables: Variables,
    args: Args)

  /**
   * A player's instance of a skill type: a reference to the shared type and
   * a level. Everything else is read through the type.
   */
  datatype Skill = Skill(kind: SkillType, level: int) {
    function Key(): string { kind.key }

    function MaxLevel(): MaxLevel { kind.maxLevel }

    function InitCallback(): Option<CallbackId> { kind.initCallback }

    function EventCallbacks(): map<string, Option<CallbackId>> { kind.eventCallbacks }

    /** Credits an upgrade from the current level costs. */
    function UpgradeCost(): int { (level + 1) * 5 }

    /** Credits a downgrade from the current level gives back. */
    function DowngradeRefund(): int { level * 4 }

    /** Whether an event name has a callback that is not `None`. */
    predicate Handles(event: string) {
      event in kind.eventCallbacks && kind.eventCallbacks[event].Some?
    }
  }

  /** A fresh level-0 skill of the given type, as `Skill(skill_type)`. */
  function NewSkill(kind: SkillType): (s: Skill)
    ensures s.Key() == kind.key && s.MaxLevel() == kind.maxLevel && s.EventCallbacks() == kind.eventCallbacks
    ensures s.level == 0
  {
    Skill(kind, 0)
  }

  /**
   * `Skill.trigger`: nothing happens when the event is absent or its
   * callback is `None`; otherwise exactly one callback is invoked, with
   * `skill` set to this skill and the type's strings and variables.
   */
  function Trigger(s: Skill, event: string, args: Args): (r: Option<Invocation>)
    ensures r.None? <==> !s.Handles(event)
    ensures r.Some? ==> r.value.callback == s.kind.eventCallbacks[event].value
    ensures r.Some? ==> r.value.event == event
    ensures r.Some? ==> r.value.strings == s.kind.langStrings && r.value.variables == s.kind.variables
    ensures r.Some? ==> r.value.args == args["skill" := SkillRef(s.Key())]
  {
    if event !in s.EventCallbacks() then None
    else
      match s.EventCallbacks()[event]
      case None => None
      case Some(callback) =>
        Some(Invocation(event, callback, s.kind.langStrings, s.kind.variables, args["skill" := SkillRef(s.Key())]))
  }

  /** Upgrading costs five credits per level reached. */
  lemma UpgradeCostGrows(s: Skill)
    ensures s.level >= 0 ==> s.UpgradeCost() >= 5
    ensures s.(level := s.level + 1).UpgradeCost() == s.UpgradeCost() + 5
  {
  }

  /**
   * Downgrading from the level an upgrade reached refunds strictly less than
   * the upgrade cost: the player loses `level + 1` credits on the round trip.
   */
  lemma RefundBelowCost(s: Skill)
    requires s.level >= 0
    ensures s.(level := s.level + 1).DowngradeRefund() < s.UpgradeCost()
    ensures s.UpgradeCost() - s.(level := s.level + 1).DowngradeRefund() == s.level + 1
  {
  }

  /** Changing a skill's level changes nothing read from its type. */
  lemma LevelDoesNotTouchType(s: Skill, level: int)
    ensures s.(level := level).Key() == s.Key()
    ensures s.(level := level).MaxLevel() == s.MaxLevel()
    ensures s.(level := level).EventCallbacks() == s.EventCallbacks()
    ensures forall e :: Trigger(s.(level := level), e, map[]) == Trigger(s, e, map[])
  {
  }
}
