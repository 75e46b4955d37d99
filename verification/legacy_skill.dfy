/**
 * The legacy engine's skill base (rpg/skill.py): the `callback`
 * decorator, the metaclass that builds each skill class's table from
 * event name to callback, the names derived from the class, the
 * upgrade/downgrade economy and callback execution.
 */
module LegacySkills {
  import opened Results
  import opened EventArgs
  import opened OrderedMaps
  import SkillTypes

  /** Identity of a function defined in a skill class body. */
  type FunctionId = string

  /**
   * A value bound in a class body. `events` is the `_events` attribute the
   * `callback` decorator sets; `None` when the value has none.
   */
  datatype AttrValue = AttrValue(id: FunctionId, events: Option<seq<string>>)

  /** `callback(*event_names)(f)`: records the names on the function and returns it. */
  function Callback(eventNames: seq<string>, f: AttrValue): (r: AttrValue)
    ensures r.id == f.id
    ensures r.events == Some(eventNames)
  {
    f.(events := Some(eventNames))
  }

  /** Of two stacked decorators, the outer one (applied last) decides the events. */
  lemma OuterCallbackWins(outer: seq<string>, inner: seq<string>, f: AttrValue)
    ensures Callback(outer, Callback(inner, f)) == Callback(outer, f)
  {
  }

  /**
   * A skill class: its `__name__`, `__qualname__`, docstring, the
   * attributes of its own class body in definition order, and its
   * `max_level` (`None`, the base class's value, means unbounded).
   */
  datatype SkillClass = SkillClass(
    name: string,
    qualname: string,
    doc: string,
    attrs: seq<Entry<AttrValue>>,
    maxLevel: Option<int>)

  /** Whether a class-body value is registered under `event`. */
  predicate Lists(a: AttrValue, event: string) {
    a.events.Some? && event in a.events.value
  }

  /** One value's registration: each of its event names now maps to it. */
  function Register(table: map<string, FunctionId>, a: AttrValue): (r: map<string, FunctionId>)
    ensures forall e :: e in r <==> e in table || Lists(a, e)
    ensures forall e :: e in r ==> r[e] == (if Lists(a, e) then a.id else table[e])
  {
    if a.events.None? then table
    else table + map e | e in a.events.value :: a.id
  }

  /**
   * `_SkillMeta.__init__`: the values of the class body are registered in
   * definition order into a fresh table.
   */
  function CallbackTable(attrs: seq<AttrValue>): (r: map<string, FunctionId>)
    ensures forall e :: e in r <==> exists i :: 0 <= i < |attrs| && Lists(attrs[i], e)
    decreases |attrs|
  {
    if attrs == [] then map[]
    else
      var r := Register(CallbackTable(attrs[..|attrs| - 1]), attrs[|attrs| - 1]);
      assert forall i :: 0 <= i < |attrs| - 1 ==> attrs[..|attrs| - 1][i] == attrs[i];
      r
  }

  /** Registering one more value extends the table of the values before it. */
  lemma CallbackTableSnoc(front: seq<AttrValue>, a: AttrValue)
    ensures CallbackTable(front + [a]) == Register(CallbackTable(front), a)
  {
    assert (front + [a])[..|front|] == front;
  }

  /** An event's callback is the last value in definition order listing it. */
  lemma {:induction false} LastDefinitionWins(attrs: seq<AttrValue>, i: nat, e: string)
    requires i < |attrs| && Lists(attrs[i], e)
    requires forall j :: i < j < |attrs| ==> !Lists(attrs[j], e)
    ensures e in CallbackTable(attrs) && CallbackTable(attrs)[e] == attrs[i].id
    decreases |attrs|
  {
    if i < |attrs| - 1 {
      var front := attrs[..|attrs| - 1];
      assert front[i] == attrs[i];
      forall j | i < j < |front|
        ensures !Lists(front[j], e)
      {
        assert front[j] == attrs[j];
      }
      LastDefinitionWins(front, i, e);
    }
  }

  /** The table of a class is built from its own body alone. */
  function ClassTable(c: SkillClass): (r: map<string, FunctionId>)
    ensures forall e :: e in r <==> exists i :: 0 <= i < |c.attrs| && Lists(c.attrs[i].value, e)
  {
    var r := CallbackTable(Values(c.attrs));
    assert forall i :: 0 <= i < |c.attrs| ==> Values(c.attrs)[i] == c.attrs[i].value;
    r
  }

  /**
   * Callbacks are not inherited: a subclass whose own body registers
   * nothing has an empty table, whatever its base class registered.
   */
  lemma NoInheritedCallbacks(c: SkillClass)
    requires forall i :: 0 <= i < |c.attrs| ==> c.attrs[i].value.events.None?
    ensures ClassTable(c) == map[]
  {
  }

  /** `Skill.class_id`: the qualified class name. */
  function ClassId(c: SkillClass): (r: string)
    ensures r == c.qualname
  {
    c.qualname
  }

  /** `Skill.name`: the class name with every underscore turned into a space. */
  function DisplayName(n: string): (r: string)
    ensures |r| == |n|
    ensures '_' !in r
    ensures forall i :: 0 <= i < |n| && n[i] != '_' ==> r[i] == n[i]
    ensures forall i :: 0 <= i < |n| && n[i] == '_' ==> r[i] == ' '
    decreases |n|
  {
    if n == [] then []
    else [if n[0] == '_' then ' ' else n[0]] + DisplayName(n[1..])
  }

  /** A name without underscores is its own display name. */
  lemma {:induction false} DisplayNameKeepsPlainNames(n: string)
    requires '_' !in n
    ensures DisplayName(n) == n
    decreases |n|
  {
    if n != [] {
      DisplayNameKeepsPlainNames(n[1..]);
    }
  }

  /** A skill instance: its class and its level. */
  datatype Skill = Skill(cls: SkillClass, level: int) {
    /** `upgrade_cost`. */
    function UpgradeCost(): int { (level + 1) * 5 }

    /** `downgrade_refund`. */
    function DowngradeRefund(): int { level * 4 }

    /** `name` read through the instance. */
    function Name(): string { DisplayName(cls.name) }
  }

  /** `Skill(level=0)`: a new instance starts at level 0 unless told otherwise. */
  function NewSkill(c: SkillClass): (s: Skill)
    ensures s.cls == c && s.level == 0
  {
    Skill(c, 0)
  }

  /** Refunding a level always gives back less than it cost, by exactly the new level. */
  lemma LegacyRefundBelowCost(s: Skill)
    requires s.level >= 0
    ensures s.(level := s.level + 1).DowngradeRefund() < s.UpgradeCost()
    ensures s.UpgradeCost() - s.(level := s.level + 1).DowngradeRefund() == s.level + 1
  {
  }

  /** Both generations charge and refund alike for the same level. */
  lemma SameEconomyAsCurrent(s: Skill, t: SkillTypes.Skill)
    requires s.level == t.level
    ensures s.UpgradeCost() == t.UpgradeCost() && s.DowngradeRefund() == t.DowngradeRefund()
  {
  }

  /** A callback call: the function that runs, on which skill, with which keyword arguments. */
  datatype Call = Call(callback: FunctionId, skill: Skill, args: Args)

  /**
   * `execute_callback(event_name, **event_args)`: nothing for events
   * outside the class's table, otherwise the one registered function is
   * called with the skill and the event arguments.
   */
  function ExecuteCallback(s: Skill, event: string, args: Args): (r: Option<Call>)
    ensures r.None? <==> event !in ClassTable(s.cls)
    ensures r.Some? ==> r.value.callback == ClassTable(s.cls)[event] && r.value.skill == s && r.value.args == args
  {
    var table := ClassTable(s.cls);
    if event in table then Some(Call(table[event], s, args)) else None
  }
}
