/**
 * The class-based skills of the current engine
 * (addons/source-python/plugins/rpg/skills.py), reduced to their integer
 * effects on a player's health and armor and to the guards that decide
 * whether an effect happens. A skill's periodic repeat is modelled by
 * whether it is running; the host's timers drive the ticks.
 */
module SkillEffects {
  import opened Results

  /** Health of a player without the `Health+` skill. */
  const BaseHealth: int := 100
  /** Extra maximum health per `Health+` level. */
  const HealthPerLevel: int := 25
  /** Armor at which `Blacksmith` stops. */
  const MaxArmor: int := 100

  function Min(a: int, b: int): int {
    if a <= b then a else b
  }

  // ---------------------------------------------------------------------
  // Health+
  // ---------------------------------------------------------------------

  /** `Health.bonus_amount`. */
  function HealthBonus(level: int): int {
    HealthPerLevel * level
  }

  /** The maximum health a `Health+` skill of `level` allows. */
  function MaxHealth(healthLevel: int): int {
    BaseHealth + HealthBonus(healthLevel)
  }

  /** Each `Health+` level raises the cap by exactly one upgrade's health. */
  lemma MaxHealthStep(level: int)
    ensures MaxHealth(level + 1) == MaxHealth(level) + HealthPerLevel
    ensures level >= 0 ==> MaxHealth(level) >= BaseHealth
  {
  }

  /** `skill_upgrade`: the player gains one level's health. */
  function HealthOnUpgrade(health: int): (r: int)
    ensures r - health == MaxHealth(1) - MaxHealth(0)
  {
    health + HealthPerLevel
  }

  /**
   * `skill_downgrade` with the skill already at its new `level`: health
   * above the new cap is cut to the cap, anything else is left alone.
   */
  function HealthOnDowngrade(health: int, level: int): (r: int)
    ensures r <= health
    ensures health <= MaxHealth(level) <==> r == health
    ensures health > MaxHealth(level) ==> r == MaxHealth(level)
  {
    if health > MaxHealth(level) then MaxHealth(level) else health
  }

  /** `player_spawn`: the bonus is added to whatever the spawn health is. */
  function HealthOnSpawn(health: int, level: int): (r: int)
    ensures level >= 0 ==> r >= health
    ensures health == BaseHealth ==> r == MaxHealth(level)
  {
    health + HealthBonus(level)
  }

  /**
   * An upgrade from `level` followed by a downgrade back to it leaves a
   * player who was within the cap with the upgrade's health, cut to the
   * cap: never below where they started.
   */
  lemma HealthUpgradeThenDowngrade(health: int, level: int)
    requires health <= MaxHealth(level)
    ensures HealthOnDowngrade(HealthOnUpgrade(health), level) == Min(health + HealthPerLevel, MaxHealth(level))
    ensures HealthOnDowngrade(HealthOnUpgrade(health), level) >= health
  {
  }

  // ---------------------------------------------------------------------
  // The repeating skills: Regeneration and Blacksmith.
  // ---------------------------------------------------------------------

  /** Whether a skill's tick repeat is running. */
  datatype Repeat = Stopped | Running

  /** A tick's new value and whether the repeat goes on. */
  datatype Tick = Tick(value: int, repeat: Repeat)

  /**
   * The shared shape of `Regeneration._tick` and `Blacksmith._tick`: the
   * value rises by `step` but not past `cap`, and the repeat stops once the
   * value has reached the cap.
   */
  function CappedTick(value: int, step: int, cap: int): (r: Tick)
    ensures r.value <= cap
    ensures r.value <= value + step
    ensures r.value == value + step || r.value == cap
    ensures r.repeat == Stopped <==> r.value == cap
  {
    var v := Min(value + step, cap);
    Tick(v, if v >= cap then Stopped else Running)
  }

  /** `Regeneration._tick`: heal `level` up to the cap of the player's `Health+` skill. */
  function RegenerationTick(health: int, level: int, healthLevel: int): (r: Tick)
    ensures r.value <= MaxHealth(healthLevel)
    ensures r.repeat == Stopped <==> r.value == MaxHealth(healthLevel)
    ensures health + level <= MaxHealth(healthLevel) ==> r.value == health + level
  {
    CappedTick(health, level, MaxHealth(healthLevel))
  }

  /** `Blacksmith._tick`: add `level` armor up to 100. */
  function BlacksmithTick(armor: int, level: int): (r: Tick)
    ensures r.value <= MaxArmor
    ensures r.repeat == Stopped <==> r.value == MaxArmor
    ensures armor + level <= MaxArmor ==> r.value == armor + level
  {
    CappedTick(armor, level, MaxArmor)
  }

  /**
   * A tick on a value already above the cap lowers it to the cap: a
   * regenerating player with more health than the cap loses the surplus.
   */
  lemma TickCutsSurplus(value: int, step: int, cap: int)
    requires value > cap && step >= 0
    ensures CappedTick(value, step, cap) == Tick(cap, Stopped)
  {
  }

  /** At most `ticks` ticks of a running repeat, ending early once it stops. */
  function RunTicks(value: int, step: int, cap: int, ticks: nat): (r: Tick)
    decreases ticks
  {
    if ticks == 0 then Tick(value, Running)
    else
      var t := CappedTick(value, step, cap);
      if t.repeat == Stopped then t else RunTicks(t.value, step, cap, ticks - 1)
  }

  /**
   * From within the cap, a positive step reaches the cap and stops within
   * `ticks` ticks as soon as `ticks` steps cover the gap.
   */
  lemma {:induction false} RunTicksReachesCap(value: int, step: int, cap: int, ticks: nat)
    requires step > 0 && value <= cap
    requires ticks >= 1 && value + ticks * step >= cap
    ensures RunTicks(value, step, cap, ticks) == Tick(cap, Stopped)
    decreases ticks
  {
    var t := CappedTick(value, step, cap);
    if t.repeat == Running {
      assert t.value == value + step;
      assert ticks >= 2;
      assert t.value + (ticks - 1) * step == value + ticks * step;
      RunTicksReachesCap(t.value, step, cap, ticks - 1);
    }
  }

  /** From within the cap, ticking with a non-negative step never lowers the value nor passes the cap. */
  lemma {:induction false} RunTicksStaysWithin(value: int, step: int, cap: int, ticks: nat)
    requires step >= 0 && value <= cap
    ensures value <= RunTicks(value, step, cap, ticks).value <= cap
    decreases ticks
  {
    if ticks > 0 {
      var t := CappedTick(value, step, cap);
      if t.repeat == Running {
        RunTicksStaysWithin(t.value, step, cap, ticks - 1);
      }
    }
  }

  /**
   * How a repeating skill's repeat reacts to an event it handles: `starts`
   * are its start events; `player_death` and `player_disconnect` stop it;
   * `skill_downgrade` stops it only when the skill is now at level 0.
   */
  function RepeatOn(starts: set<string>, event: string, level: int, repeat: Repeat): (r: Repeat)
    ensures event in starts ==> r == Running
    ensures event !in starts && (event == "player_death" || event == "player_disconnect") ==> r == Stopped
    ensures event !in starts && event == "skill_downgrade" ==> r == (if level == 0 then Stopped else repeat)
    ensures event !in starts && event !in {"player_death", "player_disconnect", "skill_downgrade"} ==> r == repeat
  {
    if event in starts then Running
    else if event == "player_death" || event == "player_disconnect" then Stopped
    else if event == "skill_downgrade" && level == 0 then Stopped
    else repeat
  }

  /** The events that start `Regeneration`. */
  const RegenerationStarts: set<string> := {"player_victim", "skill_upgrade"}
  /** The events that start `Blacksmith`. */
  const BlacksmithStarts: set<string> := {"player_spawn", "player_victim", "skill_upgrade"}

  /** Regeneration starts when hurt and stops with death or a downgrade to zero. */
  lemma RegenerationRepeatEvents(level: int, repeat: Repeat)
    ensures RepeatOn(RegenerationStarts, "player_victim", level, repeat) == Running
    ensures RepeatOn(RegenerationStarts, "player_spawn", level, repeat) == repeat
    ensures RepeatOn(RegenerationStarts, "player_death", level, repeat) == Stopped
    ensures RepeatOn(RegenerationStarts, "skill_downgrade", level, repeat) == Stopped <==> level == 0 || repeat == Stopped
  {
  }

  /** Blacksmith, unlike Regeneration, also starts on spawn. */
  lemma BlacksmithRepeatEvents(level: int, repeat: Repeat)
    ensures RepeatOn(BlacksmithStarts, "player_spawn", level, repeat) == Running
    ensures RepeatOn(BlacksmithStarts, "player_disconnect", level, repeat) == Stopped
    ensures RepeatOn(BlacksmithStarts, "skill_downgrade", level, repeat) == Stopped <==> level == 0 || repeat == Stopped
  {
  }

  // ---------------------------------------------------------------------
  // Vampirism
  // ---------------------------------------------------------------------

  /**
   * `Vampirism.get_steal_amount`: a tenth of `damage * level`, rounded
   * down as Python's `//` does (which for the positive divisor 10 is
   * Dafny's `/`), and at most `10 * level`.
   */
  function StealAmount(damage: int, level: int): (r: int)
    ensures r <= 10 * level
    ensures damage >= 0 && level >= 0 ==> 0 <= r
    ensures r == 10 * level || r == damage * level / 10
  {
    Min(damage * level / 10, 10 * level)
  }

  /** The cap binds exactly from 100 damage on. */
  lemma StealSaturates(damage: int, level: int)
    requires level > 0
    ensures damage >= 100 ==> StealAmount(damage, level) == 10 * level
    ensures damage < 100 ==> StealAmount(damage, level) == damage * level / 10 < 10 * level
  {
    var x := damage * level;
    assert x - 10 < x / 10 * 10 <= x;
    if damage >= 100 {
      assert x >= 100 * level by {
        assert (damage - 100) * level >= 0;
      }
    } else {
      assert x <= 99 * level by {
        assert (99 - damage) * level >= 0;
      }
    }
  }

  /**
   * `_grant_health` on `player_attack`: the attacker gains the steal amount
   * of the damage dealt, cut to the cap of their `Health+` skill.
   */
  function VampirismOnAttack(health: int, damage: int, level: int, healthLevel: int): (r: int)
    ensures r == MaxHealth(healthLevel) || r == health + StealAmount(damage, level)
    ensures r <= MaxHealth(healthLevel) && r <= health + StealAmount(damage, level)
    ensures r <= health + 10 * level
    ensures damage >= 0 && level >= 0 && health <= MaxHealth(healthLevel) ==> health <= r
  {
    Min(health + StealAmount(damage, level), MaxHealth(healthLevel))
  }

  /** Like a tick, a hit by a player above the cap brings them down to it. */
  lemma VampirismCutsSurplus(health: int, damage: int, level: int, healthLevel: int)
    requires health > MaxHealth(healthLevel) && damage >= 0 && level >= 0
    ensures VampirismOnAttack(health, damage, level, healthLevel) == MaxHealth(healthLevel) < health
  {
  }

  // ---------------------------------------------------------------------
  // Impulse
  // ---------------------------------------------------------------------

  /** `Impulse._delay`: none yet, or the last speed boost's delay and whether it still runs. */
  datatype Delay = NoDelay | Boosted(running: bool)

  /** A running boost. */
  predicate IsRunning(d: Delay) {
    d.Boosted? && d.running
  }

  /** What `player_victim` does: whether a new boost is given, and the delay after it. */
  datatype Reaction = Reaction(boost: bool, delay: Delay)

  /** `_give_temporary_speed_boost`: no new boost while the previous one runs. */
  function ImpulseOnVictim(d: Delay): (r: Reaction)
    ensures r.boost <==> !IsRunning(d)
    ensures IsRunning(r.delay)
    ensures !r.boost ==> r.delay == d
  {
    if IsRunning(d) then Reaction(false, d) else Reaction(true, Boosted(true))
  }

  /** `_cancel_delay` on death or disconnect: a running delay is cancelled and kept. */
  function ImpulseOnCancel(d: Delay): (r: Delay)
    ensures !IsRunning(r)
    ensures d.NoDelay? <==> r.NoDelay?
  {
    if IsRunning(d) then Boosted(false) else d
  }

  /** What can happen to an Impulse skill: hits, cancels, and the boost's timer running out. */
  datatype ImpulseEvent = Victim | Cancel | Expire

  /** The boosts given over a run of events, and the final delay. */
  function ImpulseRun(d: Delay, events: seq<ImpulseEvent>): (r: (nat, Delay))
    decreases |events|
  {
    if events == [] then (0, d)
    else
      match events[0]
      case Victim =>
        var react := ImpulseOnVictim(d);
        var (n, e) := ImpulseRun(react.delay, events[1..]);
        (n + (if react.boost then 1 else 0), e)
      case Cancel => ImpulseRun(ImpulseOnCancel(d), events[1..])
      case Expire => ImpulseRun(if d.Boosted? then Boosted(false) else d, events[1..])
  }

  /**
   * Between two expiries or cancels, any number of hits give at most one
   * boost, and none at all while a boost already runs.
   */
  lemma {:induction false} OneBoostPerDelay(d: Delay, events: seq<ImpulseEvent>)
    requires forall k :: 0 <= k < |events| ==> events[k] == Victim
    ensures ImpulseRun(d, events).0 <= 1
    ensures IsRunning(d) ==> ImpulseRun(d, events).0 == 0
    ensures events != [] ==> ImpulseRun(d, events).0 == (if IsRunning(d) then 0 else 1)
    decreases |events|
  {
    if events != [] {
      var react := ImpulseOnVictim(d);
      assert forall k :: 0 <= k < |events[1..]| ==> events[1..][k] == Victim by {
        forall k | 0 <= k < |events[1..]|
          ensures events[1..][k] == Victim
        {
          assert events[1..][k] == events[k + 1];
        }
      }
      OneBoostPerDelay(react.delay, events[1..]);
    }
  }

  // ---------------------------------------------------------------------
  // Fire Grenade
  // ---------------------------------------------------------------------

  /**
   * `_burn_victim` on `player_attack`: the victim burns for `level / 2`
   * seconds, and only when the weapon was a high-explosive grenade.
   */
  function FireGrenadeBurn(weapon: string, level: int): (r: Option<real>)
    ensures r.Some? <==> weapon == "hegrenade"
    ensures r.Some? ==> 2.0 * r.value == level as real
  {
    if weapon == "hegrenade" then Some(level as real / 2.0) else None
  }
}
