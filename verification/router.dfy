/**
 * The current engine's event router (addons/source-python/plugins/rpg/rpg.py):
 * session start, solo and attacker/victim skill dispatch, the re-dispatch
 * of upgrade and downgrade notices, kill XP and the bots' automatic upgrade.
 * The host resolves user ids to players; the router receives the players.
 */
module Router {
  import opened Results
  import opened EventArgs
  import opened OrderedMaps
  import opened SkillTypes
  import opened Players
  import Config
  import Builder

  // ---------------------------------------------------------------------
  // Session start.
  // ---------------------------------------------------------------------

  /** The init calls attaching skills of the given types makes, in order. */
  function InitCallsOf(types: seq<Entry<SkillType>>, id: PlayerId): seq<InitCall> {
    if types == [] then []
    else
      InitCallsOf(types[..|types| - 1], id)
      + (match types[|types| - 1].value.initCallback
         case None => []
         case Some(f) => [InitCall(f, id, types[|types| - 1].value.key)])
  }

  /** The loop of `new_player`: one level-0 skill per registry entry, added in order. */
  function AttachSkills(id: PlayerId, types: seq<Entry<SkillType>>): (r: (Player, seq<InitCall>))
    requires WellFormed(types) && Builder.KeyedByType(types)
    ensures r.0 == NewPlayer(id).(skills := r.0.skills)
    ensures Keys(r.0.skills) == Keys(types)
    ensures forall i :: 0 <= i < |types| ==> r.0.skills[i].value == NewSkill(types[i].value)
    ensures r.1 == InitCallsOf(types, id)
  {
    if types == [] then (NewPlayer(id), [])
    else
      LastTypeIsNew(types);
      var (p, calls) := AttachSkills(id, types[..|types| - 1]);
      var (q, more) := AddFreshSkill(p, NewSkill(types[|types| - 1].value));
      AttachStep(id, types, p, calls, q, more);
      (q, calls + more)
  }

  /** The inductive step of `AttachSkills`: the last type's skill goes to the end. */
  lemma {:induction false} AttachStep(id: PlayerId, types: seq<Entry<SkillType>>, p: Player, calls: seq<InitCall>,
                   q: Player, more: seq<InitCall>)
    requires types != [] && types[|types| - 1].value.key == types[|types| - 1].key
    requires p == NewPlayer(id).(skills := p.skills)
    requires Keys(p.skills) == Keys(types[..|types| - 1])
    requires forall i :: 0 <= i < |types| - 1 ==> p.skills[i].value == NewSkill(types[..|types| - 1][i].value)
    requires calls == InitCallsOf(types[..|types| - 1], id)
    requires var s := NewSkill(types[|types| - 1].value);
      && q == p.(skills := p.skills + [Entry(s.Key(), s)])
      && more == (match s.InitCallback() case None => [] case Some(f) => [InitCall(f, p.id, s.Key())])
    ensures q == NewPlayer(id).(skills := q.skills)
    ensures Keys(q.skills) == Keys(types)
    ensures forall i :: 0 <= i < |types| ==> q.skills[i].value == NewSkill(types[i].value)
    ensures calls + more == InitCallsOf(types, id)
  {
    var prefix := types[..|types| - 1];
    var t := types[|types| - 1];
    assert Keys(types) == Keys(prefix) + [t.key];
    assert Keys(q.skills) == Keys(p.skills) + [t.key];
    forall i | 0 <= i < |types|
      ensures q.skills[i].value == NewSkill(types[i].value)
    {
      if i < |prefix| {
        assert prefix[i] == types[i];
        assert q.skills[i] == p.skills[i];
      }
    }
  }

  /** `add_skill` of a skill whose key the player does not hold yet. */
  function AddFreshSkill(p: Player, s: Skill): (r: (Player, seq<InitCall>))
    requires s.Key() !in Keys(p.skills)
    ensures r.0 == p.(skills := p.skills + [Entry(s.Key(), s)])
    ensures r.1 == (match s.InitCallback() case None => [] case Some(f) => [InitCall(f, p.id, s.Key())])
  {
    AddSkill(p, s)
  }

  /** The registry without its last entry is a registry that lacks the last key. */
  lemma LastTypeIsNew(types: seq<Entry<SkillType>>)
    requires types != [] && WellFormed(types) && Builder.KeyedByType(types)
    ensures var prefix := types[..|types| - 1];
      && WellFormed(prefix) && Builder.KeyedByType(prefix)
      && types[|types| - 1].value.key !in Keys(prefix)
      && Keys(types) == Keys(prefix) + [types[|types| - 1].key]
      && forall i :: 0 <= i < |prefix| ==> prefix[i] == types[i]
  {
    var prefix := types[..|types| - 1];
    var k := types[|types| - 1].key;
    assert Keys(types) == Keys(prefix) + [k];
    forall i | 0 <= i < |prefix|
      ensures Keys(prefix)[i] != k
    {
      assert Keys(types)[i] == Keys(prefix)[i];
    }
  }

  /**
   * `new_player` up to loading stored progress: the player holds one
   * level-0 skill per registry entry, in registry order, and each type's
   * init callback ran once, in that order.
   */
  function NewPlayerSession(id: PlayerId, registry: Builder.Registry): (r: (Player, seq<InitCall>))
    requires WellFormed(registry) && Builder.KeyedByType(registry)
    ensures r.0.id == id && r.0.level == 0 && r.0.xp == 0 && r.0.credits == 0
    ensures Keys(r.0.skills) == Keys(registry)
    ensures forall i :: 0 <= i < |registry| ==>
      r.0.skills[i].value.kind == registry[i].value && r.0.skills[i].value.level == 0
    ensures r.1 == InitCallsOf(registry, id)
    ensures |r.1| <= |registry|
  {
    InitCallsBound(registry, id);
    AttachSkills(id, registry)
  }

  lemma {:induction false} InitCallsBound(types: seq<Entry<SkillType>>, id: PlayerId)
    ensures |InitCallsOf(types, id)| <= |types|
  {
    if types != [] {
      InitCallsBound(types[..|types| - 1], id);
    }
  }

  // ---------------------------------------------------------------------
  // Skill dispatch for game events.
  // ---------------------------------------------------------------------

  /** Teams whose players take part in solo events (the two playing sides). */
  predicate IsPlayingTeam(team: int) {
    team == 2 || team == 3
  }

  /**
   * `trigger_solo_player_callbacks` for `player_jump`, `player_spawn` and
   * `player_disconnect`: the player's skills are triggered with the event's
   * variables minus `userid`, and only while the player is on team 2 or 3.
   */
  function SoloDispatch(event: string, args: Args, p: Player, team: int): (r: seq<Invocation>)
    requires "userid" in args
    ensures !IsPlayingTeam(team) ==> r == []
    ensures IsPlayingTeam(team) ==> r == TriggerSkills(p, event, args - {"userid"})
  {
    if !IsPlayingTeam(team) then [] else TriggerSkills(p, event, args - {"userid"})
  }

  /** Solo skills receive the event's own name and never the `userid` field. */
  lemma SoloDropsUserid(event: string, args: Args, p: Player, team: int)
    requires "userid" in args
    ensures forall c :: c in SoloDispatch(event, args, p, team) ==> "userid" !in c.args && c.event == event
  {
    if IsPlayingTeam(team) {
      TriggerSkillsLacks(p, event, args - {"userid"}, "userid");
    }
  }

  /** The three event names a two-player event fans out to. */
  datatype Roles = Roles(attack: string, victim: string, selfHarm: string)

  /** `_DUO_PLAYER_EVENTS`. */
  const DuoEvents: map<string, Roles> := map[
    "player_death" := Roles("player_kill", "player_death", "player_suicide"),
    "player_hurt" := Roles("player_attack", "player_victim", "player_selfharm")]

  /** The arguments both players' skills receive: `userid` removed, `attacker` and `victim` set. */
  function DuoArgs(args: Args, attacker: Option<Player>, victim: Player): (a: Args)
    ensures "userid" !in a && "victim" in a && "attacker" in a
    ensures a["victim"] == PlayerRef(victim.id)
    ensures a["attacker"] == (if attacker.Some? then PlayerRef(attacker.value.id) else NoneArg)
    ensures forall k :: k in args && k != "userid" && k != "attacker" && k != "victim" ==> k in a && a[k] == args[k]
  {
    (args - {"userid"})["attacker" := if attacker.Some? then PlayerRef(attacker.value.id) else NoneArg]
                       ["victim" := PlayerRef(victim.id)]
  }

  /**
   * `trigger_duo_player_callbacks` for `player_death` and `player_hurt`.
   * `attacker` is `None` when the event's attacker field is zero (world
   * damage). Without an attacker only the victim's skills receive the
   * self-harm name; with one, the attacker's skills receive the attack name
   * and then the victim's the victim name, even when both are the same player.
   */
  function DuoDispatch(event: string, args: Args, attacker: Option<Player>, victim: Player): (r: seq<Invocation>)
    requires event in DuoEvents
    ensures attacker.None? ==> r == TriggerSkills(victim, DuoEvents[event].selfHarm, DuoArgs(args, attacker, victim))
    ensures attacker.Some? ==>
      r == TriggerSkills(attacker.value, DuoEvents[event].attack, DuoArgs(args, attacker, victim))
           + TriggerSkills(victim, DuoEvents[event].victim, DuoArgs(args, attacker, victim))
  {
    var roles := DuoEvents[event];
    var a := DuoArgs(args, attacker, victim);
    match attacker
    case None => TriggerSkills(victim, roles.selfHarm, a)
    case Some(p) => TriggerSkills(p, roles.attack, a) + TriggerSkills(victim, roles.victim, a)
  }

  /** The self-harm name is used exactly when there is no attacker. */
  lemma SelfHarmIffNoAttacker(event: string, args: Args, attacker: Option<Player>, victim: Player)
    requires event in DuoEvents
    ensures attacker.None? ==> forall c :: c in DuoDispatch(event, args, attacker, victim) ==> c.event == DuoEvents[event].selfHarm
    ensures attacker.Some? ==> forall c :: c in DuoDispatch(event, args, attacker, victim) ==> c.event != DuoEvents[event].selfHarm
  {
    var roles := DuoEvents[event];
    assert roles.attack != roles.selfHarm && roles.victim != roles.selfHarm by {
      assert event == "player_death" || event == "player_hurt";
    }
    var a := DuoArgs(args, attacker, victim);
    if attacker.Some? {
      var first := TriggerSkills(attacker.value, roles.attack, a);
      var second := TriggerSkills(victim, roles.victim, a);
      assert DuoDispatch(event, args, attacker, victim) == first + second;
      forall c: Invocation | c in first + second
        ensures c.event != roles.selfHarm
      {
        if c in first {
          assert c.event == roles.attack;
        } else {
          assert c.event == roles.victim;
        }
      }
    }
  }

  /**
   * A player hurting or killing themselves is routed as attacker and
   * victim, never under the self-harm name.
   */
  lemma SelfAttackIsNotSelfHarm(event: string, args: Args, p: Player)
    requires event in DuoEvents
    ensures DuoDispatch(event, args, Some(p), p)
            == TriggerSkills(p, DuoEvents[event].attack, DuoArgs(args, Some(p), p))
               + TriggerSkills(p, DuoEvents[event].victim, DuoArgs(args, Some(p), p))
    ensures forall c :: c in DuoDispatch(event, args, Some(p), p) ==> c.event != DuoEvents[event].selfHarm
  {
    SelfHarmIffNoAttacker(event, args, Some(p), p);
  }

  // ---------------------------------------------------------------------
  // Upgrade and downgrade re-dispatch.
  // ---------------------------------------------------------------------

  /**
   * The listeners of the upgrade and downgrade notices: first every
   * levelled skill of the player gets `player_upgrade_skill` (or
   * `player_downgrade_skill`), then the changed skill itself gets
   * `skill_upgrade` (or `skill_downgrade`) whatever its level.
   */
  function Redispatch(p: Player, n: Notice): (r: seq<Invocation>)
    requires n.SkillUpgraded? || n.SkillDowngraded?
    ensures var broadcast := if n.SkillUpgraded? then "player_upgrade_skill" else "player_downgrade_skill";
            var own := if n.SkillUpgraded? then "skill_upgrade" else "skill_downgrade";
            var self := Trigger(n.skill, own, map["skill" := SkillRef(n.skill.Key()), "player" := PlayerRef(p.id)]);
            r == TriggerSkills(p, broadcast, map["skill" := SkillRef(n.skill.Key())])
                 + (if self.Some? then [self.value] else [])
  {
    var broadcast := if n.SkillUpgraded? then "player_upgrade_skill" else "player_downgrade_skill";
    var own := if n.SkillUpgraded? then "skill_upgrade" else "skill_downgrade";
    var self := Trigger(n.skill, own, map["skill" := SkillRef(n.skill.Key()), "player" := PlayerRef(p.id)]);
    TriggerSkills(p, broadcast, map["skill" := SkillRef(n.skill.Key())])
    + (if self.Some? then [self.value] else [])
  }

  /**
   * In the broadcast each receiving skill sees itself as `skill`: the
   * changed sibling's identity is overwritten before any callback runs, so
   * every other levelled skill that handles the event is called, but never
   * with the changed skill.
   */
  lemma BroadcastLosesSibling(p: Player, n: Notice)
    requires n.SkillUpgraded?
    ensures var calls := TriggerSkills(p, "player_upgrade_skill", map["skill" := SkillRef(n.skill.Key())]);
      forall k :: 0 <= k < |calls| ==>
        calls[k].args["skill"] == SkillRef(p.skills[Firing(p.skills, "player_upgrade_skill")[k]].value.Key())
    ensures var calls := TriggerSkills(p, "player_upgrade_skill", map["skill" := SkillRef(n.skill.Key())]);
      forall j :: 0 <= j < |p.skills| && Fires(p.skills[j].value, "player_upgrade_skill")
                  && p.skills[j].value.Key() != n.skill.Key() ==>
        exists c :: c in calls && c.args["skill"] == SkillRef(p.skills[j].value.Key()) != SkillRef(n.skill.Key())
  {
    var e := "player_upgrade_skill";
    var a := map["skill" := SkillRef(n.skill.Key())]["player" := PlayerRef(p.id)];
    var calls := TriggerSkills(p, e, map["skill" := SkillRef(n.skill.Key())]);
    TriggerSkillIsReceiver(p, e, map["skill" := SkillRef(n.skill.Key())]);
    forall j | 0 <= j < |p.skills| && Fires(p.skills[j].value, e) && p.skills[j].value.Key() != n.skill.Key()
      ensures exists c :: c in calls && c.args["skill"] == SkillRef(p.skills[j].value.Key()) != SkillRef(n.skill.Key())
    {
      var c := Trigger(p.skills[j].value, e, a).value;
      assert c in calls;
      assert c.args == a["skill" := SkillRef(p.skills[j].value.Key())];
    }
  }

  /** The `k`-th call of a trigger carries the `k`-th firing skill as `skill`, whatever the arguments said. */
  lemma TriggerSkillIsReceiver(p: Player, e: string, args: Args)
    ensures var calls := TriggerSkills(p, e, args);
      forall k :: 0 <= k < |calls| ==> calls[k].args["skill"] == SkillRef(p.skills[Firing(p.skills, e)[k]].value.Key())
  {
    var calls := TriggerSkills(p, e, args);
    var f := Firing(p.skills, e);
    forall k | 0 <= k < |calls|
      ensures calls[k].args["skill"] == SkillRef(p.skills[f[k]].value.Key())
    {
      assert calls[k] == Trigger(p.skills[f[k]].value, e, args["player" := PlayerRef(p.id)]).value;
    }
  }

  /** `upgrade_skill` on skill `i` followed by its notice's listener. */
  function UpgradeAndDispatch(p: Player, i: nat): (r: Result<(Player, seq<Invocation>)>)
    requires i < |p.skills|
    ensures r.Ok? <==> CanUpgrade(p, p.skills[i].value)
    ensures r.Err? ==> r.raised == RuntimeError
    ensures r.Ok? ==> r.value.0 == UpgradeSkill(p, i).value.player
    ensures r.Ok? ==> r.value.1 == Redispatch(r.value.0, SkillUpgraded(p.id, r.value.0.skills[i].value))
  {
    var step :- UpgradeSkill(p, i);
    Ok((step.player, Redispatch(step.player, step.notices[0])))
  }

  /** `downgrade_skill` on skill `i` followed by its notice's listener. */
  function DowngradeAndDispatch(p: Player, i: nat): (r: Result<(Player, seq<Invocation>)>)
    requires i < |p.skills|
    ensures r.Ok? <==> p.skills[i].value.level > 0
    ensures r.Err? ==> r.raised == RuntimeError
    ensures r.Ok? ==> r.value.0 == DowngradeSkill(p, i).value.player
    ensures r.Ok? ==> r.value.1 == Redispatch(r.value.0, SkillDowngraded(p.id, r.value.0.skills[i].value))
  {
    var step :- DowngradeSkill(p, i);
    Ok((step.player, Redispatch(step.player, step.notices[0])))
  }

  /**
   * Downgrading a skill to level 0 leaves it out of the broadcast, but it
   * still receives `skill_downgrade` when it handles that event.
   */
  lemma DowngradeToZeroStillNotifiesSkill(p: Player, i: nat)
    requires i < |p.skills| && p.skills[i].value.level == 1
    requires p.skills[i].value.Handles("skill_downgrade")
    ensures DowngradeAndDispatch(p, i).Ok?
    ensures var (q, calls) := DowngradeAndDispatch(p, i).value;
            && !Fires(q.skills[i].value, "player_downgrade_skill")
            && |calls| > 0
            && calls[|calls| - 1].event == "skill_downgrade"
            && "skill" in calls[|calls| - 1].args
            && calls[|calls| - 1].args["skill"] == SkillRef(p.skills[i].value.Key())
  {
    var step := DowngradeSkill(p, i).value;
    var q := step.player;
    var s := q.skills[i].value;
    assert s == p.skills[i].value.(level := 0);
    var self := Trigger(s, "skill_downgrade", map["skill" := SkillRef(s.Key()), "player" := PlayerRef(q.id)]);
    assert self.Some?;
    var calls := Redispatch(q, step.notices[0]);
    assert calls == TriggerSkills(q, "player_downgrade_skill", map["skill" := SkillRef(s.Key())]) + [self.value];
  }

  // ---------------------------------------------------------------------
  // Kill XP and the bots' automatic upgrade.
  // ---------------------------------------------------------------------

  /** XP for killing `victim`. */
  function KillXp(victim: Player): int {
    Config.KillXpBase + victim.level * Config.KillXpPerVictimLevel
  }

  /** Kill XP is at least the base amount for a victim of level 0 or more. */
  lemma KillXpBounds(victim: Player)
    requires victim.level >= 0
    ensures KillXp(victim) >= Config.KillXpBase
    ensures KillXp(victim.(level := victim.level + 1)) == KillXp(victim) + Config.KillXpPerVictimLevel
  {
  }

  /**
   * The bot loop's search: the position in `order` of the first skill the
   * player can upgrade, or `None` when there is none.
   */
  function FirstUpgradable(p: Player, order: seq<nat>): (r: Option<nat>)
    requires forall k :: 0 <= k < |order| ==> order[k] < |p.skills|
    ensures r.Some? ==> r.value < |order| && CanUpgrade(p, p.skills[order[r.value]].value)
    ensures r.Some? ==> forall k :: 0 <= k < r.value ==> !CanUpgrade(p, p.skills[order[k]].value)
    ensures r.None? ==> forall k :: 0 <= k < |order| ==> !CanUpgrade(p, p.skills[order[k]].value)
  {
    if order == [] then None
    else if CanUpgrade(p, p.skills[order[0]].value) then Some(0)
    else
      assert forall k :: 1 <= k < |order| ==> order[k] == order[1..][k - 1];
      match FirstUpgradable(p, order[1..])
      case None => None
      case Some(k) => Some(k + 1)
  }

  /** `order` lists every skill position exactly once (the result of `shuffled`). */
  ghost predicate IsShuffle(order: seq<nat>, n: nat) {
    && |order| == n
    && (forall k :: 0 <= k < |order| ==> order[k] < n)
    && (forall i :: 0 <= i < n ==> i in order)
  }

  /**
   * The level-up listener `upgrade_player_skill`. A human player only gets
   * a message and a menu. A bot walks its skills in the shuffled `order`
   * and upgrades the first one it can afford and that is below its cap,
   * then stops.
   */
  function OnLevelUp(p: Player, steamId: string, order: seq<nat>): (r: (Player, seq<Invocation>))
    requires IsShuffle(order, |p.skills|)
    ensures steamId != "BOT" ==> r == (p, [])
    ensures r == (p, []) || exists i :: 0 <= i < |p.skills| && CanUpgrade(p, p.skills[i].value) && Ok(r) == UpgradeAndDispatch(p, i)
  {
    if steamId != "BOT" then (p, [])
    else
      match FirstUpgradable(p, order)
      case None => (p, [])
      case Some(k) => UpgradeAndDispatch(p, order[k]).value
  }

  /** A bot that can afford some skill below its cap upgrades exactly one such skill. */
  lemma BotUpgradesOneSkill(p: Player, order: seq<nat>)
    requires IsShuffle(order, |p.skills|)
    requires exists i :: 0 <= i < |p.skills| && CanUpgrade(p, p.skills[i].value)
    ensures exists i :: 0 <= i < |p.skills| && CanUpgrade(p, p.skills[i].value)
                        && Ok(OnLevelUp(p, "BOT", order)) == UpgradeAndDispatch(p, i)
  {
    var i :| 0 <= i < |p.skills| && CanUpgrade(p, p.skills[i].value);
    assert i in order;
    var k :| 0 <= k < |order| && order[k] == i;
    var j := order[FirstUpgradable(p, order).value];
    assert UpgradeAndDispatch(p, j).Ok?;
    assert OnLevelUp(p, "BOT", order) == UpgradeAndDispatch(p, j).value;
  }

  /**
   * A bot upgrades the skill at the first position of `order` it can
   * upgrade: exactly that one, whatever comes after it.
   */
  lemma BotTakesFirstUpgradable(p: Player, order: seq<nat>, k: nat)
    requires IsShuffle(order, |p.skills|)
    requires k < |order| && CanUpgrade(p, p.skills[order[k]].value)
    requires forall k' :: 0 <= k' < k ==> !CanUpgrade(p, p.skills[order[k']].value)
    ensures Ok(OnLevelUp(p, "BOT", order)) == UpgradeAndDispatch(p, order[k])
  {
    var r := FirstUpgradable(p, order);
    assert r.Some? && r.value == k;
  }

  /** A bot that can afford nothing stays as it is. */
  lemma BotWithoutChoiceStays(p: Player, order: seq<nat>)
    requires IsShuffle(order, |p.skills|)
    requires forall i :: 0 <= i < |p.skills| ==> !CanUpgrade(p, p.skills[i].value)
    ensures OnLevelUp(p, "BOT", order) == (p, [])
  {
  }

  /**
   * `give_kill_xp` and what its level-up notice sets off. Nothing happens
   * (`None`) when there is no attacker or the attacker is the victim;
   * otherwise the attacker gains `KillXp(victim)`, which raises
   * `ValueError` like any negative grant should it be negative.
   */
  function RewardKill(attacker: Option<Player>, victim: Player, steamId: string, order: seq<nat>)
    : (r: Result<Option<(Player, seq<Invocation>)>>)
    requires attacker.Some? ==> IsShuffle(order, |attacker.value.skills|)
    ensures attacker.None? || attacker.value.id == victim.id ==> r == Ok(None)
    ensures attacker.Some? && attacker.value.id != victim.id ==> (r.Err? <==> KillXp(victim) < 0)
    ensures r.Ok? && r.value.Some? ==>
      var (p, q) := (attacker.value, r.value.value.0);
      && q.xp < RequiredXp(q.level) && q.level >= p.level
      && p.xp + KillXp(victim) == q.xp + Consumed(p.level, q.level - p.level)
      && Keys(q.skills) == Keys(p.skills)
    ensures r.Ok? && r.value.Some? && steamId != "BOT" ==>
      r.value.value.1 == [] && r.value.value.0 == GiveXp(attacker.value, KillXp(victim)).value.player
  {
    if attacker.None? || attacker.value.id == victim.id then Ok(None)
    else
      var step :- GiveXp(attacker.value, KillXp(victim));
      if step.notices == [] then Ok(Some((step.player, [])))
      else Ok(Some(OnLevelUp(step.player, steamId, order)))
  }
}
