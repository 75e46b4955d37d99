/**
 * The current engine's player progression state machine
 * (addons/source-python/plugins/rpg/player.py): XP and levels, credits,
 * and the upgrade/downgrade transactions on the player's skills.
 */
module Players {
  import opened Results
  import opened EventArgs
  import opened OrderedMaps
  import opened SkillTypes
  import Config
  import Leveling

  /** A player's RPG state; `skills` is ordered by insertion and keyed by skill key. */
  datatype Player = Player(id: PlayerId, level: int, xp: int, credits: int, skills: seq<Entry<Skill>>)

  /** Notifications the player raises for other listeners. */
  datatype Notice =
    | LevelUp(player: PlayerId, levels: int, credits: int)
    | SkillUpgraded(player: PlayerId, skill: Skill)
    | SkillDowngraded(player: PlayerId, skill: Skill)

  /** A call of a skill type's init callback with `player` and `skill`. */
  datatype InitCall = InitCall(callback: CallbackId, player: PlayerId, skill: string)

  /** A new player state with the notifications raised on the way to it. */
  datatype Step = Step(player: Player, notices: seq<Notice>)

  /** `Player(index)`: everything zero and no skills yet. */
  function NewPlayer(id: PlayerId): (p: Player)
    ensures p.id == id && p.level == 0 && p.xp == 0 && p.credits == 0 && p.skills == []
  {
    Player(id, 0, 0, 0, [])
  }

  /** XP required to reach the next level from `level`. */
  function RequiredXp(level: int): int {
    Config.RequiredXpBase + Config.RequiredXpPerLevel * level
  }

  /** The threshold grows with the level and is positive from level 0 on. */
  lemma RequiredXpMonotone(a: int, b: int)
    ensures a <= b ==> RequiredXp(a) <= RequiredXp(b)
    ensures a >= 0 ==> RequiredXp(a) >= Config.RequiredXpBase > 0
  {
  }

  /** XP consumed by `count` level-ups from `from`. */
  function Consumed(from: int, count: nat): int {
    Leveling.ThresholdSum(RequiredXp, from, count)
  }

  /** Level, XP and credits, the part of the state the level loop touches. */
  datatype Progress = Progress(level: int, xp: int, credits: int)

  /**
   * The `while xp >= required_xp` loop of `give_xp`: each round subtracts
   * the current threshold, gains a level and five credits.
   */
  function LevelLoop(level: int, xp: int, credits: int): (r: Progress)
    ensures r.xp < RequiredXp(r.level)
    ensures r.level >= level
    ensures xp == r.xp + Consumed(level, r.level - level)
    ensures r.credits == credits + Config.CreditsPerLevel * (r.level - level)
    ensures xp < RequiredXp(level) ==> r == Progress(level, xp, credits)
    ensures level >= 0 && xp >= 0 ==> r.xp >= 0
    decreases (if level < 0 then -level else 0), (if xp < 0 then 0 else xp)
  {
    if xp >= RequiredXp(level) then
      LevelLoop(level + 1, xp - RequiredXp(level), credits + Config.CreditsPerLevel)
    else
      Progress(level, xp, credits)
  }

  /**
   * `give_xp(amount)`. A negative amount raises `ValueError` and changes
   * nothing. Otherwise the XP is added and the level loop runs; when at
   * least one level was gained a level-up notice is raised whose `levels`
   * and `credits` are initial minus final values, as the code computes
   * them, so both are negative.
   */
  function GiveXp(p: Player, amount: int): (r: Result<Step>)
    ensures r.Err? <==> amount < 0
    ensures r.Err? ==> r.raised == ValueError
    ensures r.Ok? ==> r.value.player.xp < RequiredXp(r.value.player.level)
    ensures r.Ok? ==> r.value.player.id == p.id && r.value.player.skills == p.skills
    ensures r.Ok? ==> r.value.player.level >= p.level
    ensures r.Ok? && p.level >= 0 && p.xp >= 0 ==> r.value.player.xp >= 0
    ensures r.Ok? ==> p.xp + amount == r.value.player.xp + Consumed(p.level, r.value.player.level - p.level)
    ensures r.Ok? ==> r.value.player.credits == p.credits + Config.CreditsPerLevel * (r.value.player.level - p.level)
    ensures r.Ok? ==> (r.value.notices == [] <==> r.value.player.level == p.level)
    ensures r.Ok? && r.value.notices != [] ==>
      r.value.notices == [LevelUp(p.id, p.level - r.value.player.level, p.credits - r.value.player.credits)]
    ensures r.Ok? && r.value.notices != [] ==> r.value.notices[0].levels < 0 && r.value.notices[0].credits < 0
  {
    if amount < 0 then Err(ValueError)
    else
      var q := LevelLoop(p.level, p.xp + amount, p.credits);
      var p' := p.(level := q.level, xp := q.xp, credits := q.credits);
      if p.level < q.level then
        Ok(Step(p', [LevelUp(p.id, p.level - q.level, p.credits - q.credits)]))
      else
        Ok(Step(p', []))
  }

  /** From a zero state, 250 XP gives two levels, 30 XP left over and 10 credits. */
  lemma GiveXpMultiLevel(id: PlayerId)
    ensures GiveXp(NewPlayer(id), 250) ==
      Ok(Step(Player(id, 2, 30, 10, []), [LevelUp(id, -2, -10)]))
  {
    assert LevelLoop(2, 30, 10) == Progress(2, 30, 10);
    assert LevelLoop(1, 150, 5) == Progress(2, 30, 10);
  }

  /** `set_level(value)`: rejects a negative value, otherwise sets the level and zeroes the XP. */
  function SetLevel(p: Player, value: int): (r: Result<Player>)
    ensures r.Err? <==> value < 0
    ensures r.Err? ==> r.raised == ValueError
    ensures r.Ok? ==> r.value.level == value && r.value.xp == 0
    ensures r.Ok? ==> r.value.credits == p.credits && r.value.skills == p.skills && r.value.id == p.id
    ensures r.Ok? ==> r.value.xp < RequiredXp(r.value.level)
  {
    if value < 0 then Err(ValueError) else Ok(p.(level := value, xp := 0))
  }

  /** Every skill's level set to zero, keys and types untouched. */
  function ZeroLevels(skills: seq<Entry<Skill>>): (r: seq<Entry<Skill>>)
    ensures |r| == |skills|
    ensures forall i :: 0 <= i < |r| ==>
      r[i].key == skills[i].key && r[i].value.kind == skills[i].value.kind && r[i].value.level == 0
  {
    seq(|skills|, i requires 0 <= i < |skills| => Entry(skills[i].key, skills[i].value.(level := 0)))
  }

  /** `reset_rpg_progress`: a hard reset that raises no notification. */
  function ResetProgress(p: Player): (r: Step)
    ensures r.notices == []
    ensures r.player.id == p.id && r.player.level == 0 && r.player.xp == 0 && r.player.credits == 0
    ensures Keys(r.player.skills) == Keys(p.skills)
    ensures |r.player.skills| == |p.skills|
    ensures forall i :: 0 <= i < |p.skills| ==>
      r.player.skills[i].value.kind == p.skills[i].value.kind && r.player.skills[i].value.level == 0
  {
    Step(Player(p.id, 0, 0, 0, ZeroLevels(p.skills)), [])
  }

  /** `can_upgrade_skill`: enough credits for the cost and still below the cap. */
  predicate CanUpgrade(p: Player, s: Skill) {
    p.credits >= s.UpgradeCost() && s.MaxLevel().Exceeds(s.level)
  }

  /** `can_downgrade_skill`: the skill has a level to give back. */
  predicate CanDowngrade(s: Skill) {
    s.level > 0
  }

  /** The player with skill `i` at a new level. */
  function WithSkillLevel(p: Player, i: nat, level: int): (q: Player)
    requires i < |p.skills|
    ensures q.id == p.id && q.level == p.level && q.xp == p.xp && q.credits == p.credits
    ensures |q.skills| == |p.skills| && Keys(q.skills) == Keys(p.skills)
    ensures q.skills[i].value == p.skills[i].value.(level := level)
    ensures forall j :: 0 <= j < |p.skills| && j != i ==> q.skills[j] == p.skills[j]
  {
    var r := p.(skills := p.skills[i := Entry(p.skills[i].key, p.skills[i].value.(level := level))]);
    assert Keys(r.skills) == Keys(p.skills);
    r
  }

  /**
   * `upgrade_skill` on the player's skill at position `i`: fails with
   * `RuntimeError` and no change unless `CanUpgrade`; otherwise debits the
   * upgrade cost, raises the level by one and raises one upgrade notice.
   */
  function UpgradeSkill(p: Player, i: nat): (r: Result<Step>)
    requires i < |p.skills|
    ensures r.Ok? <==> CanUpgrade(p, p.skills[i].value)
    ensures r.Err? ==> r.raised == RuntimeError
    ensures r.Ok? ==> r.value.player == WithSkillLevel(p, i, p.skills[i].value.level + 1)
                                        .(credits := p.credits - p.skills[i].value.UpgradeCost())
    ensures r.Ok? ==> r.value.player.credits >= 0
    ensures r.Ok? ==> r.value.notices == [SkillUpgraded(p.id, r.value.player.skills[i].value)]
  {
    var s := p.skills[i].value;
    if !CanUpgrade(p, s) then Err(RuntimeError)
    else
      var q := WithSkillLevel(p, i, s.level + 1).(credits := p.credits - s.UpgradeCost());
      Ok(Step(q, [SkillUpgraded(p.id, q.skills[i].value)]))
  }

  /**
   * `downgrade_skill` on the skill at position `i`: fails with
   * `RuntimeError` and no change at level 0; otherwise refunds four credits
   * per level held before the decrement, lowers the level by one and raises
   * one downgrade notice.
   */
  function DowngradeSkill(p: Player, i: nat): (r: Result<Step>)
    requires i < |p.skills|
    ensures r.Ok? <==> p.skills[i].value.level > 0
    ensures r.Err? ==> r.raised == RuntimeError
    ensures r.Ok? ==> r.value.player == WithSkillLevel(p, i, p.skills[i].value.level - 1)
                                        .(credits := p.credits + 4 * p.skills[i].value.level)
    ensures r.Ok? ==> r.value.player.credits > p.credits
    ensures r.Ok? ==> r.value.notices == [SkillDowngraded(p.id, r.value.player.skills[i].value)]
  {
    var s := p.skills[i].value;
    if !CanDowngrade(s) then Err(RuntimeError)
    else
      var q := WithSkillLevel(p, i, s.level - 1).(credits := p.credits + s.DowngradeRefund());
      Ok(Step(q, [SkillDowngraded(p.id, q.skills[i].value)]))
  }

  /**
   * An upgrade followed by a downgrade of the same skill restores every
   * skill and costs the player `level + 1` credits, where `level` is the
   * level before the upgrade.
   */
  lemma UpgradeThenDowngrade(p: Player, i: nat)
    requires i < |p.skills| && p.skills[i].value.level >= 0
    requires UpgradeSkill(p, i).Ok?
    ensures DowngradeSkill(UpgradeSkill(p, i).value.player, i).Ok?
    ensures DowngradeSkill(UpgradeSkill(p, i).value.player, i).value.player
            == p.(credits := p.credits - (p.skills[i].value.level + 1))
  {
    var s := p.skills[i].value;
    var up := UpgradeSkill(p, i).value.player;
    var down := DowngradeSkill(up, i).value.player;
    assert down.skills == p.skills by {
      assert up.skills[i].value.(level := s.level) == s;
    }
  }

  /** A skill at its cap cannot be upgraded, however many credits the player holds. */
  lemma UpgradeAtCapFails(p: Player, i: nat)
    requires i < |p.skills|
    requires p.skills[i].value.MaxLevel() == AtMost(p.skills[i].value.level)
    ensures UpgradeSkill(p, i) == Err(RuntimeError)
  {
  }

  /**
   * `add_skill`: stores the skill under its key (an existing key keeps its
   * position and gets the new skill) and calls the type's init callback, if any.
   */
  function AddSkill(p: Player, s: Skill): (r: (Player, seq<InitCall>))
    ensures r.0.id == p.id && r.0.level == p.level && r.0.xp == p.xp && r.0.credits == p.credits
    ensures s.Key() in Keys(p.skills) ==> Keys(r.0.skills) == Keys(p.skills)
    ensures s.Key() !in Keys(p.skills) ==> r.0.skills == p.skills + [Entry(s.Key(), s)]
    ensures WellFormed(p.skills) ==> WellFormed(r.0.skills) && GetSkill(r.0, s.Key()) == Some(s)
    ensures forall k :: k != s.Key() ==> GetSkill(r.0, k) == GetSkill(p, k)
    ensures s.InitCallback().None? ==> r.1 == []
    ensures s.InitCallback().Some? ==> r.1 == [InitCall(s.InitCallback().value, p.id, s.Key())]
  {
    var q := p.(skills := Put(p.skills, s.Key(), s));
    PutLookups(p.skills, s.Key(), s);
    match s.InitCallback()
    case None => (q, [])
    case Some(init) => (q, [InitCall(init, p.id, s.Key())])
  }

  /** What `Put` does to lookups, collected for `AddSkill`. */
  lemma PutLookups(m: seq<Entry<Skill>>, k: string, s: Skill)
    ensures WellFormed(m) ==> Get(Put(m, k, s), k) == Some(s)
    ensures forall k' :: k' != k ==> Get(Put(m, k, s), k') == Get(m, k')
  {
    forall k' | k' != k
      ensures Get(Put(m, k, s), k') == Get(m, k')
    {
      PutGetOther(m, k, s, k');
    }
    if WellFormed(m) {
      PutGet(m, k, s);
    }
  }

  /** `get_skill(key)`: the skill stored under `key`, or `None` when the player has none. */
  function GetSkill(p: Player, key: string): (r: Option<Skill>)
    ensures r.Some? <==> key in Keys(p.skills)
    ensures WellFormed(p.skills) ==> forall i :: 0 <= i < |p.skills| && p.skills[i].key == key ==> r == Some(p.skills[i].value)
  {
    Get(p.skills, key)
  }

  /** Whether skill `s` reacts to `event` when the player triggers it. */
  predicate Fires(s: Skill, event: string) {
    s.level > 0 && s.Handles(event)
  }

  /** Positions listed in strictly increasing order, so each at most once. */
  predicate Increasing(ix: seq<nat>) {
    forall a, b :: 0 <= a < b < |ix| ==> ix[a] < ix[b]
  }

  /**
   * The positions of the skills that fire on `event`: exactly the firing
   * ones, each once, in insertion order.
   */
  function Firing(skills: seq<Entry<Skill>>, event: string): (ix: seq<nat>)
    ensures |ix| <= |skills|
    ensures forall k :: 0 <= k < |ix| ==> ix[k] < |skills| && Fires(skills[ix[k]].value, event)
    ensures forall j :: 0 <= j < |skills| && Fires(skills[j].value, event) ==> j in ix
    ensures Increasing(ix)
  {
    if skills == [] then []
    else
      var last := |skills| - 1;
      var front := Firing(skills[..last], event);
      assert forall k :: 0 <= k < |front| ==> skills[..last][front[k]] == skills[front[k]];
      assert forall j :: 0 <= j < last ==> skills[..last][j] == skills[j];
      front + (if Fires(skills[last].value, event) then [last] else [])
  }

  /** Two increasing sequences with the same elements are equal. */
  lemma {:induction false} IncreasingUnique(a: seq<nat>, b: seq<nat>)
    requires Increasing(a) && Increasing(b)
    requires forall x :: x in a <==> x in b
    ensures a == b
    decreases |a|
  {
    if a != [] {
      assert a[0] in b;
    }
    if b != [] {
      assert b[0] in a;
    }
    if a != [] && b != [] {
      assert a[0] == b[0] by {
        assert forall k :: 0 < k < |a| ==> a[0] < a[k];
        assert forall k :: 0 < k < |b| ==> b[0] < b[k];
        assert a[0] in b && b[0] in a;
      }
      forall x
        ensures x in a[1..] <==> x in b[1..]
      {
        assert x in a[1..] <==> x in a && x != a[0];
        assert x in b[1..] <==> x in b && x != b[0];
      }
      IncreasingUnique(a[1..], b[1..]);
      assert a == [a[0]] + a[1..] && b == [b[0]] + b[1..];
    }
  }

  /** Any increasing list of exactly the firing positions is `Firing`. */
  lemma FiringUnique(skills: seq<Entry<Skill>>, event: string, ix: seq<nat>)
    requires forall k :: 0 <= k < |ix| ==> ix[k] < |skills| && Fires(skills[ix[k]].value, event)
    requires forall j :: 0 <= j < |skills| && Fires(skills[j].value, event) ==> j in ix
    requires Increasing(ix)
    ensures ix == Firing(skills, event)
  {
    var f := Firing(skills, event);
    forall x
      ensures x in ix <==> x in f
    {
      if x in ix {
        var k :| 0 <= k < |ix| && ix[k] == x;
      }
      if x in f {
        var k :| 0 <= k < |f| && f[k] == x;
      }
    }
    IncreasingUnique(ix, f);
  }

  /**
   * The trigger loop over `skills`: one invocation per firing skill, in
   * insertion order (the `k`-th invocation is that of the `k`-th firing skill).
   */
  function TriggerEach(skills: seq<Entry<Skill>>, event: string, args: Args): (r: seq<Invocation>)
    ensures |r| == |Firing(skills, event)|
    ensures forall k :: 0 <= k < |r| ==>
      r[k] == Trigger(skills[Firing(skills, event)[k]].value, event, args).value
  {
    if skills == [] then []
    else
      var last := |skills| - 1;
      var rest := TriggerEach(skills[..last], event, args);
      var s := skills[last].value;
      var here := if s.level > 0 then Trigger(s, event, args) else None;
      var r := rest + (if here.Some? then [here.value] else []);
      TriggerEachStep(skills, event, args, here, rest, r);
      r
  }

  /** The inductive step of `TriggerEach`, stated for the skills before the last one and the last. */
  lemma TriggerEachStep(skills: seq<Entry<Skill>>, event: string, args: Args,
                        here: Option<Invocation>, rest: seq<Invocation>, r: seq<Invocation>)
    requires skills != []
    requires var s := skills[|skills| - 1].value; here == if s.level > 0 then Trigger(s, event, args) else None
    requires r == rest + (if here.Some? then [here.value] else [])
    requires |rest| == |Firing(skills[..|skills| - 1], event)|
    requires forall k :: 0 <= k < |rest| ==>
      rest[k] == Trigger(skills[..|skills| - 1][Firing(skills[..|skills| - 1], event)[k]].value, event, args).value
    ensures |r| == |Firing(skills, event)|
    ensures forall k :: 0 <= k < |r| ==>
      r[k] == Trigger(skills[Firing(skills, event)[k]].value, event, args).value
  {
    var last := |skills| - 1;
    var front := skills[..last];
    var f := Firing(front, event);
    assert Firing(skills, event) == f + (if Fires(skills[last].value, event) then [last] else []);
    forall k | 0 <= k < |f|
      ensures front[f[k]] == skills[f[k]]
    {
    }
  }

  /** What `TriggerEach`'s exact order gives about membership. */
  lemma TriggerEachMembers(skills: seq<Entry<Skill>>, event: string, args: Args)
    ensures var r := TriggerEach(skills, event, args);
      && (forall c :: c in r ==>
            (&& c.event == event
             && exists j :: 0 <= j < |skills| && Fires(skills[j].value, event)
                            && c.args == args["skill" := SkillRef(skills[j].value.Key())]))
      && (forall j :: 0 <= j < |skills| && Fires(skills[j].value, event) ==>
            Trigger(skills[j].value, event, args).value in r)
  {
    var r := TriggerEach(skills, event, args);
    var f := Firing(skills, event);
    forall c | c in r
      ensures c.event == event && exists j :: 0 <= j < |skills| && Fires(skills[j].value, event)
                                            && c.args == args["skill" := SkillRef(skills[j].value.Key())]
    {
      var k :| 0 <= k < |r| && r[k] == c;
      assert Fires(skills[f[k]].value, event);
    }
    forall j | 0 <= j < |skills| && Fires(skills[j].value, event)
      ensures Trigger(skills[j].value, event, args).value in r
    {
      assert j in f;
      var k :| 0 <= k < |f| && f[k] == j;
      assert r[k] == Trigger(skills[j].value, event, args).value;
    }
  }

  /** Every invocation carries the loop's arguments other than `skill` unchanged. */
  lemma TriggerEachKeeps(skills: seq<Entry<Skill>>, event: string, args: Args, field: string)
    requires field in args && field != "skill"
    ensures forall c :: c in TriggerEach(skills, event, args) ==> field in c.args && c.args[field] == args[field]
  {
    TriggerEachMembers(skills, event, args);
  }

  /**
   * The trigger loop is the only list of invocations that follows an
   * increasing list of exactly the firing positions.
   */
  lemma TriggerEachUnique(skills: seq<Entry<Skill>>, event: string, args: Args, ix: seq<nat>, r: seq<Invocation>)
    requires forall k :: 0 <= k < |ix| ==> ix[k] < |skills| && Fires(skills[ix[k]].value, event)
    requires forall j :: 0 <= j < |skills| && Fires(skills[j].value, event) ==> j in ix
    requires Increasing(ix)
    requires |r| == |ix| && forall k :: 0 <= k < |r| ==> Trigger(skills[ix[k]].value, event, args) == Some(r[k])
    ensures r == TriggerEach(skills, event, args)
  {
    FiringUnique(skills, event, ix);
  }

  /**
   * `trigger_skills`: every skill with a level above zero and a callback
   * for the event is triggered once, in insertion order, with `player` set
   * to this player (and `skill` to the receiving skill).
   */
  function TriggerSkills(p: Player, event: string, args: Args): (r: seq<Invocation>)
    ensures |r| == |Firing(p.skills, event)| <= |p.skills|
    ensures forall k :: 0 <= k < |r| ==>
      r[k] == Trigger(p.skills[Firing(p.skills, event)[k]].value, event, args["player" := PlayerRef(p.id)]).value
    ensures forall c :: c in r ==>
      exists j :: 0 <= j < |p.skills| && Fires(p.skills[j].value, event)
                 && c.args == args["player" := PlayerRef(p.id)]["skill" := SkillRef(p.skills[j].value.Key())]
    ensures forall c :: c in r ==> c.event == event && "player" in c.args && c.args["player"] == PlayerRef(p.id)
    ensures forall j :: 0 <= j < |p.skills| && Fires(p.skills[j].value, event) ==>
      Trigger(p.skills[j].value, event, args["player" := PlayerRef(p.id)]).value in r
    ensures (forall j :: 0 <= j < |p.skills| ==> !Fires(p.skills[j].value, event)) ==> r == []
  {
    var a := args["player" := PlayerRef(p.id)];
    TriggerEachMembers(p.skills, event, a);
    TriggerEachKeeps(p.skills, event, a, "player");
    var f := Firing(p.skills, event);
    assert |f| > 0 ==> Fires(p.skills[f[0]].value, event);
    TriggerEach(p.skills, event, a)
  }

  /** A field the event arguments lack, other than `player` and `skill`, reaches no skill. */
  lemma TriggerSkillsLacks(p: Player, event: string, args: Args, field: string)
    requires field !in args && field != "player" && field != "skill"
    ensures forall c :: c in TriggerSkills(p, event, args) ==> field !in c.args && c.event == event
  {
    var a := args["player" := PlayerRef(p.id)];
    assert field !in a;
    forall c: Invocation | c in TriggerSkills(p, event, args)
      ensures field !in c.args && c.event == event
    {
      var j :| 0 <= j < |p.skills| && Fires(p.skills[j].value, event)
               && c.args == a["skill" := SkillRef(p.skills[j].value.Key())];
    }
  }

  /** After a reset no skill reacts to any event. */
  lemma ResetSilencesSkills(p: Player, event: string, args: Args)
    ensures TriggerSkills(ResetProgress(p).player, event, args) == []
  {
  }
}
