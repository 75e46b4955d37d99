/**
 * The legacy engine's player (rpg/player.py): a level and an XP counter
 * that can only be assigned upwards, with XP overflow converted into
 * levels by a synchronisation loop after every XP assignment.
 */
module LegacyPlayers {
  import opened Results
  import Leveling

  /**
   * A legacy player's progression. Both counters start at 0 and their
   * setters refuse smaller values, so neither can become negative.
   */
  datatype Player = Player(level: nat, xp: nat)

  /** `Player(index)`: level and XP at zero. */
  function NewPlayer(): (p: Player)
    ensures p.level == 0 && p.xp == 0
  {
    Player(0, 0)
  }

  /** `xp_to_level_up(level)`. */
  function XpToLevelUp(level: int): int {
    300 + 15 * level
  }

  /** The threshold is positive from level 0 on and strictly increasing. */
  lemma XpToLevelUpGrows(a: int, b: int)
    ensures a >= 0 ==> XpToLevelUp(a) >= 300
    ensures a < b ==> XpToLevelUp(a) < XpToLevelUp(b)
  {
  }

  /** `required_xp`: the threshold at the player's level. */
  function RequiredXp(p: Player): (r: int)
    ensures r >= 300
  {
    XpToLevelUp(p.level)
  }

  /** No full level of XP is left unconverted. */
  predicate Synced(p: Player) {
    p.xp < RequiredXp(p)
  }

  /** XP consumed by `count` level-ups from `from`. */
  function Consumed(from: int, count: nat): int {
    Leveling.ThresholdSum(XpToLevelUp, from, count)
  }

  /**
   * The `level` setter: a smaller value raises `ValueError`; otherwise the
   * level is assigned as it is, without touching the XP.
   */
  function SetLevel(p: Player, value: int): (r: Result<Player>)
    ensures r.Err? <==> value < p.level
    ensures r.Err? ==> r.raised == ValueError
    ensures r.Ok? ==> r.value.level == value && r.value.xp == p.xp
  {
    if value < p.level then Err(ValueError) else Ok(Player(value, p.xp))
  }

  /** Since thresholds only grow, raising the level keeps a synced player synced. */
  lemma SetLevelKeepsSynced(p: Player, value: int)
    requires Synced(p) && SetLevel(p, value).Ok?
    ensures Synced(SetLevel(p, value).value)
  {
    XpToLevelUpGrows(p.level, value);
  }

  /**
   * `_sync_level_to_xp`: while the XP covers the threshold at the level
   * reached so far, that threshold is subtracted and one more level
   * counted; the counted levels are then added to the level.
   */
  method SyncLevelToXp(level: nat, xp: nat) returns (newLevel: nat, newXp: nat)
    ensures newXp < XpToLevelUp(newLevel)
    ensures newLevel >= level
    ensures xp == newXp + Consumed(level, newLevel - level)
    ensures xp < XpToLevelUp(level) ==> newLevel == level && newXp == xp
  {
    var levels: nat := 0;
    newXp := xp;
    while XpToLevelUp(level + levels) <= newXp
      invariant xp == newXp + Consumed(level, levels)
      invariant xp < XpToLevelUp(level) ==> levels == 0
      decreases newXp
    {
      Leveling.ThresholdSumSnoc(XpToLevelUp, level, levels);
      newXp := newXp - XpToLevelUp(level + levels);
      levels := levels + 1;
    }
    newLevel := level + levels;
  }

  /**
   * The `xp` setter: a value below the current XP raises `ValueError`;
   * otherwise the XP is assigned and synchronised into levels.
   */
  method SetXp(p: Player, value: int) returns (r: Result<Player>)
    ensures r.Err? <==> value < p.xp
    ensures r.Err? ==> r.raised == ValueError
    ensures r.Ok? ==> Synced(r.value)
    ensures r.Ok? ==> r.value.level >= p.level
    ensures r.Ok? ==> value == r.value.xp + Consumed(p.level, r.value.level - p.level)
    ensures r.Ok? && value < XpToLevelUp(p.level) ==> r.value == Player(p.level, value)
  {
    if value < p.xp {
      return Err(ValueError);
    }
    var level, xp := SyncLevelToXp(p.level, value);
    r := Ok(Player(level, xp));
  }

  /** Each further level costs at least the threshold of the first one. */
  lemma {:induction false} ConsumedGrows(from: nat, c: nat, d: nat)
    requires c < d
    ensures Consumed(from, d) >= Consumed(from, c) + XpToLevelUp(from + c)
    decreases d
  {
    Leveling.ThresholdSumSnoc(XpToLevelUp, from, d - 1);
    if c < d - 1 {
      ConsumedGrows(from, c, d - 1);
      XpToLevelUpGrows(from, from + d - 1);
    }
  }

  /**
   * The three facts `SyncLevelToXp` ensures determine its result: no other
   * level and residual XP are synced and account for the same XP.
   */
  lemma SyncIsUnique(level: nat, xp: nat, l1: nat, x1: nat, l2: nat, x2: nat)
    requires l1 >= level && x1 < XpToLevelUp(l1) && xp == x1 + Consumed(level, l1 - level)
    requires l2 >= level && x2 < XpToLevelUp(l2) && xp == x2 + Consumed(level, l2 - level)
    ensures l1 == l2 && x1 == x2
  {
    if l1 < l2 {
      ConsumedGrows(level, l1 - level, l2 - level);
    } else if l2 < l1 {
      ConsumedGrows(level, l2 - level, l1 - level);
    }
  }
}
