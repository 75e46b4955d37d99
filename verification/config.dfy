/** Tunable constants of the current engine (addons/source-python/plugins/rpg/config.py). */
module Config {
  /** XP needed to leave level 0, and the extra XP needed per level. */
  const RequiredXpBase: int := 100
  const RequiredXpPerLevel: int := 20

  /** XP for a kill, and the extra XP per level of the victim. */
  const KillXpBase: int := 80
  const KillXpPerVictimLevel: int := 2

  /** Credits granted for each level gained (fixed in player.py). */
  const CreditsPerLevel: int := 5
}
