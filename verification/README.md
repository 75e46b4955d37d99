# RPG-SP progression engine in Dafny

RPG-SP is a role-playing mod for Source engine shooters. Players earn
experience (XP) for kills, gain levels, receive credits for each level
and spend them on skills. Each skill's level makes its effect stronger.
The repository holds two generations of the engine, and both are modelled:

- **Current** (`addons/source-python/plugins/rpg/`):
  - the player's XP/level/credit state machine with its upgrade and
    downgrade transactions (`Players`);
  - skill types and skills with their cost arithmetic and callback
    lookup (`SkillTypes`);
  - the registry builder, which reads skill directories and reorders the
    registry by an order file (`Builder`);
  - the event router: solo and attacker/victim dispatch, re-dispatch of
    upgrade/downgrade notices, kill XP and the bots' automatic upgrade
    (`Router`);
  - the integer effects and guards of the class-based skills
    (`SkillEffects`).
- **Legacy** (`rpg/`):
  - the player with upward-only `level`/`xp` setters and the level-sync
    loop (`LegacyPlayers`);
  - the skill base class with its `callback` decorator and the metaclass
    callback table (`LegacySkills`);
  - the `Health` and `Regenerate` skills (`LegacySkillEffects`);
  - the early router (`LegacyRouter`).

Shared modules:

- `Results`: Python exceptions as `Err` values.
- `OrderedMaps`: Python's insertion-ordered dicts as sequences of distinct-key entries.
- `EventArgs`: keyword-argument values.
- `Leveling`: the sum of level thresholds consumed.
- `Config`: the engine's constants.

Every operation is a pure function over immutable values, except the legacy
level-sync loop and `xp` setter (`LegacyPlayers.SyncLevelToXp`,
`LegacyPlayers.SetXp`), which are methods over plain values. Listener
notifications and skill callback calls are returned as logs: `Notice`,
`Invocation`, `InitCall`, `Call` and `Dispatch` records. The host
engine's player entities, timers and I/O are not part of the model.

Behaviour modelled as the code is written, where the code's own
documentation or a first reading suggests otherwise:

- **Level-up notice.** `give_xp` notifies `levels = initial - final` and
  `credits = initial - final`, so both are negative. The listener's
  documentation calls them the amounts gained.
- **Self-inflicted damage.** In the current router, a player who hurts or
  kills themselves is routed as attacker and as victim. They never get the
  self-harm name; only world damage, with no attacker, gets it. The legacy
  router ignores such events altogether.
- **The `skill` argument.** `trigger_skills` lets each receiving skill
  overwrite the `skill` argument with itself. So in a
  `player_upgrade_skill` broadcast no callback can see which sibling skill
  changed.
- **Failed builds.** `build_skill` never returns `None`, so the
  "unable to build" branch of `build_skill_types` cannot be reached. A
  directory whose build raises aborts the whole registry load.
- **Worked example.** From a fresh player, a grant of 250 XP ends at
  level 2 with 30 XP and 10 credits.
- **Health cuts.** A Regeneration tick and a Vampirism hit both cut health
  that is above the cap down to the cap. The legacy Regenerate tick leaves
  such health alone, and it stops one tick later than the current one.

## Model

| member | source | states |
|---|---|---|
| `OrderedMaps.Put` | addons/source-python/plugins/rpg/player.py:42 | assigning to a present key keeps the key order, assigning to a new key appends it, and distinct keys stay distinct |
| `OrderedMaps.Get` | addons/source-python/plugins/rpg/player.py:46-48 | a lookup finds a value exactly when the key is present, and returns that key's entry |
| `OrderedMaps.Remove` | addons/source-python/plugins/rpg/builder.py:42 | popping a key removes exactly that key and keeps the keys distinct |
| `OrderedMaps.PutGet` | addons/source-python/plugins/rpg/player.py:42 | after storing a value under a key, looking the key up gives that value |
| `OrderedMaps.PutGetOther` | addons/source-python/plugins/rpg/player.py:42 | storing under one key leaves every other key's lookup unchanged |
| `OrderedMaps.RemoveGetOther` | addons/source-python/plugins/rpg/builder.py:42 | popping one key leaves every other key's lookup unchanged |
| `SkillTypes.NewSkillType` | addons/source-python/plugins/rpg/skill.py:28-42 | an absent `max_level` means unbounded; absent `variables` and `event_callbacks` become empty maps; the other fields are stored as given |
| `SkillTypes.NewSkill` | addons/source-python/plugins/rpg/skill.py:69-78 | a new skill starts at level 0, and its key, cap and callbacks are read from its type |
| `SkillTypes.Trigger` | addons/source-python/plugins/rpg/skill.py:90-104 | a skill is called exactly when its event is present with a callback that is not `None`; the call gets that callback, the type's strings and variables, and the arguments with `skill` set to itself |
| `SkillTypes.UpgradeCostGrows` | addons/source-python/plugins/rpg/skill.py:80-83 | an upgrade costs at least 5 credits from level 0 up, and each level costs 5 more than the one before |
| `SkillTypes.RefundBelowCost` | addons/source-python/plugins/rpg/skill.py:80-88 | undoing an upgrade refunds less than it cost, short by exactly the new level |
| `SkillTypes.LevelDoesNotTouchType` | addons/source-python/plugins/rpg/skill.py:62-78 | changing a skill's level changes nothing read from its type: key, cap, callbacks, or whether and how it triggers |
| `Players.NewPlayer` | addons/source-python/plugins/rpg/player.py:24-35 | a new player has level, XP and credits 0 and no skills |
| `Players.RequiredXp` | addons/source-python/plugins/rpg/player.py:64-67 | definition: the XP to the next level is `100 + 20*level`; its growth is stated by `Players.RequiredXpMonotone` |
| `Players.RequiredXpMonotone` | addons/source-python/plugins/rpg/player.py:65-68 | the XP a level needs never falls as the level rises, and it is at least 100 from level 0 up |
| `Players.LevelLoop` | addons/source-python/plugins/rpg/player.py:80-84 | the loop ends below the threshold; its start XP equals the residual XP plus the thresholds of the levels passed; it adds 5 credits per level, and does nothing when already below the threshold |
| `Players.GiveXp` | addons/source-python/plugins/rpg/player.py:70-91 | a negative grant raises `ValueError`; otherwise XP ends below the threshold, XP is conserved, 5 credits come per level, from a non-negative state the residual XP is non-negative (so the level reached is determined), and one notice is raised exactly when the level rose, carrying initial minus final values (negative) |
| `Players.GiveXpMultiLevel` | addons/source-python/plugins/rpg/player.py:78-91 | 250 XP from a fresh player gives level 2, 30 XP and 10 credits, with the notice (-2, -10) |
| `Players.SetLevel` | addons/source-python/plugins/rpg/player.py:93-101 | a negative level raises `ValueError`; otherwise the level is set and XP zeroed, with credits and skills untouched |
| `Players.ZeroLevels` | addons/source-python/plugins/rpg/player.py:111-112 | every skill keeps its key and type and drops to level 0 |
| `Players.ResetProgress` | addons/source-python/plugins/rpg/player.py:103-112 | a reset zeroes level, XP, credits and every skill level, keeps the skills, and raises no notice |
| `Players.CanUpgrade` | addons/source-python/plugins/rpg/player.py:114-122 | definition: credits at least the upgrade cost and the cap above the level; `Players.UpgradeSkill` succeeds exactly when it holds |
| `Players.CanDowngrade` | addons/source-python/plugins/rpg/player.py:124-129 | definition: the level is above 0; `Players.DowngradeSkill` succeeds exactly when it holds |
| `Players.UpgradeSkill` | addons/source-python/plugins/rpg/player.py:114-140 | an upgrade succeeds exactly when the credits cover the cost and the skill is below its cap, otherwise it raises `RuntimeError`; success debits the cost, adds one level, touches no other skill, leaves credits non-negative and raises one notice |
| `Players.DowngradeSkill` | addons/source-python/plugins/rpg/player.py:124-151 | a downgrade succeeds exactly when the level is positive, otherwise it raises `RuntimeError`; success refunds 4 credits per level held before, removes one level and raises one notice |
| `Players.UpgradeThenDowngrade` | addons/source-python/plugins/rpg/player.py:131-151 | an upgrade followed by a downgrade restores every skill and costs the player the old level plus one |
| `Players.UpgradeAtCapFails` | addons/source-python/plugins/rpg/player.py:114-122 | a skill at its cap cannot be upgraded, however many credits the player has |
| `Players.AddSkill` | addons/source-python/plugins/rpg/player.py:37-44 | adding replaces a skill with the same key in place or appends a new one; lookups of other keys are unchanged; the init callback, if any, is called once with the player and the skill |
| `Players.GetSkill` | addons/source-python/plugins/rpg/player.py:46-48 | a skill is found exactly when its key is held, and it is the skill stored under that key |
| `Players.Firing` | addons/source-python/plugins/rpg/player.py:158-159 | the positions of the skills the loop triggers: each listed one is above level 0 and handles the event, every such skill is listed, and the positions strictly increase (insertion order, each once) |
| `Players.FiringUnique` | addons/source-python/plugins/rpg/player.py:158-159 | any strictly increasing list of exactly the triggering positions is `Players.Firing` |
| `Players.TriggerEach` | addons/source-python/plugins/rpg/player.py:158-161 | the loop makes one call per triggering skill and no other, in insertion order: the `k`-th call is the `Skill.trigger` call of the `k`-th triggering skill |
| `Players.TriggerEachUnique` | addons/source-python/plugins/rpg/player.py:158-161 | any call list that follows an increasing list of exactly the triggering positions equals the loop's |
| `Players.TriggerEachKeeps` | addons/source-python/plugins/rpg/player.py:158-161 | every call carries each caller argument other than `skill` unchanged |
| `Players.TriggerSkills` | addons/source-python/plugins/rpg/player.py:153-161 | the calls are exactly those of the skills above level 0 that handle the event, once each, in insertion order, each with `player` added to the caller's arguments and `skill` set to the receiving skill; no skill fires means no call |
| `Players.TriggerSkillsLacks` | addons/source-python/plugins/rpg/player.py:153-161 | a field missing from the caller's arguments, other than `player` and `skill`, reaches no triggered skill |
| `Players.ResetSilencesSkills` | addons/source-python/plugins/rpg/player.py:103-112 | after a reset no skill reacts to any event |
| `Builder.Strip` | addons/source-python/plugins/rpg/builder.py:40 | the stripped line is no longer than the line and neither starts nor ends with whitespace |
| `Builder.StripTrims` | addons/source-python/plugins/rpg/builder.py:40 | the stripped line is a slice of the line with only whitespace removed before and after it |
| `Builder.StripLine` | addons/source-python/plugins/rpg/builder.py:34-40 | a key read as a line with its newline strips back to the key |
| `Builder.StripIdempotent` | addons/source-python/plugins/rpg/builder.py:40 | stripping a stripped line changes nothing |
| `Builder.SplitKey` | addons/source-python/plugins/rpg/builder.py:55-59 | the key is the directory name unless the data holds a `key` entry, which wins and is removed from the forwarded data |
| `Builder.InitOf` | addons/source-python/plugins/rpg/builder.py:62-69 | the init callback is found exactly when the events module has a member named `init` |
| `Builder.Partition` | addons/source-python/plugins/rpg/builder.py:62-69 | definition: the init callback of `Builder.InitOf` paired with the event callbacks of `Builder.EventsOf` |
| `Builder.EventsOf` | addons/source-python/plugins/rpg/builder.py:62-69 | event callbacks are bound for exactly the names of the public members other than `init` |
| `Builder.EventsOfLastWins` | addons/source-python/plugins/rpg/builder.py:62-69 | each public member name other than `init` is bound to its member (`inspect.getmembers` lists each name once, so no later member overrides it) |
| `Builder.BuildSkill` | addons/source-python/plugins/rpg/builder.py:48-77 | the build succeeds exactly when the data is a mapping naming only `key`, `max_level` and `variables`, each of the right kind; otherwise it raises `TypeError`. A built type has the data's `key` or else the directory name, the strings, the init and event callbacks, the forwarded `max_level` (unbounded when absent) and the forwarded `variables` (empty when absent or null) |
| `Builder.BuildSkillRenamed` | addons/source-python/plugins/rpg/builder.py:55-77 | a data file with `key: hp` and a `max_level` builds the type `hp` with that cap, no variables and the module's callbacks |
| `Builder.Collect` | addons/source-python/plugins/rpg/builder.py:24-30 | the collected registry has distinct keys, each entry is stored under its own key, and exactly the built keys are present |
| `Builder.CollectOrder` | addons/source-python/plugins/rpg/builder.py:24-30 | registry keys come in first-seen build order, without repeats |
| `Builder.CollectLastWins` | addons/source-python/plugins/rpg/builder.py:30 | when two directories build the same key, the later type is kept |
| `Builder.Listed` | addons/source-python/plugins/rpg/builder.py:38-44 | the keys that survive ordering are the built keys named by some stripped line of the order file |
| `Builder.ReorderStep` | addons/source-python/plugins/rpg/builder.py:40-44 | definition: one loop round pops a still-unclaimed skill named by the line into the result and otherwise changes nothing; its two cases are `Builder.ReorderStepHit` and `Builder.ReorderStepRepeat` |
| `Builder.Reorder` | addons/source-python/plugins/rpg/builder.py:38-45 | definition: the loop over the order file's lines, each stripped; `Builder.ReorderKeepsInvariant` states what it keeps |
| `Builder.ReorderStepHit` | addons/source-python/plugins/rpg/builder.py:41-42 | moving a listed key that is still unordered keeps the ordering invariant |
| `Builder.ReorderStepRepeat` | addons/source-python/plugins/rpg/builder.py:41-44 | a line naming a key already moved changes nothing |
| `Builder.ReorderKeepsInvariant` | addons/source-python/plugins/rpg/builder.py:38-45 | after the whole order file, the ordered registry holds the listed keys in first-listed order with their built types, and the unclaimed rest holds exactly the built keys not listed |
| `Builder.BuildSkillTypes` | addons/source-python/plugins/rpg/builder.py:19-45 | without an order file the registry is the collected one; with one, its keys are the listed built keys in first-listed order, unlisted keys are dropped, and each key keeps its built type |
| `Builder.OrderFileDropsUnlisted` | addons/source-python/plugins/rpg/builder.py:32-45 | an order file naming `b` then `a` gives exactly the keys `b`, `a`, whatever else was built |
| `Builder.BuildAll` | addons/source-python/plugins/rpg/builder.py:25-30 | building succeeds only when every directory builds, and then yields each directory's type in directory order |
| `Builder.LoadRegistry` | addons/source-python/plugins/rpg/builder.py:19-45 | the registry is built exactly when every directory builds, and it is then the ordered registry of those types |
| `Router.AddFreshSkill` | addons/source-python/plugins/rpg/player.py:37-44 | adding a skill whose key is new appends it at the end, with its init call if the type has one |
| `Router.InitCallsOf` | addons/source-python/plugins/rpg/rpg.py:47-48 | definition: the init calls, one per registry entry whose type has an init callback, in registry order, each with the player and the skill's key |
| `Router.AttachSkills` | addons/source-python/plugins/rpg/rpg.py:46-48 | attaching gives one level-0 skill per registry entry, in registry order, with each type's init call in that order |
| `Router.NewPlayerSession` | addons/source-python/plugins/rpg/rpg.py:39-53 | a new session's player has zero progress and one level-0 skill per registry entry in registry order; the init calls are exactly `Router.InitCallsOf` the registry, so at most one per type |
| `Router.InitCallsBound` | addons/source-python/plugins/rpg/rpg.py:46-48 | attaching makes no more init calls than there are types |
| `Router.SoloDispatch` | addons/source-python/plugins/rpg/rpg.py:199-210 | a player off teams 2 and 3 triggers nothing; otherwise their skills are triggered with the event's arguments minus `userid` |
| `Router.SoloDropsUserid` | addons/source-python/plugins/rpg/rpg.py:206-210 | solo skill calls carry the event's own name and never `userid` |
| `Router.DuoArgs` | addons/source-python/plugins/rpg/rpg.py:225-231 | both players' skills get the event's fields with `userid` removed, and `attacker` and `victim` set to the two players (`None` for no attacker) |
| `Router.DuoDispatch` | addons/source-python/plugins/rpg/rpg.py:218-238 | with no attacker only the victim's skills run, under the self-harm name; with one, the attacker's run under the attack name, then the victim's under the victim name |
| `Router.SelfHarmIffNoAttacker` | addons/source-python/plugins/rpg/rpg.py:213-238 | the self-harm name is used when there is no attacker, and never when there is one |
| `Router.SelfAttackIsNotSelfHarm` | addons/source-python/plugins/rpg/rpg.py:234-238 | a player who is their own attacker is dispatched as attacker and as victim, never under the self-harm name |
| `Router.Redispatch` | addons/source-python/plugins/rpg/rpg.py:241-252 | a skill change first broadcasts `player_upgrade_skill`/`player_downgrade_skill` to all levelled skills, then sends `skill_upgrade`/`skill_downgrade` to the changed skill whatever its level |
| `Router.BroadcastLosesSibling` | addons/source-python/plugins/rpg/rpg.py:242-245 | in the upgrade broadcast the `k`-th call's `skill` argument is the `k`-th receiving skill itself, and every other levelled skill that handles the event is called with its own key, never with the changed skill's |
| `Router.TriggerSkillIsReceiver` | addons/source-python/plugins/rpg/player.py:158-161 | whatever `skill` the caller passes, the `k`-th call carries the `k`-th triggering skill as `skill` |
| `Router.UpgradeAndDispatch` | addons/source-python/plugins/rpg/rpg.py:241-245 | an upgrade with its listener succeeds exactly when the upgrade may happen, and then yields the upgraded player and the re-dispatched calls |
| `Router.DowngradeAndDispatch` | addons/source-python/plugins/rpg/rpg.py:248-252 | a downgrade with its listener succeeds exactly when the level is positive, and then yields the downgraded player and the re-dispatched calls |
| `Router.DowngradeToZeroStillNotifiesSkill` | addons/source-python/plugins/rpg/rpg.py:248-252 | a skill downgraded to 0 misses the broadcast but still gets its own `skill_downgrade` call last |
| `Router.KillXp` | addons/source-python/plugins/rpg/rpg.py:274-276 | definition: `80 + 2*victim level`; its bounds are `Router.KillXpBounds` |
| `Router.KillXpBounds` | addons/source-python/plugins/rpg/rpg.py:268-276 | kill XP is at least 80 for a victim of level 0 or more, and grows by 2 per victim level |
| `Router.FirstUpgradable` | addons/source-python/plugins/rpg/rpg.py:297-301 | the bot loop stops at the first position of the shuffled order whose skill can be upgraded, every earlier one cannot be; or it finds that none can |
| `Router.OnLevelUp` | addons/source-python/plugins/rpg/rpg.py:290-301 | a human player's level-up changes nothing; a bot upgrades at most one skill, and only one that can be upgraded |
| `Router.BotUpgradesOneSkill` | addons/source-python/plugins/rpg/rpg.py:297-301 | a bot with an affordable skill below its cap upgrades exactly one such skill |
| `Router.BotTakesFirstUpgradable` | addons/source-python/plugins/rpg/rpg.py:297-301 | a bot upgrades exactly the skill at the first position of the shuffled order that can be upgraded |
| `Router.BotWithoutChoiceStays` | addons/source-python/plugins/rpg/rpg.py:297-301 | a bot that can upgrade nothing stays as it is |
| `Router.RewardKill` | addons/source-python/plugins/rpg/rpg.py:268-276 | no attacker, or a self-kill, gives nothing; otherwise the attacker gains the kill XP with the usual level-up guarantees, and a human attacker's level-up triggers no skill call |
| `SkillEffects.HealthBonus` | addons/source-python/plugins/rpg/skills.py:17-19 | definition: `25*level` |
| `SkillEffects.MaxHealth` | addons/source-python/plugins/rpg/skills.py:90 | definition: `100 + bonus`, the cap Regeneration and Vampirism apply; `SkillEffects.MaxHealthStep` states its growth |
| `SkillEffects.MaxHealthStep` | addons/source-python/plugins/rpg/skills.py:17-19 | each `Health+` level raises the cap by 25, and the cap is at least 100 from level 0 up |
| `SkillEffects.HealthOnUpgrade` | addons/source-python/plugins/rpg/skills.py:21-23 | an upgrade adds the health of one level |
| `SkillEffects.HealthOnDowngrade` | addons/source-python/plugins/rpg/skills.py:25-28 | a downgrade cuts health to the new cap only when it is above it, and otherwise leaves it unchanged |
| `SkillEffects.HealthOnSpawn` | addons/source-python/plugins/rpg/skills.py:30-32 | spawning adds the bonus, so base health spawns at the cap |
| `SkillEffects.HealthUpgradeThenDowngrade` | addons/source-python/plugins/rpg/skills.py:21-28 | an upgrade then a downgrade leaves a player within the cap with the extra 25, cut to the cap, and never below where they started |
| `SkillEffects.CappedTick` | addons/source-python/plugins/rpg/skills.py:40-44 | a tick raises the value by the step but not past the cap, and stops the repeat exactly when the cap is reached |
| `SkillEffects.RegenerationTick` | addons/source-python/plugins/rpg/skills.py:40-44 | regeneration never heals past `100 + bonus`, stops exactly at the cap, and heals by the full level when that stays within the cap |
| `SkillEffects.BlacksmithTick` | addons/source-python/plugins/rpg/skills.py:99-102 | Blacksmith never gives more than 100 armor, stops exactly at 100, and adds the full level when that stays within 100 |
| `SkillEffects.TickCutsSurplus` | addons/source-python/plugins/rpg/skills.py:40-44 | a tick on a value above the cap lowers it to the cap and stops |
| `SkillEffects.RunTicksReachesCap` | addons/source-python/plugins/rpg/skills.py:40-49 | from within the cap, a positive step reaches the cap and stops once the ticks' steps cover the gap |
| `SkillEffects.RunTicksStaysWithin` | addons/source-python/plugins/rpg/skills.py:40-44 | ticking from within the cap never lowers the value and never passes the cap |
| `SkillEffects.RepeatOn` | addons/source-python/plugins/rpg/skills.py:46-58 | start events run the repeat; death and disconnect stop it; a downgrade stops it only at level 0; other events leave it alone |
| `SkillEffects.RegenerationRepeatEvents` | addons/source-python/plugins/rpg/skills.py:46-58 | Regeneration starts when hurt, ignores spawning, stops on death, and a downgrade leaves it stopped exactly at level 0 or when it was already stopped |
| `SkillEffects.BlacksmithRepeatEvents` | addons/source-python/plugins/rpg/skills.py:104-116 | Blacksmith also starts on spawn, stops on disconnect, and a downgrade stops it exactly at level 0 |
| `SkillEffects.StealAmount` | addons/source-python/plugins/rpg/skills.py:83-84 | the steal is a tenth of damage times level, rounded down, and at most `10*level`; it is non-negative for non-negative inputs |
| `SkillEffects.StealSaturates` | addons/source-python/plugins/rpg/skills.py:83-84 | the `10*level` limit binds exactly from 100 damage on |
| `SkillEffects.VampirismOnAttack` | addons/source-python/plugins/rpg/skills.py:86-91 | the new health is the smaller of health plus the steal amount and `100 + bonus`: it equals one of the two and exceeds neither |
| `SkillEffects.VampirismCutsSurplus` | addons/source-python/plugins/rpg/skills.py:86-91 | a hit by a player above the cap brings them down to the cap |
| `SkillEffects.ImpulseOnVictim` | addons/source-python/plugins/rpg/skills.py:136-143 | a boost is given exactly when no earlier boost is running, and a boost runs afterwards |
| `SkillEffects.ImpulseOnCancel` | addons/source-python/plugins/rpg/skills.py:145-148 | death or disconnect leaves no boost running, and keeps whether there was ever a delay |
| `SkillEffects.OneBoostPerDelay` | addons/source-python/plugins/rpg/skills.py:136-148 | any run of hits without a cancel or expiry gives at most one boost, and none while a boost runs |
| `SkillEffects.FireGrenadeBurn` | addons/source-python/plugins/rpg/skills.py:156-163 | the victim burns exactly when the weapon was `hegrenade`, for half the level in seconds |
| `LegacyPlayers.NewPlayer` | rpg/player.py:6-9 | a new legacy player has level and XP 0 |
| `LegacyPlayers.XpToLevelUp` | rpg/player.py:11-13 | definition: `300 + 15*level`; its growth is `LegacyPlayers.XpToLevelUpGrows` |
| `LegacyPlayers.XpToLevelUpGrows` | rpg/player.py:11-13 | `300 + 15*level` is at least 300 from level 0 up and strictly increasing |
| `LegacyPlayers.RequiredXp` | rpg/player.py:15-17 | the XP the current level needs is at least 300 |
| `LegacyPlayers.SetLevel` | rpg/player.py:23-27 | a level below the current one raises `ValueError`; otherwise the level is set and XP kept |
| `LegacyPlayers.SetLevelKeepsSynced` | rpg/player.py:23-27 | raising the level keeps XP below the threshold, since thresholds only grow |
| `LegacyPlayers.SyncLevelToXp` | rpg/player.py:40-48 | the sync loop ends below the threshold with the level no lower, and the assigned XP equals the residual plus the thresholds consumed at successive levels |
| `LegacyPlayers.SetXp` | rpg/player.py:33-38 | XP below the current value raises `ValueError`; otherwise the player ends synced, XP is conserved, and a value below the threshold is stored unchanged |
| `LegacyPlayers.ConsumedGrows` | rpg/player.py:40-48 | consuming more levels always costs at least one more threshold |
| `LegacyPlayers.SyncIsUnique` | rpg/player.py:40-48 | only one level and residual XP are both synced and conserve the XP, so the sync loop's contract determines its result |
| `LegacySkills.Callback` | rpg/skill.py:6-15 | the decorator returns the same function with exactly the given event names recorded |
| `LegacySkills.OuterCallbackWins` | rpg/skill.py:12-15 | of two stacked decorators, the outer one decides the events |
| `LegacySkills.Register` | rpg/skill.py:32-33 | registering a function maps each of its event names to it and leaves other events alone |
| `LegacySkills.CallbackTable` | rpg/skill.py:25-33 | an event is in the table exactly when some value of the class body lists it |
| `LegacySkills.LastDefinitionWins` | rpg/skill.py:29-33 | an event's callback is the last function in definition order that lists it |
| `LegacySkills.ClassTable` | rpg/skill.py:25-33 | a class's table has exactly the events its own body lists |
| `LegacySkills.NoInheritedCallbacks` | rpg/skill.py:25-28 | a class whose own body registers nothing has an empty table, whatever its base registered |
| `LegacySkills.ClassId` | rpg/skill.py:71-78 | the class id is the qualified class name, not the plain name |
| `LegacySkills.DisplayName` | rpg/skill.py:80-89 | the display name has the class name's length and no underscores; each underscore becomes a space and every other character is kept |
| `LegacySkills.DisplayNameKeepsPlainNames` | rpg/skill.py:80-89 | a name without underscores displays unchanged |
| `LegacySkills.NewSkill` | rpg/skill.py:102-108 | a new skill instance is of its class at level 0 |
| `LegacySkills.LegacyRefundBelowCost` | rpg/skill.py:110-118 | undoing an upgrade refunds less than it cost, short by exactly the new level |
| `LegacySkills.SameEconomyAsCurrent` | rpg/skill.py:110-118 | costs and refunds are the same as the current engine's at every level |
| `LegacySkills.ExecuteCallback` | rpg/skill.py:120-129 | events not in the class's table do nothing; otherwise the one registered function is called with the skill and the arguments |
| `LegacySkillEffects.RegisterSingle` | rpg/skill.py:32-33 | registering a function for one event sets just that table entry |
| `LegacySkillEffects.HealthTable` | rpg/skills.py:6-11 | `Health` reacts to `player_spawn` only |
| `LegacySkillEffects.RegenerateTable` | rpg/skills.py:14-41 | `Regenerate` reacts to `player_victim` (start) and `player_death` (stop); its other functions are not callbacks |
| `LegacySkillEffects.LegacyClassesUncapped` | rpg/skills.py:6-14 | neither legacy class sets a level cap |
| `LegacySkillEffects.HealthDisplayName` | rpg/skills.py:6-7 | `Health` displays under its class name |
| `LegacySkillEffects.RegenerateDisplayName` | rpg/skills.py:14-15 | `Regenerate` displays under its class name |
| `LegacySkillEffects.HealthSpawn` | rpg/skills.py:9-11 | spawning adds 25 health per level |
| `LegacySkillEffects.SpawnBonusUnchanged` | rpg/skills.py:9-11 | the spawn bonus is the same as the current `Health+` skill's |
| `LegacySkillEffects.FindHealthSkill` | rpg/skills.py:37-41 | the search finds the first skill whose class is exactly `Health`, and fails exactly when there is none |
| `LegacySkillEffects.RegenerateTick` | rpg/skills.py:30-35 | below the cap, health rises by the level but not past the cap and the repeat goes on; at or above the cap the repeat stops and health is unchanged |
| `LegacySkillEffects.MissingHealthSkillCountsAsZero` | rpg/skills.py:30-31 | with no `Health` skill the cap is 100, as with a level-0 one |
| `LegacySkillEffects.LegacyTickStopsOneLater` | rpg/skills.py:30-35 | the legacy tick that reaches the cap keeps running and only the next one stops, where the current tick stops at once |
| `LegacySkillEffects.LegacyTickKeepsSurplus` | rpg/skills.py:30-35 | health above the cap survives a legacy tick |
| `LegacySkillEffects.RunRegenerateCallback` | rpg/skills.py:21-28 | the start callback runs the repeat and captures the first `Health` skill; the stop callback stops it |
| `LegacySkillEffects.RegenerateOnEvent` | rpg/skills.py:21-27 | definition: an event goes through the class's callback table to the start or stop callback, or does nothing; the three cases are the lemmas that follow |
| `LegacySkillEffects.RegenerateStartsOnHurt` | rpg/skills.py:21-24 | delivered through the callback table, being hurt starts the repeat with the player's first `Health` skill as the tick's argument |
| `LegacySkillEffects.RegenerateStopsOnDeath` | rpg/skills.py:25-27 | delivered through the callback table, death stops the repeat |
| `LegacySkillEffects.RegenerateIgnoresOthers` | rpg/skill.py:120-129 | any event other than hurt and death finds no callback and leaves the repeat alone |
| `LegacySkillEffects.RegenerateTickOn` | rpg/skills.py:21-35 | a running repeat ticks with the cap of the captured `Health` skill's level at tick time, or the base cap without one |
| `LegacyRouter.NewPlayerSkills` | rpg/rpg.py:10-22 | a new player gets one level-0 instance of every skill class, in class order |
| `LegacyRouter.IndependentArgs` | rpg/rpg.py:37-41 | solo arguments lose `userid`, gain `player`, and keep every other field |
| `LegacyRouter.IndependentDispatch` | rpg/rpg.py:30-41 | a solo event runs the player's skills under its own name exactly when the player is on team 2 or 3 |
| `LegacyRouter.EventNamesKept` | rpg/rpg.py:44-48 | the current name table keeps the legacy attacker and victim names |
| `LegacyRouter.InteractionArgs` | rpg/rpg.py:53-58 | both players get the fields minus `userid`, with `attacker` and `victim` set to the two players |
| `LegacyRouter.InteractionDispatch` | rpg/rpg.py:50-62 | nothing runs without an attacker or when the attacker is the victim; otherwise the attacker runs the attack name, then the victim the victim name, each as `player` |
| `LegacyRouter.SelfHitIgnored` | rpg/rpg.py:56-57 | a self-inflicted hit or kill dispatches nothing |
| `LegacyRouter.InteractionRoles` | rpg/rpg.py:58-62 | each participant is its own `player`, as attacker or victim, and both otherwise get the same arguments |

## Left out

- Database loading and saving, menus, translations and chat messages. They are host I/O. Only the zero state before loading is modelled.
- Listener managers. Their notifications are returned as `Notice` values, and the listeners' effect is modelled by `Router.Redispatch` and `Router.OnLevelUp`.
- Timers. A skill's tick repeat is modelled as running or stopped, and the ticks themselves are driven by the caller (`SkillEffects.RunTicks`). The Impulse delay's expiry is an input event.
- Floating-point formulas: Long Jump's velocity factor, Impulse's speed and duration, and the hurt XP in `give_hurt_xp`.
- `send_rpg_menu`'s XP grant. It is a menu command, not part of the progression rules.
- The per-skill `events.py` modules under `skills/`. Their callbacks are opaque `CallbackId`s.
- Randomness. `rpg.utils.shuffled` becomes the `order` parameter of `Router.OnLevelUp`, required to list every skill position once.
- Resolving user ids to player entities. The host does this, so the routers receive players or player ids.
- Players.UpgradeSkill, Players.DowngradeSkill: the skill is given by its position in the player's own skill list. Passing a skill object the player does not hold is not modelled.
- Players.TriggerSkills: a caller argument named `strings` or `variables` clashes with `Skill.trigger`'s own keywords and raises `TypeError` in Python. The model keeps the type's strings and variables apart from the arguments, so it does not raise.
- Builder.BuildSkill: data files are reduced to text, cap, table and null values. A `key` or `max_level` of another type, or non-table `variables`, reads as `TypeError`, and YAML parsing itself is not modelled.
- Router.SoloDispatch and LegacyRouter.IndependentDispatch: they require the `userid` field that the game's event definitions always supply. The `KeyError` of a missing field is not modelled. Router.DuoDispatch and LegacyRouter.InteractionDispatch receive the attacker already resolved by the host, so they require only a known event name.
- SkillEffects.RegenerationTick, SkillEffects.VampirismOnAttack: the player's `Health+` skill is passed in as its level. `Player.find_skill` is not part of this model. The `AttributeError` it would cause for a player without that skill is not modelled.
- `TickRepeatSkill` and `event_callback`, which the class-based skills import, are not part of this model. Their repeat start/stop is modelled by `SkillEffects.RepeatOn`.
- `name`/`description` translation lookups, and the legacy `description` docstring property. They are text only.
- The legacy `Player.execute_skill_callbacks` and `rpg.utils.get_subclasses` are not part of this model. Legacy routing ends at a `Dispatch` record, and the skill classes are a parameter of `LegacyRouter.NewPlayerSkills`.
- LegacySkillEffects.RegenerateTickOn: the captured `Health` skill is kept as a position in the player's skill list, where Python keeps a reference to the object.
