/**
 * The legacy engine's event routing (rpg/rpg.py): the skills a new player
 * is given, and which player's skills receive which event name with which
 * arguments. The player method that would then run the skills' callbacks
 * is not part of this model, so routing ends at a dispatch record.
 */
module LegacyRouter {
  import opened Results
  import opened EventArgs
  import opened LegacySkills
  import Router

  /** `_new_player`: one level-0 instance of every skill class, in class order. */
  function NewPlayerSkills(classes: seq<SkillClass>): (r: seq<Skill>)
    ensures |r| == |classes|
    ensures forall i :: 0 <= i < |r| ==> r[i] == NewSkill(classes[i])
  {
    seq(|classes|, i requires 0 <= i < |classes| => NewSkill(classes[i]))
  }

  /** A request to one player to run its skills' callbacks for `event` with `args`. */
  datatype Dispatch = Dispatch(player: PlayerId, event: string, args: Args)

  /** The arguments of a solo event as its player's skills receive them. */
  function IndependentArgs(args: Args, p: PlayerId): (a: Args)
    ensures "userid" !in a && "player" in a && a["player"] == PlayerRef(p)
    ensures forall k :: k in args && k != "userid" && k != "player" ==> k in a && a[k] == args[k]
    ensures forall k :: k in a ==> k == "player" || k in args
  {
    (args - {"userid"})["player" := PlayerRef(p)]
  }

  /**
   * `_execute_independent_skill_callbacks` for `player_jump` and
   * `player_spawn`: a player on team 2 or 3 runs its skills for the event,
   * under its own name, with `userid` replaced by `player`.
   */
  function IndependentDispatch(event: string, args: Args, p: PlayerId, team: int): (r: Option<Dispatch>)
    requires "userid" in args
    ensures r.Some? <==> Router.IsPlayingTeam(team)
    ensures r.Some? ==> r.value.player == p && r.value.event == event
    ensures r.Some? ==> r.value.args == IndependentArgs(args, p)
  {
    if team == 2 || team == 3 then Some(Dispatch(p, event, IndependentArgs(args, p))) else None
  }

  /** `_event_names`: the attacker's and the victim's event name per game event. */
  const EventNames: map<string, (string, string)> := map[
    "player_death" := ("player_kill", "player_death"),
    "player_hurt" := ("player_attack", "player_victim")]

  /** The current table keeps the legacy names and only adds a self-harm name. */
  lemma EventNamesKept(event: string)
    requires event in EventNames
    ensures event in Router.DuoEvents
    ensures Router.DuoEvents[event].attack == EventNames[event].0
    ensures Router.DuoEvents[event].victim == EventNames[event].1
  {
  }

  /** The arguments both players receive, before each gets its own `player`. */
  function InteractionArgs(args: Args, attacker: PlayerId, victim: PlayerId): (a: Args)
    ensures "userid" !in a
    ensures "attacker" in a && a["attacker"] == PlayerRef(attacker)
    ensures "victim" in a && a["victim"] == PlayerRef(victim)
    ensures forall k :: k in args && k !in {"userid", "attacker", "victim"} ==> k in a && a[k] == args[k]
  {
    (args - {"attacker", "userid"})["attacker" := PlayerRef(attacker)]["victim" := PlayerRef(victim)]
  }

  /**
   * `_execute_interaction_skill_callbacks` for `player_death` and
   * `player_hurt`. With no attacker, or when the attacker is the victim,
   * nothing runs. Otherwise the attacker's skills run for the attacker name
   * and then the victim's for the victim name, each with itself as `player`.
   */
  function InteractionDispatch(event: string, args: Args, attacker: Option<PlayerId>, victim: PlayerId)
    : (r: seq<Dispatch>)
    requires event in EventNames
    ensures attacker.None? || attacker.value == victim <==> r == []
    ensures r != [] ==> |r| == 2
    ensures r != [] ==> r[0].player == attacker.value && r[0].event == EventNames[event].0
    ensures r != [] ==> r[1].player == victim && r[1].event == EventNames[event].1
    ensures forall k :: 0 <= k < |r| ==>
      r[k].args == InteractionArgs(args, attacker.value, victim)["player" := PlayerRef(r[k].player)]
  {
    if attacker.None? || attacker.value == victim then []
    else
      var a := InteractionArgs(args, attacker.value, victim);
      [Dispatch(attacker.value, EventNames[event].0, a["player" := PlayerRef(attacker.value)]),
       Dispatch(victim, EventNames[event].1, a["player" := PlayerRef(victim)])]
  }

  /**
   * Where the current router sends a self-inflicted hit to the player
   * twice, as attacker and as victim, the legacy router sends nothing.
   */
  lemma SelfHitIgnored(event: string, args: Args, p: PlayerId)
    requires event in EventNames
    ensures InteractionDispatch(event, args, Some(p), p) == []
  {
  }

  /** Each participant sees the other under the same names: `attacker`, `victim` and itself as `player`. */
  lemma InteractionRoles(event: string, args: Args, attacker: PlayerId, victim: PlayerId)
    requires event in EventNames && attacker != victim
    ensures var r := InteractionDispatch(event, args, Some(attacker), victim);
            && r[0].args["player"] == r[0].args["attacker"]
            && r[1].args["player"] == r[1].args["victim"]
            && r[0].args - {"player"} == r[1].args - {"player"}
  {
  }
}
