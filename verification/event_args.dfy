/** Values that travel in the keyword arguments of game events and skill callbacks. */
module EventArgs {

  /** Host index of a player entity; the model identifies players by it. */
  type PlayerId = int

  /** Opaque identity of a callback function supplied by a skill's event module. */
  type CallbackId = string

  /** Opaque handle of a skill type's translation strings. */
  type StringsId = string

  /** Tunable parameters of a skill type, read from its data file. */
  type Variables = map<string, string>

  /** One keyword-argument value: a game-event field, a player or a skill reference, or None. */
  datatype Arg = Num(n: int) | Text(s: string) | PlayerRef(player: PlayerId) | SkillRef(key: string) | NoneArg

  type Args = map<string, Arg>
}
