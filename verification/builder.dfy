/**
 * The skill-type registry builder of the current engine
 * (addons/source-python/plugins/rpg/builder.py): one skill type per skill
 * directory, optionally reordered by an order file.
 */
module Builder {
  import opened Results
  import opened EventArgs
  import opened OrderedMaps
  import opened SkillTypes

  /** The registry: skill types by key, in iteration order. */
  type Registry = seq<Entry<SkillType>>

  /** Every entry is stored under its own skill type's key. */
  ghost predicate KeyedByType(r: Registry) {
    forall i :: 0 <= i < |r| ==> r[i].value.key == r[i].key
  }

  // ---------------------------------------------------------------------
  // Whitespace stripping of order-file lines (Python's `str.strip()`).
  // ---------------------------------------------------------------------

  /** The characters Python's `str.isspace` accepts. */
  predicate IsSpace(c: char) {
    || ('\U{0009}' <= c <= '\U{000D}') || ('\U{001C}' <= c <= '\U{0020}')
    || c == '\U{0085}' || c == '\U{00A0}' || c == '\U{1680}'
    || ('\U{2000}' <= c <= '\U{200A}') || c == '\U{2028}' || c == '\U{2029}'
    || c == '\U{202F}' || c == '\U{205F}' || c == '\U{3000}'
  }

  /** Number of leading whitespace characters. */
  function LeadingSpace(s: string): (n: nat)
    ensures n <= |s|
    ensures forall i :: 0 <= i < n ==> IsSpace(s[i])
    ensures n < |s| ==> !IsSpace(s[n])
  {
    if |s| == 0 || !IsSpace(s[0]) then 0 else 1 + LeadingSpace(s[1..])
  }

  /** Length of `s` without its trailing whitespace. */
  function TrailingStart(s: string): (n: nat)
    ensures n <= |s|
    ensures forall i :: n <= i < |s| ==> IsSpace(s[i])
    ensures n > 0 ==> !IsSpace(s[n - 1])
  {
    if |s| == 0 || !IsSpace(s[|s| - 1]) then |s| else TrailingStart(s[..|s| - 1])
  }

  /**
   * `str.strip()`: what is left of `s` after removing whitespace at both
   * ends; it neither starts nor ends with whitespace.
   */
  function Strip(s: string): (r: string)
    ensures |r| <= |s|
    ensures |r| > 0 ==> !IsSpace(r[0]) && !IsSpace(r[|r| - 1])
  {
    var i := LeadingSpace(s);
    var rest := s[i..];
    var j := TrailingStart(rest);
    assert j > 0 ==> s[i + j - 1] == rest[j - 1];
    s[i..i + j]
  }

  /** The stripped line is a slice of it with only whitespace cut away on either side. */
  lemma StripTrims(s: string)
    ensures exists i, j ::
      (&& 0 <= i <= j <= |s| && Strip(s) == s[i..j]
       && (forall k :: 0 <= k < i ==> IsSpace(s[k]))
       && (forall k :: j <= k < |s| ==> IsSpace(s[k])))
  {
    var i := LeadingSpace(s);
    var rest := s[i..];
    var j := TrailingStart(rest);
    assert forall k :: i + j <= k < |s| ==> s[k] == rest[k - i];
    assert Strip(s) == s[i..i + j];
  }

  /** A line as `readlines` returns it strips to its text when the text has no outer whitespace. */
  lemma StripLine(text: string)
    requires |text| > 0 && !IsSpace(text[0]) && !IsSpace(text[|text| - 1])
    ensures Strip(text + "\n") == text
  {
    var s := text + "\n";
    assert LeadingSpace(s) == 0;
    assert s[..|s| - 1] == text;
    assert TrailingStart(text) == |text|;
    assert TrailingStart(s) == |text|;
  }

  /** A stripped line strips to itself. */
  lemma StripIdempotent(s: string)
    ensures Strip(Strip(s)) == Strip(s)
  {
    var r := Strip(s);
    if |r| > 0 {
      assert LeadingSpace(r) == 0;
      assert TrailingStart(r) == |r|;
    }
  }

  // ---------------------------------------------------------------------
  // Building one skill type from a directory.
  // ---------------------------------------------------------------------

  /** A value in a skill's `data.yml` mapping, as far as the engine uses it. */
  datatype DataValue = Str(text: string) | Cap(level: MaxLevel) | Table(entries: Variables) | Null

  /** A public name of a skill's `events` module (as `inspect.getmembers` lists them). */
  datatype Member = Member(name: string, value: CallbackId)

  /**
   * One skill directory: its name, the parsed `data.yml` (`None` when the
   * file holds no mapping), its translation strings and its events module.
   */
  datatype SkillDir = SkillDir(name: string, data: Option<map<string, DataValue>>, strings: StringsId, members: seq<Member>)

  /**
   * The key is the directory name unless the data has a `key` entry, which
   * then wins and is removed from what is forwarded to `SkillType`.
   */
  function SplitKey(dirName: string, data: map<string, DataValue>): (r: Result<(string, map<string, DataValue>)>)
    ensures "key" !in data ==> r == Ok((dirName, data))
    ensures "key" in data && data["key"].Str? ==> r == Ok((data["key"].text, data - {"key"}))
    ensures r.Ok? ==> "key" !in r.value.1 && r.value.1 == data - {"key"}
  {
    if "key" !in data then Ok((dirName, data))
    else
      match data["key"]
      case Str(k) => Ok((k, data - {"key"}))
      case _ => Err(TypeError)
  }

  predicate StartsWithUnderscore(name: string) {
    |name| > 0 && name[0] == '_'
  }

  /** Whether a module member becomes an event callback. */
  predicate IsEventName(name: string) {
    name != "init" && !StartsWithUnderscore(name)
  }

  /** The init callback: the last member named `init`, if any. */
  function InitOf(members: seq<Member>): (r: Option<CallbackId>)
    ensures r.Some? <==> exists i :: 0 <= i < |members| && members[i].name == "init"
    ensures forall i :: 0 <= i < |members| && members[i].name == "init" ==>
      ((forall j :: i < j < |members| ==> members[j].name != "init") ==> r == Some(members[i].value))
  {
    if members == [] then None
    else
      var prefix := members[..|members| - 1];
      assert forall i :: 0 <= i < |prefix| ==> prefix[i] == members[i];
      if members[|members| - 1].name == "init" then Some(members[|members| - 1].value)
      else InitOf(prefix)
  }

  /** The members' names, in order. */
  function Names(members: seq<Member>): (ns: seq<string>)
    ensures |ns| == |members|
    ensures forall i :: 0 <= i < |members| ==> ns[i] == members[i].name
  {
    seq(|members|, i requires 0 <= i < |members| => members[i].name)
  }

  /** The event callbacks: every public name other than `init`, bound to its last member. */
  function EventsOf(members: seq<Member>): (r: map<string, Option<CallbackId>>)
    ensures forall n :: n in r <==> IsEventName(n) && n in Names(members)
  {
    if members == [] then map[]
    else
      var last := members[|members| - 1];
      var prefix := members[..|members| - 1];
      assert Names(members) == Names(prefix) + [last.name];
      var events := EventsOf(prefix);
      if IsEventName(last.name) then events[last.name := Some(last.value)] else events
  }

  /** An event name is bound to the last member carrying it. */
  lemma {:induction false} EventsOfLastWins(members: seq<Member>, i: nat)
    requires i < |members| && IsEventName(members[i].name)
    requires forall j :: i < j < |members| ==> members[j].name != members[i].name
    ensures members[i].name in EventsOf(members)
    ensures EventsOf(members)[members[i].name] == Some(members[i].value)
    decreases |members|
  {
    var n := |members|;
    var prefix := members[..n - 1];
    assert Names(members)[i] == members[i].name;
    if i < n - 1 {
      assert prefix[i] == members[i];
      forall j | i < j < |prefix|
        ensures prefix[j].name != members[i].name
      {
        assert prefix[j] == members[j];
      }
      EventsOfLastWins(prefix, i);
    }
  }

  /**
   * Split an events module's members: `init` becomes the init callback,
   * other names not starting with `_` become event callbacks, and
   * `_`-prefixed names are ignored.
   */
  function Partition(members: seq<Member>): (Option<CallbackId>, map<string, Option<CallbackId>>) {
    (InitOf(members), EventsOf(members))
  }

  /** The keyword arguments a data file may forward to `SkillType`. */
  predicate IsForwardable(name: string) {
    name == "max_level" || name == "variables"
  }

  /** The `max_level` forwarded from the data, if any. */
  function MaxLevelArg(rest: map<string, DataValue>): Result<Option<MaxLevel>> {
    if "max_level" !in rest then Ok(None)
    else if rest["max_level"].Cap? then Ok(Some(rest["max_level"].level))
    else Err(TypeError)
  }

  /** The `variables` forwarded from the data, if any; `null` counts as absent. */
  function VariablesArg(rest: map<string, DataValue>): Result<Option<Variables>> {
    if "variables" !in rest || rest["variables"].Null? then Ok(None)
    else if rest["variables"].Table? then Ok(Some(rest["variables"].entries))
    else Err(TypeError)
  }

  /**
   * `build_skill`: a data file that is not a mapping, or one naming any
   * keyword other than `key`, `max_level` and `variables`, or one whose
   * `key`, `max_level` or `variables` has the wrong kind of value, makes the
   * `SkillType` call raise `TypeError`. Otherwise the type is built with
   * the key, the forwarded values and the partitioned events module.
   */
  function BuildSkill(dir: SkillDir): (r: Result<SkillType>)
    ensures r.Ok? <==>
      && dir.data.Some?
      && (forall n :: n in dir.data.value ==> n == "key" || IsForwardable(n))
      && SplitKey(dir.name, dir.data.value).Ok?
      && MaxLevelArg(dir.data.value).Ok?
      && VariablesArg(dir.data.value).Ok?
    ensures r.Err? ==> r.raised == TypeError
    ensures dir.data.None? ==> r == Err(TypeError)
    ensures dir.data.Some? && (exists n :: n in dir.data.value && n != "key" && !IsForwardable(n)) ==> r.Err?
    ensures r.Ok? && "key" in dir.data.value ==> dir.data.value["key"] == Str(r.value.key)
    ensures r.Ok? && "key" !in dir.data.value ==> r.value.key == dir.name
    ensures r.Ok? ==> r.value.langStrings == Some(dir.strings)
    ensures r.Ok? ==> r.value.initCallback == Partition(dir.members).0
    ensures r.Ok? ==> r.value.eventCallbacks == Partition(dir.members).1
    ensures r.Ok? && "max_level" !in dir.data.value ==> r.value.maxLevel == Unbounded
    ensures r.Ok? && "max_level" in dir.data.value ==> dir.data.value["max_level"] == Cap(r.value.maxLevel)
    ensures r.Ok? && ("variables" !in dir.data.value || dir.data.value["variables"].Null?) ==> r.value.variables == map[]
    ensures r.Ok? && "variables" in dir.data.value && !dir.data.value["variables"].Null? ==>
      dir.data.value["variables"] == Table(r.value.variables)
  {
    match dir.data
    case None => Err(TypeError)
    case Some(data) =>
      var (key, rest) :- SplitKey(dir.name, data);
      if exists n :: n in rest && !IsForwardable(n) then Err(TypeError)
      else
        var maxLevel :- MaxLevelArg(rest);
        var variables :- VariablesArg(rest);
        var (init, events) := Partition(dir.members);
        Ok(NewSkillType(key, Some(dir.strings), maxLevel, variables, init, Some(events)))
  }

  /**
   * A data file with a `key` and a `max_level` builds a type under that key
   * with that cap, no variables, and the events module's callbacks.
   */
  lemma BuildSkillRenamed(name: string, strings: StringsId, members: seq<Member>, cap: int)
    ensures BuildSkill(SkillDir(name, Some(map["key" := Str("hp"), "max_level" := Cap(AtMost(cap))]), strings, members))
      == Ok(SkillType("hp", Some(strings), AtMost(cap), map[], InitOf(members), EventsOf(members)))
  {
    var data := map["key" := Str("hp"), "max_level" := Cap(AtMost(cap))];
    assert forall n :: n in data ==> n == "key" || IsForwardable(n);
  }

  // ---------------------------------------------------------------------
  // Collecting and ordering the registry.
  // ---------------------------------------------------------------------

  /** First occurrences of `s`, in order: an independent picture of dictionary key order. */
  function Dedup(s: seq<string>): (r: seq<string>)
    ensures forall x :: x in r <==> x in s
    ensures Distinct(r)
  {
    if s == [] then []
    else
      var d := Dedup(s[..|s| - 1]);
      assert forall x :: x in s <==> x in s[..|s| - 1] || x == s[|s| - 1];
      if s[|s| - 1] in d then d else d + [s[|s| - 1]]
  }

  /** Keys of the skills that were built, in discovery order. */
  function BuiltKeys(builds: seq<Option<SkillType>>): (ks: seq<string>)
    ensures forall k :: k in ks <==> exists i :: 0 <= i < |builds| && builds[i].Some? && builds[i].value.key == k
  {
    if builds == [] then []
    else
      var prefix := builds[..|builds| - 1];
      assert forall i :: 0 <= i < |prefix| ==> prefix[i] == builds[i];
      BuiltKeys(prefix) + (if builds[|builds| - 1].Some? then [builds[|builds| - 1].value.key] else [])
  }

  /**
   * The collection loop: every built skill is stored under its key, a
   * `None` build is skipped, and a later skill with a key already seen
   * replaces the earlier one in its position.
   */
  function Collect(builds: seq<Option<SkillType>>): (r: Registry)
    ensures WellFormed(r) && KeyedByType(r)
    ensures forall k :: k in Keys(r) <==> k in BuiltKeys(builds)
  {
    if builds == [] then []
    else
      var m := Collect(builds[..|builds| - 1]);
      match builds[|builds| - 1]
      case None => m
      case Some(t) =>
        var r := Put(m, t.key, t);
        assert t.key !in Keys(m) ==> Keys(r) == Keys(m) + [t.key];
        r
  }

  /** Without an order file the registry iterates in first-discovery order of the keys. */
  lemma {:induction false} CollectOrder(builds: seq<Option<SkillType>>)
    ensures Keys(Collect(builds)) == Dedup(BuiltKeys(builds))
  {
    if builds != [] {
      var prefix := builds[..|builds| - 1];
      CollectOrder(prefix);
      match builds[|builds| - 1]
      case None =>
        assert BuiltKeys(builds) == BuiltKeys(prefix);
      case Some(t) =>
        var ks := BuiltKeys(builds);
        assert ks == BuiltKeys(prefix) + [t.key];
        assert ks[..|ks| - 1] == BuiltKeys(prefix);
        if t.key in Keys(Collect(prefix)) {
          assert Keys(Collect(builds)) == Keys(Collect(prefix));
        } else {
          assert Keys(Collect(builds)) == Keys(Collect(prefix)) + [t.key];
        }
    }
  }

  /** Each key holds the last skill built with that key. */
  lemma {:induction false} CollectLastWins(builds: seq<Option<SkillType>>, i: nat)
    requires i < |builds| && builds[i].Some?
    requires forall j :: i < j < |builds| ==> builds[j].None? || builds[j].value.key != builds[i].value.key
    ensures Get(Collect(builds), builds[i].value.key) == Some(builds[i].value)
  {
    var n := |builds|;
    var prefix := builds[..n - 1];
    var t := builds[i].value;
    if i == n - 1 {
      PutGet(Collect(prefix), t.key, t);
    } else {
      assert prefix[i] == builds[i];
      forall j | i < j < |prefix|
        ensures prefix[j].None? || prefix[j].value.key != t.key
      {
        assert prefix[j] == builds[j];
      }
      CollectLastWins(prefix, i);
      match builds[n - 1]
      case None =>
      case Some(u) =>
        PutGetOther(Collect(prefix), u.key, u, t.key);
    }
  }

  /** The order file's lines, each stripped. */
  function Stripped(lines: seq<string>): (ks: seq<string>)
    ensures |ks| == |lines|
    ensures forall i :: 0 <= i < |lines| ==> ks[i] == Strip(lines[i])
  {
    seq(|lines|, i requires 0 <= i < |lines| => Strip(lines[i]))
  }

  /** The order-file keys, stripped, that name a built skill, in file order (repeats kept). */
  function Listed(built: Registry, lines: seq<string>): (ks: seq<string>)
    ensures forall k :: k in ks <==> k in Keys(built) && k in Stripped(lines)
  {
    if lines == [] then []
    else
      var prefix := lines[..|lines| - 1];
      var k := Strip(lines[|lines| - 1]);
      assert Stripped(lines) == Stripped(prefix) + [k];
      Listed(built, prefix) + (if k in Keys(built) then [k] else [])
  }

  /** One round of the reordering loop for the stripped line `k`. */
  function ReorderStep(remaining: Registry, ordered: Registry, k: string): (Registry, Registry) {
    match Get(remaining, k)
    case None => (remaining, ordered)
    case Some(t) => (Remove(remaining, k), Put(ordered, k, t))
  }

  /**
   * The reordering loop over the order file, as (skills still unclaimed,
   * ordered result): a stripped line that names an unclaimed skill pops it
   * into the result; any other line is skipped.
   */
  function Reorder(built: Registry, lines: seq<string>): (Registry, Registry) {
    if lines == [] then (built, [])
    else
      var (remaining, ordered) := Reorder(built, lines[..|lines| - 1]);
      ReorderStep(remaining, ordered, Strip(lines[|lines| - 1]))
  }

  /** The loop invariant of `Reorder`, after the lines whose known keys are `ls`. */
  ghost predicate ReorderInvariant(built: Registry, ls: seq<string>, remaining: Registry, ordered: Registry) {
    && WellFormed(remaining) && WellFormed(ordered)
    && Keys(ordered) == Dedup(ls)
    && (forall k :: k in Keys(remaining) <==> k in Keys(built) && k !in Keys(ordered))
    && (forall k :: k in Keys(ordered) ==> Get(ordered, k) == Get(built, k))
    && (forall k :: k !in Keys(ordered) ==> Get(remaining, k) == Get(built, k))
  }

  /** A line naming an unclaimed skill moves it to the end of the result. */
  lemma ReorderStepHit(built: Registry, ls: seq<string>, remaining: Registry, ordered: Registry, k: string)
    requires ReorderInvariant(built, ls, remaining, ordered)
    requires k in Keys(remaining)
    ensures k in Keys(built)
    ensures ReorderInvariant(built, ls + [k], ReorderStep(remaining, ordered, k).0, ReorderStep(remaining, ordered, k).1)
  {
    var t := Get(remaining, k).value;
    var remaining' := Remove(remaining, k);
    var ordered' := Put(ordered, k, t);
    assert k !in Keys(ordered);
    assert Keys(ordered') == Keys(ordered) + [k];
    assert k !in Dedup(ls);
    assert (ls + [k])[..|ls|] == ls;
    assert Dedup(ls + [k]) == Dedup(ls) + [k];
    PutGet(ordered, k, t);
    forall k' | k' in Keys(ordered')
      ensures Get(ordered', k') == Get(built, k')
    {
      if k' != k {
        PutGetOther(ordered, k, t, k');
      }
    }
    forall k' | k' !in Keys(ordered')
      ensures Get(remaining', k') == Get(built, k')
    {
      RemoveGetOther(remaining, k, k');
    }
  }

  /** A line naming a known skill that was already claimed changes nothing. */
  lemma ReorderStepRepeat(built: Registry, ls: seq<string>, remaining: Registry, ordered: Registry, k: string)
    requires ReorderInvariant(built, ls, remaining, ordered)
    requires k !in Keys(remaining) && k in Keys(built)
    ensures ReorderStep(remaining, ordered, k) == (remaining, ordered)
    ensures ReorderInvariant(built, ls + [k], remaining, ordered)
  {
    assert k in Dedup(ls);
    assert (ls + [k])[..|ls|] == ls;
  }

  lemma {:induction false} ReorderKeepsInvariant(built: Registry, lines: seq<string>)
    requires WellFormed(built)
    ensures ReorderInvariant(built, Listed(built, lines), Reorder(built, lines).0, Reorder(built, lines).1)
  {
    if lines != [] {
      var prefix := lines[..|lines| - 1];
      ReorderKeepsInvariant(built, prefix);
      var (remaining, ordered) := Reorder(built, prefix);
      var k := Strip(lines[|lines| - 1]);
      var ls := Listed(built, prefix);
      if k in Keys(remaining) {
        ReorderStepHit(built, ls, remaining, ordered, k);
      } else if k in Keys(built) {
        ReorderStepRepeat(built, ls, remaining, ordered, k);
      } else {
        assert Listed(built, lines) == ls;
      }
    }
  }

  /**
   * `build_skill_types`. Without an order file the collected registry is
   * returned as is. With one, the result holds exactly the listed keys
   * that were built, in the order of their first listing, each with its
   * built skill; unlisted skills are dropped, and unknown or repeated
   * lines are skipped.
   */
  function BuildSkillTypes(builds: seq<Option<SkillType>>, orderFile: Option<seq<string>>): (r: Registry)
    ensures WellFormed(r) && KeyedByType(r)
    ensures orderFile.None? ==> r == Collect(builds)
    ensures orderFile.Some? ==> Keys(r) == Dedup(Listed(Collect(builds), orderFile.value))
    ensures orderFile.Some? ==> forall k :: k in Keys(r) <==>
      k in BuiltKeys(builds) && k in Stripped(orderFile.value)
    ensures forall k :: k in Keys(r) ==> Get(r, k) == Get(Collect(builds), k)
  {
    var built := Collect(builds);
    match orderFile
    case None => built
    case Some(lines) =>
      ReorderKeepsInvariant(built, lines);
      var r := Reorder(built, lines).1;
      KeyedByTypeFromLookups(built, r);
      r
  }

  /** A well-formed registry whose lookups agree with a registry keyed by type is keyed by type. */
  lemma KeyedByTypeFromLookups(built: Registry, r: Registry)
    requires WellFormed(built) && KeyedByType(built) && WellFormed(r)
    requires forall k :: k in Keys(r) ==> Get(r, k) == Get(built, k)
    ensures KeyedByType(r)
  {
    forall i | 0 <= i < |r|
      ensures r[i].value.key == r[i].key
    {
      var k := r[i].key;
      assert Keys(r)[i] == k;
      var j :| 0 <= j < |built| && built[j] == Entry(k, Get(built, k).value);
    }
  }

  /**
   * With order file lines `b`, `a`, the registry iterates as `[b, a]`
   * whatever else was built: a skill `c` that was built too is dropped,
   * not appended.
   */
  lemma OrderFileDropsUnlisted(builds: seq<Option<SkillType>>)
    requires "a" in BuiltKeys(builds) && "b" in BuiltKeys(builds)
    ensures Keys(BuildSkillTypes(builds, Some(["b\n", "a\n"]))) == ["b", "a"]
  {
    var built := Collect(builds);
    var lines := ["b\n", "a\n"];
    assert "a" in Keys(built) && "b" in Keys(built);
    ListedTwoLines(built);
    DedupTwoKeys();
    assert Keys(BuildSkillTypes(builds, Some(lines))) == Dedup(Listed(built, lines));
  }

  /** Helper for `OrderFileDropsUnlisted`: two different keys are kept as they are. */
  lemma DedupTwoKeys()
    ensures Dedup(["b", "a"]) == ["b", "a"]
  {
    assert ["b", "a"][..1] == ["b"] && ["b"][..0] == [];
    assert Dedup(["b"]) == ["b"];
  }

  /** Helper for `OrderFileDropsUnlisted`: both lines name known skills. */
  lemma ListedTwoLines(built: Registry)
    requires "a" in Keys(built) && "b" in Keys(built)
    ensures Listed(built, ["b\n", "a\n"]) == ["b", "a"]
  {
    var lines := ["b\n", "a\n"];
    StripLine("b");
    StripLine("a");
    assert "b" + "\n" == "b\n" && "a" + "\n" == "a\n";
    assert lines[..1] == ["b\n"] && lines[..1][..0] == [];
    assert Listed(built, lines[..1]) == ["b"];
  }

  /** Build every directory; the first failure aborts the whole build. */
  function BuildAll(dirs: seq<SkillDir>): (r: Result<seq<Option<SkillType>>>)
    ensures r.Ok? <==> forall i :: 0 <= i < |dirs| ==> BuildSkill(dirs[i]).Ok?
    ensures r.Ok? ==> |r.value| == |dirs| && forall i :: 0 <= i < |dirs| ==> r.value[i] == Some(BuildSkill(dirs[i]).value)
  {
    if dirs == [] then Ok([])
    else
      var t :- BuildSkill(dirs[0]);
      var rest :- BuildAll(dirs[1..]);
      assert forall i :: 1 <= i < |dirs| ==> dirs[i] == dirs[1..][i - 1];
      Ok([Some(t)] + rest)
  }

  /**
   * Loading the registry from the skill directories in discovery order and
   * the order file (`None` when the file does not exist).
   */
  function LoadRegistry(dirs: seq<SkillDir>, orderFile: Option<seq<string>>): (r: Result<Registry>)
    ensures r.Ok? <==> forall i :: 0 <= i < |dirs| ==> BuildSkill(dirs[i]).Ok?
    ensures r.Ok? ==> r == Ok(BuildSkillTypes(BuildAll(dirs).value, orderFile))
  {
    var builds :- BuildAll(dirs);
    Ok(BuildSkillTypes(builds, orderFile))
  }
}
