/**
 How long each resolution is kept (packages/storage/src/retention.ts): the environment's value, else the
 saved one, else the default. Levels are numbered raw, 1m, 1h, 1d. How a duration is written is a parameter.
 */
module Retention {
  import opened Results
  import opened Text

  /** Milliseconds, or for ever. */
  datatype Length = Ms(n: int) | Forever

  predicate Longer(a: Length, b: Length) {
    match (a, b)
    case (Forever, Ms(_)) => true
    case (Ms(m), Ms(n)) => m > n
    case _ => false
  }

  datatype Source = Env | Saved | Default

  datatype Level = Level(text: string, length: Length, source: Source)

  const LEVELS: nat := 4

  type Levels = s: seq<Level> | |s| == LEVELS witness [DEFAULTS[0], DEFAULTS[1], DEFAULTS[2], DEFAULTS[3]]

  const DAY_MS: int := 86_400_000

  const DEFAULTS: seq<Level> := [
    Level("2d", Ms(2 * DAY_MS), Default), Level("14d", Ms(14 * DAY_MS), Default),
    Level("1y", Ms(365 * DAY_MS), Default), Level("forever", Forever, Default)]

  /** A stored setting need not be text. */
  datatype Json = Str(s: string) | Other

  /** One value a level, where there is one. */
  type Values<T> = s: seq<Option<T>> | |s| == LEVELS witness [None, None, None, None]

  type Parse = string -> Option<Length>

  const NOTHING: Values<Json> := [None, None, None, None]

  // ---- resolving -----------------------------------------------------------------------------------

  /** One level; a value of the environment that does not parse stops the start. */
  function LevelOf(parse: Parse, env: Option<string>, saved: Option<Json>, default: Level): Result<Level, ()> {
    if env.Some? then
      match parse(env.value)
      case Some(length) => Ok(Level(Trim(env.value), length, Env))
      case None => Err(())
    else if saved.Some? && saved.value.Str? && parse(saved.value.s).Some? then
      Ok(Level(saved.value.s, parse(saved.value.s).value, Saved))
    else Ok(default)
  }

  predicate EnvOk(parse: Parse, env: Values<string>) {
    forall i :: 0 <= i < LEVELS && env[i].Some? ==> parse(env[i].value).Some?
  }

  function LevelsOf(parse: Parse, env: Values<string>, saved: Values<Json>): (levels: Levels)
    requires EnvOk(parse, env)
    ensures forall i :: 0 <= i < LEVELS ==> LevelOf(parse, env[i], saved[i], DEFAULTS[i]) == Ok(levels[i])
  {
    seq(LEVELS, i requires 0 <= i < LEVELS => LevelOf(parse, env[i], saved[i], DEFAULTS[i]).value)
  }

  /** No level is kept longer than the next. */
  predicate InOrder(levels: Levels) { forall i :: 1 <= i < LEVELS ==> !Longer(levels[i - 1].length, levels[i].length) }

  predicate AnySaved(levels: Levels) { exists i :: 0 <= i < LEVELS && levels[i].source.Saved? }

  /** Saved values that the environment has put out of order are ignored as a whole. */
  function Resolve(parse: Parse, env: Values<string>, saved: Values<Json>): (r: Result<Levels, ()>)
    ensures r.Ok? ==> InOrder(r.value)
  {
    if !EnvOk(parse, env) then Err(())
    else
      var levels := LevelsOf(parse, env, saved);
      if InOrder(levels) then Ok(levels)
      else if AnySaved(levels) && InOrder(LevelsOf(parse, env, NOTHING)) then Ok(LevelsOf(parse, env, NOTHING))
      else Err(())
  }

  /** The first pair out of order. */
  method OutOfOrder(levels: Levels) returns (pair: Option<nat>)
    ensures pair.None? <==> InOrder(levels)
    ensures pair.Some? ==> 1 <= pair.value < LEVELS && Longer(levels[pair.value - 1].length, levels[pair.value].length)
    ensures pair.Some? ==> forall i :: 1 <= i < pair.value ==> !Longer(levels[i - 1].length, levels[i].length)
  {
    for i := 1 to LEVELS
      invariant forall k :: 1 <= k < i ==> !Longer(levels[k - 1].length, levels[k].length)
    {
      if Longer(levels[i - 1].length, levels[i].length) { return Some(i); }
    }
    pair := None;
  }

  method ResolveLevels(parse: Parse, env: Values<string>, saved: Values<Json>) returns (r: Result<Levels, ()>)
    ensures r == Resolve(parse, env, saved)
    decreases if saved == NOTHING then 0 else 1
  {
    var levels: seq<Level> := [];
    for i := 0 to LEVELS
      invariant |levels| == i
      invariant forall k :: 0 <= k < i ==> LevelOf(parse, env[k], saved[k], DEFAULTS[k]) == Ok(levels[k])
    {
      var level := LevelOf(parse, env[i], saved[i], DEFAULTS[i]);
      if level.Err? { return Err(()); }
      levels := levels + [level.value];
    }
    assert levels == LevelsOf(parse, env, saved);
    var pair := OutOfOrder(levels);
    if pair.None? { return Ok(levels); }
    if exists i :: 0 <= i < LEVELS && levels[i].source.Saved? {
      r := ResolveLevels(parse, env, NOTHING);
    } else {
      r := Err(());
    }
  }

  // ---- validating and saving -------------------------------------------------------------------------

  /** The longest look-back of the rules in force. */
  datatype LookBack = LookBack(ms: int, rule: nat)

  datatype LevelProblem = Locked | Unreadable | TooLong | TooShort

  /** What a proposed value makes of a level. */
  function Proposed(parse: Parse, proposal: Option<string>, level: Level): Result<Level, LevelProblem> {
    if proposal.None? || Trim(proposal.value) == level.text then Ok(level)
    else if level.source.Env? then Err(Locked)
    else
      match parse(Trim(proposal.value))
      case Some(length) => Ok(Level(Trim(proposal.value), length, Saved))
      case None => Err(Unreadable)
  }

  predicate Readable(parse: Parse, proposal: Values<string>, current: Levels) {
    forall i :: 0 <= i < LEVELS ==> Proposed(parse, proposal[i], current[i]).Ok?
  }

  function ProposedLevels(parse: Parse, proposal: Values<string>, current: Levels): (levels: Levels)
    requires Readable(parse, proposal, current)
    ensures forall i :: 0 <= i < LEVELS ==> Proposed(parse, proposal[i], current[i]) == Ok(levels[i])
  {
    seq(LEVELS, i requires 0 <= i < LEVELS => Proposed(parse, proposal[i], current[i]).value)
  }

  predicate Serves(length: Length, lookBack: Option<LookBack>) {
    lookBack.Some? ==> !Longer(Ms(lookBack.value.ms), length)
  }

  predicate Acceptable(levels: Levels, rawAtLeast: Option<LookBack>) {
    InOrder(levels) && Serves(levels[0].length, rawAtLeast)
  }

  /** Each level as proposed, and the problem of each that cannot be. */
  method ReadProposal(parse: Parse, proposal: Values<string>, current: Levels)
      returns (levels: Levels, errors: map<nat, LevelProblem>)
    ensures forall i :: 0 <= i < LEVELS ==> (i in errors <==> Proposed(parse, proposal[i], current[i]).Err?)
    ensures forall i :: i in errors ==> 0 <= i < LEVELS
    ensures forall i :: 0 <= i < LEVELS && i !in errors ==> Proposed(parse, proposal[i], current[i]) == Ok(levels[i])
  {
    levels, errors := current, map[];
    for i := 0 to LEVELS
      invariant forall k :: 0 <= k < i ==> (k in errors <==> Proposed(parse, proposal[k], current[k]).Err?)
      invariant forall k :: k in errors ==> 0 <= k < i
      invariant forall k :: 0 <= k < i && k !in errors ==> Proposed(parse, proposal[k], current[k]) == Ok(levels[k])
    {
      var level := Proposed(parse, proposal[i], current[i]);
      if level.Err? {
        errors := errors[i := level.error];
      } else {
        levels := levels[i := level.value];
      }
    }
  }

  /** The first level that is kept for less than the one before it. */
  predicate IsFirstOut(levels: Levels, i: int)
    requires 1 <= i < LEVELS
  {
    Longer(levels[i - 1].length, levels[i].length)
        && forall k :: 1 <= k < i ==> !Longer(levels[k - 1].length, levels[k].length)
  }

  /** The levels a proposal makes, or the problems it has, each at its level. */
  method ValidateRetention(parse: Parse, proposal: Values<string>, current: Levels, rawAtLeast: Option<LookBack>)
    returns (r: Result<Levels, map<nat, LevelProblem>>)
    ensures r.Ok? <==>
              Readable(parse, proposal, current)
              && Acceptable(ProposedLevels(parse, proposal, current), rawAtLeast)
    ensures r.Ok? ==> r.value == ProposedLevels(parse, proposal, current)
    ensures r.Err? && !Readable(parse, proposal, current) ==>
              forall i :: 0 <= i < LEVELS ==> (i in r.error <==> Proposed(parse, proposal[i], current[i]).Err?)
    ensures r.Err? && Readable(parse, proposal, current) ==>
              var levels := ProposedLevels(parse, proposal, current);
              if InOrder(levels) then r.error == map[0 := TooShort]
              else exists i :: 1 <= i < LEVELS && IsFirstOut(levels, i) && r.error == map[i - 1 := TooLong]
  {
    var levels, errors := ReadProposal(parse, proposal, current);
    if errors != map[] { return Err(errors); }
    assert Readable(parse, proposal, current);
    assert levels == ProposedLevels(parse, proposal, current);
    var pair := OutOfOrder(levels);
    if pair.Some? {
      assert IsFirstOut(levels, pair.value);
      return Err(map[pair.value - 1 := TooLong]);
    }
    if rawAtLeast.Some? && Longer(Ms(rawAtLeast.value.ms), levels[0].length) { return Err(map[0 := TooShort]); }
    r := Ok(levels);
  }

  /** What is stored: the levels the operator set, and nothing else. */
  function SavedOf(levels: Levels): (saved: Values<Json>)
  {
    seq(LEVELS, i requires 0 <= i < LEVELS => if levels[i].source.Saved? then Some(Str(levels[i].text)) else None)
  }

  /** Re-resolving after a save gives exactly the levels that were validated. */
  lemma SaveThenResolve(parse: Parse, env: Values<string>, saved: Values<Json>, proposal: Values<string>,
                        rawAtLeast: Option<LookBack>)
    requires Resolve(parse, env, saved).Ok? && Readable(parse, proposal, Resolve(parse, env, saved).value)
    requires Acceptable(ProposedLevels(parse, proposal, Resolve(parse, env, saved).value), rawAtLeast)
    ensures var levels := ProposedLevels(parse, proposal, Resolve(parse, env, saved).value);
            Resolve(parse, env, SavedOf(levels)) == Ok(levels)
  {
    var current := Resolve(parse, env, saved).value;
    var levels := ProposedLevels(parse, proposal, current);
    forall i | 0 <= i < LEVELS
      ensures LevelOf(parse, env[i], SavedOf(levels)[i], DEFAULTS[i]) == Ok(levels[i])
    {
      LevelStays(parse, env, saved, i);
    }
    assert LevelsOf(parse, env, SavedOf(levels)) == levels;
  }

  /** A level in force says where it comes from. */
  lemma LevelStays(parse: Parse, env: Values<string>, saved: Values<Json>, i: nat)
    requires Resolve(parse, env, saved).Ok? && i < LEVELS
    ensures var level := Resolve(parse, env, saved).value[i];
            match level.source
            case Env => env[i].Some? && LevelOf(parse, env[i], None, DEFAULTS[i]) == Ok(level)
            case Saved => env[i].None? && parse(level.text) == Some(level.length)
            case Default => env[i].None? && level == DEFAULTS[i]
  {
  }

  // ---- what a proposal is ------------------------------------------------------------------------------

  /** The field asks for a change: its text, without space around it, is not the level's. */
  predicate Changes(proposal: Option<string>, level: Level) {
    proposal.Some? && Trim(proposal.value) != level.text
  }

  /** A proposal reads exactly when each changed field is not set by the environment and is a duration. */
  lemma ReadableExactly(parse: Parse, env: Values<string>, saved: Values<Json>, proposal: Values<string>)
    requires Resolve(parse, env, saved).Ok?
    ensures Readable(parse, proposal, Resolve(parse, env, saved).value) <==>
              forall i :: 0 <= i < LEVELS && Changes(proposal[i], Resolve(parse, env, saved).value[i]) ==>
                env[i].None? && parse(Trim(proposal[i].value)).Some?
  {
    var current := Resolve(parse, env, saved).value;
    forall i | 0 <= i < LEVELS
      ensures Proposed(parse, proposal[i], current[i]).Ok? <==>
                (Changes(proposal[i], current[i]) ==> env[i].None? && parse(Trim(proposal[i].value)).Some?)
    {
      LevelStays(parse, env, saved, i);
    }
  }

  /** After a save each changed field is what its text says, saved; the other levels are as they were. */
  lemma SavedAsProposed(parse: Parse, env: Values<string>, saved: Values<Json>, proposal: Values<string>,
                        rawAtLeast: Option<LookBack>, i: nat)
    requires Resolve(parse, env, saved).Ok? && Readable(parse, proposal, Resolve(parse, env, saved).value) && i < LEVELS
    requires Acceptable(ProposedLevels(parse, proposal, Resolve(parse, env, saved).value), rawAtLeast)
    ensures var now := Resolve(parse, env, saved).value;
            var next := Resolve(parse, env, SavedOf(ProposedLevels(parse, proposal, now)));
            && next.Ok?
            && if Changes(proposal[i], now[i]) then
                 next.value[i].source.Saved? && next.value[i].text == Trim(proposal[i].value)
                 && parse(next.value[i].text) == Some(next.value[i].length)
               else next.value[i] == now[i]
  {
    SaveThenResolve(parse, env, saved, proposal, rawAtLeast);
  }
}
