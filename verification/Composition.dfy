/**
 The composition loop of `composed_installation`: compose the games that have a schedule, leave out
 each game whose schedule is refused, and compose the others again, until a composition succeeds or is
 refused without naming a game still kept.
 */
module Composition {
  import opened Basics
  import opened Wrappers
  import opened Ordering

  /** One refusal: the game whose schedule is refused, or `None` for the composition as a whole. */
  datatype Issue = Issue(game: Option<string>, problem: string, pointer: string)

  /** `standard_pack_root_invalid`: the game, the problem at its pointer, and the refused file's digest. */
  datatype Warning = RootInvalid(game: string, problem: string, pointer: string, digest: Option<string>)

  /** The games with a schedule, by the schedule's text. */
  type Schedules = map<string, string>

  /** A composition, named by the games it composes; what it holds is the composer's. */
  datatype Composed = Composed(games: set<string>, rules: string)

  type Composer = Schedules -> Result<Composed, seq<Issue>>

  /** The games the issues refuse by name. */
  function Refused(issues: seq<Issue>): (games: set<string>)
    ensures forall g :: g in games <==> exists i :: 0 <= i < |issues| && issues[i].game == Some(g)
  {
    set i | 0 <= i < |issues| && issues[i].game.Some? :: issues[i].game.value
  }

  /** The loop's outcome: what is still kept when it ends. */
  function Survivors(composer: Composer, schedules: Schedules): (kept: Schedules)
    ensures kept.Keys <= schedules.Keys && forall g :: g in kept ==> kept[g] == schedules[g]
    ensures composer(kept).Ok? || Refused(composer(kept).error) !! kept.Keys
    decreases |schedules|
  {
    match composer(schedules)
    case Ok(_) => schedules
    case Err(issues) =>
      var rest := schedules - Refused(issues);
      if |rest| == |schedules| then
        SameSizeKeepsAll(schedules, Refused(issues));
        schedules
      else
        FewerLeft(schedules, Refused(issues));
        Survivors(composer, rest)
  }

  /** How often the loop composes. */
  function Rounds(composer: Composer, schedules: Schedules): (rounds: nat)
    ensures 1 <= rounds && rounds + |Survivors(composer, schedules)| <= |schedules| + 1
    decreases |schedules|
  {
    match composer(schedules)
    case Ok(_) => 1
    case Err(issues) =>
      var rest := schedules - Refused(issues);
      if |rest| == |schedules| then 1 else
        FewerLeft(schedules, Refused(issues));
        1 + Rounds(composer, rest)
  }

  lemma SameSizeKeepsAll(schedules: Schedules, refused: set<string>)
    requires |schedules - refused| == |schedules|
    ensures refused !! schedules.Keys && schedules - refused == schedules
  {
    var rest := schedules - refused;
    assert rest.Keys == schedules.Keys - refused;
    assert schedules.Keys == rest.Keys + (schedules.Keys * refused);
    assert |schedules.Keys| == |rest.Keys| + |schedules.Keys * refused|;
  }

  lemma FewerLeft(schedules: Schedules, refused: set<string>)
    ensures |schedules - refused| <= |schedules|
  {
    var rest := schedules - refused;
    assert rest.Keys == schedules.Keys - refused;
    assert schedules.Keys == rest.Keys + (schedules.Keys * refused);
    assert |schedules.Keys| == |rest.Keys| + |schedules.Keys * refused|;
  }

  ghost predicate Warned(warnings: seq<Warning>, game: string) {
    exists i :: 0 <= i < |warnings| && warnings[i].game == game
  }

  class Rows {
    var warnings: seq<Warning>

    constructor ()
      ensures warnings == []
    {
      warnings := [];
    }

    /** Records a warning once. */
    method Warn(warning: Warning)
      modifies this
      ensures old(warnings) <= warnings && warning in warnings
      ensures forall w :: w in warnings <==> w in old(warnings) || w == warning
      ensures NoRepeats(old(warnings)) ==> NoRepeats(warnings)
    {
      if warning !in warnings {
        warnings := warnings + [warning];
      }
    }

    /** One refusal as a warning of each of these games. */
    method WarnGames(games: seq<string>, issue: Issue, schedules: Schedules, digest: string -> string)
      modifies this
      ensures old(warnings) <= warnings
      ensures NoRepeats(old(warnings)) ==> NoRepeats(warnings)
      ensures forall k :: 0 <= k < |games| ==> Warned(warnings, games[k])
      ensures forall w :: w in warnings && w !in old(warnings) ==>
                w.problem == issue.problem && w.pointer == issue.pointer && w.game in games
    {
      for i := 0 to |games|
        invariant old(warnings) <= warnings
        invariant NoRepeats(old(warnings)) ==> NoRepeats(warnings)
        invariant forall k :: 0 <= k < i ==> Warned(warnings, games[k])
        invariant forall w :: w in warnings && w !in old(warnings) ==>
                    w.problem == issue.problem && w.pointer == issue.pointer && w.game in games
      {
        var game := games[i];
        ghost var before := warnings;
        Warn(RootInvalid(game, issue.problem, issue.pointer,
                         if game in schedules then Some(digest(schedules[game])) else None));
        WarnedStays(before, warnings);
      }
    }

    /** One refusal, as a warning of its game, or of each composed game when it names none. */
    method WarnIssue(issue: Issue, schedules: Schedules, digest: string -> string)
      modifies this
      ensures old(warnings) <= warnings
      ensures NoRepeats(old(warnings)) ==> NoRepeats(warnings)
      ensures issue.game.Some? ==> Warned(warnings, issue.game.value)
      ensures issue.game.None? ==> forall g :: g in schedules ==> Warned(warnings, g)
      ensures forall w :: w in warnings && w !in old(warnings) ==>
                w.problem == issue.problem && w.pointer == issue.pointer
                && if issue.game.Some? then w.game == issue.game.value else w.game in schedules
    {
      if issue.game.Some? {
        var games := [issue.game.value];
        WarnGames(games, issue, schedules, digest);
        assert Warned(warnings, games[0]);
      } else {
        var games := Sort(schedules.Keys);
        WarnGames(games, issue, schedules, digest);
        forall g | g in schedules ensures Warned(warnings, g) {
          var k :| 0 <= k < |games| && games[k] == g;
        }
      }
    }

    /** Every refusal of one composition, each a warning. */
    method WarnIssues(issues: seq<Issue>, schedules: Schedules, digest: string -> string)
      modifies this
      ensures old(warnings) <= warnings
      ensures NoRepeats(old(warnings)) ==> NoRepeats(warnings)
      ensures forall g :: g in Refused(issues) ==> Warned(warnings, g)
      ensures (exists i :: 0 <= i < |issues| && issues[i].game.None?) ==> forall g :: g in schedules ==> Warned(warnings, g)
    {
      for i := 0 to |issues|
        invariant old(warnings) <= warnings
        invariant NoRepeats(old(warnings)) ==> NoRepeats(warnings)
        invariant forall k :: 0 <= k < i && issues[k].game.Some? ==> Warned(warnings, issues[k].game.value)
        invariant (exists k :: 0 <= k < i && issues[k].game.None?) ==> forall g :: g in schedules ==> Warned(warnings, g)
      {
        ghost var before := warnings;
        WarnIssue(issues[i], schedules, digest);
        WarnedStays(before, warnings);
      }
    }
  }

  lemma WarnedStays(before: seq<Warning>, after: seq<Warning>)
    requires before <= after
    ensures forall g :: Warned(before, g) ==> Warned(after, g)
  {
    forall g | Warned(before, g) ensures Warned(after, g) {
      var i :| 0 <= i < |before| && before[i].game == g;
      assert after[i].game == g;
    }
  }

  /**
   The loop. It composes at most once more than there are games with a schedule; a composition it
   returns is of exactly the games still kept; every game it drops is warned about, and no warning is
   recorded twice; without a composition, the last refusal names no game still kept.
   */
  method ComposeGames(rows: Rows, composer: Composer, schedules: Schedules, digest: string -> string)
    returns (composition: Option<Composed>, kept: Schedules, compositions: nat)
    requires NoRepeats(rows.warnings)
    modifies rows
    ensures NoRepeats(rows.warnings) && old(rows.warnings) <= rows.warnings
    ensures kept == Survivors(composer, schedules)
    ensures composition.Some? ==> composer(kept) == Ok(composition.value)
    ensures composition.None? ==> composer(kept).Err? && Refused(composer(kept).error) !! kept.Keys
    ensures forall g :: g in schedules && g !in kept ==> Warned(rows.warnings, g)
    ensures composition.None? && (exists i :: 0 <= i < |composer(kept).error| && composer(kept).error[i].game.None?)
            ==> forall g :: g in kept ==> Warned(rows.warnings, g)
    ensures compositions == Rounds(composer, schedules) <= |schedules| + 1
  {
    kept, compositions := schedules, 0;
    while true
      invariant kept.Keys <= schedules.Keys
      invariant NoRepeats(rows.warnings) && old(rows.warnings) <= rows.warnings
      invariant Survivors(composer, kept) == Survivors(composer, schedules)
      invariant forall g :: g in schedules && g !in kept ==> Warned(rows.warnings, g)
      invariant compositions + Rounds(composer, kept) == Rounds(composer, schedules)
      decreases |kept|
    {
      var answer := composer(kept);
      compositions := compositions + 1;
      if answer.Ok? {
        return Some(answer.value), kept, compositions;
      }
      ghost var before := rows.warnings;
      rows.WarnIssues(answer.error, kept, digest);
      WarnedStays(before, rows.warnings);
      var rest := kept - Refused(answer.error);
      FewerLeft(kept, Refused(answer.error));
      if |rest| == |kept| {
        SameSizeKeepsAll(kept, Refused(answer.error));
        return None, kept, compositions;
      }
      kept := rest;
    }
  }

  // ----- When each game's refusals depend only on that game and its schedule

  /** Whether a game with this schedule is sound. */
  type Soundness = (string, string) -> bool

  function Sound(schedules: Schedules, sound: Soundness): (kept: Schedules)
    ensures forall g :: g in kept <==> g in schedules && sound(g, schedules[g])
  {
    map g | g in schedules && sound(g, schedules[g]) :: schedules[g]
  }

  /** Some of these games, each with its schedule. */
  predicate SomeOf(some: Schedules, schedules: Schedules) {
    forall g :: g in some ==> g in schedules && some[g] == schedules[g]
  }

  /** Of some of these games, the composer refuses exactly the unsound ones, each by its name. */
  ghost predicate RefusesByGame(composer: Composer, sound: Soundness, schedules: Schedules) {
    forall s: Schedules | SomeOf(s, schedules) ::
      if forall g :: g in s ==> sound(g, s[g]) then composer(s).Ok?
      else composer(s).Err? && forall g :: g in Refused(composer(s).error) <==> g in s && !sound(g, s[g])
  }

  /** Then what is composed is exactly the sound games, and one more composition than the first is enough. */
  lemma SoundGamesAreComposed(composer: Composer, sound: Soundness, schedules: Schedules)
    requires RefusesByGame(composer, sound, schedules)
    ensures Survivors(composer, schedules) == Sound(schedules, sound)
    ensures composer(Sound(schedules, sound)).Ok?
    ensures Rounds(composer, schedules) <= 2
  {
    var kept := Sound(schedules, sound);
    assert SomeOf(kept, schedules) && SomeOf(schedules, schedules);
    assert composer(kept).Ok?;
    if forall g :: g in schedules ==> sound(g, schedules[g]) {
      assert kept == schedules;
    } else {
      var refused := Refused(composer(schedules).error);
      assert schedules - refused == kept;
      var g :| g in schedules && !sound(g, schedules[g]);
      if |kept| == |schedules| {
        SameSizeKeepsAll(schedules, refused);
        assert false;
      }
    }
  }

  /** One issue for each of these games. */
  ghost function IssuesOf(games: set<string>): (issues: seq<Issue>)
    ensures Refused(issues) == games
  {
    if games == {} then [] else
      var g :| g in games;
      var rest := IssuesOf(games - {g});
      assert Refused([Issue(Some(g), "", "")] + rest) == {g} + Refused(rest) by {
        var issues := [Issue(Some(g), "", "")] + rest;
        assert issues[0].game == Some(g) && forall i :: 0 <= i < |rest| ==> issues[i + 1] == rest[i];
      }
      [Issue(Some(g), "", "")] + rest
  }

  /** A composer that reads the schedules: it refuses each empty one. */
  ghost function RefusesEmpty(): Composer {
    (schedules: Schedules) =>
      var empty := set g | g in schedules && schedules[g] == "";
      if empty == {} then Ok(Composed(schedules.Keys, "")) else Err(IssuesOf(empty))
  }

  /** Such a composer refuses by game. */
  lemma ReadingComposerRefusesByGame(schedules: Schedules)
    ensures RefusesByGame(RefusesEmpty(), (game, schedule) => schedule != "", schedules)
  {
    forall s: Schedules | SomeOf(s, schedules)
      ensures
        if forall g :: g in s ==> s[g] != "" then RefusesEmpty()(s).Ok?
        else RefusesEmpty()(s).Err? && forall g :: g in Refused(RefusesEmpty()(s).error) <==> g in s && s[g] == ""
    {
      var empty := set g | g in s && s[g] == "";
      assert forall g :: g in empty <==> g in s && s[g] == "";
    }
  }
}
