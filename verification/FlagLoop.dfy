/**
 The flag loop of `actingctl` subcommands: every word after the positional ones is a flag the subcommand
 lists, each given once, with its value when it takes one. Anything else is refused by name.
 */
module FlagLoop {
  import opened Wrappers

  /** One word of the command line: text, or bytes that are not UTF-8. */
  datatype Word = Text(text: string) | Raw(bytes: seq<nat>)

  datatype ArgumentProblem = Unknown | Repeated | ValueMissing | Conflicting

  datatype Problem = Usage | Argument(word: string, problem: ArgumentProblem)

  /**
   What the loop's arms know of each flag: its spelling, whether it is a switch, the variable it assigns
   and the value a word stands for.
   */
  datatype Arms<!F(==), V> = Arms(
    spell: F -> string,
    isSwitch: F -> bool,
    variable: F -> F,
    on: V,
    value: (F, Word) -> Result<V, Problem>)

  ghost predicate DistinctSpellings<F(!new), V>(arms: Arms<F, V>) {
    forall f, g :: arms.spell(f) == arms.spell(g) ==> f == g
  }

  /** The listed flag a word spells. */
  function Named<F(==), V>(arms: Arms<F, V>, takes: seq<F>, text: string): (flag: Option<F>)
    ensures flag.Some? ==> flag.value in takes && arms.spell(flag.value) == text
    ensures flag.None? ==> forall f :: f in takes ==> arms.spell(f) != text
  {
    if takes == [] then None
    else if arms.spell(takes[0]) == text then Some(takes[0])
    else Named(arms, takes[1..], text)
  }

  /** What the loop makes of the words that are left. */
  function Reading<F(==), V>(arms: Arms<F, V>, takes: seq<F>, words: seq<Word>, given: seq<F>,
                             variables: map<F, V>): Result<map<F, V>, Problem>
    decreases |words|
  {
    if words == [] then Ok(variables)
    else if words[0].Raw? then Err(Usage)
    else
      match Named(arms, takes, words[0].text)
      case None => Err(Argument(words[0].text, Unknown))
      case Some(flag) =>
        if flag in given then Err(Argument(words[0].text, Repeated))
        else if arms.isSwitch(flag) then Reading(arms, takes, words[1..], given + [flag], variables[arms.variable(flag) := arms.on])
        else if |words| == 1 then Err(Usage)
        else
          match arms.value(flag, words[1])
          case Err(problem) => Err(problem)
          case Ok(value) => Reading(arms, takes, words[2..], given + [flag], variables[arms.variable(flag) := value])
  }

  method ReadFlags<F(==), V>(arms: Arms<F, V>, takes: seq<F>, words: seq<Word>, start: nat) returns (r: Result<map<F, V>, Problem>)
    requires start <= |words|
    ensures r == Reading(arms, takes, words[start..], [], map[])
  {
    var index, given, variables: map<F, V> := start, [], map[];
    while index < |words|
      invariant index <= |words|
      invariant Reading(arms, takes, words[index..], given, variables) == Reading(arms, takes, words[start..], [], map[])
    {
      if words[index].Raw? {
        return Err(Usage);
      }
      var text := words[index].text;
      var named := Named(arms, takes, text);
      if named.None? {
        return Err(Argument(text, Unknown));
      }
      var flag := named.value;
      if flag in given {
        return Err(Argument(text, Repeated));
      }
      given := given + [flag];
      if arms.isSwitch(flag) {
        variables := variables[arms.variable(flag) := arms.on];
      } else {
        index := index + 1;
        if index == |words| {
          return Err(Usage);
        }
        var value := arms.value(flag, words[index]);
        if value.Err? {
          return Err(value.error);
        }
        variables := variables[arms.variable(flag) := value.value];
      }
      index := index + 1;
    }
    return Ok(variables);
  }

  /** At word `i` a listed flag gives its variable `x` this value. */
  predicate GivenAt<F(==), V(==)>(arms: Arms<F, V>, takes: seq<F>, words: seq<Word>, x: F, v: V, i: nat) {
    && i < |words| && words[i].Text?
    && var flag := Named(arms, takes, words[i].text);
    && flag.Some? && arms.variable(flag.value) == x
    && if arms.isSwitch(flag.value) then v == arms.on else i + 1 < |words| && arms.value(flag.value, words[i + 1]) == Ok(v)
  }

  /** What a variable holds after the loop it held before, or some word gave it. */
  lemma {:induction false} ReadIsGiven<F, V>(arms: Arms<F, V>, takes: seq<F>, words: seq<Word>, given: seq<F>,
                                             variables: map<F, V>, x: F)
    requires Reading(arms, takes, words, given, variables).Ok? && x in Reading(arms, takes, words, given, variables).value
    ensures
      var v := Reading(arms, takes, words, given, variables).value[x];
      (x in variables && v == variables[x]) || exists i :: GivenAt(arms, takes, words, x, v, i)
    decreases |words|
  {
    if words != [] {
      var v := Reading(arms, takes, words, given, variables).value[x];
      var flag := Named(arms, takes, words[0].text).value;
      var k := if arms.isSwitch(flag) then 1 else 2;
      var here := if arms.isSwitch(flag) then arms.on else arms.value(flag, words[1]).value;
      ReadIsGiven(arms, takes, words[k..], given + [flag], variables[arms.variable(flag) := here], x);
      if i: nat :| GivenAt(arms, takes, words[k..], x, v, i) {
        assert GivenAt(arms, takes, words, x, v, i + k);
      } else if arms.variable(flag) == x {
        assert GivenAt(arms, takes, words, x, v, 0);
      }
    }
  }

  // ----- Groups: a flag with its value

  datatype Group<F> = Group(flag: F, word: Word)

  /** A switch has no word of its own. */
  function GroupWords<F(==), V>(arms: Arms<F, V>, group: Group<F>): seq<Word> {
    [Text(arms.spell(group.flag))] + if arms.isSwitch(group.flag) then [] else [group.word]
  }

  function Flatten<F(==), V>(arms: Arms<F, V>, groups: seq<Group<F>>): seq<Word> {
    if groups == [] then [] else GroupWords(arms, groups[0]) + Flatten(arms, groups[1..])
  }

  function GroupValue<F(==), V>(arms: Arms<F, V>, group: Group<F>): Result<V, Problem> {
    if arms.isSwitch(group.flag) then Ok(arms.on) else arms.value(group.flag, group.word)
  }

  predicate GoodGroup<F(==), V>(arms: Arms<F, V>, takes: seq<F>, group: Group<F>) {
    && group.flag in takes && GroupValue(arms, group).Ok?
    && (arms.isSwitch(group.flag) ==> group.word == Text(""))
  }

  predicate Distinct<F(==)>(groups: seq<Group<F>>) {
    forall i, j :: 0 <= i < j < |groups| ==> groups[i].flag != groups[j].flag
  }

  predicate Good<F(==), V>(arms: Arms<F, V>, takes: seq<F>, groups: seq<Group<F>>) {
    Distinct(groups) && forall i :: 0 <= i < |groups| ==> GoodGroup(arms, takes, groups[i])
  }

  predicate NoneGiven<F(==)>(groups: seq<Group<F>>, given: seq<F>) {
    forall i :: 0 <= i < |groups| ==> groups[i].flag !in given
  }

  function Assigned<F(==), V>(arms: Arms<F, V>, groups: seq<Group<F>>, variables: map<F, V>): map<F, V>
    requires forall i :: 0 <= i < |groups| ==> GroupValue(arms, groups[i]).Ok?
  {
    if groups == [] then variables
    else Assigned(arms, groups[1..], variables[arms.variable(groups[0].flag) := GroupValue(arms, groups[0]).value])
  }

  /** One good group is read as one step. */
  lemma OneGroup<F(!new), V>(arms: Arms<F, V>, takes: seq<F>, group: Group<F>, rest: seq<Word>, given: seq<F>, variables: map<F, V>)
    requires DistinctSpellings(arms)
    requires GoodGroup(arms, takes, group) && group.flag !in given
    ensures Reading(arms, takes, GroupWords(arms, group) + rest, given, variables)
         == Reading(arms, takes, rest, given + [group.flag], variables[arms.variable(group.flag) := GroupValue(arms, group).value])
  {
    var words := GroupWords(arms, group) + rest;
    var named := Named(arms, takes, words[0].text);
    assert words[|GroupWords(arms, group)|..] == rest;
  }

  function Flags<F>(groups: seq<Group<F>>): seq<F> {
    if groups == [] then [] else [groups[0].flag] + Flags(groups[1..])
  }

  lemma {:induction false} FlagsAre<F>(groups: seq<Group<F>>, flag: F)
    ensures flag in Flags(groups) <==> exists i :: 0 <= i < |groups| && groups[i].flag == flag
    decreases |groups|
  {
    if groups != [] {
      FlagsAre(groups[1..], flag);
      if flag in Flags(groups[1..]) {
        var i :| 0 <= i < |groups[1..]| && groups[1..][i].flag == flag;
        assert groups[i + 1].flag == flag;
      }
    }
  }

  lemma FirstGroup<F(!new), V>(arms: Arms<F, V>, takes: seq<F>, groups: seq<Group<F>>, rest: seq<Word>, given: seq<F>,
                               variables: map<F, V>)
    requires DistinctSpellings(arms)
    requires groups != [] && GoodGroup(arms, takes, groups[0]) && groups[0].flag !in given
    ensures Reading(arms, takes, Flatten(arms, groups) + rest, given, variables)
         == Reading(arms, takes, Flatten(arms, groups[1..]) + rest, given + [groups[0].flag],
                    variables[arms.variable(groups[0].flag) := GroupValue(arms, groups[0]).value])
  {
    var words := Flatten(arms, groups[1..]) + rest;
    OneGroup(arms, takes, groups[0], words, given, variables);
    assert Flatten(arms, groups) + rest == GroupWords(arms, groups[0]) + words;
  }

  lemma TailIsGood<F(!new), V>(arms: Arms<F, V>, takes: seq<F>, groups: seq<Group<F>>, given: seq<F>)
    requires groups != [] && Good(arms, takes, groups) && NoneGiven(groups, given)
    ensures GoodGroup(arms, takes, groups[0]) && groups[0].flag !in given
    ensures Good(arms, takes, groups[1..]) && NoneGiven(groups[1..], given + [groups[0].flag])
  {
  }

  lemma OneMoreFlag<F>(given: seq<F>, flag: F, flags: seq<F>)
    ensures given + ([flag] + flags) == given + [flag] + flags
  {
  }

  /** Good groups are read whole, whatever follows them. */
  lemma {:induction false} GoodGroupsAreRead<F(!new), V>(arms: Arms<F, V>, takes: seq<F>, groups: seq<Group<F>>, rest: seq<Word>,
                                             given: seq<F>, variables: map<F, V>)
    requires DistinctSpellings(arms)
    requires Good(arms, takes, groups) && NoneGiven(groups, given)
    ensures Reading(arms, takes, Flatten(arms, groups) + rest, given, variables)
         == Reading(arms, takes, rest, given + Flags(groups), Assigned(arms, groups, variables))
    decreases |groups|
  {
    if groups == [] {
      assert Flatten(arms, groups) + rest == rest && given + Flags(groups) == given;
    } else {
      var g, tail := groups[0], groups[1..];
      TailIsGood(arms, takes, groups, given);
      var after := variables[arms.variable(g.flag) := GroupValue(arms, g).value];
      FirstGroup(arms, takes, groups, rest, given, variables);
      GoodGroupsAreRead(arms, takes, tail, rest, given + [g.flag], after);
      OneMoreFlag(given, g.flag, Flags(tail));
    }
  }

  /** The groups the loop read. */
  function GroupsOf<F(==), V>(arms: Arms<F, V>, takes: seq<F>, words: seq<Word>, given: seq<F>,
                              variables: map<F, V>): (groups: seq<Group<F>>)
    requires Reading(arms, takes, words, given, variables).Ok?
    ensures Flatten(arms, groups) == words && NoneGiven(groups, given) && Good(arms, takes, groups)
    ensures Reading(arms, takes, words, given, variables) == Ok(Assigned(arms, groups, variables))
    decreases |words|
  {
    if words == [] then [] else
      var flag := Named(arms, takes, words[0].text).value;
      var group := Group(flag, if arms.isSwitch(flag) then Text("") else words[1]);
      var after := variables[arms.variable(flag) := GroupValue(arms, group).value];
      [group] + GroupsOf(arms, takes, words[|GroupWords(arms, group)|..], given + [flag], after)
  }

  /**
   Nothing is ignored: the words are accepted exactly when they are complete flags of the list, each once,
   each with a valid value, and the variables are then those of these flags.
   */
  lemma AcceptedIffGoodGroups<F(!new), V>(arms: Arms<F, V>, takes: seq<F>, words: seq<Word>)
    requires DistinctSpellings(arms)
    ensures Reading(arms, takes, words, [], map[]).Ok? <==>
      exists groups :: Good(arms, takes, groups) && Flatten(arms, groups) == words
    ensures forall groups :: Good(arms, takes, groups) && Flatten(arms, groups) == words
              ==> Reading(arms, takes, words, [], map[]) == Ok(Assigned(arms, groups, map[]))
  {
    if Reading(arms, takes, words, [], map[]).Ok? {
      var groups := GroupsOf(arms, takes, words, [], map[]);
    }
    forall groups | Good(arms, takes, groups) && Flatten(arms, groups) == words
      ensures Reading(arms, takes, words, [], map[]) == Ok(Assigned(arms, groups, map[]))
    {
      GoodGroupsAreRead(arms, takes, groups, [], [], map[]);
      assert Flatten(arms, groups) + [] == words;
    }
  }

  /** After good groups, the first word that is not a new flag of the list is refused by its name. */
  lemma FirstFaultIsNamed<F(!new), V>(arms: Arms<F, V>, takes: seq<F>, groups: seq<Group<F>>, text: string, rest: seq<Word>)
    requires DistinctSpellings(arms)
    requires Good(arms, takes, groups)
    requires forall f :: f in takes && arms.spell(f) == text ==> f in Flags(groups)
    ensures Reading(arms, takes, Flatten(arms, groups) + ([Text(text)] + rest), [], map[])
         == Err(Argument(text, if exists f :: f in takes && arms.spell(f) == text then Repeated else Unknown))
  {
    GoodGroupsAreRead(arms, takes, groups, [Text(text)] + rest, [], map[]);
    assert [] + Flags(groups) == Flags(groups);
  }

  // ----- The order of the flags

  /** No two flags of the list assign one variable. */
  predicate OneFlagPerVariable<F(==), V>(arms: Arms<F, V>, takes: seq<F>) {
    forall f, g :: f in takes && g in takes && arms.variable(f) == arms.variable(g) ==> f == g
  }

  /** A variable holds a value exactly when a group gave it. */
  lemma {:induction false} AssignedMeans<F(!new), V>(arms: Arms<F, V>, takes: seq<F>, groups: seq<Group<F>>,
                                                     variables: map<F, V>, v: F)
    requires OneFlagPerVariable(arms, takes) && Good(arms, takes, groups)
    ensures forall i :: 0 <= i < |groups| && arms.variable(groups[i].flag) == v ==>
              v in Assigned(arms, groups, variables) && Assigned(arms, groups, variables)[v] == GroupValue(arms, groups[i]).value
    ensures (forall i :: 0 <= i < |groups| ==> arms.variable(groups[i].flag) != v) ==>
              (v in Assigned(arms, groups, variables) <==> v in variables)
              && (v in variables ==> Assigned(arms, groups, variables)[v] == variables[v])
    decreases |groups|
  {
    if groups != [] {
      var g, tail := groups[0], groups[1..];
      var after := variables[arms.variable(g.flag) := GroupValue(arms, g).value];
      AssignedMeans(arms, takes, tail, after, v);
      assert forall i :: 1 <= i < |groups| ==> groups[i] == tail[i - 1];
    }
  }

  lemma {:induction false} TwiceInMultiset<T>(s: seq<T>, i: int, j: int)
    requires 0 <= i < j < |s| && s[i] == s[j]
    ensures multiset(s)[s[i]] >= 2
  {
    assert s == s[..j] + [s[j]] + s[j + 1..];
    assert s[i] == s[..j][i];
  }

  lemma {:induction false} TwiceInSequence<T>(s: seq<T>, x: T) returns (i: int, j: int)
    requires multiset(s)[x] >= 2
    ensures 0 <= i < j < |s| && s[i] == s[j] == x
    decreases |s|
  {
    var last, rest := |s| - 1, s[..|s| - 1];
    assert s == rest + [s[last]];
    if s[last] == x {
      assert x in rest;
      i :| 0 <= i < |rest| && rest[i] == x;
      j := last;
    } else {
      i, j := TwiceInSequence(rest, x);
    }
  }

  lemma PermutedGroupsAreGood<F(!new), V>(arms: Arms<F, V>, takes: seq<F>, groups: seq<Group<F>>, other: seq<Group<F>>)
    requires Good(arms, takes, groups) && multiset(groups) == multiset(other)
    ensures Good(arms, takes, other)
  {
    forall i | 0 <= i < |other| ensures other[i] in groups {
      assert other[i] in multiset(other);
    }
    forall i, j | 0 <= i < j < |other| ensures other[i].flag != other[j].flag {
      if other[i] == other[j] {
        TwiceInMultiset(other, i, j);
        var k, l := TwiceInSequence(groups, other[i]);
      } else {
        var k :| 0 <= k < |groups| && groups[k] == other[i];
        var l :| 0 <= l < |groups| && groups[l] == other[j];
      }
    }
  }

  lemma PermutedGroupsAssignAlike<F(!new), V>(arms: Arms<F, V>, takes: seq<F>, groups: seq<Group<F>>, other: seq<Group<F>>, v: F)
    requires OneFlagPerVariable(arms, takes) && Good(arms, takes, groups) && Good(arms, takes, other)
      && multiset(groups) == multiset(other)
    ensures v in Assigned(arms, groups, map[]) <==> v in Assigned(arms, other, map[])
    ensures v in Assigned(arms, groups, map[]) ==> Assigned(arms, groups, map[])[v] == Assigned(arms, other, map[])[v]
  {
    AssignedMeans(arms, takes, groups, map[], v);
    AssignedMeans(arms, takes, other, map[], v);
    if i :| 0 <= i < |groups| && arms.variable(groups[i].flag) == v {
      assert groups[i] in multiset(groups);
      var j :| 0 <= j < |other| && other[j] == groups[i];
      assert arms.variable(other[j].flag) == v;
    } else {
      forall j | 0 <= j < |other| ensures arms.variable(other[j].flag) != v {
        assert other[j] in multiset(other);
        assert other[j] in groups;
      }
    }
  }

  /** Groups as they are written: a switch has no word. */
  predicate Written<F(==), V>(arms: Arms<F, V>, groups: seq<Group<F>>) {
    forall i :: 0 <= i < |groups| && arms.isSwitch(groups[i].flag) ==> groups[i].word == Text("")
  }

  lemma {:induction false} FlattenIsInjective<F(!new), V>(arms: Arms<F, V>, groups: seq<Group<F>>, other: seq<Group<F>>)
    requires DistinctSpellings(arms) && Written(arms, groups) && Written(arms, other)
    requires Flatten(arms, groups) == Flatten(arms, other)
    ensures groups == other
    decreases |groups|
  {
    if groups != [] && other != [] {
      var words := Flatten(arms, groups);
      assert words[0] == Text(arms.spell(groups[0].flag)) && words[0] == Text(arms.spell(other[0].flag));
      assert groups[0].flag == other[0].flag;
      var width := |GroupWords(arms, groups[0])|;
      assert words[..width] == GroupWords(arms, groups[0]) == GroupWords(arms, other[0]);
      assert width == 2 ==> words[1] == groups[0].word && words[1] == other[0].word;
      assert words[width..] == Flatten(arms, groups[1..]) == Flatten(arms, other[1..]);
      FlattenIsInjective(arms, groups[1..], other[1..]);
    }
  }

  lemma GoodOrdersAgree<F(!new), V>(arms: Arms<F, V>, takes: seq<F>, groups: seq<Group<F>>, other: seq<Group<F>>)
    requires DistinctSpellings(arms) && OneFlagPerVariable(arms, takes)
    requires Good(arms, takes, groups) && multiset(groups) == multiset(other)
    ensures Reading(arms, takes, Flatten(arms, groups), [], map[]).Ok?
    ensures Reading(arms, takes, Flatten(arms, groups), [], map[]) == Reading(arms, takes, Flatten(arms, other), [], map[])
  {
    PermutedGroupsAreGood(arms, takes, groups, other);
    AcceptedIffGoodGroups(arms, takes, Flatten(arms, groups));
    AcceptedIffGoodGroups(arms, takes, Flatten(arms, other));
    forall v ensures v in Assigned(arms, groups, map[]) <==> v in Assigned(arms, other, map[])
             ensures v in Assigned(arms, groups, map[]) ==> Assigned(arms, groups, map[])[v] == Assigned(arms, other, map[])[v]
    {
      PermutedGroupsAssignAlike(arms, takes, groups, other, v);
    }
    assert Assigned(arms, groups, map[]) == Assigned(arms, other, map[]);
  }

  lemma AcceptedOrdersAgree<F(!new), V>(arms: Arms<F, V>, takes: seq<F>, groups: seq<Group<F>>, other: seq<Group<F>>)
    requires DistinctSpellings(arms) && OneFlagPerVariable(arms, takes) && Written(arms, groups) && multiset(groups) == multiset(other)
    requires Reading(arms, takes, Flatten(arms, groups), [], map[]).Ok?
    ensures Reading(arms, takes, Flatten(arms, groups), [], map[]) == Reading(arms, takes, Flatten(arms, other), [], map[])
  {
    var read := GroupsOf(arms, takes, Flatten(arms, groups), [], map[]);
    assert Written(arms, read);
    FlattenIsInjective(arms, groups, read);
    GoodOrdersAgree(arms, takes, groups, other);
  }

  /**
   The order of the flags does not matter: any permutation of complete flags, listed or not, gives the same
   variables, or is refused as well.
   */
  lemma OrderDoesNotMatter<F(!new), V>(arms: Arms<F, V>, takes: seq<F>, groups: seq<Group<F>>, other: seq<Group<F>>)
    requires DistinctSpellings(arms) && OneFlagPerVariable(arms, takes) && Written(arms, groups) && multiset(groups) == multiset(other)
    ensures Reading(arms, takes, Flatten(arms, groups), [], map[]).Ok? <==> Reading(arms, takes, Flatten(arms, other), [], map[]).Ok?
    ensures Reading(arms, takes, Flatten(arms, groups), [], map[]).Ok? ==>
              Reading(arms, takes, Flatten(arms, groups), [], map[]) == Reading(arms, takes, Flatten(arms, other), [], map[])
  {
    if Reading(arms, takes, Flatten(arms, groups), [], map[]).Ok? {
      AcceptedOrdersAgree(arms, takes, groups, other);
    }
    if Reading(arms, takes, Flatten(arms, other), [], map[]).Ok? {
      assert Written(arms, other) by {
        assert forall i :: 0 <= i < |other| ==> other[i] in multiset(other);
        assert forall i :: 0 <= i < |other| ==> other[i] in groups;
      }
      AcceptedOrdersAgree(arms, takes, other, groups);
    }
  }
}
