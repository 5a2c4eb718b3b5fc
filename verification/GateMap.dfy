/**
 The gate map's retirement ratchet: on a pull request, a test name or a row key that the merge base
 holds leaves only when the retirement list holds it, and no row may carry a key the merge base's
 fragment does not hold.
 */
module GateMap {
  import opened Basics
  import opened Wrappers

  datatype Fragment = Contract | Ledger | Host | Policy | Exec | Apps

  const GATE_FRAGMENTS: seq<Fragment> := [Contract, Ledger, Host, Policy, Exec, Apps]

  /** One row: its old key, if it still carries one, and its tests. */
  datatype Row = Row(key: Option<string>, tests: seq<string>)

  type Map = map<Fragment, seq<Row>>

  datatype Kind = Test | Key

  /** What left, or what a retirement lists: the fragment it left, what it is, and its name. */
  datatype Item = Item(fragment: Fragment, kind: Kind, name: string)

  lemma EveryFragmentIsListed()
    ensures forall fragment: Fragment :: fragment in GATE_FRAGMENTS
  {
    forall fragment: Fragment ensures fragment in GATE_FRAGMENTS {
      match fragment
      case Contract => assert GATE_FRAGMENTS[0] == fragment;
      case Ledger => assert GATE_FRAGMENTS[1] == fragment;
      case Host => assert GATE_FRAGMENTS[2] == fragment;
      case Policy => assert GATE_FRAGMENTS[3] == fragment;
      case Exec => assert GATE_FRAGMENTS[4] == fragment;
      case Apps => assert GATE_FRAGMENTS[5] == fragment;
    }
  }

  function RowsOf(gates: Map, fragment: Fragment): seq<Row> {
    if fragment in gates then gates[fragment] else []
  }

  ghost predicate HoldsName(gates: Map, name: string) {
    exists fragment :: fragment in gates && InFragment(gates[fragment], name)
  }

  predicate InFragment(rows: seq<Row>, name: string) {
    exists i :: 0 <= i < |rows| && name in rows[i].tests
  }

  predicate HoldsKey(rows: seq<Row>, key: string) {
    exists i :: 0 <= i < |rows| && rows[i].key == Some(key)
  }

  /** What the base holds and the head does not: a key by its fragment, a name by the whole map. */
  ghost predicate Left(base: Map, head: Map, item: Item) {
    && item.fragment in base
    && match item.kind
       case Key => HoldsKey(base[item.fragment], item.name) && !HoldsKey(RowsOf(head, item.fragment), item.name)
       case Test => InFragment(base[item.fragment], item.name) && !HoldsName(head, item.name)
  }

  /** A dictionary's keys in the order they were first set. */
  function AddOnce(items: seq<Item>, item: Item): (more: seq<Item>)
    ensures forall x :: x in more <==> x in items || x == item
    ensures NoRepeats(items) ==> NoRepeats(more)
  {
    if item in items then items else items + [item]
  }

  /** The names every row of the head keeps. */
  method KeptNames(head: Map) returns (names: set<string>)
    ensures forall name :: name in names <==> HoldsName(head, name)
  {
    names := {};
    var fragments := head.Keys;
    while fragments != {}
      invariant fragments <= head.Keys
      invariant forall name :: name in names <==> exists f :: f in head && f !in fragments && InFragment(head[f], name)
      decreases fragments
    {
      var f :| f in fragments;
      ghost var before := names;
      var rows := head[f];
      for i := 0 to |rows|
        invariant forall name :: name in names <==> name in before || InFragment(rows[..i], name)
      {
        assert rows[..i + 1] == rows[..i] + [rows[i]];
        assert forall name :: InFragment(rows[..i + 1], name) <==> InFragment(rows[..i], name) || name in rows[i].tests by {
          forall name | InFragment(rows[..i], name) || name in rows[i].tests ensures InFragment(rows[..i + 1], name) {
            if InFragment(rows[..i], name) {
              var k :| 0 <= k < i && name in rows[..i][k].tests;
              assert name in rows[..i + 1][k].tests;
            } else {
              assert name in rows[..i + 1][i].tests;
            }
          }
        }
        names := names + set name | name in rows[i].tests;
      }
      assert rows[..|rows|] == rows;
      fragments := fragments - {f};
    }
  }

  /** What one row of the base takes with it. */
  method LeftOfRow(fragment: Fragment, row: Row, head: Map, keptNames: set<string>, left: seq<Item>) returns (more: seq<Item>)
    requires NoRepeats(left)
    ensures NoRepeats(more)
    ensures forall item :: item in more <==> item in left || LeftByRow(fragment, row, head, keptNames, item)
  {
    more := left;
    if row.key.Some? && !HoldsKey(RowsOf(head, fragment), row.key.value) {
      more := AddOnce(more, Item(fragment, Key, row.key.value));
    }
    for i := 0 to |row.tests|
      invariant NoRepeats(more)
      invariant forall item :: item in more <==>
                  || item in left
                  || (item.kind.Key? && LeftByRow(fragment, row, head, keptNames, item))
                  || (item.kind.Test? && item.fragment == fragment && item.name in row.tests[..i] && item.name !in keptNames)
    {
      if row.tests[i] !in keptNames {
        more := AddOnce(more, Item(fragment, Test, row.tests[i]));
      }
    }
    assert row.tests[..|row.tests|] == row.tests;
  }

  ghost predicate LeftByRow(fragment: Fragment, row: Row, head: Map, keptNames: set<string>, item: Item) {
    && item.fragment == fragment
    && match item.kind
       case Key => row.key == Some(item.name) && !HoldsKey(RowsOf(head, fragment), item.name)
       case Test => item.name in row.tests && item.name !in keptNames
  }

  lemma RowsTakeWhatLeft(base: Map, head: Map, fragment: Fragment, keptNames: set<string>)
    requires fragment in base && forall name :: name in keptNames <==> HoldsName(head, name)
    ensures forall item: Item :: item.fragment == fragment && Left(base, head, item)
                      <==> exists i :: 0 <= i < |base[fragment]| && LeftByRow(fragment, base[fragment][i], head, keptNames, item)
  {
  }

  /** `left_the_map`: exactly what left, each once. */
  method LeftTheMap(base: Map, head: Map) returns (left: seq<Item>)
    ensures NoRepeats(left)
    ensures forall item :: item in left <==> Left(base, head, item)
  {
    var keptNames := KeptNames(head);
    left := [];
    for m := 0 to |GATE_FRAGMENTS|
      invariant NoRepeats(left)
      invariant forall item :: item in left <==> item.fragment in GATE_FRAGMENTS[..m] && Left(base, head, item)
    {
      var fragment := GATE_FRAGMENTS[m];
      assert GATE_FRAGMENTS[..m + 1] == GATE_FRAGMENTS[..m] + [fragment];
      assert fragment !in GATE_FRAGMENTS[..m];
      if fragment in base {
        RowsTakeWhatLeft(base, head, fragment, keptNames);
        left := LeftOfFragment(fragment, base[fragment], head, keptNames, left);
      }
    }
    EveryFragmentIsListed();
    assert GATE_FRAGMENTS[..|GATE_FRAGMENTS|] == GATE_FRAGMENTS;
  }

  method LeftOfFragment(fragment: Fragment, rows: seq<Row>, head: Map, keptNames: set<string>, left: seq<Item>)
    returns (more: seq<Item>)
    requires NoRepeats(left)
    ensures NoRepeats(more)
    ensures forall item :: item in more <==>
              item in left || exists i :: 0 <= i < |rows| && LeftByRow(fragment, rows[i], head, keptNames, item)
  {
    more := left;
    for i := 0 to |rows|
      invariant NoRepeats(more)
      invariant forall item :: item in more <==>
                  item in left || exists k :: 0 <= k < i && LeftByRow(fragment, rows[k], head, keptNames, item)
    {
      more := LeftOfRow(fragment, rows[i], head, keptNames, more);
    }
  }

  /** `retirement_violations`: what left and is not listed. */
  method RetirementViolations(base: Map, head: Map, listed: set<Item>) returns (violations: seq<Item>)
    ensures forall item :: item in violations <==> Left(base, head, item) && item !in listed
  {
    var left := LeftTheMap(base, head);
    violations := [];
    for i := 0 to |left|
      invariant forall item :: item in violations <==> item in left[..i] && item !in listed
    {
      if left[i] !in listed {
        violations := violations + [left[i]];
      }
    }
    assert left[..|left|] == left;
  }

  // ----- One pull request

  /** A head as the check reads it: its fragments, those that do not parse, and its retirement list. */
  datatype Head = Head(gates: Map, unreadable: set<Fragment>, listed: set<Item>)

  datatype Violation = Unreadable(fragment: Fragment) | NewKey(fragment: Fragment, key: string) | LeftUnlisted(item: Item)

  /** A key no row of the base's fragment holds. */
  ghost predicate KeyIsNew(base: Map, head: Map, fragment: Fragment, key: string) {
    HoldsKey(RowsOf(head, fragment), key) && !HoldsKey(RowsOf(base, fragment), key)
  }

  /** The part of the base the retirement check holds the head against. */
  function Readable(base: Map, unreadable: set<Fragment>): Map {
    base - unreadable
  }

  /** The check's violations over the gate map. */
  ghost predicate Violates(base: Map, head: Head, violation: Violation) {
    match violation
    case Unreadable(fragment) => fragment in head.unreadable
    case NewKey(fragment, key) => KeyIsNew(base, head.gates, fragment, key)
    case LeftUnlisted(item) => Left(Readable(base, head.unreadable), head.gates, item) && item !in head.listed
  }

  /** Step 6 of `check`, with the parse failures of step 1. */
  method CheckPullRequest(base: Map, head: Head) returns (violations: seq<Violation>)
    ensures forall violation :: violation in violations <==> Violates(base, head, violation)
  {
    violations := [];
    for m := 0 to |GATE_FRAGMENTS|
      invariant forall violation :: violation in violations <==>
                  && !violation.LeftUnlisted? && violation.fragment in GATE_FRAGMENTS[..m]
                  && Violates(base, head, violation)
    {
      var fragment := GATE_FRAGMENTS[m];
      assert GATE_FRAGMENTS[..m + 1] == GATE_FRAGMENTS[..m] + [fragment];
      if fragment in head.unreadable {
        violations := violations + [Unreadable(fragment)];
      }
      var newKeys := NewKeys(base, head.gates, fragment);
      violations := violations + newKeys;
    }
    EveryFragmentIsListed();
    assert GATE_FRAGMENTS[..|GATE_FRAGMENTS|] == GATE_FRAGMENTS;
    var left := RetirementViolations(Readable(base, head.unreadable), head.gates, head.listed);
    ghost var others := violations;
    for i := 0 to |left|
      invariant forall violation :: violation in violations <==>
                  violation in others || (violation.LeftUnlisted? && violation.item in left[..i])
    {
      violations := violations + [LeftUnlisted(left[i])];
    }
    assert left[..|left|] == left;
  }

  method NewKeys(base: Map, head: Map, fragment: Fragment) returns (violations: seq<Violation>)
    ensures forall violation :: violation in violations <==>
              violation.NewKey? && violation.fragment == fragment && KeyIsNew(base, head, fragment, violation.key)
  {
    var rows := RowsOf(head, fragment);
    violations := [];
    for i := 0 to |rows|
      invariant forall violation :: violation in violations <==>
                  && violation.NewKey? && violation.fragment == fragment
                  && (exists k :: 0 <= k < i && rows[k].key == Some(violation.key))
                  && !HoldsKey(RowsOf(base, fragment), violation.key)
    {
      var key := rows[i].key;
      if key.Some? && !HoldsKey(RowsOf(base, fragment), key.value) {
        violations := violations + [NewKey(fragment, key.value)];
      }
    }
  }

  // ----- Every history of accepted pull requests

  ghost predicate Accepted(base: Map, head: Head) {
    forall violation :: !Violates(base, head, violation)
  }

  /** Each pull request is held against the map before it, and the retirement list only grows. */
  ghost predicate History(start: Map, heads: seq<Head>) {
    && (forall i :: 0 <= i < |heads| ==> Accepted(MapAt(start, heads, i), heads[i]))
    && (forall i :: 0 < i < |heads| ==> heads[i - 1].listed <= heads[i].listed)
  }

  function MapAt(start: Map, heads: seq<Head>, i: nat): Map
    requires i <= |heads|
  {
    if i == 0 then start else heads[i - 1].gates
  }

  ghost predicate ListedTest(head: Head, name: string) {
    exists fragment :: Item(fragment, Test, name) in head.listed
  }

  lemma OnePullRequest(base: Map, head: Head)
    requires Accepted(base, head)
    ensures forall name :: HoldsName(base, name) ==> HoldsName(head.gates, name) || ListedTest(head, name)
    ensures forall fragment, key :: HoldsKey(RowsOf(base, fragment), key) ==>
              HoldsKey(RowsOf(head.gates, fragment), key) || Item(fragment, Key, key) in head.listed
    ensures forall fragment, key :: HoldsKey(RowsOf(head.gates, fragment), key) ==> HoldsKey(RowsOf(base, fragment), key)
  {
    assert head.unreadable == {} by {
      forall fragment | fragment in head.unreadable ensures false {
        assert Violates(base, head, Unreadable(fragment));
      }
    }
    assert Readable(base, head.unreadable) == base;
    forall name | HoldsName(base, name) && !HoldsName(head.gates, name) ensures ListedTest(head, name) {
      var fragment :| fragment in base && InFragment(base[fragment], name);
      assert !Violates(base, head, LeftUnlisted(Item(fragment, Test, name)));
    }
    forall fragment, key | HoldsKey(RowsOf(base, fragment), key) && !HoldsKey(RowsOf(head.gates, fragment), key)
      ensures Item(fragment, Key, key) in head.listed
    {
      assert !Violates(base, head, LeftUnlisted(Item(fragment, Key, key)));
    }
    forall fragment, key | HoldsKey(RowsOf(head.gates, fragment), key) ensures HoldsKey(RowsOf(base, fragment), key) {
      assert !Violates(base, head, NewKey(fragment, key));
    }
  }

  /**
   The ratchet over every history: whatever the map ever held is still in it or is listed, and a
   fragment's keys never gain a member, so a retired key never comes back.
   */
  lemma {:induction false} NothingLeavesUnlisted(start: Map, heads: seq<Head>, i: nat, j: nat)
    requires History(start, heads) && i < j <= |heads|
    ensures forall name :: HoldsName(MapAt(start, heads, i), name) ==>
              HoldsName(MapAt(start, heads, j), name) || ListedTest(heads[j - 1], name)
    ensures forall fragment, key :: HoldsKey(RowsOf(MapAt(start, heads, i), fragment), key) ==>
              HoldsKey(RowsOf(MapAt(start, heads, j), fragment), key) || Item(fragment, Key, key) in heads[j - 1].listed
    ensures forall fragment, key :: HoldsKey(RowsOf(MapAt(start, heads, j), fragment), key) ==>
              HoldsKey(RowsOf(MapAt(start, heads, i), fragment), key)
    decreases j - i
  {
    assert Accepted(MapAt(start, heads, j - 1), heads[j - 1]);
    OnePullRequest(MapAt(start, heads, j - 1), heads[j - 1]);
    if i < j - 1 {
      NothingLeavesUnlisted(start, heads, i, j - 1);
      assert heads[j - 2].listed <= heads[j - 1].listed;
    }
  }

  /** The check does not itself hold the list to growing: two accepted pull requests can drop a name and then its record. */
  lemma ShrinkingListLosesTheRecord()
    ensures exists start: Map, first: Head, second: Head ::
              && Accepted(start, first) && Accepted(first.gates, second)
              && HoldsName(start, "t") && !HoldsName(second.gates, "t") && !ListedTest(second, "t")
  {
    var start: Map := map[Host := [Row(None, ["t"])]];
    var first := Head(map[Host := []], {}, {Item(Host, Test, "t")});
    var second := Head(map[Host := []], {}, {});
    assert start[Host][0].tests == ["t"] && "t" in start[Host][0].tests;
    assert InFragment(start[Host], "t");
    assert HoldsName(start, "t");
    assert Accepted(start, first);
    assert Accepted(first.gates, second);
  }

  // ----- Exactly when nothing is lost

  ghost predicate AllAccepted(start: Map, heads: seq<Head>) {
    forall i :: 0 <= i < |heads| ==> Accepted(MapAt(start, heads, i), heads[i])
  }

  /** A test is held by its name in any fragment, a key in its own. */
  ghost predicate HoldsItem(gates: Map, item: Item) {
    if item.kind.Test? then HoldsName(gates, item.name) else HoldsKey(RowsOf(gates, item.fragment), item.name)
  }

  ghost predicate ListsItem(head: Head, item: Item) {
    if item.kind.Test? then ListedTest(head, item.name) else item in head.listed
  }

  ghost predicate EverHeld(start: Map, heads: seq<Head>, j: nat, item: Item)
    requires j <= |heads|
  {
    exists i :: 0 <= i <= j && HoldsItem(MapAt(start, heads, i), item)
  }

  /** Whatever the map ever held is in it or listed. */
  ghost predicate NothingIsLost(start: Map, heads: seq<Head>, j: nat)
    requires j <= |heads|
  {
    forall item :: EverHeld(start, heads, j, item) ==>
      HoldsItem(MapAt(start, heads, j), item) || (j > 0 && ListsItem(heads[j - 1], item))
  }

  /** The pull request after the `k`-th drops no record of what the map once held and does not hold. */
  ghost predicate KeepsRecords(start: Map, heads: seq<Head>, k: nat)
    requires 0 < k < |heads|
  {
    forall item ::
      EverHeld(start, heads, k, item) && ListsItem(heads[k - 1], item) && !HoldsItem(heads[k].gates, item) ==>
        ListsItem(heads[k], item)
  }

  lemma OnePullRequestKeeps(base: Map, head: Head, item: Item, recorded: bool)
    requires Accepted(base, head) && (HoldsItem(base, item) || recorded)
    requires recorded && !HoldsItem(head.gates, item) ==> ListsItem(head, item)
    ensures HoldsItem(head.gates, item) || ListsItem(head, item)
  {
    OnePullRequest(base, head);
  }

  lemma OneMoreLosesNothing(start: Map, heads: seq<Head>, j: nat, item: Item)
    requires 0 < j <= |heads| && Accepted(MapAt(start, heads, j - 1), heads[j - 1]) && NothingIsLost(start, heads, j - 1)
    requires j > 1 ==> KeepsRecords(start, heads, j - 1)
    requires EverHeld(start, heads, j, item)
    ensures HoldsItem(MapAt(start, heads, j), item) || ListsItem(heads[j - 1], item)
  {
    var i :| 0 <= i <= j && HoldsItem(MapAt(start, heads, i), item);
    if i < j {
      assert EverHeld(start, heads, j - 1, item);
      OnePullRequestKeeps(MapAt(start, heads, j - 1), heads[j - 1], item, j > 1 && ListsItem(heads[j - 2], item));
    }
  }

  lemma {:induction false} KeptRecordsLoseNothing(start: Map, heads: seq<Head>, j: nat)
    requires AllAccepted(start, heads) && j <= |heads| && forall k :: 0 < k < |heads| ==> KeepsRecords(start, heads, k)
    ensures NothingIsLost(start, heads, j)
    decreases j
  {
    if j > 0 {
      KeptRecordsLoseNothing(start, heads, j - 1);
      forall item | EverHeld(start, heads, j, item)
        ensures HoldsItem(MapAt(start, heads, j), item) || ListsItem(heads[j - 1], item)
      {
        OneMoreLosesNothing(start, heads, j, item);
      }
    }
  }

  /** Over accepted pull requests nothing is ever lost exactly when no one of them drops the record of something gone. */
  lemma NothingIsLostIff(start: Map, heads: seq<Head>)
    requires AllAccepted(start, heads)
    ensures (forall j :: 0 <= j <= |heads| ==> NothingIsLost(start, heads, j)) <==>
      (forall k :: 0 < k < |heads| ==> KeepsRecords(start, heads, k))
  {
    if forall k :: 0 < k < |heads| ==> KeepsRecords(start, heads, k) {
      forall j | 0 <= j <= |heads| ensures NothingIsLost(start, heads, j) {
        KeptRecordsLoseNothing(start, heads, j);
      }
    }
    if forall j :: 0 <= j <= |heads| ==> NothingIsLost(start, heads, j) {
      forall k | 0 < k < |heads| ensures KeepsRecords(start, heads, k) {
        assert NothingIsLost(start, heads, k + 1);
        forall item | EverHeld(start, heads, k, item) ensures EverHeld(start, heads, k + 1, item) {
          var i :| 0 <= i <= k && HoldsItem(MapAt(start, heads, i), item);
        }
      }
    }
  }
}
