/**
 The two grouping passes of a diagnosis (`group_runs`, `group_failures`): runs and failure records are
 grouped by their key, and the groups are answered the most frequent first and, among equals, the most
 recent first.
 */
module Grouping {
  import opened Wrappers
  import opened Ordering

  /** (policy task, failure code, final page) of a run; (type, policy task, code) of a failure record. */
  datatype Key = Key(first: Option<string>, second: Option<string>, third: Option<string>)

  /** One run or failure record; a record has no request and no instance. */
  datatype Item = Item(key: Key, sequence: nat, requestId: Option<nat>, instance: Option<nat>)

  datatype Group = Group(count: nat, firstSeq: nat, lastSeq: nat, latestRequestId: Option<nat>, instances: set<nat>)

  datatype Row = Row(key: Key, group: Group)

  // ----- The grouping pass

  function Fold(group: Group, item: Item): Group {
    Group(
      group.count + 1,
      if item.sequence < group.firstSeq then item.sequence else group.firstSeq,
      if item.sequence >= group.lastSeq then item.sequence else group.lastSeq,
      if item.sequence >= group.lastSeq then item.requestId else group.latestRequestId,
      group.instances + if item.instance.Some? then {item.instance.value} else {})
  }

  function NewGroup(item: Item): Group {
    Group(0, item.sequence, item.sequence, item.requestId, {})
  }

  /** The group a key has after these items, if any of them has it. */
  function GroupOf(items: seq<Item>, key: Key): Option<Group> {
    if items == [] then None else
      var before, item := GroupOf(items[..|items| - 1], key), items[|items| - 1];
      if item.key != key then before
      else Some(Fold(if before.Some? then before.value else NewGroup(item), item))
  }

  method GroupItems(items: seq<Item>) returns (groups: map<Key, Group>)
    ensures forall key :: GroupOf(items, key) == if key in groups then Some(groups[key]) else None
  {
    groups := map[];
    for n := 0 to |items|
      invariant forall key :: GroupOf(items[..n], key) == if key in groups then Some(groups[key]) else None
    {
      var item := items[n];
      var group := if item.key in groups then groups[item.key] else NewGroup(item);
      assert items[..n + 1][..n] == items[..n];
      groups := groups[item.key := Fold(group, item)];
    }
    assert items[..|items|] == items;
  }

  // ----- What a group is

  predicate Has(items: seq<Item>, key: Key, i: int) {
    0 <= i < |items| && items[i].key == key
  }

  function CountKey(items: seq<Item>, key: Key): nat {
    if items == [] then 0 else CountKey(items[..|items| - 1], key) + if items[|items| - 1].key == key then 1 else 0
  }

  /** The last item of a key among those with its highest sequence. */
  ghost predicate IsLatest(items: seq<Item>, key: Key, i: int) {
    && Has(items, key, i)
    && (forall j :: Has(items, key, j) ==> items[j].sequence <= items[i].sequence)
    && (forall j :: i < j && Has(items, key, j) ==> items[j].sequence < items[i].sequence)
  }

  ghost predicate IsEarliest(items: seq<Item>, key: Key, i: int) {
    Has(items, key, i) && forall j :: Has(items, key, j) ==> items[i].sequence <= items[j].sequence
  }

  lemma {:induction false} GroupCounts(items: seq<Item>, key: Key)
    ensures GroupOf(items, key).None? <==> CountKey(items, key) == 0
    ensures GroupOf(items, key).Some? ==> GroupOf(items, key).value.count == CountKey(items, key)
    ensures GroupOf(items, key).None? <==> forall i :: !Has(items, key, i)
    decreases |items|
  {
    if items != [] {
      var rest := items[..|items| - 1];
      GroupCounts(rest, key);
      assert forall i :: Has(rest, key, i) ==> Has(items, key, i);
      assert forall i :: Has(items, key, i) ==> Has(rest, key, i) || i == |rest|;
      assert items[|rest|].key == key ==> Has(items, key, |rest|);
    }
  }

  /** A group's bounds are the lowest and highest sequence of its items, and its request is its latest item's. */
  lemma {:induction false} GroupBounds(items: seq<Item>, key: Key) returns (earliest: int, latest: int)
    requires GroupOf(items, key).Some?
    ensures IsEarliest(items, key, earliest) && items[earliest].sequence == GroupOf(items, key).value.firstSeq
    ensures IsLatest(items, key, latest) && items[latest].sequence == GroupOf(items, key).value.lastSeq
    ensures items[latest].requestId == GroupOf(items, key).value.latestRequestId
    decreases |items|
  {
    var rest, item := items[..|items| - 1], items[|items| - 1];
    GroupCounts(rest, key);
    assert forall j :: Has(items, key, j) ==> (Has(rest, key, j) && rest[j] == items[j]) || j == |rest|;
    assert forall j :: Has(rest, key, j) ==> Has(items, key, j);
    if GroupOf(rest, key).None? {
      earliest, latest := |rest|, |rest|;
    } else {
      earliest, latest := GroupBounds(rest, key);
      if item.key == key {
        var before := GroupOf(rest, key).value;
        earliest := if item.sequence < before.firstSeq then |rest| else earliest;
        latest := if item.sequence >= before.lastSeq then |rest| else latest;
      }
    }
  }

  lemma {:induction false} GroupInstances(items: seq<Item>, key: Key, x: nat)
    requires GroupOf(items, key).Some?
    ensures x in GroupOf(items, key).value.instances <==> exists i :: Has(items, key, i) && items[i].instance == Some(x)
    decreases |items|
  {
    var rest, item := items[..|items| - 1], items[|items| - 1];
    GroupCounts(rest, key);
    assert forall j :: Has(items, key, j) ==> (Has(rest, key, j) && rest[j] == items[j]) || j == |rest|;
    assert forall j :: Has(rest, key, j) ==> Has(items, key, j) && rest[j] == items[j];
    assert item.key == key ==> Has(items, key, |rest|);
    if GroupOf(rest, key).Some? {
      GroupInstances(rest, key, x);
    }
  }

  /** `group` is the group of `key`: its count, its bounds, the request of its latest item, its instances. */
  ghost predicate IsGroup(items: seq<Item>, key: Key, group: Group) {
    && group.count == CountKey(items, key) > 0
    && (exists i :: IsEarliest(items, key, i) && items[i].sequence == group.firstSeq)
    && (exists i :: IsLatest(items, key, i) && items[i].sequence == group.lastSeq && items[i].requestId == group.latestRequestId)
    && (forall x :: x in group.instances <==> exists i :: Has(items, key, i) && items[i].instance == Some(x))
  }

  lemma GroupMeans(items: seq<Item>, key: Key)
    requires GroupOf(items, key).Some?
    ensures IsGroup(items, key, GroupOf(items, key).value)
  {
    GroupCounts(items, key);
    var earliest, latest := GroupBounds(items, key);
    forall x ensures x in GroupOf(items, key).value.instances <==> exists i :: Has(items, key, i) && items[i].instance == Some(x) {
      GroupInstances(items, key, x);
    }
  }

  // ----- The order of the rows

  predicate TextBelow(a: Option<string>, b: Option<string>) {
    b.Some? && (a.None? || Below(a.value, b.value))
  }

  /** The order the groups are kept in. */
  predicate KeyBelow(a: Key, b: Key) {
    || TextBelow(a.first, b.first)
    || (a.first == b.first && TextBelow(a.second, b.second))
    || (a.first == b.first && a.second == b.second && TextBelow(a.third, b.third))
  }

  lemma TextOrder(a: Option<string>, b: Option<string>)
    ensures a == b || TextBelow(a, b) || TextBelow(b, a)
    ensures !(TextBelow(a, b) && TextBelow(b, a)) && (a == b ==> !TextBelow(a, b))
  {
    if a.Some? && b.Some? {
      BelowIsTotal(a.value, b.value);
    }
  }

  lemma TextTransitive(a: Option<string>, b: Option<string>, c: Option<string>)
    ensures TextBelow(a, b) && TextBelow(b, c) ==> TextBelow(a, c)
  {
    if a.Some? && b.Some? && c.Some? && TextBelow(a, b) && TextBelow(b, c) {
      BelowIsTransitive(a.value, b.value, c.value);
    }
  }

  lemma KeyOrder(a: Key, b: Key)
    ensures a == b || KeyBelow(a, b) || KeyBelow(b, a)
    ensures !(KeyBelow(a, b) && KeyBelow(b, a))
  {
    TextOrder(a.first, b.first);
    TextOrder(a.second, b.second);
    TextOrder(a.third, b.third);
  }

  lemma KeyTransitive(a: Key, b: Key, c: Key)
    requires KeyBelow(a, b) && KeyBelow(b, c)
    ensures KeyBelow(a, c)
  {
    TextTransitive(a.first, b.first, c.first);
    TextTransitive(a.second, b.second, c.second);
    TextTransitive(a.third, b.third, c.third);
  }

  /** The most frequent first, the most recent first among equals; rows equal in both stay in key order. */
  predicate Precedes(a: Row, b: Row) {
    || a.group.count > b.group.count
    || (a.group.count == b.group.count && a.group.lastSeq > b.group.lastSeq)
    || (a.group.count == b.group.count && a.group.lastSeq == b.group.lastSeq && KeyBelow(a.key, b.key))
  }

  lemma PrecedesTransitive(a: Row, b: Row, c: Row)
    requires Precedes(a, b) && Precedes(b, c)
    ensures Precedes(a, c)
  {
    if KeyBelow(a.key, b.key) && KeyBelow(b.key, c.key) {
      KeyTransitive(a.key, b.key, c.key);
    }
  }

  ghost predicate InOrder(rows: seq<Row>) {
    forall i, j :: 0 <= i < j < |rows| ==> Precedes(rows[i], rows[j])
  }

  function InsertRow(rows: seq<Row>, row: Row): seq<Row> {
    if rows == [] || Precedes(row, rows[0]) then [row] + rows else [rows[0]] + InsertRow(rows[1..], row)
  }

  lemma {:induction false} InsertInOrder(rows: seq<Row>, row: Row)
    requires InOrder(rows) && forall i :: 0 <= i < |rows| ==> rows[i].key != row.key
    ensures InOrder(InsertRow(rows, row))
    ensures forall r :: r in InsertRow(rows, row) <==> r in rows || r == row
    ensures |InsertRow(rows, row)| == |rows| + 1
    decreases |rows|
  {
    if rows == [] {
    } else if Precedes(row, rows[0]) {
      forall j | 1 <= j < |rows| ensures Precedes(row, rows[j]) {
        PrecedesTransitive(row, rows[0], rows[j]);
      }
    } else {
      KeyOrder(row.key, rows[0].key);
      InsertInOrder(rows[1..], row);
      var rest := InsertRow(rows[1..], row);
      forall j | 0 <= j < |rest| ensures Precedes(rows[0], rest[j]) {
        assert rest[j] in rest;
      }
      assert rows == [rows[0]] + rows[1..];
    }
  }

  /** The groups as rows: each once, in order. */
  method OrderGroups(groups: map<Key, Group>) returns (rows: seq<Row>)
    ensures InOrder(rows)
    ensures forall row :: row in rows <==> row.key in groups && row.group == groups[row.key]
    ensures forall i, j :: 0 <= i < j < |rows| ==> rows[i].key != rows[j].key
  {
    rows := [];
    var rest := groups.Keys;
    while rest != {}
      invariant rest <= groups.Keys && InOrder(rows)
      invariant forall row :: row in rows <==> row.key in groups && row.key !in rest && row.group == groups[row.key]
      decreases rest
    {
      var key :| key in rest;
      forall i | 0 <= i < |rows| ensures rows[i].key != key {
        assert rows[i] in rows;
      }
      InsertInOrder(rows, Row(key, groups[key]));
      rows := InsertRow(rows, Row(key, groups[key]));
      rest := rest - {key};
    }
    forall i, j | 0 <= i < j < |rows| ensures rows[i].key != rows[j].key {
      assert rows[i] in rows && rows[j] in rows && Precedes(rows[i], rows[j]);
      KeyOrder(rows[i].key, rows[j].key);
    }
  }

  // ----- Conservation

  function TotalCount(rows: seq<Row>): nat {
    if rows == [] then 0 else TotalCount(rows[..|rows| - 1]) + rows[|rows| - 1].group.count
  }

  ghost predicate DistinctKeys(rows: seq<Row>) {
    forall i, j :: 0 <= i < j < |rows| ==> rows[i].key != rows[j].key
  }

  predicate Listed(rows: seq<Row>, key: Key) {
    exists i :: 0 <= i < |rows| && rows[i].key == key
  }

  /** The items the rows' keys cover. */
  function Covered(rows: seq<Row>, items: seq<Item>): nat {
    if rows == [] then 0 else Covered(rows[..|rows| - 1], items) + CountKey(items, rows[|rows| - 1].key)
  }

  lemma {:induction false} OneMoreCovered(rows: seq<Row>, items: seq<Item>, item: Item)
    requires DistinctKeys(rows)
    ensures Covered(rows, items + [item]) == Covered(rows, items) + if Listed(rows, item.key) then 1 else 0
    decreases |rows|
  {
    assert (items + [item])[..|items|] == items;
    if rows != [] {
      var rest, last := rows[..|rows| - 1], rows[|rows| - 1];
      OneMoreCovered(rest, items, item);
      assert Listed(rows, item.key) <==> Listed(rest, item.key) || last.key == item.key by {
        if Listed(rest, item.key) {
          var i :| 0 <= i < |rest| && rest[i].key == item.key;
          assert rows[i].key == item.key;
        }
      }
    }
  }

  lemma {:induction false} EveryItemCovered(rows: seq<Row>, items: seq<Item>)
    requires DistinctKeys(rows) && forall n :: 0 <= n < |items| ==> Listed(rows, items[n].key)
    ensures Covered(rows, items) == |items|
    decreases |items|
  {
    if items == [] {
      NothingCovered(rows);
    } else {
      var rest, last := items[..|items| - 1], items[|items| - 1];
      EveryItemCovered(rows, rest);
      assert items == rest + [last];
      OneMoreCovered(rows, rest, last);
    }
  }

  lemma {:induction false} NothingCovered(rows: seq<Row>)
    ensures Covered(rows, []) == 0
    decreases |rows|
  {
    if rows != [] {
      NothingCovered(rows[..|rows| - 1]);
    }
  }

  lemma {:induction false} CountsAreCovered(rows: seq<Row>, items: seq<Item>)
    requires forall i :: 0 <= i < |rows| ==> rows[i].group.count == CountKey(items, rows[i].key)
    ensures TotalCount(rows) == Covered(rows, items)
    decreases |rows|
  {
    if rows != [] {
      CountsAreCovered(rows[..|rows| - 1], items);
    }
  }

  /**
   `group_runs` and `group_failures`: every item is in exactly one group, each group is of its key's items,
   the counts sum to the input's length, and the rows stand in their order.
   */
  method GroupRows(items: seq<Item>) returns (rows: seq<Row>)
    ensures forall i :: 0 <= i < |rows| ==> IsGroup(items, rows[i].key, rows[i].group)
    ensures DistinctKeys(rows)
    ensures forall n :: 0 <= n < |items| ==> Listed(rows, items[n].key)
    ensures TotalCount(rows) == |items|
    ensures InOrder(rows)
  {
    var groups := GroupItems(items);
    rows := OrderGroups(groups);
    forall i | 0 <= i < |rows| ensures IsGroup(items, rows[i].key, rows[i].group) {
      assert rows[i] in rows;
      GroupMeans(items, rows[i].key);
    }
    forall n | 0 <= n < |items| ensures Listed(rows, items[n].key) {
      var key := items[n].key;
      GroupCounts(items, key);
      assert Has(items, key, n);
      assert Row(key, groups[key]) in rows;
    }
    EveryItemCovered(rows, items);
    CountsAreCovered(rows, items);
  }
}
