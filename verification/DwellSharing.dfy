/**
 The performance status as it is answered (`performance_answer`): every dwell object is written once, in
 the table `dwell`, and each view names its own by their index there. Nothing is lost.
 */
module DwellSharing {
  import opened Basics
  import opened Wrappers

  datatype Json = Text(text: string) | Number(value: int) | List(items: seq<Json>) | Object(members: map<string, Json>)

  const LEARNING_VIEW: string := "learning_view"
  const NORMAL_VIEW: string := "normal_view"
  const DWELL_24H: string := "dwell_24h"
  const DWELL_TOTAL: string := "dwell_total"
  const DWELL_24H_REF: string := "dwell_24h_ref"
  const DWELL_TOTAL_REF: string := "dwell_total_ref"

  // ----- The table

  /** The table after one more value is met. */
  function Meet(table: seq<Json>, value: Json): seq<Json> {
    if value in table then table else table + [value]
  }

  function MeetAll(table: seq<Json>, values: seq<Json>): seq<Json>
    decreases |values|
  {
    if values == [] then table else MeetAll(Meet(table, values[0]), values[1..])
  }

  function IndexOf(table: seq<Json>, value: Json): (index: nat)
    ensures value in table ==> index < |table| && table[index] == value
    ensures value !in table ==> index == |table|
    ensures forall i :: 0 <= i < index ==> table[i] != value
  {
    if table == [] || table[0] == value then 0 else 1 + IndexOf(table[1..], value)
  }

  /** The table of met values: what it held stays, it repeats nothing, and it holds nothing that was not met. */
  lemma {:induction false} MeetAllTable(table: seq<Json>, values: seq<Json>)
    ensures table <= MeetAll(table, values)
    ensures NoRepeats(table) ==> NoRepeats(MeetAll(table, values))
    ensures forall v :: v in MeetAll(table, values) <==> v in table || v in values
    decreases |values|
  {
    if values != [] {
      MeetAllTable(Meet(table, values[0]), values[1..]);
    }
  }

  lemma {:induction false} MeetAllAppend(table: seq<Json>, a: seq<Json>, b: seq<Json>)
    ensures MeetAll(table, a + b) == MeetAll(MeetAll(table, a), b)
    decreases |a|
  {
    if a == [] {
      assert a + b == b;
    } else {
      assert (a + b)[1..] == a[1..] + b;
      MeetAllAppend(Meet(table, a[0]), a[1..], b);
    }
  }

  /** Values enter the table in the order they are first met. */
  lemma {:induction false} FirstMetFirst(values: seq<Json>, i: nat, j: nat)
    requires i < j < |values|
    requires values[i] !in values[..i] && values[j] !in values[..j]
    ensures values[i] in MeetAll([], values) && values[j] in MeetAll([], values)
    ensures IndexOf(MeetAll([], values), values[i]) < IndexOf(MeetAll([], values), values[j])
  {
    var before, rest := values[..j], values[j..];
    assert values == before + rest;
    MeetAllAppend([], before, rest);
    MeetAllTable([], values);
    MeetAllTable([], before);
    var early, whole := MeetAll([], before), MeetAll([], values);
    MeetAllTable(early, rest);
    assert values[i] == before[i] && values[i] in early && values[j] !in early;
    var k :| 0 <= k < |early| && early[k] == values[i];
    assert whole[k] == values[i];
    assert IndexOf(whole, values[i]) <= k;
    assert forall m :: 0 <= m < |early| ==> whole[m] == early[m] && early[m] != values[j];
  }

  // ----- Sharing

  /** The value of a member is replaced by its index in the table, under another name. */
  function ShareMember(view: map<string, Json>, table: seq<Json>, member: string, ref: string): (map<string, Json>, seq<Json>) {
    if member !in view then (view, table) else
      var value := view[member];
      ((view - {member})[ref := Number(IndexOf(table, value))], Meet(table, value))
  }

  function ShareView(view: Json, table: seq<Json>): (Json, seq<Json>) {
    if !view.Object? then (view, table) else
      var day := ShareMember(view.members, table, DWELL_24H, DWELL_24H_REF);
      var total := ShareMember(day.0, day.1, DWELL_TOTAL, DWELL_TOTAL_REF);
      (Object(total.0), total.1)
  }

  function ShareViewOf(row: map<string, Json>, table: seq<Json>, name: string): (map<string, Json>, seq<Json>) {
    if name !in row then (row, table) else
      var shared := ShareView(row[name], table);
      (row[name := shared.0], shared.1)
  }

  function ShareRow(row: Json, table: seq<Json>): (Json, seq<Json>) {
    if !row.Object? then (row, table) else
      var learning := ShareViewOf(row.members, table, LEARNING_VIEW);
      var normal := ShareViewOf(learning.0, learning.1, NORMAL_VIEW);
      (Object(normal.0), normal.1)
  }

  // ----- What is met

  function MetMember(view: map<string, Json>, member: string): seq<Json> {
    if member in view then [view[member]] else []
  }

  function MetView(view: Json): seq<Json> {
    if view.Object? then MetMember(view.members, DWELL_24H) + MetMember(view.members, DWELL_TOTAL) else []
  }

  function MetViewOf(row: map<string, Json>, name: string): seq<Json> {
    if name in row then MetView(row[name]) else []
  }

  /** The dwell values of a row: the learning view's, then the normal view's. */
  function MetRow(row: Json): seq<Json> {
    if row.Object? then MetViewOf(row.members, LEARNING_VIEW) + MetViewOf(row.members, NORMAL_VIEW) else []
  }

  function MetRows(rows: seq<Json>): seq<Json> {
    if rows == [] then [] else MetRows(rows[..|rows| - 1]) + MetRow(rows[|rows| - 1])
  }

  // ----- Restoring

  function RestoreMember(view: map<string, Json>, table: seq<Json>, member: string, ref: string): map<string, Json> {
    if ref in view && view[ref].Number? && 0 <= view[ref].value < |table|
    then (view - {ref})[member := table[view[ref].value]] else view
  }

  function RestoreView(view: Json, table: seq<Json>): Json {
    if !view.Object? then view else
      Object(RestoreMember(RestoreMember(view.members, table, DWELL_TOTAL, DWELL_TOTAL_REF), table, DWELL_24H, DWELL_24H_REF))
  }

  function RestoreViewOf(row: map<string, Json>, table: seq<Json>, name: string): map<string, Json> {
    if name in row then row[name := RestoreView(row[name], table)] else row
  }

  function RestoreRow(row: Json, table: seq<Json>): Json {
    if !row.Object? then row else
      Object(RestoreViewOf(RestoreViewOf(row.members, table, LEARNING_VIEW), table, NORMAL_VIEW))
  }

  /** The references of a row, in the order its values are met. */
  function RefsMember(view: map<string, Json>, ref: string): seq<Json> {
    if ref in view then [view[ref]] else []
  }

  function RefsViewOf(row: map<string, Json>, name: string): seq<Json> {
    if name in row && row[name].Object?
    then RefsMember(row[name].members, DWELL_24H_REF) + RefsMember(row[name].members, DWELL_TOTAL_REF) else []
  }

  function RefsRow(row: Json): seq<Json> {
    if row.Object? then RefsViewOf(row.members, LEARNING_VIEW) + RefsViewOf(row.members, NORMAL_VIEW) else []
  }

  /** As the status's type has it: a view carries no reference of its own. */
  predicate PlainView(view: Json) {
    view.Object? ==> DWELL_24H_REF !in view.members && DWELL_TOTAL_REF !in view.members
  }

  predicate PlainRow(row: Json) {
    row.Object? ==>
      && (LEARNING_VIEW in row.members ==> PlainView(row.members[LEARNING_VIEW]))
      && (NORMAL_VIEW in row.members ==> PlainView(row.members[NORMAL_VIEW]))
  }

  /** Each reference is the index of the value it stands for. */
  ghost predicate Resolves(refs: seq<Json>, values: seq<Json>, table: seq<Json>) {
    && |refs| == |values|
    && forall i :: 0 <= i < |refs| ==>
         refs[i].Number? && 0 <= refs[i].value < |table| && table[refs[i].value] == values[i]
  }

  lemma NamesDiffer()
    ensures DWELL_24H != DWELL_TOTAL && DWELL_24H != DWELL_24H_REF && DWELL_24H != DWELL_TOTAL_REF
    ensures DWELL_TOTAL != DWELL_24H_REF && DWELL_TOTAL != DWELL_TOTAL_REF && DWELL_24H_REF != DWELL_TOTAL_REF
    ensures LEARNING_VIEW != NORMAL_VIEW
  {
    assert |DWELL_24H| == 9 && |DWELL_TOTAL| == 11 && |DWELL_24H_REF| == 13 && |DWELL_TOTAL_REF| == 15;
    assert |LEARNING_VIEW| == 13 && |NORMAL_VIEW| == 11;
  }

  lemma SharedMember(view: map<string, Json>, table: seq<Json>, member: string, ref: string, full: seq<Json>)
    requires member != ref && ref !in view && ShareMember(view, table, member, ref).1 <= full
    ensures ShareMember(view, table, member, ref).1 == MeetAll(table, MetMember(view, member))
    ensures RestoreMember(ShareMember(view, table, member, ref).0, full, member, ref) == view
    ensures Resolves(RefsMember(ShareMember(view, table, member, ref).0, ref), MetMember(view, member), full)
    ensures forall name :: name != member && name != ref ==>
              (name in ShareMember(view, table, member, ref).0 <==> name in view)
              && (name in view ==> ShareMember(view, table, member, ref).0[name] == view[name])
  {
    var shared := ShareMember(view, table, member, ref);
    if member in view {
      assert MetMember(view, member)[1..] == [];
      assert MeetAll(Meet(table, view[member]), []) == Meet(table, view[member]);
      assert shared.0[ref] == Number(IndexOf(table, view[member]));
      assert (shared.0 - {ref})[member := view[member]] == view;
    }
  }

  /** Sharing a view: its table, its references and its restoration. */
  lemma SharedView(view: Json, table: seq<Json>, full: seq<Json>)
    requires PlainView(view) && ShareView(view, table).1 <= full
    ensures ShareView(view, table).1 == MeetAll(table, MetView(view))
    ensures RestoreView(ShareView(view, table).0, full) == view
    ensures view.Object? ==>
              var shared := ShareView(view, table).0.members;
              Resolves(RefsMember(shared, DWELL_24H_REF) + RefsMember(shared, DWELL_TOTAL_REF), MetView(view), full)
  {
    if view.Object? {
      NamesDiffer();
      var day := ShareMember(view.members, table, DWELL_24H, DWELL_24H_REF);
      var total := ShareMember(day.0, day.1, DWELL_TOTAL, DWELL_TOTAL_REF);
      MeetGrows(day.1, day.0, DWELL_TOTAL);
      SharedMember(view.members, table, DWELL_24H, DWELL_24H_REF, full);
      SharedMember(day.0, day.1, DWELL_TOTAL, DWELL_TOTAL_REF, full);
      MeetAllAppend(table, MetMember(view.members, DWELL_24H), MetMember(view.members, DWELL_TOTAL));
      assert MetMember(day.0, DWELL_TOTAL) == MetMember(view.members, DWELL_TOTAL);
      assert RefsMember(total.0, DWELL_24H_REF) == RefsMember(day.0, DWELL_24H_REF);
    }
  }

  lemma MeetGrows(table: seq<Json>, view: map<string, Json>, member: string)
    ensures member in view ==> table <= Meet(table, view[member])
  {
  }

  lemma SharedViewOf(row: map<string, Json>, table: seq<Json>, name: string, full: seq<Json>)
    requires name in row ==> PlainView(row[name])
    requires ShareViewOf(row, table, name).1 <= full
    ensures ShareViewOf(row, table, name).1 == MeetAll(table, MetViewOf(row, name))
    ensures RestoreViewOf(ShareViewOf(row, table, name).0, full, name) == row
    ensures Resolves(RefsViewOf(ShareViewOf(row, table, name).0, name), MetViewOf(row, name), full)
  {
    if name in row {
      var view := row[name];
      var shared := ShareView(view, table);
      SharedView(view, table, full);
      assert ShareViewOf(row, table, name) == (row[name := shared.0], shared.1);
      assert shared.0.Object? <==> view.Object?;
      assert row[name := shared.0][name := view] == row;
    }
  }

  lemma OtherMembersStay(row: map<string, Json>, table: seq<Json>, name: string, other: string)
    requires other != name
    ensures other in ShareViewOf(row, table, name).0 <==> other in row
    ensures other in row ==> ShareViewOf(row, table, name).0[other] == row[other]
  {
  }

  /** Sharing a row: its table, its references and its restoration, by any table that goes on from its own. */
  lemma SharedRow(row: Json, table: seq<Json>, full: seq<Json>)
    requires PlainRow(row) && ShareRow(row, table).1 <= full
    ensures ShareRow(row, table).1 == MeetAll(table, MetRow(row))
    ensures RestoreRow(ShareRow(row, table).0, full) == row
    ensures Resolves(RefsRow(ShareRow(row, table).0), MetRow(row), full)
  {
    if row.Object? {
      NamesDiffer();
      var learning := ShareViewOf(row.members, table, LEARNING_VIEW);
      var normal := ShareViewOf(learning.0, learning.1, NORMAL_VIEW);
      SharedViewOf(row.members, table, LEARNING_VIEW, learning.1);
      SharedViewOf(learning.0, learning.1, NORMAL_VIEW, full);
      OtherMembersStay(row.members, table, LEARNING_VIEW, NORMAL_VIEW);
      OtherMembersStay(learning.0, learning.1, NORMAL_VIEW, LEARNING_VIEW);
      MeetAllTable(learning.1, MetViewOf(learning.0, NORMAL_VIEW));
      SharedViewOf(row.members, table, LEARNING_VIEW, full);
      MeetAllAppend(table, MetViewOf(row.members, LEARNING_VIEW), MetViewOf(row.members, NORMAL_VIEW));
      assert MetViewOf(learning.0, NORMAL_VIEW) == MetViewOf(row.members, NORMAL_VIEW);
      assert RefsViewOf(normal.0, LEARNING_VIEW) == RefsViewOf(learning.0, LEARNING_VIEW);
      RestoreInEitherOrder(row.members, learning.0, normal.0, full);
    }
  }

  lemma RestoreInEitherOrder(row: map<string, Json>, learning: map<string, Json>, normal: map<string, Json>, full: seq<Json>)
    requires RestoreViewOf(learning, full, LEARNING_VIEW) == row
    requires RestoreViewOf(normal, full, NORMAL_VIEW) == learning
    ensures RestoreViewOf(RestoreViewOf(normal, full, LEARNING_VIEW), full, NORMAL_VIEW) == row
  {
    NamesDiffer();
    assert RestoreViewOf(RestoreViewOf(normal, full, LEARNING_VIEW), full, NORMAL_VIEW)
        == RestoreViewOf(RestoreViewOf(normal, full, NORMAL_VIEW), full, LEARNING_VIEW);
  }

  // ----- The whole status

  const HOST: string := "host"
  const INSTANCES: string := "instances"
  const DWELL: string := "dwell"

  /** The first `n` rows shared, from what the table held before them. */
  function ShareRows(rows: seq<Json>, table: seq<Json>, n: nat): (shared: (seq<Json>, seq<Json>))
    requires n <= |rows|
    ensures |shared.0| == n
  {
    if n == 0 then ([], table) else
      var before := ShareRows(rows, table, n - 1);
      var row := ShareRow(rows[n - 1], before.1);
      (before.0 + [row.0], row.1)
  }

  function RestoreRows(rows: seq<Json>, table: seq<Json>): (restored: seq<Json>)
    ensures |restored| == |rows| && forall i :: 0 <= i < |rows| ==> restored[i] == RestoreRow(rows[i], table)
  {
    seq(|rows|, i requires 0 <= i < |rows| => RestoreRow(rows[i], table))
  }

  function RefsRows(rows: seq<Json>): seq<Json> {
    if rows == [] then [] else RefsRows(rows[..|rows| - 1]) + RefsRow(rows[|rows| - 1])
  }

  lemma {:induction false} SharedRowsTable(rows: seq<Json>, start: seq<Json>, n: nat)
    requires n <= |rows| && forall i :: 0 <= i < |rows| ==> PlainRow(rows[i])
    ensures ShareRows(rows, start, n).1 == MeetAll(start, MetRows(rows[..n]))
    ensures n > 0 ==> ShareRows(rows, start, n - 1).1 <= ShareRows(rows, start, n).1
  {
    if n > 0 {
      var before := ShareRows(rows, start, n - 1);
      SharedRowsTable(rows, start, n - 1);
      SharedRow(rows[n - 1], before.1, ShareRow(rows[n - 1], before.1).1);
      MeetAllTable(before.1, MetRow(rows[n - 1]));
      MeetAllAppend(start, MetRows(rows[..n - 1]), MetRow(rows[n - 1]));
      OneMoreRow(rows, start, n);
    }
  }

  lemma ResolvesTogether(a: seq<Json>, aValues: seq<Json>, b: seq<Json>, bValues: seq<Json>, table: seq<Json>)
    requires Resolves(a, aValues, table) && Resolves(b, bValues, table)
    ensures Resolves(a + b, aValues + bValues, table)
  {
  }

  /** The references of rows shared in turn resolve in any table that goes on from theirs. */
  lemma {:induction false} SharedRowsResolve(rows: seq<Json>, start: seq<Json>, n: nat, full: seq<Json>)
    requires n <= |rows| && forall i :: 0 <= i < |rows| ==> PlainRow(rows[i])
    requires ShareRows(rows, start, n).1 <= full
    ensures Resolves(RefsRows(ShareRows(rows, start, n).0), MetRows(rows[..n]), full)
  {
    if n > 0 {
      var before := ShareRows(rows, start, n - 1);
      SharedRowsTable(rows, start, n);
      SharedRowsResolve(rows, start, n - 1, full);
      SharedRow(rows[n - 1], before.1, full);
      OneMoreRow(rows, start, n);
      ResolvesTogether(RefsRows(before.0), MetRows(rows[..n - 1]),
                       RefsRow(ShareRow(rows[n - 1], before.1).0), MetRow(rows[n - 1]), full);
    }
  }

  /** And each of them is restored by it. */
  lemma {:induction false} SharedRowRestores(rows: seq<Json>, start: seq<Json>, n: nat, full: seq<Json>, i: nat)
    requires i < n <= |rows| && forall k :: 0 <= k < |rows| ==> PlainRow(rows[k])
    requires ShareRows(rows, start, n).1 <= full
    ensures RestoreRow(ShareRows(rows, start, n).0[i], full) == rows[i]
    decreases n
  {
    SharedRowsTable(rows, start, n);
    if i == n - 1 {
      SharedRow(rows[i], ShareRows(rows, start, i).1, full);
    } else {
      SharedRowRestores(rows, start, n - 1, full, i);
    }
  }

  lemma SharedRowsRestore(rows: seq<Json>, start: seq<Json>, full: seq<Json>)
    requires forall i :: 0 <= i < |rows| ==> PlainRow(rows[i])
    requires ShareRows(rows, start, |rows|).1 <= full
    ensures RestoreRows(ShareRows(rows, start, |rows|).0, full) == rows
  {
    forall i | 0 <= i < |rows| ensures RestoreRows(ShareRows(rows, start, |rows|).0, full)[i] == rows[i] {
      SharedRowRestores(rows, start, |rows|, full, i);
    }
  }

  lemma OneMoreRow(rows: seq<Json>, start: seq<Json>, n: nat)
    requires 0 < n <= |rows|
    ensures RefsRows(ShareRows(rows, start, n).0)
         == RefsRows(ShareRows(rows, start, n - 1).0) + RefsRow(ShareRow(rows[n - 1], ShareRows(rows, start, n - 1).1).0)
    ensures MetRows(rows[..n]) == MetRows(rows[..n - 1]) + MetRow(rows[n - 1])
  {
    var before := ShareRows(rows, start, n - 1);
    assert ShareRows(rows, start, n).0[..n - 1] == before.0;
    assert rows[..n][..n - 1] == rows[..n - 1];
  }

  predicate HasHost(status: Json) {
    status.Object? && HOST in status.members
  }

  predicate HasInstances(status: Json) {
    status.Object? && INSTANCES in status.members && status.members[INSTANCES].List?
  }

  function RowsOf(status: Json): seq<Json> {
    if HasInstances(status) then status.members[INSTANCES].items else []
  }

  function HostOf(status: Json): seq<Json> {
    if HasHost(status) then [status.members[HOST]] else []
  }

  /** The dwell values of a status in the order they are met: the host row's, then each instance row's. */
  function Met(status: Json): seq<Json> {
    MetRows(HostOf(status)) + MetRows(RowsOf(status))
  }

  /** The references of an answer, in the same order. */
  function Refs(answer: Json): seq<Json> {
    RefsRows(HostOf(answer)) + RefsRows(RowsOf(answer))
  }

  function TableOf(answer: Json): seq<Json> {
    if answer.Object? && DWELL in answer.members && answer.members[DWELL].List? then answer.members[DWELL].items else []
  }

  /** A status with these rows in place of its own, and nothing else changed. */
  function WithRows(status: Json, host: seq<Json>, rows: seq<Json>): map<string, Json>
    requires status.Object? && |host| == |HostOf(status)|
  {
    var members := if HasHost(status) then status.members[HOST := host[0]] else status.members;
    if HasInstances(status) then members[INSTANCES := List(rows)] else members
  }

  /** The answer: the rows shared, the host's first, and the table beside them. */
  function Answer(status: Json): Json
    requires status.Object?
  {
    var host := ShareRows(HostOf(status), [], |HostOf(status)|);
    var rows := ShareRows(RowsOf(status), host.1, |RowsOf(status)|);
    Object(WithRows(status, host.0, rows.0)[DWELL := List(rows.1)])
  }

  /** Each reference replaced by its entry, and the table taken away. */
  function Restore(answer: Json): Json {
    if !answer.Object? then answer else
      var table := TableOf(answer);
      Object(WithRows(answer, RestoreRows(HostOf(answer), table), RestoreRows(RowsOf(answer), table)) - {DWELL})
  }

  /** As the status's type has it: an object without a table or references of its own. */
  ghost predicate PlainStatus(status: Json) {
    && status.Object? && DWELL !in status.members
    && (forall i :: 0 <= i < |HostOf(status)| ==> PlainRow(HostOf(status)[i]))
    && (forall i :: 0 <= i < |RowsOf(status)| ==> PlainRow(RowsOf(status)[i]))
  }

  /** The rows of a list, each shared in turn. */
  method ShareEach(rows: seq<Json>, table: seq<Json>) returns (shared: seq<Json>, grown: seq<Json>)
    ensures (shared, grown) == ShareRows(rows, table, |rows|)
  {
    shared, grown := [], table;
    while |shared| < |rows|
      invariant |shared| <= |rows|
      invariant (shared, grown) == ShareRows(rows, table, |shared|)
    {
      var row := ShareRow(rows[|shared|], grown);
      shared, grown := shared + [row.0], row.1;
    }
  }

  /** `performance_answer`. */
  method PerformanceAnswer(status: Json) returns (answer: Json)
    requires status.Object?
    ensures answer == Answer(status)
  {
    NamesOfStatusDiffer();
    var members := status.members;
    var table: seq<Json> := [];
    if HOST in members {
      var host;
      host, table := ShareEach([members[HOST]], table);
      members := members[HOST := host[0]];
    }
    if INSTANCES in members && members[INSTANCES].List? {
      var rows;
      rows, table := ShareEach(members[INSTANCES].items, table);
      members := members[INSTANCES := List(rows)];
    }
    answer := Object(members[DWELL := List(table)]);
  }

  lemma NamesOfStatusDiffer()
    ensures HOST != INSTANCES && HOST != DWELL && INSTANCES != DWELL
  {
    assert |HOST| == 4 && |INSTANCES| == 9 && |DWELL| == 5;
  }

  /** The rows and the table of an answer are those shared. */
  lemma AnswerParts(status: Json)
    requires status.Object?
    ensures var host := ShareRows(HostOf(status), [], |HostOf(status)|);
            var rows := ShareRows(RowsOf(status), host.1, |RowsOf(status)|);
            HostOf(Answer(status)) == host.0 && RowsOf(Answer(status)) == rows.0 && TableOf(Answer(status)) == rows.1
  {
    NamesOfStatusDiffer();
  }

  /**
   Sharing is lossless: replacing each reference by its entry restores the status, and each reference is
   the index of the value it stands for.
   */
  lemma AnswerRestores(status: Json)
    requires PlainStatus(status)
    ensures Restore(Answer(status)) == status
    ensures TableOf(Answer(status)) == MeetAll([], Met(status))
    ensures Resolves(Refs(Answer(status)), Met(status), TableOf(Answer(status)))
  {
    var answer := Answer(status);
    var h, r := HostOf(status), RowsOf(status);
    var host := ShareRows(h, [], |h|);
    var rows := ShareRows(r, host.1, |r|);
    AnswerParts(status);
    assert h[..|h|] == h && r[..|r|] == r;
    SharedRowsTable(h, [], |h|);
    SharedRowsTable(r, host.1, |r|);
    MeetAllTable(host.1, MetRows(r));
    MeetAllAppend([], MetRows(h), MetRows(r));
    SharedRowsResolve(r, host.1, |r|, rows.1);
    SharedRowsResolve(h, [], |h|, rows.1);
    SharedRowsRestore(r, host.1, rows.1);
    SharedRowsRestore(h, [], rows.1);
    PutBack(status, host.0, rows.0, rows.1);
  }

  lemma PutBack(status: Json, host: seq<Json>, rows: seq<Json>, table: seq<Json>)
    requires status.Object? && DWELL !in status.members
    requires |host| == |HostOf(status)| && |rows| == |RowsOf(status)|
    requires RestoreRows(host, table) == HostOf(status) && RestoreRows(rows, table) == RowsOf(status)
    ensures Restore(Object(WithRows(status, host, rows)[DWELL := List(table)])) == status
  {
    NamesOfStatusDiffer();
    var answer := Object(WithRows(status, host, rows)[DWELL := List(table)]);
    assert HostOf(answer) == host && RowsOf(answer) == rows;
    assert Restore(answer).members == status.members;
  }

  /** The table repeats no value and holds no entry that nothing refers to. */
  lemma TableIsMinimal(status: Json)
    requires PlainStatus(status)
    ensures NoRepeats(TableOf(Answer(status)))
    ensures forall j :: 0 <= j < |TableOf(Answer(status))| ==> Number(j) in Refs(Answer(status))
  {
    var refs, met, table := Refs(Answer(status)), Met(status), TableOf(Answer(status));
    AnswerRestores(status);
    MeetAllTable([], met);
    forall j | 0 <= j < |table| ensures Number(j) in refs {
      assert table[j] in met;
      var k :| 0 <= k < |met| && met[k] == table[j];
      assert refs[k] == Number(j);
    }
  }
}
