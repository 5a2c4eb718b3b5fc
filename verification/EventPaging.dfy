/**
 Going on after a page of events. A page is cut by the ledger and may be cut again to the rows an
 output budget keeps; the caller goes on from the page's cursor at the same snapshot (`events`,
 `ac_events`, a diagnosis's errors page), or from the sequence of the last row it saw, at whatever the
 ledger has become (`after_sequence`).
 */
module EventPaging {
  import opened Wrappers
  import opened LedgerPages

  /** A page as answered: its rows, whether more remain, and the sequence its cursor goes on after. */
  datatype Answer = Answer(rows: seq<Row>, more: bool, truncated: bool, next: Option<nat>)

  /** `page` with its first `kept` rows. A cut page goes on after its last row kept. */
  function CutPage(page: Page, kept: nat): (answer: Answer)
    requires kept <= |page.rows|
    ensures !answer.more ==> answer.rows == page.rows && page.next.None?
    ensures answer.more && answer.rows != [] ==> answer.next.Some?
  {
    var truncated := kept < |page.rows|;
    Answer(
      page.rows[..kept],
      truncated || page.next.Some?,
      truncated,
      if !truncated then page.next else if kept == 0 then None else Some(page.rows[kept - 1].sequence))
  }

  /** `Diagnosis::errors_page`: a page with a task filter is not one `events` can continue. */
  function ErrorsPage(page: Page, continuable: bool, kept: nat): Answer
    requires kept <= |page.rows|
  {
    var answer := CutPage(page, kept);
    if continuable then answer else answer.(next := None)
  }

  /** The rows of an answer are all those up to where it goes on, or up to the snapshot when it does not. */
  ghost predicate Lossless(q: Query, ledger: seq<Event>, after: nat, snapshot: nat, answer: Answer)
    requires snapshot <= |ledger|
  {
    var lo := LowestWanted(q, after);
    && (answer.next.None? ==> answer.rows == Rows(q, ledger, lo, snapshot))
    && (answer.next.Some? ==>
          && after < answer.next.value <= snapshot && lo <= answer.next.value + 1
          && answer.rows == Rows(q, ledger, lo, answer.next.value))
  }

  lemma CutPageIsLossless(q: Query, ledger: seq<Event>, after: nat, page: Page, kept: nat)
    requires PageHonest(q, ledger, after, page)
    requires kept <= |page.rows| && (kept >= 1 || page.rows == [])
    ensures Lossless(q, ledger, after, page.snapshot, CutPage(page, kept))
  {
    var lo := LowestWanted(q, after);
    if kept < |page.rows| {
      RowsTake(q, ledger, lo, if page.next.Some? then page.next.value else page.snapshot, kept);
    } else {
      assert page.rows[..kept] == page.rows;
    }
  }

  /**
   An errors page that `events` can continue loses nothing exactly when it keeps a row or had none: a
   page cut to no row names no place to go on from, though it says `more`.
   */
  lemma ErrorsPageContinuesIff(q: Query, ledger: seq<Event>, after: nat, page: Page, kept: nat)
    requires PageHonest(q, ledger, after, page) && kept <= |page.rows|
    ensures Lossless(q, ledger, after, page.snapshot, ErrorsPage(page, true, kept))
       <==> kept >= 1 || page.rows == []
    ensures kept == 0 && page.rows != [] ==>
              ErrorsPage(page, true, kept).more && ErrorsPage(page, true, kept).next.None?
    ensures ErrorsPage(page, false, kept).next.None?
  {
    var lo := LowestWanted(q, after);
    if kept >= 1 || page.rows == [] {
      CutPageIsLossless(q, ledger, after, page, kept);
    } else if page.next.Some? {
      RowsSplit(q, ledger, lo, page.next.value, page.snapshot);
    }
  }

  // ----- Following a page's cursor at its snapshot

  /** One call: what cuts the page it is served, and how many of its rows the output budget keeps. */
  datatype Call = Call(cuts: Cuts, kept: nat)

  /** What a caller has seen: every row so far, and where it goes on (`None` once told nothing remains). */
  datatype Seen = Seen(rows: seq<Row>, next: Option<nat>)

  function Kept(page: Page, call: Call): (kept: nat)
    ensures kept <= |page.rows|
  {
    if call.kept < |page.rows| then call.kept else |page.rows|
  }

  /** The calls of one caller that goes on from each cursor; `None` when a page cannot be answered. */
  function FollowCursors(q: Query, ledger: seq<Event>, snapshot: nat, after: nat, calls: seq<Call>): Option<Seen>
    requires snapshot <= |ledger|
    requires forall i :: 0 <= i < |calls| ==> calls[i].cuts.limit >= 1
    decreases |calls|
  {
    if calls == [] then Some(Seen([], Some(after))) else
    match ServePage(q, ledger, snapshot, after, calls[0].cuts)
    case None => None
    case Some(page) =>
      var answer := CutPage(page, Kept(page, calls[0]));
      if answer.next.None? then Some(Seen(answer.rows, None)) else
      match FollowCursors(q, ledger, snapshot, answer.next.value, calls[1..])
      case None => None
      case Some(seen) => Some(Seen(answer.rows + seen.rows, seen.next))
  }

  /**
   Following cursors sees every row once, in order: all those up to where the caller goes on, and the
   whole view of the snapshot once no cursor is given. Each call that is given a cursor moves on.
   */
  lemma {:induction false} FollowingLosesNothing(q: Query, ledger: seq<Event>, snapshot: nat, after: nat, calls: seq<Call>)
    requires snapshot <= |ledger|
    requires forall i :: 0 <= i < |calls| ==> calls[i].cuts.limit >= 1 && calls[i].kept >= 1
    ensures var seen := FollowCursors(q, ledger, snapshot, after, calls);
            && (seen.Some? && seen.value.next.None? ==> seen.value.rows == Rows(q, ledger, LowestWanted(q, after), snapshot))
            && (seen.Some? && seen.value.next.Some? && calls != [] ==>
                  && after + |calls| <= seen.value.next.value <= snapshot
                  && seen.value.rows == Rows(q, ledger, LowestWanted(q, after), seen.value.next.value))
    decreases |calls|
  {
    if calls != [] {
      var served := ServePage(q, ledger, snapshot, after, calls[0].cuts);
      if served.Some? {
        ServedPageIsHonest(q, ledger, snapshot, after, calls[0].cuts);
        FollowingGoesOn(q, ledger, snapshot, after, calls, served.value);
      }
    }
  }

  lemma {:induction false} FollowingGoesOn(q: Query, ledger: seq<Event>, snapshot: nat, after: nat, calls: seq<Call>, page: Page)
    requires snapshot <= |ledger| && calls != []
    requires forall i :: 0 <= i < |calls| ==> calls[i].cuts.limit >= 1 && calls[i].kept >= 1
    requires ServePage(q, ledger, snapshot, after, calls[0].cuts) == Some(page)
    requires PageHonest(q, ledger, after, page)
    ensures var seen := FollowCursors(q, ledger, snapshot, after, calls);
            && (seen.Some? && seen.value.next.None? ==> seen.value.rows == Rows(q, ledger, LowestWanted(q, after), snapshot))
            && (seen.Some? && seen.value.next.Some? ==>
                  && after + |calls| <= seen.value.next.value <= snapshot
                  && seen.value.rows == Rows(q, ledger, LowestWanted(q, after), seen.value.next.value))
    decreases |calls|, 0
  {
    var lo := LowestWanted(q, after);
    var answer := CutPage(page, Kept(page, calls[0]));
    CutPageIsLossless(q, ledger, after, page, Kept(page, calls[0]));
    if answer.next.Some? {
      var goneOn := answer.next.value;
      FollowingLosesNothing(q, ledger, snapshot, goneOn, calls[1..]);
      var seen := FollowCursors(q, ledger, snapshot, goneOn, calls[1..]);
      assert LowestWanted(q, goneOn) == goneOn + 1;
      if seen.Some? {
        RowsSplit(q, ledger, lo, goneOn, if seen.value.next.Some? then seen.value.next.value else snapshot);
      }
    }
  }

  // ----- Following the last row seen while the ledger grows

  /** One call: the ledger as it then was, the page it was answered, and how many of its rows were kept. */
  datatype Visit = Visit(ledger: seq<Event>, page: Page, kept: nat)

  function RowsOf(visit: Visit): seq<Row> {
    visit.page.rows[..if visit.kept < |visit.page.rows| then visit.kept else |visit.page.rows|]
  }

  /** `last_sequence`, or where the caller was when the answer has no row. */
  function LastSequence(visit: Visit, after: nat): nat {
    var rows := RowsOf(visit);
    if rows == [] then after else rows[|rows| - 1].sequence
  }

  /** The calls of one caller that passes each `last_sequence` on as `after_sequence`, while the ledger grows up to `last`. */
  ghost predicate VisitsFrom(q: Query, after: nat, visits: seq<Visit>, last: seq<Event>)
    decreases |visits|
  {
    visits == [] ||
    (&& visits[0].ledger <= (if |visits| > 1 then visits[1].ledger else last)
     && PageHonest(q.(from := Some(after + 1)), visits[0].ledger, 0, visits[0].page)
     && VisitsFrom(q, LastSequence(visits[0], after), visits[1..], last))
  }

  function RowsOfAll(visits: seq<Visit>): seq<Row> {
    if visits == [] then [] else RowsOf(visits[0]) + RowsOfAll(visits[1..])
  }

  function LastOfAll(visits: seq<Visit>, after: nat): nat
    decreases |visits|
  {
    if visits == [] then after else LastOfAll(visits[1..], LastSequence(visits[0], after))
  }

  /** The rows from after `after` up to `upTo`; none when nothing was seen past `after`. */
  ghost predicate SeenUpTo(q: Query, ledger: seq<Event>, after: nat, rows: seq<Row>, upTo: nat) {
    || (upTo == after && rows == [])
    || (after < upTo <= |ledger| && rows == Rows(q, ledger, after + 1, upTo))
  }

  lemma OneVisit(q: Query, after: nat, visit: Visit, last: seq<Event>)
    requires q.from.None? && visit.ledger <= last
    requires PageHonest(q.(from := Some(after + 1)), visit.ledger, 0, visit.page)
    ensures SeenUpTo(q, last, after, RowsOf(visit), LastSequence(visit, after))
  {
    var asked := q.(from := Some(after + 1));
    var k := |RowsOf(visit)|;
    if k > 0 {
      var page := visit.page;
      RowsTake(asked, visit.ledger, after + 1, if page.next.Some? then page.next.value else page.snapshot, k);
      RowsAgree(asked, q, visit.ledger, last, after + 1, page.rows[k - 1].sequence);
    }
  }

  lemma SeenInTwoParts(q: Query, ledger: seq<Event>, after: nat, rows: seq<Row>, goneOn: nat, later: seq<Row>, upTo: nat)
    requires SeenUpTo(q, ledger, after, rows, goneOn) && SeenUpTo(q, ledger, goneOn, later, upTo)
    ensures SeenUpTo(q, ledger, after, rows + later, upTo)
  {
    if after < goneOn < upTo {
      RowsSplit(q, ledger, after + 1, goneOn, upTo);
    }
  }

  /** However the ledger grows between the calls, each wanted event up to the last one seen is seen once. */
  lemma {:induction false} FollowingLastRowSeesEachOnce(q: Query, after: nat, visits: seq<Visit>, last: seq<Event>)
    requires q.from.None? && VisitsFrom(q, after, visits, last)
    ensures visits != [] ==> visits[0].ledger <= last
    ensures SeenUpTo(q, last, after, RowsOfAll(visits), LastOfAll(visits, after))
    decreases |visits|
  {
    if visits != [] {
      var goneOn := LastSequence(visits[0], after);
      FollowingLastRowSeesEachOnce(q, goneOn, visits[1..], last);
      OneVisit(q, after, visits[0], last);
      SeenInTwoParts(q, last, after, RowsOf(visits[0]), goneOn, RowsOfAll(visits[1..]), LastOfAll(visits[1..], goneOn));
    }
  }

  /** A call moves its caller on exactly when a row is kept; one whose page the budget cut before any row leaves it where it was. */
  lemma MovesOnIff(q: Query, after: nat, visit: Visit)
    requires PageHonest(q.(from := Some(after + 1)), visit.ledger, 0, visit.page)
    ensures LastSequence(visit, after) > after <==> visit.kept > 0 && visit.page.rows != []
    ensures visit.page.rows == [] ==> LastSequence(visit, after) == after && (visit.page.next.Some? ==> visit.page.next.value >= after)
  {
    var rows := RowsOf(visit);
    assert rows != [] ==> rows[|rows| - 1] == visit.page.rows[|rows| - 1];
  }

  /** The last call was answered the ledger's end: no cursor, and every row kept. */
  ghost predicate EndsComplete(visits: seq<Visit>) {
    visits != [] &&
      var last := visits[|visits| - 1];
      last.page.next.None? && last.kept >= |last.page.rows| && last.page.snapshot == |last.ledger|
  }

  lemma CompleteVisit(q: Query, after: nat, visit: Visit, last: seq<Event>)
    requires q.from.None? && visit.ledger <= last && EndsComplete([visit])
    requires PageHonest(q.(from := Some(after + 1)), visit.ledger, 0, visit.page)
    ensures RowsOf(visit) == Rows(q, last, after + 1, |visit.ledger|)
  {
    assert RowsOf(visit) == visit.page.rows;
    RowsAgree(q.(from := Some(after + 1)), q, visit.ledger, last, after + 1, |visit.ledger|);
  }

  /** Then nothing is left unseen: the calls together saw every wanted event up to the end of the last one's ledger, each once. */
  lemma {:induction false} CompleteFollowingSeesAll(q: Query, after: nat, visits: seq<Visit>, last: seq<Event>)
    requires q.from.None? && VisitsFrom(q, after, visits, last) && EndsComplete(visits)
    ensures |visits[|visits| - 1].ledger| <= |last| && visits[0].ledger <= last
    ensures RowsOfAll(visits) == Rows(q, last, after + 1, |visits[|visits| - 1].ledger|)
    decreases |visits|
  {
    var end := |visits[|visits| - 1].ledger|;
    if |visits| == 1 {
      CompleteVisit(q, after, visits[0], last);
      assert RowsOfAll(visits) == RowsOf(visits[0]) + [];
    } else {
      var goneOn := LastSequence(visits[0], after);
      assert visits[1..][|visits| - 2] == visits[|visits| - 1];
      CompleteFollowingSeesAll(q, goneOn, visits[1..], last);
      OneVisit(q, after, visits[0], last);
      LedgersGrow(q, goneOn, visits[1..], last);
      if after < goneOn {
        SeenWasThere(q, after, visits[0]);
      }
      SeenThenAll(q, last, after, RowsOf(visits[0]), goneOn, end);
    }
  }

  lemma SeenThenAll(q: Query, ledger: seq<Event>, after: nat, rows: seq<Row>, goneOn: nat, end: nat)
    requires SeenUpTo(q, ledger, after, rows, goneOn) && end <= |ledger| && (goneOn == after || goneOn <= end)
    ensures rows + Rows(q, ledger, goneOn + 1, end) == Rows(q, ledger, after + 1, end)
  {
    if after < goneOn {
      RowsSplit(q, ledger, after + 1, goneOn, end);
    }
  }

  lemma SeenWasThere(q: Query, after: nat, visit: Visit)
    requires PageHonest(q.(from := Some(after + 1)), visit.ledger, 0, visit.page) && LastSequence(visit, after) > after
    ensures LastSequence(visit, after) <= |visit.ledger|
  {
    var rows := RowsOf(visit);
    assert rows[|rows| - 1] == visit.page.rows[|rows| - 1];
  }

  lemma {:induction false} LedgersGrow(q: Query, after: nat, visits: seq<Visit>, last: seq<Event>)
    requires VisitsFrom(q, after, visits, last) && visits != []
    ensures visits[0].ledger <= visits[|visits| - 1].ledger
    decreases |visits|
  {
    if |visits| > 1 {
      LedgersGrow(q, LastSequence(visits[0], after), visits[1..], last);
    }
  }
}
