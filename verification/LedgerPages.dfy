/**
 Reading a ledger page by page while it keeps growing: the page the ledger serves (cut by its row
 count, its bytes, the read budget or the read of the relations its rows need), and the reader that
 follows pages up to its first snapshot (`read_pages`).
 */
module LedgerPages {
  import opened Wrappers

  const MAX_RUNTIME_EVENT_QUERY_EVENTS: nat := 256

  /** One ledger event, as far as a query tells events apart. */
  datatype Event = Event(eventType: string, severity: nat, instance: Option<nat>, task: Option<nat>, code: string)

  /** The event at sequence `s` is `ledger[s - 1]`; the ledger position of a snapshot is its length. */
  datatype Row = Row(sequence: nat, event: Event)

  datatype Query = Query(matches: Event -> bool, from: Option<nat>, to: Option<nat>)

  predicate Wants(q: Query, sequence: nat, event: Event) {
    && q.matches(event)
    && (q.from.Some? ==> q.from.value <= sequence)
    && (q.to.Some? ==> sequence <= q.to.value)
  }

  /** Every row `q` wants with a sequence from `lo` to `hi`, oldest first. */
  function Rows(q: Query, ledger: seq<Event>, lo: nat, hi: nat): (rows: seq<Row>)
    requires hi <= |ledger|
    ensures forall i :: 0 <= i < |rows| ==> lo <= rows[i].sequence <= hi && rows[i].sequence >= 1
    ensures forall i :: 0 <= i < |rows| ==> rows[i].event == ledger[rows[i].sequence - 1] && Wants(q, rows[i].sequence, rows[i].event)
    ensures forall i, j :: 0 <= i < j < |rows| ==> rows[i].sequence < rows[j].sequence
  {
    if hi == 0 || hi < lo then [] else
      Rows(q, ledger, lo, hi - 1) + if Wants(q, hi, ledger[hi - 1]) then [Row(hi, ledger[hi - 1])] else []
  }

  /** No wanted row is missing from `Rows`. */
  lemma {:induction false} RowsComplete(q: Query, ledger: seq<Event>, lo: nat, hi: nat, s: nat)
    requires hi <= |ledger|
    requires 1 <= s && lo <= s <= hi && Wants(q, s, ledger[s - 1])
    ensures Row(s, ledger[s - 1]) in Rows(q, ledger, lo, hi)
  {
    if s < hi {
      RowsComplete(q, ledger, lo, hi - 1, s);
    }
  }

  lemma {:induction false} RowsSplit(q: Query, ledger: seq<Event>, lo: nat, mid: nat, hi: nat)
    requires lo <= mid + 1 && mid <= hi <= |ledger|
    ensures Rows(q, ledger, lo, hi) == Rows(q, ledger, lo, mid) + Rows(q, ledger, mid + 1, hi)
    decreases hi
  {
    if mid < hi {
      RowsSplit(q, ledger, lo, mid, hi - 1);
    }
  }

  lemma {:induction false} RowsAgree(q: Query, r: Query, ledger: seq<Event>, longer: seq<Event>, lo: nat, hi: nat)
    requires hi <= |ledger| && hi <= |longer| && ledger[..hi] == longer[..hi]
    requires forall s, e :: lo <= s <= hi && s >= 1 ==> (Wants(q, s, e) <==> Wants(r, s, e))
    ensures Rows(q, ledger, lo, hi) == Rows(r, longer, lo, hi)
    decreases hi
  {
    if 0 < hi && lo <= hi {
      assert ledger[..hi - 1] == ledger[..hi][..hi - 1] == longer[..hi][..hi - 1] == longer[..hi - 1];
      assert ledger[hi - 1] == ledger[..hi][hi - 1] == longer[..hi][hi - 1] == longer[hi - 1];
      RowsAgree(q, r, ledger, longer, lo, hi - 1);
    }
  }

  /** The first rows of a page are the rows up to the last of them. */
  lemma {:induction false} RowsTake(q: Query, ledger: seq<Event>, lo: nat, hi: nat, k: nat)
    requires hi <= |ledger|
    requires 0 < k <= |Rows(q, ledger, lo, hi)|
    ensures lo <= Rows(q, ledger, lo, hi)[k - 1].sequence <= hi
    ensures Rows(q, ledger, lo, hi)[..k] == Rows(q, ledger, lo, Rows(q, ledger, lo, hi)[k - 1].sequence)
    decreases hi
  {
    var rows := Rows(q, ledger, lo, hi);
    if rows[k - 1].sequence < hi {
      RowsTake(q, ledger, lo, hi - 1, k);
      assert rows[..k] == Rows(q, ledger, lo, hi - 1)[..k];
    } else {
      assert k == |rows|;
    }
  }

  /** Past its last wanted sequence a query has no row. */
  lemma {:induction false} RowsBeyond(q: Query, ledger: seq<Event>, lo: nat, hi: nat)
    requires hi <= |ledger|
    requires q.to.Some? && q.to.value < lo
    ensures Rows(q, ledger, lo, hi) == []
    decreases hi
  {
    if 0 < hi && lo <= hi {
      RowsBeyond(q, ledger, lo, hi - 1);
    }
  }

  // ----- The page the ledger serves

  /** `next` is where the page's cursor goes on; a page with more always has one. */
  datatype Page = Page(rows: seq<Row>, snapshot: nat, next: Option<nat>)

  /**
   What cuts a page: its row limit; the sequence after which its selection stops, the read budget being spent; a row
   whose relations the page has to read first and is cut off from; and how many rows the response has bytes for.
   */
  datatype Cuts = Cuts(limit: nat, goesOn: nat -> bool, unrelated: nat -> bool, encodable: nat)

  function Min(a: nat, b: nat): nat { if a <= b then a else b }

  function LowestWanted(q: Query, after: nat): nat {
    if q.from.Some? && q.from.value > after + 1 then q.from.value else after + 1
  }

  /** The last sequence a page at `snapshot` looks at. */
  function PageEnd(q: Query, snapshot: nat): (end: nat)
    ensures end <= snapshot
  {
    if q.to.Some? then Min(q.to.value, snapshot) else snapshot
  }

  /**
   What a selection found: its rows, with one more when the page is full, the last sequence it examined, and whether it
   was stopped there.
   */
  datatype Selection = Selected(rows: seq<Row>, upTo: nat, stopped: bool) | Refused

  function StopOf(selection: Selection): Option<nat>
    requires selection.Selected?
  {
    if selection.stopped then Some(selection.upTo) else None
  }

  /**
   The selection from `s` on, with the rows before it. A row of the page that is cut off from its relations ends the
   page before it, and a page that could then not go on past its cursor `after` is refused.
   */
  function Select(q: Query, ledger: seq<Event>, cuts: Cuts, after: nat, s: nat, end: nat, selected: seq<Row>): Selection
    requires 1 <= s && end <= |ledger|
    decreases end + 1 - s
  {
    if s > end then Selected(selected, end, false)
    else if !Wants(q, s, ledger[s - 1]) then
      if cuts.goesOn(s) then Select(q, ledger, cuts, after, s + 1, end, selected) else Selected(selected, s, true)
    else if |selected| < cuts.limit && cuts.unrelated(s) then
      if s - 1 > after then Selected(selected, s - 1, true) else Refused
    else
      var more := selected + [Row(s, ledger[s - 1])];
      if |more| > cuts.limit then Selected(more, s, false)
      else if cuts.goesOn(s) then Select(q, ledger, cuts, after, s + 1, end, more)
      else Selected(more, s, true)
  }

  /** The page after `after` at `snapshot`; `None` when it is refused or not even one of its rows fits the response. */
  function ServePage(q: Query, ledger: seq<Event>, snapshot: nat, after: nat, cuts: Cuts): (page: Option<Page>)
    requires snapshot <= |ledger| && cuts.limit >= 1
    ensures page.Some? ==> page.value.snapshot == snapshot && |page.value.rows| <= cuts.limit
  {
    var selection := Select(q, ledger, cuts, after, LowestWanted(q, after), PageEnd(q, snapshot), []);
    if selection.Refused? then None else
    var all := selection.rows;
    var rows := all[..Min(Min(|all|, cuts.limit), cuts.encodable)];
    if all != [] && rows == [] then None
    else Some(Page(rows, snapshot, if |rows| < |all| then Some(rows[|rows| - 1].sequence) else StopOf(selection)))
  }

  /**
   A page skips nothing: up to the position its cursor goes on from, or to its snapshot when it has none, it holds
   every wanted row. Its cursor is past the one it was asked with and within the bounds of the query, though it may
   be just before the first sequence the query wants.
   */
  ghost predicate PageHonest(q: Query, ledger: seq<Event>, after: nat, page: Page) {
    var lo := LowestWanted(q, after);
    && page.snapshot <= |ledger|
    && (page.next.None? ==> page.rows == Rows(q, ledger, lo, page.snapshot))
    && (page.next.Some? ==>
          && after < page.next.value <= PageEnd(q, page.snapshot) && lo <= page.next.value + 1
          && page.rows == Rows(q, ledger, lo, page.next.value))
  }

  /** A selection holds every wanted row up to where it came, which is its end unless it was stopped or is full. */
  ghost predicate SelectionHonest(q: Query, ledger: seq<Event>, after: nat, lo: nat, end: nat, limit: nat, r: Selection)
    requires end <= |ledger|
  {
    r.Selected? ==>
      && r.upTo <= end && r.rows == Rows(q, ledger, lo, r.upTo) && |r.rows| <= limit + 1
      && (r.stopped ==> after < r.upTo && lo <= r.upTo + 1 && |r.rows| <= limit)
      && (!r.stopped && |r.rows| <= limit ==> r.upTo == end)
  }

  /** The rows up to `s`, given those before it. */
  function WithNext(q: Query, ledger: seq<Event>, s: nat, selected: seq<Row>): seq<Row>
    requires 1 <= s <= |ledger|
  {
    if Wants(q, s, ledger[s - 1]) then selected + [Row(s, ledger[s - 1])] else selected
  }

  lemma RowsWithNext(q: Query, ledger: seq<Event>, lo: nat, s: nat)
    requires 1 <= s <= |ledger| && lo <= s
    ensures Rows(q, ledger, lo, s) == WithNext(q, ledger, s, Rows(q, ledger, lo, s - 1))
  {
  }

  lemma {:induction false} SelectionIsHonest(q: Query, ledger: seq<Event>, cuts: Cuts, after: nat, lo: nat, s: nat,
                                             end: nat, selected: seq<Row>)
    requires after < lo <= s <= end + 1 && end <= |ledger|
    requires |selected| <= cuts.limit && selected == Rows(q, ledger, lo, s - 1)
    ensures SelectionHonest(q, ledger, after, lo, end, cuts.limit, Select(q, ledger, cuts, after, s, end, selected))
    decreases end + 1 - s
  {
    if s <= end {
      RowsWithNext(q, ledger, lo, s);
      if |WithNext(q, ledger, s, selected)| <= cuts.limit {
        SelectionIsHonest(q, ledger, cuts, after, lo, s + 1, end, WithNext(q, ledger, s, selected));
      }
    }
  }

  lemma RowsToEnd(q: Query, ledger: seq<Event>, lo: nat, snapshot: nat)
    requires snapshot <= |ledger|
    ensures Rows(q, ledger, lo, PageEnd(q, snapshot)) == Rows(q, ledger, lo, snapshot)
  {
    var end := PageEnd(q, snapshot);
    if end < snapshot {
      if lo <= end + 1 {
        RowsSplit(q, ledger, lo, end, snapshot);
        RowsBeyond(q, ledger, end + 1, snapshot);
      } else {
        RowsBeyond(q, ledger, lo, snapshot);
      }
    }
  }

  /** So a page of its first rows is honest. */
  lemma CutSelectionIsHonest(q: Query, ledger: seq<Event>, snapshot: nat, after: nat, limit: nat, r: Selection, k: nat)
    requires snapshot <= |ledger| && r.Selected?
    requires SelectionHonest(q, ledger, after, LowestWanted(q, after), PageEnd(q, snapshot), limit, r)
    requires if k == |r.rows| then k <= limit else 0 < k < |r.rows|
    ensures
      var next := if k < |r.rows| then Some(r.rows[k - 1].sequence) else StopOf(r);
      PageHonest(q, ledger, after, Page(r.rows[..k], snapshot, next))
  {
    if k < |r.rows| {
      RowsTake(q, ledger, LowestWanted(q, after), r.upTo, k);
    } else {
      assert r.rows[..k] == r.rows;
      RowsToEnd(q, ledger, LowestWanted(q, after), snapshot);
    }
  }

  /** Whatever cuts it, a served page is honest. */
  lemma ServedPageIsHonest(q: Query, ledger: seq<Event>, snapshot: nat, after: nat, cuts: Cuts)
    requires snapshot <= |ledger| && cuts.limit >= 1
    ensures var page := ServePage(q, ledger, snapshot, after, cuts);
            page.Some? ==> PageHonest(q, ledger, after, page.value)
  {
    var lo, end := LowestWanted(q, after), PageEnd(q, snapshot);
    if lo <= end {
      SelectionIsHonest(q, ledger, cuts, after, lo, lo, end, []);
    }
    if ServePage(q, ledger, snapshot, after, cuts).Some? {
      var selection := Select(q, ledger, cuts, after, lo, end, []);
      var k := Min(Min(|selection.rows|, cuts.limit), cuts.encodable);
      CutSelectionIsHonest(q, ledger, snapshot, after, cuts.limit, selection, k);
    }
  }

  predicate PassedOver(q: Query, ledger: seq<Event>, cuts: Cuts, t: nat)
    requires 1 <= t <= |ledger|
  {
    !Wants(q, t, ledger[t - 1]) && cuts.goesOn(t)
  }

  /** The first wanted row is `s`, and the budget lasts up to it. */
  ghost predicate ComesTo(q: Query, ledger: seq<Event>, cuts: Cuts, lo: nat, end: nat, s: nat)
    requires 1 <= lo && end <= |ledger|
  {
    && lo <= s <= end && Wants(q, s, ledger[s - 1])
    && (forall t :: lo <= t < s ==> PassedOver(q, ledger, cuts, t))
  }

  lemma {:induction false} SelectedStay(q: Query, ledger: seq<Event>, cuts: Cuts, after: nat, s: nat, end: nat, selected: seq<Row>)
    requires after + 1 < s && end <= |ledger|
    ensures
      var r := Select(q, ledger, cuts, after, s, end, selected);
      r.Selected? && selected <= r.rows
    decreases end + 1 - s
  {
    if s <= end {
      SelectedStay(q, ledger, cuts, after, s + 1, end, selected);
      SelectedStay(q, ledger, cuts, after, s + 1, end, selected + [Row(s, ledger[s - 1])]);
    }
  }

  lemma {:induction false} FirstRowDecides(q: Query, ledger: seq<Event>, cuts: Cuts, after: nat, lo: nat, end: nat)
    requires after < lo && end <= |ledger| && cuts.limit >= 1
    ensures
      var r := Select(q, ledger, cuts, after, lo, end, []);
      && (r.Refused? <==> exists s :: ComesTo(q, ledger, cuts, lo, end, s) && cuts.unrelated(s) && s == after + 1)
      && (r.Selected? && r.rows != [] <==> exists s :: ComesTo(q, ledger, cuts, lo, end, s) && !cuts.unrelated(s))
    decreases end + 1 - lo
  {
    if lo <= end {
      if Wants(q, lo, ledger[lo - 1]) {
        forall s | ComesTo(q, ledger, cuts, lo, end, s) ensures s == lo {
          assert lo < s ==> PassedOver(q, ledger, cuts, lo);
        }
        assert ComesTo(q, ledger, cuts, lo, end, lo);
        SelectedStay(q, ledger, cuts, after, lo + 1, end, [Row(lo, ledger[lo - 1])]);
        assert [] + [Row(lo, ledger[lo - 1])] == [Row(lo, ledger[lo - 1])];
      } else if cuts.goesOn(lo) {
        FirstRowDecides(q, ledger, cuts, after, lo + 1, end);
        assert PassedOver(q, ledger, cuts, lo);
        assert forall s :: ComesTo(q, ledger, cuts, lo, end, s) <==> ComesTo(q, ledger, cuts, lo + 1, end, s);
      } else {
        assert !PassedOver(q, ledger, cuts, lo);
        assert forall s :: !ComesTo(q, ledger, cuts, lo, end, s);
      }
    }
  }

  /**
   A page is refused exactly when it comes to a row and either is cut off from its relations, the row being the one
   right after the page's cursor, or the response has no room for one row.
   */
  lemma RefusedIff(q: Query, ledger: seq<Event>, snapshot: nat, after: nat, cuts: Cuts)
    requires snapshot <= |ledger| && cuts.limit >= 1
    ensures ServePage(q, ledger, snapshot, after, cuts).None? <==>
              exists s :: ComesTo(q, ledger, cuts, LowestWanted(q, after), PageEnd(q, snapshot), s)
                          && if cuts.unrelated(s) then s == after + 1 else cuts.encodable == 0
  {
    FirstRowDecides(q, ledger, cuts, after, LowestWanted(q, after), PageEnd(q, snapshot));
  }

  /** The row at the first sequence the query wants is cut off from its relations. */
  predicate CutAtFirst(q: Query, ledger: seq<Event>, snapshot: nat, after: nat, cuts: Cuts)
    requires snapshot <= |ledger|
  {
    var lo := LowestWanted(q, after);
    lo <= PageEnd(q, snapshot) && Wants(q, lo, ledger[lo - 1]) && cuts.unrelated(lo)
  }

  /**
   A served page goes on from before its query's first sequence exactly when the row there is cut off from its
   relations: the guard compares with the page's cursor, not with where the query begins.
   */
  lemma GoesBackIff(q: Query, ledger: seq<Event>, snapshot: nat, after: nat, cuts: Cuts)
    requires snapshot <= |ledger| && cuts.limit >= 1
    ensures
      var page, lo := ServePage(q, ledger, snapshot, after, cuts), LowestWanted(q, after);
      page.Some? && page.value.next.Some? && page.value.next.value < lo <==>
      CutAtFirst(q, ledger, snapshot, after, cuts) && lo > after + 1
    ensures
      var page, lo := ServePage(q, ledger, snapshot, after, cuts), LowestWanted(q, after);
      CutAtFirst(q, ledger, snapshot, after, cuts) && lo > after + 1 ==> page == Some(Page([], snapshot, Some(lo - 1)))
  {
    var lo, end := LowestWanted(q, after), PageEnd(q, snapshot);
    ServedPageIsHonest(q, ledger, snapshot, after, cuts);
    if lo <= end && !CutAtFirst(q, ledger, snapshot, after, cuts) {
      StopsPast(q, ledger, cuts, after, lo + 1, end, WithNext(q, ledger, lo, []));
    }
  }

  lemma {:induction false} StopsPast(q: Query, ledger: seq<Event>, cuts: Cuts, after: nat, s: nat, end: nat, selected: seq<Row>)
    requires 1 <= s && end <= |ledger|
    ensures var r := Select(q, ledger, cuts, after, s, end, selected); r.Selected? && r.stopped ==> r.upTo >= s - 1
    decreases end + 1 - s
  {
    if s <= end {
      StopsPast(q, ledger, cuts, after, s + 1, end, selected);
      StopsPast(q, ledger, cuts, after, s + 1, end, selected + [Row(s, ledger[s - 1])]);
    }
  }

  datatype ReadError = RuntimeError

  /** `select_view_rows` and `select_span`: the rows of one page, with one more when there is one. */
  method SelectRows(q: Query, ledger: seq<Event>, cuts: Cuts, after: nat, end: nat)
    returns (r: Result<(seq<Row>, Option<nat>), ReadError>)
    requires end <= |ledger|
    ensures
      var selection := Select(q, ledger, cuts, after, LowestWanted(q, after), end, []);
      r == if selection.Refused? then Err(RuntimeError) else Ok((selection.rows, StopOf(selection)))
  {
    var s, selected := LowestWanted(q, after), [];
    while s <= end
      invariant LowestWanted(q, after) <= s
      invariant Select(q, ledger, cuts, after, s, end, selected) == Select(q, ledger, cuts, after, LowestWanted(q, after), end, [])
    {
      if Wants(q, s, ledger[s - 1]) {
        if |selected| < cuts.limit && cuts.unrelated(s) {
          return if s - 1 > after then Ok((selected, Some(s - 1))) else Err(RuntimeError);
        }
        selected := selected + [Row(s, ledger[s - 1])];
        if |selected| > cuts.limit {
          return Ok((selected, None));
        }
      }
      if !cuts.goesOn(s) {
        return Ok((selected, Some(s)));
      }
      s := s + 1;
    }
    r := Ok((selected, None));
  }

  /** Rows the response has no bytes for are taken off the end of a page, but not its last one. */
  method FitRows(all: seq<Row>, limit: nat, encodable: nat) returns (rows: Result<seq<Row>, ReadError>)
    requires limit >= 1
    ensures rows.Err? <==> all != [] && encodable == 0
    ensures rows.Ok? ==> rows.value == all[..Min(Min(|all|, limit), encodable)]
  {
    var kept := if |all| > limit then all[..limit] else all;
    while |kept| > encodable
      invariant Min(Min(|all|, limit), encodable) <= |kept| <= Min(|all|, limit) && kept == all[..|kept|]
      invariant all != [] ==> kept != []
    {
      if |kept| == 1 {
        return Err(RuntimeError);
      }
      kept := kept[..|kept| - 1];
    }
    rows := Ok(kept);
  }

  /** One page read at the ledger's own end, as the Runtime answers it. */
  method FetchPage(q: Query, ledger: seq<Event>, cuts: Cuts, fails: bool) returns (page: Result<Page, ReadError>)
    requires cuts.limit >= 1
    ensures page.Err? <==> fails || exists s :: ComesTo(q, ledger, cuts, LowestWanted(q, 0), PageEnd(q, |ledger|), s)
                                                && if cuts.unrelated(s) then s == 1 else cuts.encodable == 0
    ensures page.Ok? ==> page.value.snapshot == |ledger| && |page.value.rows| <= cuts.limit && PageHonest(q, ledger, 0, page.value)
    ensures page.Ok? ==> ServePage(q, ledger, |ledger|, 0, cuts) == Some(page.value)
  {
    RefusedIff(q, ledger, |ledger|, 0, cuts);
    ServedPageIsHonest(q, ledger, |ledger|, 0, cuts);
    if fails {
      return Err(RuntimeError);
    }
    var selected := SelectRows(q, ledger, cuts, 0, PageEnd(q, |ledger|));
    if selected.Err? {
      return Err(RuntimeError);
    }
    var (all, stop) := selected.value;
    var rows := FitRows(all, cuts.limit, cuts.encodable);
    if rows.Err? {
      return Err(RuntimeError);
    }
    page := Ok(Page(rows.value, |ledger|, if |rows.value| < |all| then Some(rows.value[|rows.value| - 1].sequence) else stop));
  }

  // ----- The reader of a growing ledger

  /** By page number: the ledger when that page is read, its cuts, whether the deadline has come, whether the read fails. */
  datatype World = World(ledger: nat -> seq<Event>, cuts: nat -> Cuts, spent: nat -> bool, fails: nat -> bool)

  /** The ledger grows at its end, and every page is asked for as many rows as a page can have. */
  ghost predicate Serves(world: World) {
    && (forall k: nat :: world.ledger(k) <= world.ledger(k + 1))
    && (forall k: nat :: world.cuts(k).limit == MAX_RUNTIME_EVENT_QUERY_EVENTS)
  }

  lemma {:induction false} LedgerPrefix(world: World, j: nat, k: nat)
    requires Serves(world) && j <= k
    ensures world.ledger(j) <= world.ledger(k)
    decreases k - j
  {
    if j < k {
      LedgerPrefix(world, j, k - 1);
      assert world.ledger(k - 1) <= world.ledger(k - 1 + 1);
    }
  }

  /** The sequence up to which a reading of `q` begun at snapshot `first` reads. */
  function Through(q: Query, first: nat): nat {
    if q.to.Some? then q.to.value else first
  }

  /** The whole answer of a reading whose first page is read at `first` and whose last at `ledger`. */
  ghost function Whole(q: Query, first: nat, ledger: seq<Event>): seq<Row> {
    Rows(q, ledger, 1, Min(Through(q, first), |ledger|))
  }

  /** With no end of its own a reading answers exactly the ledger of its first page, however it grew. */
  lemma WholeIsFirstSnapshot(q: Query, world: World, last: nat)
    requires Serves(world) && q.to.None?
    ensures |world.ledger(0)| <= |world.ledger(last)|
    ensures Whole(q, |world.ledger(0)|, world.ledger(last)) == Rows(q, world.ledger(0), 1, |world.ledger(0)|)
  {
    LedgerPrefix(world, 0, last);
    RowsAgree(q, q, world.ledger(0), world.ledger(last), 1, |world.ledger(0)|);
  }

  /** What a later page of a reading adds, read with bounds of its own. */
  lemma ContinuedPage(q: Query, next: Query, first: nat, ledger: seq<Event>, done: nat, upTo: nat)
    requires next == q.(from := Some(done + 1), to := Some(Through(q, first)))
    requires q.from.Some? ==> q.from.value <= done + 1
    requires done <= upTo <= |ledger|
    ensures Rows(q, ledger, 1, Min(Through(q, first), done)) + Rows(next, ledger, done + 1, upTo)
         == Rows(q, ledger, 1, Min(Through(q, first), upTo))
  {
    var through := Through(q, first);
    if through <= done {
      RowsBeyond(next, ledger, done + 1, upTo);
    } else {
      var end := Min(through, upTo);
      RowsSplit(q, ledger, 1, done, end);
      RowsAgree(q, next, ledger, ledger, done + 1, end);
      if end < upTo {
        RowsSplit(next, ledger, done + 1, end, upTo);
        RowsBeyond(next, ledger, end + 1, upTo);
      }
    }
  }

  /** What the first page of a reading holds. */
  lemma FirstPage(q: Query, ledger: seq<Event>, upTo: nat)
    requires upTo <= |ledger|
    ensures Rows(q, ledger, LowestWanted(q, 0), upTo) == Rows(q, ledger, 1, Min(Through(q, |ledger|), upTo))
  {
    var none := q.(to := Some(0));
    var before := Min(LowestWanted(q, 0) - 1, upTo);
    RowsSplit(q, ledger, 1, before, upTo);
    RowsAgree(q, none, ledger, ledger, 1, before);
    RowsBeyond(none, ledger, 1, before);
    var end := Min(Through(q, |ledger|), upTo);
    if end < upTo {
      RowsSplit(q, ledger, 1, end, upTo);
      RowsBeyond(q, ledger, end + 1, upTo);
    }
  }

  /** A reading between two pages: everything up to `done` is visited and the next page starts after it. */
  ghost predicate Reading(query: Query, world: World, pages: nat, next: Query, visited: seq<Row>, done: nat) {
    if pages == 0 then next == query && visited == [] && done == 0 else
    var first := |world.ledger(0)|;
    && next == query.(from := Some(done + 1), to := Some(Through(query, first)))
    && (query.from.Some? ==> query.from.value <= done + 1)
    && done <= |world.ledger(pages - 1)| && done <= Through(query, first)
    && visited == Rows(query, world.ledger(pages - 1), 1, Min(Through(query, first), done))
  }

  /** A reading that has not finished has visited a prefix of the whole answer. */
  lemma ReadingIsPrefix(query: Query, world: World, pages: nat, next: Query, visited: seq<Row>, done: nat)
    requires pages > 0 && Reading(query, world, pages, next, visited, done)
    ensures visited <= Whole(query, |world.ledger(0)|, world.ledger(pages - 1))
  {
    var through, ledger := Through(query, |world.ledger(0)|), world.ledger(pages - 1);
    RowsSplit(query, ledger, 1, Min(through, done), Min(through, |ledger|));
  }

  /** One more page, up to `upTo`, neither skips nor repeats a row, though the ledger has grown. */
  lemma PageAdds(query: Query, world: World, pages: nat, next: Query, visited: seq<Row>, done: nat, upTo: nat)
    requires Serves(world) && Reading(query, world, pages, next, visited, done)
    requires done <= upTo <= |world.ledger(pages)|
    ensures visited + Rows(next, world.ledger(pages), LowestWanted(next, 0), upTo)
         == Rows(query, world.ledger(pages), 1, Min(Through(query, |world.ledger(0)|), upTo))
  {
    if pages == 0 {
      FirstPage(query, world.ledger(0), upTo);
    } else {
      var first, ledger := |world.ledger(0)|, world.ledger(pages);
      LedgerPrefix(world, pages - 1, pages);
      RowsAgree(query, query, world.ledger(pages - 1), ledger, 1, Min(Through(query, first), done));
      ContinuedPage(query, next, first, ledger, done, upTo);
    }
  }

  // ----- The pages a reading asks for

  /** The page the reader is answered to its k-th question `q`; `None` when the deadline has come or there is none. */
  ghost function PageOf(q: Query, world: World, k: nat): Option<Page>
    requires Serves(world)
  {
    if world.spent(k) || world.fails(k) then None else ServePage(q, world.ledger(k), |world.ledger(k)|, 0, world.cuts(k))
  }

  /** The question after a page that has more. */
  function NextQuery(q: Query, page: Page): Query
    requires page.next.Some?
  {
    q.(from := Some(page.next.value + 1), to := Some(Through(q, page.snapshot)))
  }

  /** The k-th question of a reading; `None` when it has ended by then. */
  ghost function Asked(query: Query, world: World, k: nat): Option<Query>
    requires Serves(world)
  {
    if k == 0 then Some(query) else
    match Asked(query, world, k - 1)
    case None => None
    case Some(q) =>
      var page := PageOf(q, world, k - 1);
      if page.Some? && page.value.next.Some? then Some(NextQuery(q, page.value)) else None
  }

  /** The k-th page goes on from before the question it answers. */
  ghost predicate Stalled(query: Query, world: World, k: nat)
    requires Serves(world)
  {
    var asked := Asked(query, world, k);
    && asked.Some? && PageOf(asked.value, world, k).Some?
    && var next := PageOf(asked.value, world, k).value.next; next.Some? && next.value < LowestWanted(asked.value, 0)
  }

  ghost function StalledBefore(query: Query, world: World, k: nat): nat
    requires Serves(world)
  {
    if k == 0 then 0 else StalledBefore(query, world, k - 1) + if Stalled(query, world, k - 1) then 1 else 0
  }

  /** From the n-th page on none stalls. */
  ghost predicate NoneStalls(query: Query, world: World, n: nat)
    requires Serves(world)
  {
    forall k :: n <= k ==> !Stalled(query, world, k)
  }

  /** From the n-th page on every page stalls. */
  ghost predicate AllStall(query: Query, world: World, n: nat)
    requires Serves(world)
  {
    forall k :: n <= k ==> Stalled(query, world, k)
  }

  ghost predicate ReadsForever(query: Query, world: World)
    requires Serves(world)
  {
    forall k :: Asked(query, world, k).Some?
  }

  lemma {:induction false} NothingStalledBefore(query: Query, world: World, k: nat)
    requires Serves(world) && NoneStalls(query, world, 0)
    ensures StalledBefore(query, world, k) == 0
  {
    if k > 0 {
      NothingStalledBefore(query, world, k - 1);
    }
  }

  /** A page stalls exactly when its question begins past the first sequence, at a row cut off from its relations. */
  lemma StalledIff(query: Query, world: World, k: nat)
    requires Serves(world) && Asked(query, world, k).Some?
    ensures
      var q := Asked(query, world, k).value;
      Stalled(query, world, k) <==>
      && !world.spent(k) && !world.fails(k) && LowestWanted(q, 0) > 1
      && CutAtFirst(q, world.ledger(k), |world.ledger(k)|, 0, world.cuts(k))
  {
    GoesBackIff(Asked(query, world, k).value, world.ledger(k), |world.ledger(k)|, 0, world.cuts(k));
  }

  /** Where the k-th question begins. */
  ghost function Place(query: Query, world: World, k: nat): nat
    requires Serves(world) && Asked(query, world, k).Some?
  {
    LowestWanted(Asked(query, world, k).value, 0)
  }

  /** A reading that goes on keeps its end, never goes back, and moves on unless the page stalled. */
  lemma {:induction false} ReadingMovesOn(query: Query, world: World, k: nat)
    requires Serves(world) && Asked(query, world, k + 1).Some?
    ensures Asked(query, world, k).Some? && Asked(query, world, k + 1).value.to == Some(Through(query, |world.ledger(0)|))
    ensures Place(query, world, k) <= Place(query, world, k + 1) <= Through(query, |world.ledger(0)|) + 1
    ensures Place(query, world, k) == Place(query, world, k + 1) <==> Stalled(query, world, k)
  {
    if k > 0 {
      ReadingMovesOn(query, world, k - 1);
    }
    ServedPageIsHonest(Asked(query, world, k).value, world.ledger(k), |world.ledger(k)|, 0, world.cuts(k));
  }

  lemma {:induction false} NeverGoesBack(query: Query, world: World, j: nat, k: nat)
    requires Serves(world) && j <= k && Asked(query, world, k).Some?
    ensures Asked(query, world, j).Some? && Place(query, world, j) <= Place(query, world, k)
    decreases k - j
  {
    if j < k {
      ReadingMovesOn(query, world, k - 1);
      NeverGoesBack(query, world, j, k - 1);
    }
  }

  /** Were pages that do not stall to come again and again, the reading would pass every place. */
  lemma {:induction false} PassesEveryPlace(query: Query, world: World, place: nat) returns (k: nat)
    requires Serves(world) && ReadsForever(query, world) && !exists n :: AllStall(query, world, n)
    ensures k > 0 && Place(query, world, k) >= place
  {
    if place == 0 {
      k := 1;
    } else {
      var before := PassesEveryPlace(query, world, place - 1);
      assert !AllStall(query, world, before);
      var moved :| before <= moved && !Stalled(query, world, moved);
      k := moved + 1;
      NeverGoesBack(query, world, before, moved);
      ReadingMovesOn(query, world, moved);
    }
  }

  /** A reading goes on forever exactly when from some page on every page stalls; it ends exactly when from some page on none does. */
  lemma ReadsForeverIff(query: Query, world: World)
    requires Serves(world)
    ensures ReadsForever(query, world) <==> exists n :: AllStall(query, world, n)
    ensures ReadsForever(query, world) <==> !exists n :: NoneStalls(query, world, n)
  {
    if n :| AllStall(query, world, n) {
      forall k: nat ensures Asked(query, world, k).Some? {
        assert Stalled(query, world, k + n);
        NeverGoesBack(query, world, k, k + n);
      }
      forall m: nat ensures !NoneStalls(query, world, m) {
        assert Stalled(query, world, m + n);
      }
    } else if ReadsForever(query, world) {
      var k := PassesEveryPlace(query, world, Through(query, |world.ledger(0)|) + 2);
      ReadingMovesOn(query, world, k - 1);
    } else {
      var k: nat :| Asked(query, world, k).None?;
      forall m: nat | k <= m ensures !Stalled(query, world, m) {
        if Asked(query, world, m).Some? {
          NeverGoesBack(query, world, k, m);
        }
      }
      assert NoneStalls(query, world, k);
    }
  }

  /** A reading that has read `pages` pages and is about to ask `next`. */
  ghost predicate Underway(query: Query, world: World, pages: nat, next: Query, visited: seq<Row>, done: nat)
    requires Serves(world)
  {
    && Reading(query, world, pages, next, visited, done) && Asked(query, world, pages) == Some(next)
    && pages <= done + StalledBefore(query, world, pages)
  }

  lemma UnderwayMeans(query: Query, world: World, pages: nat, next: Query, visited: seq<Row>, done: nat)
    requires Serves(world) && Underway(query, world, pages, next, visited, done)
    ensures pages == 0 ==> visited == []
    ensures pages > 0 ==> visited <= Whole(query, |world.ledger(0)|, world.ledger(pages - 1))
    ensures done <= Through(query, |world.ledger(0)|)
  {
    if pages > 0 {
      ReadingIsPrefix(query, world, pages, next, visited, done);
    }
  }

  lemma ReadingGoesOn(query: Query, world: World, pages: nat, next: Query, visited: seq<Row>, done: nat, page: Page)
    requires Serves(world) && Reading(query, world, pages, next, visited, done)
    requires PageHonest(next, world.ledger(pages), 0, page) && page.snapshot == |world.ledger(pages)| && page.next.Some?
    ensures done <= page.next.value
    ensures Reading(query, world, pages + 1, NextQuery(next, page), visited + page.rows, page.next.value)
  {
    PageAdds(query, world, pages, next, visited, done, page.next.value);
  }

  /** A page the reading goes on after takes it one page further, and moves it on unless the page stalled. */
  lemma PageGoesOn(query: Query, world: World, pages: nat, next: Query, visited: seq<Row>, done: nat, page: Page,
                   patience: nat)
    requires Serves(world) && Underway(query, world, pages, next, visited, done) && NoneStalls(query, world, patience)
    requires PageOf(next, world, pages) == Some(page) && page.next.Some?
    ensures Underway(query, world, pages + 1, NextQuery(next, page), visited + page.rows, page.next.value)
    ensures done < page.next.value || (done == page.next.value && pages < patience)
  {
    ServedPageIsHonest(next, world.ledger(pages), |world.ledger(pages)|, 0, world.cuts(pages));
    ReadingGoesOn(query, world, pages, next, visited, done, page);
    assert Stalled(query, world, pages) <==> page.next.value < LowestWanted(next, 0);
  }

  /** A page without a cursor completes the answer. */
  lemma PageCompletes(query: Query, world: World, pages: nat, next: Query, visited: seq<Row>, done: nat, page: Page)
    requires Serves(world) && Reading(query, world, pages, next, visited, done)
    requires PageHonest(next, world.ledger(pages), 0, page) && page.snapshot == |world.ledger(pages)| && page.next.None?
    ensures visited + page.rows == Whole(query, |world.ledger(0)|, world.ledger(pages))
  {
    LedgerPrefix(world, if pages > 0 then pages - 1 else 0, pages);
    PageAdds(query, world, pages, next, visited, done, |world.ledger(pages)|);
  }

  /**
   `read_pages`: every event `query` matches, page by page up to the ledger position of its first
   page. `pages` counts the pages read. It answers `true` only when it has visited the whole answer,
   in order and each row once; before that it has visited a prefix of it.

   However the ledger grows, it reads at most one page for each sequence up to its end, one more,
   and those that stalled. `patience` is a page from which on none does; a reading without one never
   ends.
   */
  method ReadPages(query: Query, world: World, ghost patience: nat)
    returns (finished: Result<bool, ReadError>, visited: seq<Row>, pages: nat)
    requires Serves(world) && NoneStalls(query, world, patience)
    ensures pages == 0 ==> visited == [] && finished != Ok(true)
    ensures pages > 0 ==> visited <= Whole(query, |world.ledger(0)|, world.ledger(pages - 1))
    ensures finished == Ok(true) ==> visited == Whole(query, |world.ledger(0)|, world.ledger(pages - 1))
    ensures finished == Ok(false) ==> world.spent(pages)
    ensures pages <= Through(query, |world.ledger(0)|) + 1 + StalledBefore(query, world, pages)
  {
    var next := query;
    ghost var done := 0;
    visited, pages := [], 0;
    while true
      invariant Underway(query, world, pages, next, visited, done)
      decreases Through(query, |world.ledger(0)|) + 1 - done, patience - pages
    {
      UnderwayMeans(query, world, pages, next, visited, done);
      if world.spent(pages) {
        return Ok(false), visited, pages;
      }
      var page := FetchPage(next, world.ledger(pages), world.cuts(pages), world.fails(pages));
      if page.Err? {
        return Err(page.error), visited, pages;
      }
      if page.value.next.None? {
        PageCompletes(query, world, pages, next, visited, done, page.value);
        return Ok(true), visited + page.value.rows, pages + 1;
      }
      PageGoesOn(query, world, pages, next, visited, done, page.value, patience);
      visited, pages, done := visited + page.value.rows, pages + 1, page.value.next.value;
      next := next.(from := Some(page.value.next.value + 1),
                    to := Some(if next.to.Some? then next.to.value else page.value.snapshot));
    }
  }

  /** Where no page stalls, a growing ledger and no deadline included, the pages are bounded by the first page's ledger. */
  method ReadUnstalled(query: Query, world: World) returns (finished: Result<bool, ReadError>, visited: seq<Row>, pages: nat)
    requires Serves(world) && NoneStalls(query, world, 0) && forall k :: !world.spent(k)
    ensures pages <= Through(query, |world.ledger(0)|) + 1
    ensures finished.Ok? ==> finished.value && pages > 0 && visited == Whole(query, |world.ledger(0)|, world.ledger(pages - 1))
  {
    finished, visited, pages := ReadPages(query, world, 0);
    NothingStalledBefore(query, world, pages);
  }

  // ----- A reading that never ends

  /** Two events; the first page's budget ends after the first one, and every later page is cut off from its relations. */
  ghost function CutOff(event: Event): World {
    World((k: nat) => [event, event],
          (k: nat) =>
            Cuts(MAX_RUNTIME_EVENT_QUERY_EVENTS, (s: nat) => false, (s: nat) => k > 0, MAX_RUNTIME_EVENT_QUERY_EVENTS),
          (k: nat) => false, (k: nat) => false)
  }

  lemma CutOffBegins(query: Query, event: Event)
    requires query.from.None? && query.to.None? && query.matches(event)
    ensures PageOf(query, CutOff(event), 0) == Some(Page([Row(1, event)], 2, Some(1)))
  {
    var world := CutOff(event);
    var rows := [Row(1, event)];
    assert Select(query, world.ledger(0), world.cuts(0), 0, 1, 2, []) == Selected(rows, 1, true) && rows[..1] == rows;
  }

  lemma {:induction false} CutOffAsksAgain(query: Query, event: Event, k: nat)
    requires query.from.None? && query.to.None? && query.matches(event)
    ensures Asked(query, CutOff(event), k + 1) == Some(query.(from := Some(2), to := Some(2)))
  {
    var world := CutOff(event);
    if k == 0 {
      CutOffBegins(query, event);
    } else {
      CutOffAsksAgain(query, event, k - 1);
      GoesBackIff(query.(from := Some(2), to := Some(2)), world.ledger(k), 2, 0, world.cuts(k));
    }
  }

  /** The reader of these events asks for the second one forever. */
  lemma CutOffReadsForever(query: Query, event: Event)
    requires query.from.None? && query.to.None? && query.matches(event)
    ensures Serves(CutOff(event)) && ReadsForever(query, CutOff(event)) && AllStall(query, CutOff(event), 1)
  {
    var world := CutOff(event);
    forall k: nat ensures Asked(query, world, k).Some? {
      if k > 0 {
        CutOffAsksAgain(query, event, k - 1);
      }
    }
    forall k: nat | 1 <= k ensures Stalled(query, world, k) {
      CutOffAsksAgain(query, event, k - 1);
      StalledIff(query, world, k);
    }
  }
}
