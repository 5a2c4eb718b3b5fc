/**
 `actingctl codes`: the outcome codes in name order, a page at a time. A page is cut at its limit and
 again to the rows an output budget keeps, and goes on from the cursor text `c1.<last code>.<filters>`.
 The catalog may change between two pages: a cursor holds across processes and builds.
 */
module CodePages {
  import opened Basics
  import opened Wrappers
  import opened Text
  import opened Ordering

  const CURSOR_VERSION: string := "c1"
  const MAX_CODE_BYTES: nat := 64
  const FINGERPRINT_DIGITS: nat := 16

  /** One catalog entry as a list reads it; `owner` is `None` when it is not a text. */
  datatype Entry =
    | Entry(category: string, ladderClass: string, status: string, owner: Option<string>)
    | Malformed

  type Catalog = map<string, Entry>

  /** The filters of a list. `fingerprint` stands for the digits of their hash. */
  datatype Filters = Filters(prefix: Option<string>, owner: Option<string>, fingerprint: string)

  datatype Row = Row(code: string, category: string, ladderClass: string, status: string)

  datatype Page = Page(rows: seq<Row>, from: Option<string>, more: bool)

  datatype Refusal = CursorInvalid | CatalogUnreadable

  predicate ValidFilters(filters: Filters) {
    |filters.fingerprint| == FINGERPRINT_DIGITS && forall c :: c in filters.fingerprint ==> LowerHex(c)
  }

  // ----- The cursor text

  predicate NameChar(c: char) { 'a' <= c <= 'z' || '0' <= c <= '9' || c == '_' }

  predicate NameText(text: string) {
    |text| <= MAX_CODE_BYTES && forall c :: c in text ==> NameChar(c)
  }

  /** A page cut to nothing at the start of the list goes on from its start. */
  function EncodeCursor(after: Option<string>, fingerprint: string): string {
    Join([CURSOR_VERSION, if after.Some? then after.value else "", fingerprint], '.')
  }

  function DecodeCursor(cursor: string, fingerprint: string): Result<Option<string>, Refusal> {
    var parts := Split(cursor, '.');
    if |parts| != 3 || parts[0] != CURSOR_VERSION || parts[2] != fingerprint || !NameText(parts[1]) then Err(CursorInvalid)
    else Ok(if parts[1] == "" then None else Some(parts[1]))
  }

  /**
   A cursor reads back, for the filters it was issued for and no other, exactly when the code it names
   is spelled of the characters of a code name and no longer than one.
   */
  lemma CursorReadsBackIff(code: string, issued: Filters, asked: Filters)
    requires ValidFilters(issued) && ValidFilters(asked) && code != ""
    ensures DecodeCursor(EncodeCursor(Some(code), issued.fingerprint), asked.fingerprint) == Ok(Some(code))
       <==> NameText(code) && issued.fingerprint == asked.fingerprint
    ensures NameText(code) && issued.fingerprint != asked.fingerprint
            ==> DecodeCursor(EncodeCursor(Some(code), issued.fingerprint), asked.fingerprint) == Err(CursorInvalid)
    ensures DecodeCursor(EncodeCursor(None, issued.fingerprint), asked.fingerprint)
         == if issued.fingerprint == asked.fingerprint then Ok(None) else Err(CursorInvalid)
  {
    var fp := issued.fingerprint;
    SplitOfJoin([CURSOR_VERSION, "", fp], '.');
    if NameText(code) {
      SplitOfJoin([CURSOR_VERSION, code, fp], '.');
    }
  }

  /** An accepted cursor is exactly the text that would be issued for what it decodes to. */
  lemma AcceptedCursorIsIssued(cursor: string, fingerprint: string)
    requires DecodeCursor(cursor, fingerprint).Ok?
    ensures EncodeCursor(DecodeCursor(cursor, fingerprint).value, fingerprint) == cursor
  {
    var parts := Split(cursor, '.');
    JoinOfSplit(cursor, '.');
    assert parts == [CURSOR_VERSION, parts[1], fingerprint];
  }

  // ----- The names the catalog's guard admits

  const MIN_NAME_BYTES: nat := 3

  predicate PlainPart(part: string) {
    forall c :: c in part ==> NameChar(c) && c != '_'
  }

  /** `is_registered_name`: the parts between the underscores. */
  predicate RegisteredName(name: string) {
    && MIN_NAME_BYTES <= |name| <= MAX_CODE_BYTES
    && var parts := Split(name, '_');
    && parts[0] != "" && 'a' <= parts[0][0] <= 'z' && PlainPart(parts[0])
    && |parts| > 1 && forall i :: 1 <= i < |parts| ==> parts[i] != "" && PlainPart(parts[i])
  }

  /** Every underscore is followed by another character. */
  predicate Separates(text: string) {
    forall i :: 0 <= i < |text| && text[i] == '_' ==> i + 1 < |text| && text[i + 1] != '_'
  }

  lemma {:induction false} SeparatesTail(text: string)
    requires text != ""
    ensures Separates(text) <==> Separates(text[1..]) && (text[0] == '_' ==> |text| > 1 && text[1] != '_')
  {
    if Separates(text[1..]) {
      assert forall i :: 1 <= i < |text| ==> text[i] == text[1..][i - 1];
    }
    if Separates(text) {
      assert forall i :: 0 <= i < |text| - 1 ==> text[1..][i] == text[i + 1];
    }
  }

  /** What the parts of a text say of its underscores. */
  lemma {:induction false} PartsSeparate(text: string)
    ensures
      var parts := Split(text, '_');
      && (parts[0] == "" <==> text == "" || text[0] == '_') && (parts[0] != "" ==> parts[0][0] == text[0])
      && (|parts| > 1 <==> '_' in text)
      && ((forall i :: 1 <= i < |parts| ==> parts[i] != "") <==> Separates(text))
    decreases |text|
  {
    if text != "" {
      PartsSeparate(text[1..]);
      SeparatesTail(text);
      var parts, rest := Split(text, '_'), Split(text[1..], '_');
      if text[0] == '_' {
        assert forall i :: 0 <= i < |rest| ==> rest[i] == parts[i + 1];
      } else {
        assert forall i :: 1 <= i < |parts| ==> parts[i] == rest[i];
      }
    }
  }

  /** And of its other characters. */
  lemma {:induction false} PartsArePlain(text: string)
    ensures
      var parts := Split(text, '_');
      (forall i :: 0 <= i < |parts| ==> PlainPart(parts[i])) <==> forall c :: c in text ==> NameChar(c)
    decreases |text|
  {
    if text != "" {
      PartsArePlain(text[1..]);
      var parts, rest := Split(text, '_'), Split(text[1..], '_');
      assert text == [text[0]] + text[1..];
      if text[0] == '_' {
        assert forall i :: 0 <= i < |rest| ==> rest[i] == parts[i + 1];
      } else {
        assert PlainPart(parts[0]) <==> PlainPart(rest[0]) && NameChar(text[0]);
        assert forall i :: 1 <= i < |parts| ==> parts[i] == rest[i];
      }
    }
  }

  /**
   The guard admits exactly the names of 3 to 64 characters a code cursor can hold that begin with a letter, have an
   underscore, do not end with one and have no two in a row.
   */
  lemma RegisteredIff(name: string)
    ensures RegisteredName(name) <==>
              && MIN_NAME_BYTES <= |name| && NameText(name) && 'a' <= name[0] <= 'z' && '_' in name && Separates(name)
  {
    PartsSeparate(name);
    PartsArePlain(name);
    var parts := Split(name, '_');
    assert (forall i :: 0 <= i < |parts| ==> PlainPart(parts[i])) <==>
           PlainPart(parts[0]) && forall i :: 1 <= i < |parts| ==> PlainPart(parts[i]);
  }

  // ----- One page

  predicate After(from: Option<string>, name: string) {
    from.Some? ==> Below(from.value, name)
  }

  predicate HasPrefix(filters: Filters, name: string) {
    filters.prefix.Some? ==> filters.prefix.value <= name
  }

  predicate Matches(codes: Catalog, filters: Filters, name: string) {
    && name in codes && HasPrefix(filters, name)
    && codes[name].Entry? && (filters.owner.Some? ==> codes[name].owner == filters.owner)
  }

  /** An entry the answer cannot read. */
  predicate Unreadable(codes: Catalog, filters: Filters, name: string) {
    && name in codes && HasPrefix(filters, name)
    && (codes[name].Malformed? || (filters.owner.Some? && codes[name].owner.None?))
  }

  function CodesOf(rows: seq<Row>): (codes: seq<string>)
    ensures |codes| == |rows| && forall i :: 0 <= i < |rows| ==> codes[i] == rows[i].code
  {
    seq(|rows|, i requires 0 <= i < |rows| => rows[i].code)
  }

  /** A page as promised: in order, each row as its entry has it, and nothing it lists passed over. */
  ghost predicate IsPage(codes: Catalog, filters: Filters, from: Option<string>, limit: nat, page: Page) {
    && page.from == from && |page.rows| <= limit
    && Increasing(CodesOf(page.rows))
    && (forall i :: 0 <= i < |page.rows| ==>
          && Matches(codes, filters, page.rows[i].code) && After(from, page.rows[i].code)
          && page.rows[i] == RowOf(page.rows[i].code, codes[page.rows[i].code]))
    && (forall name :: Matches(codes, filters, name) && After(from, name) && name !in CodesOf(page.rows) ==>
          page.more && forall i :: 0 <= i < |page.rows| ==> Below(page.rows[i].code, name))
    && (page.more ==> |page.rows| == limit
                      && exists name :: Matches(codes, filters, name) && After(from, name) && name !in CodesOf(page.rows))
  }

  function RowOf(name: string, entry: Entry): Row
    requires entry.Entry?
  {
    Row(name, entry.category, entry.ladderClass, entry.status)
  }

  /** The rows after the `i` first names are examined. */
  ghost predicate SoFar(codes: Catalog, filters: Filters, names: seq<string>, i: nat, rows: seq<Row>)
    requires i <= |names|
  {
    && Increasing(CodesOf(rows))
    && (forall k :: 0 <= k < |rows| ==>
          && rows[k].code in names[..i] && Matches(codes, filters, rows[k].code)
          && rows[k] == RowOf(rows[k].code, codes[rows[k].code]))
    && (forall k :: 0 <= k < i && Matches(codes, filters, names[k]) ==> names[k] in CodesOf(rows))
  }

  /** The codes after `from` that match and come before `name`. */
  function MatchingBelow(codes: Catalog, filters: Filters, from: Option<string>, name: string): set<string> {
    set m | m in codes && Matches(codes, filters, m) && After(from, m) && Below(m, name)
  }

  /** An unreadable entry the page comes to: no more codes match before it than the page has room for. */
  predicate Reached(codes: Catalog, filters: Filters, from: Option<string>, limit: nat, name: string) {
    Unreadable(codes, filters, name) && After(from, name) && |MatchingBelow(codes, filters, from, name)| <= limit
  }

  function NamesIn(names: seq<string>): set<string> { set n | n in names }

  lemma {:induction false} IncreasingSize(names: seq<string>)
    requires Increasing(names)
    ensures |NamesIn(names)| == |names|
    decreases |names|
  {
    if names != [] {
      var rest, last := names[..|names| - 1], names[|names| - 1];
      IncreasingSize(rest);
      assert last !in rest by {
        forall k | 0 <= k < |rest| ensures rest[k] != last {
          BelowIsTotal(names[k], last);
        }
      }
      assert NamesIn(names) == NamesIn(rest) + {last};
    }
  }

  /** The rows so far are the matching codes before the next name. */
  lemma RowsAreMatching(codes: Catalog, filters: Filters, from: Option<string>, names: seq<string>, i: nat, rows: seq<Row>)
    requires Increasing(names) && i < |names| && SoFar(codes, filters, names, i, rows)
    requires forall name :: name in names <==> name in codes && HasPrefix(filters, name) && After(from, name)
    ensures MatchingBelow(codes, filters, from, names[i]) == NamesIn(CodesOf(rows))
    ensures |MatchingBelow(codes, filters, from, names[i])| == |rows|
  {
    var below := MatchingBelow(codes, filters, from, names[i]);
    forall m | m in below ensures m in CodesOf(rows) {
      assert m in names;
      var k :| 0 <= k < |names| && names[k] == m;
      BelowIsTotal(names[k], names[i]);
    }
    forall m | m in CodesOf(rows) ensures m in below {
      var k :| 0 <= k < |rows| && CodesOf(rows)[k] == m;
      RowsAreBelow(codes, filters, names, i, rows, i);
      assert rows[k].code in names;
    }
    IncreasingSize(CodesOf(rows));
  }

  lemma UnreadableIsReached(codes: Catalog, filters: Filters, from: Option<string>, limit: nat, names: seq<string>,
                            i: nat, rows: seq<Row>)
    requires Increasing(names) && i < |names| && |rows| <= limit && SoFar(codes, filters, names, i, rows)
    requires forall name :: name in names <==> name in codes && HasPrefix(filters, name) && After(from, name)
    requires Unreadable(codes, filters, names[i])
    ensures Reached(codes, filters, from, limit, names[i])
  {
    RowsAreMatching(codes, filters, from, names, i, rows);
    assert names[i] in names;
  }

  lemma NoneIsReached(codes: Catalog, filters: Filters, from: Option<string>, limit: nat, names: seq<string>, i: nat, rows: seq<Row>)
    requires Increasing(names) && i <= |names| && SoFar(codes, filters, names, i, rows)
    requires forall name :: name in names <==> name in codes && HasPrefix(filters, name) && After(from, name)
    requires forall k :: 0 <= k < i ==> !Unreadable(codes, filters, names[k])
    requires i < |names| ==> |rows| == limit && Matches(codes, filters, names[i]) && !Unreadable(codes, filters, names[i])
    ensures forall name :: !Reached(codes, filters, from, limit, name)
  {
    forall name | Unreadable(codes, filters, name) && After(from, name) ensures |MatchingBelow(codes, filters, from, name)| > limit {
      assert name in names;
      var m :| 0 <= m < |names| && names[m] == name;
      assert i < m;
      RowsAreMatching(codes, filters, from, names, i, rows);
      var below := MatchingBelow(codes, filters, from, names[i]);
      assert names[i] in names && Below(names[i], name);
      BelowIsTotal(names[i], names[i]);
      forall n | n in below + {names[i]} ensures n in MatchingBelow(codes, filters, from, name) {
        if n != names[i] {
          BelowIsTransitive(n, names[i], name);
        }
      }
      SubsetSize(below + {names[i]}, MatchingBelow(codes, filters, from, name));
    }
  }

  lemma SubsetSize(a: set<string>, b: set<string>)
    requires a <= b
    ensures |a| <= |b|
  {
    assert b == a + (b - a);
  }

  /** The code a list goes on after. */
  function StartOf(filters: Filters, cursor: Option<string>): Option<string> {
    if cursor.None? || DecodeCursor(cursor.value, filters.fingerprint).Err? then None
    else DecodeCursor(cursor.value, filters.fingerprint).value
  }

  /** `page`: refused for a cursor that is not this list's, or at an entry it cannot read. */
  method ReadPage(codes: Catalog, filters: Filters, limit: nat, cursor: Option<string>) returns (page: Result<Page, Refusal>)
    requires limit >= 1
    ensures cursor.Some? && DecodeCursor(cursor.value, filters.fingerprint).Err? <==> page == Err(CursorInvalid)
    ensures page.Ok? ==>
              IsPage(codes, filters, StartOf(filters, cursor), limit, page.value)
    ensures page == Err(CatalogUnreadable) <==>
              && (cursor.Some? ==> DecodeCursor(cursor.value, filters.fingerprint).Ok?)
              && exists name :: Reached(codes, filters, StartOf(filters, cursor), limit, name)
  {
    var from := None;
    if cursor.Some? {
      var decoded := DecodeCursor(cursor.value, filters.fingerprint);
      if decoded.Err? {
        return Err(CursorInvalid);
      }
      from := decoded.value;
    }
    var names := Sort(set name | name in codes && HasPrefix(filters, name) && After(from, name));
    var rows: seq<Row> := [];
    var i := 0;
    while i < |names|
      invariant 0 <= i <= |names| && |rows| <= limit
      invariant SoFar(codes, filters, names, i, rows)
      invariant forall k :: 0 <= k < i ==> !Unreadable(codes, filters, names[k])
    {
      var name := names[i];
      assert name in names;
      var entry := codes[name];
      if entry.Malformed? || (filters.owner.Some? && entry.owner.None?) {
        UnreadableIsReached(codes, filters, from, limit, names, i, rows);
        assert Reached(codes, filters, StartOf(filters, cursor), limit, name);
        return Err(CatalogUnreadable);
      }
      assert names[..i + 1] == names[..i] + [name];
      if filters.owner.None? || entry.owner == filters.owner {
        if |rows| == limit {
          PageIsDone(codes, filters, from, limit, names, i, rows);
          NoneIsReached(codes, filters, from, limit, names, i, rows);
          return Ok(Page(rows, from, true));
        }
        AppendKeepsOrder(codes, filters, names, i, rows);
        rows := rows + [RowOf(name, entry)];
      }
      i := i + 1;
    }
    PageIsDone(codes, filters, from, limit, names, i, rows);
    NoneIsReached(codes, filters, from, limit, names, i, rows);
    page := Ok(Page(rows, from, false));
  }

  lemma RowsAreBelow(codes: Catalog, filters: Filters, names: seq<string>, i: nat, rows: seq<Row>, m: nat)
    requires Increasing(names) && i <= m < |names| && SoFar(codes, filters, names, i, rows)
    ensures forall k :: 0 <= k < |rows| ==> Below(rows[k].code, names[m])
    ensures names[m] !in CodesOf(rows)
  {
    forall k | 0 <= k < |rows| ensures Below(rows[k].code, names[m]) && rows[k].code != names[m] {
      var j :| 0 <= j < |names[..i]| && names[..i][j] == rows[k].code;
      assert names[j] == rows[k].code;
      BelowIsTotal(rows[k].code, names[m]);
    }
  }

  lemma AppendKeepsOrder(codes: Catalog, filters: Filters, names: seq<string>, i: nat, rows: seq<Row>)
    requires Increasing(names) && i < |names| && SoFar(codes, filters, names, i, rows)
    requires Matches(codes, filters, names[i])
    ensures SoFar(codes, filters, names, i + 1, rows + [RowOf(names[i], codes[names[i]])])
  {
    var longer := rows + [RowOf(names[i], codes[names[i]])];
    RowsAreBelow(codes, filters, names, i, rows, i);
    assert CodesOf(longer) == CodesOf(rows) + [names[i]];
    assert names[..i + 1] == names[..i] + [names[i]];
  }

  /** The page is complete when the names are, and cut when its limit is reached and one more matches. */
  lemma PageIsDone(codes: Catalog, filters: Filters, from: Option<string>, limit: nat, names: seq<string>, i: nat, rows: seq<Row>)
    requires Increasing(names) && i <= |names| && |rows| <= limit && SoFar(codes, filters, names, i, rows)
    requires forall name :: name in names <==> name in codes && HasPrefix(filters, name) && After(from, name)
    requires i < |names| ==> |rows| == limit && Matches(codes, filters, names[i])
    ensures IsPage(codes, filters, from, limit, Page(rows, from, i < |names|))
  {
    if i < |names| {
      RowsAreBelow(codes, filters, names, i, rows, i);
      assert names[i] in names;
    }
    forall name | Matches(codes, filters, name) && After(from, name) && name !in CodesOf(rows)
      ensures i < |names| && forall k :: 0 <= k < |rows| ==> Below(rows[k].code, name)
    {
      assert name in names;
      var m :| 0 <= m < |names| && names[m] == name;
      RowsAreBelow(codes, filters, names, i, rows, m);
    }
    forall k | 0 <= k < |rows| ensures After(from, rows[k].code) {
      assert rows[k].code in names;
    }
  }

  // ----- Cutting a page and going on

  /** A page as answered. */
  datatype Answer = Answer(rows: seq<Row>, nextCursor: Option<string>, truncated: bool)

  /** `Page::render`: the first `kept` rows; a cut page goes on after the last row kept. */
  function Render(page: Page, fingerprint: string, kept: nat): (answer: Answer)
    ensures |answer.rows| <= kept && answer.rows <= page.rows
  {
    var keeping := if kept < |page.rows| then kept else |page.rows|;
    var truncated := keeping < |page.rows|;
    var after :=
      if keeping > 0 then (if truncated || page.more then Some(page.rows[keeping - 1].code) else None)
      else if truncated then page.from
      else None;
    Answer(
      page.rows[..keeping],
      if truncated || page.more then Some(EncodeCursor(after, fingerprint)) else None,
      truncated)
  }

  /** No cursor is answered exactly when no code is left that the rows do not list. */
  lemma NoCursorIffNothingRemains(codes: Catalog, filters: Filters, from: Option<string>, limit: nat, page: Page, kept: nat)
    requires IsPage(codes, filters, from, limit, page) && limit >= 1
    ensures var answer := Render(page, filters.fingerprint, kept);
            answer.nextCursor.None? <==>
            (forall name :: Matches(codes, filters, name) && After(from, name) ==> name in CodesOf(answer.rows))
  {
    var answer := Render(page, filters.fingerprint, kept);
    if answer.truncated {
      var next := page.rows[|answer.rows|].code;
      assert Matches(codes, filters, next) && After(from, next);
      forall i | 0 <= i < |answer.rows| ensures CodesOf(answer.rows)[i] != next {
        assert CodesOf(page.rows)[i] == answer.rows[i].code;
        assert CodesOf(page.rows)[|answer.rows|] == next;
        BelowIsTotal(answer.rows[i].code, next);
      }
    } else {
      assert answer.rows == page.rows;
    }
  }

  /** Where a caller is after an answer: after its last row, or where it was when no row was kept. */
  function GoesOnAfter(answer: Answer, from: Option<string>): Option<string> {
    if answer.rows == [] then from else Some(answer.rows[|answer.rows| - 1].code)
  }

  /** The cursor of an answer is read back as the place it goes on from. */
  lemma CursorGoesOn(codes: Catalog, filters: Filters, from: Option<string>, limit: nat, page: Page, kept: nat)
    requires IsPage(codes, filters, from, limit, page) && limit >= 1 && ValidFilters(filters)
    requires from.Some? ==> NameText(from.value) && from.value != ""
    requires forall i :: 0 <= i < |page.rows| ==> NameText(page.rows[i].code) && page.rows[i].code != ""
    ensures var answer := Render(page, filters.fingerprint, kept);
            answer.nextCursor.Some? ==>
              DecodeCursor(answer.nextCursor.value, filters.fingerprint) == Ok(GoesOnAfter(answer, from))
  {
    var after := GoesOnAfter(Render(page, filters.fingerprint, kept), from);
    CursorReadsBackIff(if after.Some? then after.value else "a", filters, filters);
  }

  /** So every cursor of a catalog the guard admits is read back. */
  lemma GuardedCursorGoesOn(codes: Catalog, filters: Filters, from: Option<string>, limit: nat, page: Page, kept: nat)
    requires IsPage(codes, filters, from, limit, page) && limit >= 1 && ValidFilters(filters)
    requires forall name :: name in codes ==> RegisteredName(name)
    requires from.Some? ==> exists cursor :: DecodeCursor(cursor, filters.fingerprint) == Ok(from)
    ensures var answer := Render(page, filters.fingerprint, kept);
            answer.nextCursor.Some? ==>
              DecodeCursor(answer.nextCursor.value, filters.fingerprint) == Ok(GoesOnAfter(answer, from))
  {
    forall i | 0 <= i < |page.rows| ensures NameText(page.rows[i].code) && page.rows[i].code != "" {
      RegisteredIff(page.rows[i].code);
    }
    CursorGoesOn(codes, filters, from, limit, page, kept);
  }

  // ----- Following the cursors over changing catalogs

  /** One call: the catalog of its build, its limit, its page, and how many rows were kept. */
  datatype Call = Call(codes: Catalog, limit: nat, page: Page, kept: nat)

  function AnswerOf(filters: Filters, call: Call): Answer {
    Render(call.page, filters.fingerprint, call.kept)
  }

  /** The calls of one caller that sends each cursor back; each call but the last was given one. */
  ghost predicate CallsFrom(filters: Filters, from: Option<string>, calls: seq<Call>)
    decreases |calls|
  {
    calls == [] ||
    var call, answer := calls[0], AnswerOf(filters, calls[0]);
    && call.limit >= 1 && IsPage(call.codes, filters, from, call.limit, call.page)
    && (|calls| > 1 ==>
          && answer.nextCursor.Some?
          && DecodeCursor(answer.nextCursor.value, filters.fingerprint) == Ok(GoesOnAfter(answer, from)))
    && CallsFrom(filters, GoesOnAfter(answer, from), calls[1..])
  }

  function Listed(filters: Filters, calls: seq<Call>): seq<string> {
    if calls == [] then [] else CodesOf(AnswerOf(filters, calls[0]).rows) + Listed(filters, calls[1..])
  }

  /** A list that is in order after `from`. */
  ghost predicate InOrderAfter(from: Option<string>, names: seq<string>) {
    Increasing(names) && forall i :: 0 <= i < |names| ==> After(from, names[i])
  }

  lemma AnswerInOrder(codes: Catalog, filters: Filters, from: Option<string>, limit: nat, page: Page, kept: nat)
    requires IsPage(codes, filters, from, limit, page)
    ensures InOrderAfter(from, CodesOf(Render(page, filters.fingerprint, kept).rows))
    ensures forall name :: Matches(codes, filters, name) && After(from, name)
                           && name !in CodesOf(Render(page, filters.fingerprint, kept).rows)
                           ==> After(GoesOnAfter(Render(page, filters.fingerprint, kept), from), name)
  {
    var rows := Render(page, filters.fingerprint, kept).rows;
    assert forall i :: 0 <= i < |rows| ==> CodesOf(page.rows)[i] == CodesOf(rows)[i];
    forall name | Matches(codes, filters, name) && After(from, name) && name !in CodesOf(rows)
      ensures After(GoesOnAfter(Render(page, filters.fingerprint, kept), from), name)
    {
      if name in CodesOf(page.rows) && rows != [] {
        var i :| 0 <= i < |page.rows| && CodesOf(page.rows)[i] == name;
        assert i >= |rows|;
      }
    }
  }

  lemma AppendInOrder(from: Option<string>, first: seq<string>, then_: seq<string>)
    requires InOrderAfter(from, first)
    requires InOrderAfter(if first == [] then from else Some(first[|first| - 1]), then_)
    ensures InOrderAfter(from, first + then_)
  {
    var all := first + then_;
    if first != [] {
      var last := first[|first| - 1];
      forall i, j | 0 <= i < |first| && 0 <= j < |then_| ensures Below(first[i], then_[j]) {
        if i < |first| - 1 {
          BelowIsTransitive(first[i], last, then_[j]);
        }
      }
      forall j | 0 <= j < |then_| ensures After(from, then_[j]) {
        if from.Some? {
          BelowIsTransitive(from.value, last, then_[j]);
        }
      }
    }
  }

  /** However the pages are cut and the catalog changes between them, the codes come in increasing order, so none twice. */
  lemma {:induction false} FollowingStaysInOrder(filters: Filters, from: Option<string>, calls: seq<Call>)
    requires CallsFrom(filters, from, calls)
    ensures InOrderAfter(from, Listed(filters, calls))
    decreases |calls|
  {
    if calls != [] {
      var call := calls[0];
      AnswerInOrder(call.codes, filters, from, call.limit, call.page, call.kept);
      FollowingStaysInOrder(filters, GoesOnAfter(AnswerOf(filters, call), from), calls[1..]);
      AppendInOrder(from, CodesOf(AnswerOf(filters, call).rows), Listed(filters, calls[1..]));
    }
  }

  /** The last call was given no cursor. */
  predicate ToldNothingRemains(filters: Filters, calls: seq<Call>)
    requires calls != []
  {
    if |calls| == 1 then AnswerOf(filters, calls[0]).nextCursor.None? else ToldNothingRemains(filters, calls[1..])
  }

  predicate MatchesInEach(filters: Filters, calls: seq<Call>, name: string) {
    calls == [] || (Matches(calls[0].codes, filters, name) && MatchesInEach(filters, calls[1..], name))
  }

  /** A code a call does not list is still ahead of it, or the call is told nothing remains and there is none. */
  lemma CallMissesNone(filters: Filters, from: Option<string>, call: Call, name: string)
    requires call.limit >= 1 && IsPage(call.codes, filters, from, call.limit, call.page)
    requires After(from, name) && Matches(call.codes, filters, name)
    requires name !in CodesOf(AnswerOf(filters, call).rows)
    ensures AnswerOf(filters, call).nextCursor.Some?
    ensures After(GoesOnAfter(AnswerOf(filters, call), from), name)
  {
    NoCursorIffNothingRemains(call.codes, filters, from, call.limit, call.page, call.kept);
    AnswerInOrder(call.codes, filters, from, call.limit, call.page, call.kept);
  }

  /** Once no cursor is given, every code that matched in every catalog of the calls is listed. */
  lemma {:induction false} FollowingMissesNone(filters: Filters, from: Option<string>, calls: seq<Call>, name: string)
    requires CallsFrom(filters, from, calls) && calls != [] && ToldNothingRemains(filters, calls)
    requires After(from, name) && MatchesInEach(filters, calls, name)
    ensures name in Listed(filters, calls)
    decreases |calls|
  {
    var call := calls[0];
    if name !in CodesOf(AnswerOf(filters, call).rows) {
      CallMissesNone(filters, from, call, name);
      FollowingMissesNone(filters, GoesOnAfter(AnswerOf(filters, call), from), calls[1..], name);
    }
  }

  /** With one catalog the pages together are exactly the sorted list of the codes that match. */
  lemma FollowingListsTheWholeCatalog(filters: Filters, calls: seq<Call>, codes: Catalog, sorted: seq<string>)
    requires CallsFrom(filters, None, calls) && calls != [] && ToldNothingRemains(filters, calls)
    requires forall k :: 0 <= k < |calls| ==> calls[k].codes == codes
    requires Increasing(sorted) && forall name :: name in sorted <==> Matches(codes, filters, name)
    ensures Listed(filters, calls) == sorted
  {
    FollowingStaysInOrder(filters, None, calls);
    forall name | Matches(codes, filters, name) ensures name in Listed(filters, calls) {
      SameCatalogMatches(filters, calls, codes, name);
      FollowingMissesNone(filters, None, calls, name);
    }
    ListedMatch(filters, None, calls, codes);
    OrderIsUnique(Listed(filters, calls), sorted);
  }

  lemma {:induction false} SameCatalogMatches(filters: Filters, calls: seq<Call>, codes: Catalog, name: string)
    requires forall k :: 0 <= k < |calls| ==> calls[k].codes == codes
    requires Matches(codes, filters, name)
    ensures MatchesInEach(filters, calls, name)
    decreases |calls|
  {
    if calls != [] {
      SameCatalogMatches(filters, calls[1..], codes, name);
    }
  }

  lemma {:induction false} ListedMatch(filters: Filters, from: Option<string>, calls: seq<Call>, codes: Catalog)
    requires CallsFrom(filters, from, calls)
    requires forall k :: 0 <= k < |calls| ==> calls[k].codes == codes
    ensures forall name :: name in Listed(filters, calls) ==> Matches(codes, filters, name)
    decreases |calls|
  {
    if calls != [] {
      var answer := AnswerOf(filters, calls[0]);
      ListedMatch(filters, GoesOnAfter(answer, from), calls[1..], codes);
      assert forall i :: 0 <= i < |answer.rows| ==> answer.rows[i] == calls[0].page.rows[i];
    }
  }

  /** The codes that match. */
  function MatchingCodes(codes: Catalog, filters: Filters): set<string> {
    set name | name in codes && Matches(codes, filters, name)
  }

  /** Each call that is given a cursor has listed a row when it keeps one. */
  lemma {:induction false} EachCallListsARow(filters: Filters, from: Option<string>, calls: seq<Call>)
    requires CallsFrom(filters, from, calls) && forall k :: 0 <= k < |calls| ==> calls[k].kept >= 1
    ensures |calls| <= |Listed(filters, calls)| + 1
    decreases |calls|
  {
    if |calls| > 1 {
      EachCallListsARow(filters, GoesOnAfter(AnswerOf(filters, calls[0]), from), calls[1..]);
    }
  }

  /** So following the cursors of one catalog ends: it takes at most one call more than codes match. */
  lemma FollowingEnds(filters: Filters, calls: seq<Call>, codes: Catalog)
    requires CallsFrom(filters, None, calls) && forall k :: 0 <= k < |calls| ==> calls[k].codes == codes && calls[k].kept >= 1
    ensures |calls| <= |MatchingCodes(codes, filters)| + 1
  {
    var listed := Listed(filters, calls);
    EachCallListsARow(filters, None, calls);
    FollowingStaysInOrder(filters, None, calls);
    ListedMatch(filters, None, calls, codes);
    IncreasingSize(listed);
    SubsetSize(NamesIn(listed), MatchingCodes(codes, filters));
  }
}
