/**
 `parse_log` of the gate tooling: a test log in which cargo's headers (stderr) land anywhere among
 libtest's session lines (stdout). Each stream keeps its own order, so the k-th session belongs to the
 k-th `Running` header. A line is taken as already classified by the expressions that recognise it.
 */
module LogParser {
  import opened Wrappers

  /** libtest's result words `ok`, `FAILED` and `ignored`. */
  datatype Status = Passed | Failed | Ignored

  datatype Summary = Summary(passed: nat, failed: nat, ignored: nat, measured: nat, filtered: nat)

  /**
   A classified line. The name of a result or started line is `None` when it is no libtest path;
   `trybuild` marks trybuild's own per-file line, which such a line may also be.
   */
  datatype Line =
    | Running(exe: string)
    | DocTests
    | Count(count: nat)
    | SummaryLine(summary: Summary)
    | ResultLine(name: Option<string>, status: Status, trybuild: bool)
    | StartedLine(name: Option<string>, trybuild: bool)
    | Token(status: Status)
    | Other

  predicate IsTrybuild(line: Line) {
    (line.ResultLine? || line.StartedLine?) && line.trybuild
  }

  /** A trybuild line names a file, never a libtest path. */
  predicate WellClassified(line: Line) {
    IsTrybuild(line) ==> line.name.None?
  }

  predicate IsHeader(line: Line) { line.Running? || line.DocTests? }

  datatype Failure =
    | OutsideSession(line: Line)
    | SecondResult(name: string)
    | DocTestsBeforeRunning
    | WrongSessionCount(tests: nat, docs: nat, sessions: nat)
    | MissingFromTable(exe: string)
    | StartedWithoutResult(name: string)
    | NoSummary
    | WrongTotal(attributed: nat, running: nat, total: nat)
    | WrongStatus(status: Status, seen: nat, said: nat)

  /** One libtest session as read. */
  datatype Session = Session(
    running: nat,
    summary: Option<Summary>,
    results: map<string, Status>,
    pending: Option<string>,
    foreign: nat,
    nested: nat)

  /** What the stdout lines have been read to; an open session is the last one. */
  datatype Stdout = Stdout(sessions: seq<Session>, open: bool, failures: seq<Failure>)

  /** A binary with its attributed results. */
  datatype Attributed = Attributed(package: string, target: string, exe: string, session: Session)

  type ExeTable = map<string, (string, string)>

  // ----- One line

  function Last(out: Stdout): Session
    requires out.sessions != []
  {
    out.sessions[|out.sessions| - 1]
  }

  function WithLast(out: Stdout, session: Session): Stdout
    requires out.sessions != []
  {
    out.(sessions := out.sessions[|out.sessions| - 1 := session])
  }

  /** `record`: a second result of one name is a failure and changes nothing. */
  function Record(out: Stdout, name: string, status: Status): Stdout
    requires out.sessions != []
  {
    var session := Last(out).(pending := None);
    if name in session.results
    then WithLast(out, session).(failures := out.failures + [SecondResult(name)])
    else WithLast(out, session.(results := session.results[name := status]))
  }

  predicate IsLibtest(line: Line) {
    line.Count? || line.ResultLine? || line.SummaryLine? || line.StartedLine?
  }

  /** The open session is the last one and has no summary. */
  predicate OpenIsLast(out: Stdout) {
    out.open ==> out.sessions != [] && Last(out).summary.None?
  }

  /** One stdout line. */
  function ReadLine(out: Stdout, line: Line): (after: Stdout)
    requires OpenIsLast(out)
    ensures OpenIsLast(after)
  {
    if !out.open then
      if line.Count? then
        Stdout(out.sessions + [Session(line.count, None, map[], None, 0, 0)], true, out.failures)
      else if IsTrybuild(line) then
        if out.sessions == [] then out else WithLast(out, Last(out).(foreign := Last(out).foreign + 1))
      else if line.ResultLine? || line.SummaryLine? || line.StartedLine? then
        out.(failures := out.failures + [OutsideSession(line)])
      else out
    else
      var session := Last(out);
      if session.pending.Some? then
        if line.Token? then Record(out, session.pending.value, line.status)
        else if IsLibtest(line) then WithLast(out, session.(nested := session.nested + 1))
        else out
      else
        match line
        case Count(_) => WithLast(out, session.(nested := session.nested + 1))
        case SummaryLine(summary) => WithLast(out, session.(summary := Some(summary))).(open := false)
        case ResultLine(Some(name), status, _) => Record(out, name, status)
        case ResultLine(None, _, _) => WithLast(out, session.(foreign := session.foreign + 1))
        case StartedLine(Some(name), _) => WithLast(out, session.(pending := Some(name)))
        case StartedLine(None, _) => WithLast(out, session.(foreign := session.foreign + 1))
        case _ => out
  }

  const NOTHING := Stdout([], false, [])

  function ReadLines(out: Stdout, lines: seq<Line>): (after: Stdout)
    requires OpenIsLast(out)
    ensures OpenIsLast(after)
    decreases |lines|
  {
    if lines == [] then out
    else if IsHeader(lines[0]) then ReadLines(out, lines[1..])
    else ReadLines(ReadLine(out, lines[0]), lines[1..])
  }

  /** The headers, `None` for a `Doc-tests` one. */
  function HeadersOf(lines: seq<Line>): seq<Option<string>> {
    if lines == [] then []
    else if lines[0].Running? then [Some(lines[0].exe)] + HeadersOf(lines[1..])
    else if lines[0].DocTests? then [None] + HeadersOf(lines[1..])
    else HeadersOf(lines[1..])
  }

  // ----- Attribution

  function Total(summary: Summary): nat {
    summary.passed + summary.failed + summary.ignored + summary.measured
  }

  function WithStatus(results: map<string, Status>, status: Status): set<string> {
    set name | name in results && results[name] == status
  }

  function CountOf(results: map<string, Status>, status: Status): nat {
    |WithStatus(results, status)|
  }

  function WrongStatusOf(results: map<string, Status>, status: Status, said: nat): seq<Failure> {
    if CountOf(results, status) == said then [] else [WrongStatus(status, CountOf(results, status), said)]
  }

  /** `check_binary`. */
  function CheckBinary(session: Session): seq<Failure> {
    (if session.pending.Some? then [StartedWithoutResult(session.pending.value)] else []) +
    match session.summary
    case None => [NoSummary]
    case Some(summary) =>
      var attributed := |session.results|;
      (if attributed != session.running || attributed != Total(summary)
       then [WrongTotal(attributed, session.running, Total(summary))] else []) +
      WrongStatusOf(session.results, Passed, summary.passed) +
      WrongStatusOf(session.results, Failed, summary.failed) +
      WrongStatusOf(session.results, Ignored, summary.ignored)
  }

  /** The exes of the `Running` headers. */
  function TestsOf(headers: seq<Option<string>>): (tests: seq<string>)
    ensures |tests| <= |headers|
  {
    if headers == [] then []
    else if headers[0].Some? then [headers[0].value] + TestsOf(headers[1..])
    else TestsOf(headers[1..])
  }

  /** The first `n` sessions zipped with the first `n` exes: what is attributed and what is wrong with it. */
  function AttributeFirst(tests: seq<string>, sessions: seq<Session>, table: ExeTable, n: nat): (seq<Attributed>, seq<Failure>)
    requires n <= |tests| <= |sessions|
  {
    if n == 0 then ([], []) else
      var (binaries, failures) := AttributeFirst(tests, sessions, table, n - 1);
      var exe, session := tests[n - 1], sessions[n - 1];
      if exe !in table then (binaries, failures + [MissingFromTable(exe)])
      else (binaries + [Attributed(table[exe].0, table[exe].1, exe, session)], failures + CheckBinary(session))
  }

  /** Whether the `Doc-tests` order test refuses the headers. */
  predicate DocTestsTooEarly(headers: seq<Option<string>>) {
    exists i :: 0 <= i < |TestsOf(headers)| && headers[i].None?
  }

  predicate SessionCountWrong(headers: seq<Option<string>>, sessions: nat) {
    sessions < |headers| || (|headers| == |TestsOf(headers)| && sessions != |headers|)
  }

  function Finish(headers: seq<Option<string>>, out: Stdout, table: ExeTable): (seq<Attributed>, seq<Failure>) {
    var tests := TestsOf(headers);
    if DocTestsTooEarly(headers) then ([], out.failures + [DocTestsBeforeRunning])
    else if SessionCountWrong(headers, |out.sessions|) then
      ([], out.failures + [WrongSessionCount(|tests|, |headers| - |tests|, |out.sessions|)])
    else
      var attributed := AttributeFirst(tests, out.sessions, table, |tests|);
      (attributed.0, out.failures + attributed.1)
  }

  /** Every test binary of a log with its attributed results; the failures. */
  function Parse(lines: seq<Line>, table: ExeTable): (seq<Attributed>, seq<Failure>) {
    Finish(HeadersOf(lines), ReadLines(NOTHING, lines), table)
  }

  // ----- The order test

  lemma {:induction false} TestsAllFirst(headers: seq<Option<string>>, n: nat)
    requires n <= |headers|
    requires forall i :: 0 <= i < n ==> headers[i].Some?
    requires forall i :: n <= i < |headers| ==> headers[i].None?
    ensures |TestsOf(headers)| == n
    decreases |headers|
  {
    if headers != [] {
      TestsAllFirst(headers[1..], if n > 0 then n - 1 else 0);
    }
  }

  lemma {:induction false} TestsBounded(headers: seq<Option<string>>, n: nat)
    requires n <= |headers|
    requires forall i :: 0 <= i < n ==> headers[i].Some?
    ensures |TestsOf(headers)| >= n
    ensures n < |headers| && headers[n].None? && (exists j :: n < j < |headers| && headers[j].Some?) ==> |TestsOf(headers)| > n
    decreases |headers|
  {
    if headers != [] {
      if n > 0 {
        if n < |headers| && headers[n].None? && (exists j :: n < j < |headers| && headers[j].Some?) {
          var j :| n < j < |headers| && headers[j].Some?;
          assert headers[1..][j - 1].Some?;
        }
        TestsBounded(headers[1..], n - 1);
      } else if exists j :: 0 < j < |headers| && headers[j].Some? {
        var j :| 0 < j < |headers| && headers[j].Some?;
        SomeTest(headers, j);
      }
    }
  }

  lemma {:induction false} SomeTest(headers: seq<Option<string>>, j: nat)
    requires j < |headers| && headers[j].Some?
    ensures |TestsOf(headers)| > 0
    decreases |headers|
  {
    if headers[0].None? {
      SomeTest(headers[1..], j - 1);
    }
  }

  lemma {:induction false} FirstDocTests(headers: seq<Option<string>>) returns (n: nat)
    ensures n <= |headers|
    ensures forall i :: 0 <= i < n ==> headers[i].Some?
    ensures n < |headers| ==> headers[n].None?
  {
    n := 0;
    while n < |headers| && headers[n].Some?
      invariant n <= |headers|
      invariant forall i :: 0 <= i < n ==> headers[i].Some?
    {
      n := n + 1;
    }
  }

  /** The order test refuses a log exactly when some `Doc-tests` header comes before some `Running` header. */
  lemma OrderTestIsExact(headers: seq<Option<string>>)
    ensures DocTestsTooEarly(headers) <==> exists i, j :: 0 <= i < j < |headers| && headers[i].None? && headers[j].Some?
  {
    var n := FirstDocTests(headers);
    TestsBounded(headers, n);
    if exists j :: n < j < |headers| && headers[j].Some? {
      assert headers[n].None?;
    } else {
      TestsAllFirst(headers, n);
    }
  }
}
