/** Printing a test run as cargo and libtest print it, and parsing it back. */
module LogPrinter {
  import opened Wrappers
  import opened LogParser
  import opened LogStreams

  /**
   One test as libtest prints it: on one line, or (`Split`) its name first and its result word later,
   with whatever its children wrote in between.
   */
  datatype Test = OneLine(name: string, status: Status) | Split(name: string, status: Status, between: seq<Line>)

  datatype TestBinary = TestBinary(exe: string, tests: seq<Test>, filtered: nat)

  /** One session of documentation tests: their names are no libtest paths. */
  datatype DocSession = DocSession(statuses: seq<Status>, summary: Summary)

  /** A whole run: the test binaries, then the documentation tests under their headers. */
  datatype TestRun = TestRun(binaries: seq<TestBinary>, docHeaders: nat, docSessions: seq<DocSession>)

  ghost predicate Printable(test: Test) {
    test.Split? ==> forall i :: 0 <= i < |test.between| ==> !test.between[i].Token? && !IsHeader(test.between[i])
  }

  ghost predicate DistinctTests(tests: seq<Test>) {
    forall i, j :: 0 <= i < j < |tests| ==> tests[i].name != tests[j].name
  }

  ghost predicate ValidRun(run: TestRun, table: ExeTable) {
    && (forall i :: 0 <= i < |run.binaries| ==>
          && run.binaries[i].exe in table && DistinctTests(run.binaries[i].tests)
          && (forall j :: 0 <= j < |run.binaries[i].tests| ==> Printable(run.binaries[i].tests[j])))
    && |run.docSessions| >= run.docHeaders && (run.docHeaders == 0 ==> run.docSessions == [])
  }

  // ----- Printing

  function PrintTest(test: Test): seq<Line> {
    match test
    case OneLine(name, status) => [ResultLine(Some(name), status, false)]
    case Split(name, status, between) => [StartedLine(Some(name), false)] + between + [Token(status)]
  }

  function PrintTests(tests: seq<Test>): seq<Line> {
    if tests == [] then [] else PrintTests(tests[..|tests| - 1]) + PrintTest(tests[|tests| - 1])
  }

  function CountTests(tests: seq<Test>, status: Status): (count: nat)
    ensures count <= |tests|
  {
    if tests == [] then 0 else
      CountTests(tests[..|tests| - 1], status) + if tests[|tests| - 1].status == status then 1 else 0
  }

  function SummaryOf(binary: TestBinary): Summary {
    Summary(CountTests(binary.tests, Passed), CountTests(binary.tests, Failed), CountTests(binary.tests, Ignored), 0, binary.filtered)
  }

  function PrintBinary(binary: TestBinary): seq<Line> {
    [Count(|binary.tests|)] + PrintTests(binary.tests) + [SummaryLine(SummaryOf(binary))]
  }

  function PrintBinaries(binaries: seq<TestBinary>): seq<Line> {
    if binaries == [] then [] else PrintBinaries(binaries[..|binaries| - 1]) + PrintBinary(binaries[|binaries| - 1])
  }

  function DocLines(statuses: seq<Status>): seq<Line> {
    if statuses == [] then [] else [ResultLine(None, statuses[0], false)] + DocLines(statuses[1..])
  }

  function PrintDocs(sessions: seq<DocSession>): seq<Line> {
    if sessions == [] then [] else
      [Count(|sessions[0].statuses|)] + DocLines(sessions[0].statuses) + [SummaryLine(sessions[0].summary)] + PrintDocs(sessions[1..])
  }

  function ExesOf(binaries: seq<TestBinary>): (exes: seq<string>)
    ensures |exes| == |binaries| && forall i :: 0 <= i < |exes| ==> exes[i] == binaries[i].exe
  {
    seq(|binaries|, i requires 0 <= i < |binaries| => binaries[i].exe)
  }

  /** A `Running` header for each exe, then the `Doc-tests` headers. */
  function HeadersFor(exes: seq<string>, docs: nat): seq<Option<string>> {
    if exes != [] then [Some(exes[0])] + HeadersFor(exes[1..], docs)
    else if docs > 0 then [None] + HeadersFor([], docs - 1)
    else []
  }

  function HeaderStream(run: TestRun): seq<Option<string>> {
    HeadersFor(ExesOf(run.binaries), run.docHeaders)
  }

  function StdoutStream(run: TestRun): seq<Line> {
    PrintBinaries(run.binaries) + PrintDocs(run.docSessions)
  }

  // ----- What should be read back

  function ResultsOf(tests: seq<Test>): (results: map<string, Status>)
    ensures forall name :: name in results <==> exists i :: 0 <= i < |tests| && tests[i].name == name
  {
    if tests == [] then map[] else
      var last := tests[|tests| - 1];
      var results := ResultsOf(tests[..|tests| - 1]);
      assert forall i :: 0 <= i < |tests| - 1 ==> tests[i] == tests[..|tests| - 1][i];
      results[last.name := last.status]
  }

  function SessionOf(binary: TestBinary): Session {
    Session(|binary.tests|, Some(SummaryOf(binary)), ResultsOf(binary.tests), None, 0, 0)
  }

  function SessionsOf(binaries: seq<TestBinary>): (sessions: seq<Session>)
    ensures |sessions| == |binaries|
    ensures forall i :: 0 <= i < |binaries| ==> sessions[i] == SessionOf(binaries[i])
  {
    seq(|binaries|, i requires 0 <= i < |binaries| => SessionOf(binaries[i]))
  }

  function AttributedOf(binary: TestBinary, table: ExeTable): Attributed
    requires binary.exe in table
  {
    Attributed(table[binary.exe].0, table[binary.exe].1, binary.exe, SessionOf(binary))
  }

  // ----- Reading it back

  lemma {:induction false} ReadAppended(out: Stdout, a: seq<Line>, b: seq<Line>)
    requires OpenIsLast(out)
    ensures ReadLines(out, a + b) == ReadLines(ReadLines(out, a), b)
    decreases |a|
  {
    if a == [] {
      assert a + b == b;
    } else {
      assert (a + b)[1..] == a[1..] + b;
      ReadAppended(if IsHeader(a[0]) then out else ReadLine(out, a[0]), a[1..], b);
    }
  }

  lemma ReadOne(out: Stdout, line: Line)
    requires OpenIsLast(out) && !IsHeader(line)
    ensures ReadLines(out, [line]) == ReadLine(out, line)
  {
    assert [line][1..] == [];
    assert ReadLines(ReadLine(out, line), []) == ReadLine(out, line);
  }

  /** Lines between a test's name and its result word only count as child lines. */
  lemma {:induction false} BetweenIsIgnored(out: Stdout, lines: seq<Line>)
    requires OpenIsLast(out) && out.open && Last(out).pending.Some?
    requires forall i :: 0 <= i < |lines| ==> !lines[i].Token? && !IsHeader(lines[i])
    ensures var after := ReadLines(out, lines);
            Alike(after, out) && after.open && Last(after).pending == Last(out).pending
    decreases |lines|
  {
    if lines != [] {
      var next := ReadLine(out, lines[0]);
      AlikeBySessions(next, out);
      BetweenIsIgnored(next, lines[1..]);
    }
  }

  /** `out` with a session still open that holds these results. */
  function Opened(out: Stdout, running: nat, results: map<string, Status>): Stdout {
    Stdout(out.sessions + [Session(running, None, results, None, 0, 0)], true, out.failures)
  }

  lemma OneTest(base: Stdout, out: Stdout, running: nat, results: map<string, Status>, test: Test)
    requires OpenIsLast(out) && Alike(out, Opened(base, running, results))
    requires Printable(test) && test.name !in results
    ensures Alike(ReadLines(out, PrintTest(test)), Opened(base, running, results[test.name := test.status]))
  {
    AlikeSessions(out, Opened(base, running, results));
    assert QuietSession(Last(out)) == QuietSession(Last(Opened(base, running, results)));
    match test {
      case OneLine(name, status) =>
        ReadOne(out, ResultLine(Some(name), status, false));
        AlikeBySessions(ReadLines(out, PrintTest(test)), Opened(base, running, results[name := status]));
      case Split(name, status, between) =>
        var started := ReadLine(out, StartedLine(Some(name), false));
        ReadAppended(out, [StartedLine(Some(name), false)] + between, [Token(status)]);
        ReadAppended(out, [StartedLine(Some(name), false)], between);
        ReadOne(out, StartedLine(Some(name), false));
        BetweenIsIgnored(started, between);
        SplitTestEnds(base, out, running, results, name, status, started, ReadLines(started, between));
    }
  }

  lemma SplitTestEnds(base: Stdout, out: Stdout, running: nat, results: map<string, Status>, name: string,
                      status: Status, started: Stdout, waiting: Stdout)
    requires OpenIsLast(out) && Alike(out, Opened(base, running, results)) && name !in results
    requires started == ReadLine(out, StartedLine(Some(name), false))
    requires OpenIsLast(waiting) && Alike(waiting, started)
    ensures Alike(ReadLines(waiting, [Token(status)]), Opened(base, running, results[name := status]))
  {
    AlikeSessions(out, Opened(base, running, results));
    assert QuietSession(Last(out)) == QuietSession(Last(Opened(base, running, results)));
    AlikeSessions(waiting, started);
    assert QuietSession(Last(waiting)) == QuietSession(Last(started));
    ReadOne(waiting, Token(status));
    AlikeBySessions(ReadLine(waiting, Token(status)), Opened(base, running, results[name := status]));
  }

  lemma {:induction false} AllTests(base: Stdout, out: Stdout, running: nat, tests: seq<Test>)
    requires OpenIsLast(out) && Alike(out, Opened(base, running, map[]))
    requires DistinctTests(tests) && forall j :: 0 <= j < |tests| ==> Printable(tests[j])
    ensures Alike(ReadLines(out, PrintTests(tests)), Opened(base, running, ResultsOf(tests)))
    decreases |tests|
  {
    if tests != [] {
      var last, rest := tests[|tests| - 1], tests[..|tests| - 1];
      AllTests(base, out, running, rest);
      ReadAppended(out, PrintTests(rest), PrintTest(last));
      assert last.name !in ResultsOf(rest);
      OneTest(base, ReadLines(out, PrintTests(rest)), running, ResultsOf(rest), last);
    }
  }

  lemma OneBinary(out: Stdout, binary: TestBinary)
    requires !out.open
    requires DistinctTests(binary.tests) && forall j :: 0 <= j < |binary.tests| ==> Printable(binary.tests[j])
    ensures Alike(ReadLines(out, PrintBinary(binary)), out.(sessions := out.sessions + [SessionOf(binary)]))
  {
    var n := |binary.tests|;
    var summary := SummaryLine(SummaryOf(binary));
    ReadAppended(out, [Count(n)] + PrintTests(binary.tests), [summary]);
    ReadAppended(out, [Count(n)], PrintTests(binary.tests));
    ReadOne(out, Count(n));
    var begun := ReadLine(out, Count(n));
    AllTests(out, begun, n, binary.tests);
    var read := ReadLines(begun, PrintTests(binary.tests));
    AlikeSessions(read, Opened(out, n, ResultsOf(binary.tests)));
    assert QuietSession(Last(read)) == QuietSession(Last(Opened(out, n, ResultsOf(binary.tests))));
    ReadOne(read, summary);
    AlikeBySessions(ReadLine(read, summary), out.(sessions := out.sessions + [SessionOf(binary)]));
  }

  lemma {:induction false} AlikeLines(a: Stdout, b: Stdout, lines: seq<Line>)
    requires OpenIsLast(a) && OpenIsLast(b) && Alike(a, b)
    ensures Alike(ReadLines(a, lines), ReadLines(b, lines))
    decreases |lines|
  {
    if lines != [] {
      if IsHeader(lines[0]) {
        AlikeLines(a, b, lines[1..]);
      } else {
        AlikeLine(a, b, lines[0]);
        AlikeLines(ReadLine(a, lines[0]), ReadLine(b, lines[0]), lines[1..]);
      }
    }
  }

  lemma {:induction false} AllBinaries(binaries: seq<TestBinary>)
    requires forall i :: 0 <= i < |binaries| ==>
               DistinctTests(binaries[i].tests) && forall j :: 0 <= j < |binaries[i].tests| ==> Printable(binaries[i].tests[j])
    ensures Alike(ReadLines(NOTHING, PrintBinaries(binaries)), Stdout(SessionsOf(binaries), false, []))
    decreases |binaries|
  {
    if binaries == [] {
      assert SessionsOf(binaries) == [];
    } else {
      var last, rest := binaries[|binaries| - 1], binaries[..|binaries| - 1];
      AllBinaries(rest);
      var sofar := Stdout(SessionsOf(rest), false, []);
      ReadAppended(NOTHING, PrintBinaries(rest), PrintBinary(last));
      AlikeLines(ReadLines(NOTHING, PrintBinaries(rest)), sofar, PrintBinary(last));
      OneBinary(sofar, last);
      assert SessionsOf(rest) + [SessionOf(last)] == SessionsOf(binaries);
    }
  }

  lemma {:induction false} DocSessionBody(out: Stdout, statuses: seq<Status>)
    requires OpenIsLast(out) && out.open && Last(out).pending.None?
    ensures Alike(ReadLines(out, DocLines(statuses)), out)
    decreases |statuses|
  {
    if statuses != [] {
      var line := ResultLine(None, statuses[0], false);
      assert DocLines(statuses)[1..] == DocLines(statuses[1..]);
      var next := ReadLine(out, line);
      AlikeBySessions(next, out);
      DocSessionBody(next, statuses[1..]);
    }
  }

  lemma OneDocSession(out: Stdout, doc: DocSession)
    requires !out.open
    ensures var lines := [Count(|doc.statuses|)] + DocLines(doc.statuses) + [SummaryLine(doc.summary)];
            var after := ReadLines(out, lines);
            !after.open && after.failures == out.failures && |after.sessions| == |out.sessions| + 1
            && forall i :: 0 <= i < |out.sessions| ==> QuietSession(after.sessions[i]) == QuietSession(out.sessions[i])
  {
    var n, summary := |doc.statuses|, SummaryLine(doc.summary);
    ReadAppended(out, [Count(n)] + DocLines(doc.statuses), [summary]);
    ReadAppended(out, [Count(n)], DocLines(doc.statuses));
    ReadOne(out, Count(n));
    var begun := ReadLine(out, Count(n));
    DocSessionBody(begun, doc.statuses);
    var read := ReadLines(begun, DocLines(doc.statuses));
    AlikeSessions(read, begun);
    assert QuietSession(Last(read)) == QuietSession(Last(begun));
    ReadOne(read, summary);
  }

  /** Documentation sessions come after the others and change none of them. */
  lemma {:induction false} AllDocSessions(out: Stdout, sessions: seq<DocSession>)
    requires !out.open
    ensures var after := ReadLines(out, PrintDocs(sessions));
            !after.open && after.failures == out.failures && |after.sessions| == |out.sessions| + |sessions|
            && forall i :: 0 <= i < |out.sessions| ==> QuietSession(after.sessions[i]) == QuietSession(out.sessions[i])
    decreases |sessions|
  {
    if sessions != [] {
      var first := [Count(|sessions[0].statuses|)] + DocLines(sessions[0].statuses) + [SummaryLine(sessions[0].summary)];
      ReadAppended(out, first, PrintDocs(sessions[1..]));
      OneDocSession(out, sessions[0]);
      AllDocSessions(ReadLines(out, first), sessions[1..]);
    }
  }

  lemma CountWithOneMore(results: map<string, Status>, name: string, its: Status, status: Status)
    requires name !in results
    ensures CountOf(results[name := its], status) == CountOf(results, status) + if its == status then 1 else 0
    ensures |results[name := its]| == |results| + 1
  {
    var after := results[name := its];
    if its == status {
      assert WithStatus(after, status) == WithStatus(results, status) + {name};
    } else {
      assert WithStatus(after, status) == WithStatus(results, status);
    }
    assert after.Keys == results.Keys + {name};
  }

  lemma {:induction false} CountsOfResults(tests: seq<Test>, status: Status)
    requires DistinctTests(tests)
    ensures CountOf(ResultsOf(tests), status) == CountTests(tests, status)
    ensures |ResultsOf(tests)| == |tests|
    decreases |tests|
  {
    if tests != [] {
      var last, rest := tests[|tests| - 1], tests[..|tests| - 1];
      CountsOfResults(rest, status);
      CountWithOneMore(ResultsOf(rest), last.name, last.status, status);
    }
  }

  lemma {:induction false} CountsSum(tests: seq<Test>)
    ensures |tests| == CountTests(tests, Passed) + CountTests(tests, Failed) + CountTests(tests, Ignored)
    decreases |tests|
  {
    if tests != [] {
      CountsSum(tests[..|tests| - 1]);
    }
  }

  lemma PrintedSessionIsRight(binary: TestBinary, session: Session)
    requires DistinctTests(binary.tests) && QuietSession(session) == SessionOf(binary)
    ensures CheckBinary(session) == []
  {
    CheckIgnoresCounters(session, SessionOf(binary));
    CountsOfResults(binary.tests, Passed);
    CountsOfResults(binary.tests, Failed);
    CountsOfResults(binary.tests, Ignored);
    CountsSum(binary.tests);
  }

  lemma {:induction false} AttributesAll(exes: seq<string>, sessions: seq<Session>, table: ExeTable, n: nat)
    requires n <= |exes| <= |sessions|
    requires forall i :: 0 <= i < |exes| ==> exes[i] in table && CheckBinary(sessions[i]) == []
    ensures var answer := AttributeFirst(exes, sessions, table, n);
            && answer.1 == [] && |answer.0| == n
            && forall i :: 0 <= i < n ==> answer.0[i] == Attributed(table[exes[i]].0, table[exes[i]].1, exes[i], sessions[i])
  {
    if n > 0 {
      AttributesAll(exes, sessions, table, n - 1);
    }
  }

  lemma {:induction false} TestsOfPrinted(exes: seq<string>, docs: nat)
    ensures TestsOf(HeadersFor(exes, docs)) == exes
    ensures |HeadersFor(exes, docs)| == |exes| + docs
    ensures forall i :: 0 <= i < |exes| ==> HeadersFor(exes, docs)[i].Some?
    decreases |exes|, docs
  {
    var headers := HeadersFor(exes, docs);
    if exes != [] {
      TestsOfPrinted(exes[1..], docs);
      assert headers[1..] == HeadersFor(exes[1..], docs);
    } else if docs > 0 {
      TestsOfPrinted(exes, docs - 1);
      assert headers[1..] == HeadersFor([], docs - 1);
    }
  }

  lemma StdoutReadBack(run: TestRun, table: ExeTable)
    requires ValidRun(run, table)
    ensures var out := ReadLines(NOTHING, StdoutStream(run));
            && out.failures == [] && |out.sessions| == |run.binaries| + |run.docSessions|
            && forall i :: 0 <= i < |run.binaries| ==> QuietSession(out.sessions[i]) == SessionOf(run.binaries[i])
  {
    AllBinaries(run.binaries);
    var read := ReadLines(NOTHING, PrintBinaries(run.binaries));
    AlikeSessions(read, Stdout(SessionsOf(run.binaries), false, []));
    ReadAppended(NOTHING, PrintBinaries(run.binaries), PrintDocs(run.docSessions));
    AllDocSessions(read, run.docSessions);
  }

  lemma PrintedIsAttributed(run: TestRun, table: ExeTable, out: Stdout)
    requires ValidRun(run, table)
    requires out.failures == [] && |out.sessions| == |run.binaries| + |run.docSessions|
    requires forall i :: 0 <= i < |run.binaries| ==> QuietSession(out.sessions[i]) == SessionOf(run.binaries[i])
    ensures var answer, exes := Finish(HeaderStream(run), out, table), ExesOf(run.binaries);
            && answer.1 == [] && |answer.0| == |exes|
            && forall i :: 0 <= i < |exes| ==> answer.0[i] == Attributed(table[exes[i]].0, table[exes[i]].1, exes[i], out.sessions[i])
  {
    var exes := ExesOf(run.binaries);
    forall i | 0 <= i < |exes| ensures CheckBinary(out.sessions[i]) == [] {
      PrintedSessionIsRight(run.binaries[i], out.sessions[i]);
    }
    TestsOfPrinted(exes, run.docHeaders);
    AttributesAll(exes, out.sessions, table, |exes|);
  }

  /**
   Print, then parse: any log whose headers and whose libtest stream are those of a run, however they are
   interleaved and whatever trybuild and other lines fall among them, parses without a failure to
   exactly the run's binaries, each with its results, its count and its summary.
   */
  lemma PrintedRunParsesBack(run: TestRun, table: ExeTable, lines: seq<Line>)
    requires ValidRun(run, table)
    requires forall i :: 0 <= i < |lines| ==> WellClassified(lines[i])
    requires forall i :: 0 <= i < |StdoutStream(run)| ==> WellClassified(StdoutStream(run)[i])
    requires HeadersOf(lines) == HeaderStream(run) && SessionStream(lines) == SessionStream(StdoutStream(run))
    ensures Parse(lines, table).1 == []
    ensures |Parse(lines, table).0| == |run.binaries|
    ensures forall i :: 0 <= i < |run.binaries| ==>
              var b := Parse(lines, table).0[i];
              b.(session := QuietSession(b.session)) == AttributedOf(run.binaries[i], table)
  {
    var headers, printed := HeaderStream(run), ReadLines(NOTHING, StdoutStream(run));
    ReadingIsReadingTheStream(NOTHING, NOTHING, lines);
    ReadingIsReadingTheStream(NOTHING, NOTHING, StdoutStream(run));
    FinishAlike(headers, ReadLines(NOTHING, lines), printed, table);
    StdoutReadBack(run, table);
    PrintedIsAttributed(run, table, printed);
  }
}
