/**
 What `parse_log` promises: its answer depends on each stream alone and not on how the two are
 interleaved; and an answer without failures has attributed every result once.
 */
module LogStreams {
  import opened Wrappers
  import opened LogParser

  // ----- Up to the counters of foreign and child lines

  function QuietSession(session: Session): Session {
    session.(foreign := 0, nested := 0)
  }

  function QuietSessions(sessions: seq<Session>): (quiet: seq<Session>)
    ensures |quiet| == |sessions|
    ensures forall i :: 0 <= i < |sessions| ==> quiet[i] == QuietSession(sessions[i])
  {
    seq(|sessions|, i requires 0 <= i < |sessions| => QuietSession(sessions[i]))
  }

  function Quiet(out: Stdout): Stdout {
    out.(sessions := QuietSessions(out.sessions))
  }

  /** Two readings that differ at most in those counters. */
  predicate Alike(a: Stdout, b: Stdout) {
    Quiet(a) == Quiet(b)
  }

  predicate AlikeAttributed(a: seq<Attributed>, b: seq<Attributed>) {
    && |a| == |b|
    && forall i :: 0 <= i < |a| ==>
         a[i].(session := QuietSession(a[i].session)) == b[i].(session := QuietSession(b[i].session))
  }

  lemma AlikeSessions(a: Stdout, b: Stdout)
    requires Alike(a, b)
    ensures |a.sessions| == |b.sessions| && a.open == b.open && a.failures == b.failures
    ensures forall i :: 0 <= i < |a.sessions| ==> QuietSession(a.sessions[i]) == QuietSession(b.sessions[i])
  {
    assert |QuietSessions(a.sessions)| == |QuietSessions(b.sessions)|;
    forall i | 0 <= i < |a.sessions| ensures QuietSession(a.sessions[i]) == QuietSession(b.sessions[i]) {
      assert QuietSessions(a.sessions)[i] == QuietSessions(b.sessions)[i];
    }
  }

  lemma AlikeBySessions(a: Stdout, b: Stdout)
    requires |a.sessions| == |b.sessions| && a.open == b.open && a.failures == b.failures
    requires forall i :: 0 <= i < |a.sessions| ==> QuietSession(a.sessions[i]) == QuietSession(b.sessions[i])
    ensures Alike(a, b)
  {
    assert QuietSessions(a.sessions) == QuietSessions(b.sessions);
  }

  /** Reading one line keeps readings alike. */
  lemma AlikeLine(a: Stdout, b: Stdout, line: Line)
    requires OpenIsLast(a) && OpenIsLast(b) && Alike(a, b)
    ensures Alike(ReadLine(a, line), ReadLine(b, line))
  {
    AlikeSessions(a, b);
    if a.sessions != [] {
      assert QuietSession(Last(a)) == QuietSession(Last(b));
    }
    AlikeBySessions(ReadLine(a, line), ReadLine(b, line));
  }

  /** Lines that are no libtest result and never attributed: trybuild's and any other text. */
  predicate Ignorable(line: Line) {
    line.Other? || IsTrybuild(line)
  }

  lemma IgnorableLine(out: Stdout, line: Line)
    requires OpenIsLast(out) && Ignorable(line) && WellClassified(line)
    ensures Alike(ReadLine(out, line), out)
  {
    AlikeBySessions(ReadLine(out, line), out);
  }

  /** libtest's own stream: the log without headers and ignorable lines. */
  function SessionStream(lines: seq<Line>): seq<Line> {
    if lines == [] then []
    else if IsHeader(lines[0]) || Ignorable(lines[0]) then SessionStream(lines[1..])
    else [lines[0]] + SessionStream(lines[1..])
  }

  /** Reading a log is reading libtest's own stream. */
  lemma {:induction false} ReadingIsReadingTheStream(a: Stdout, b: Stdout, lines: seq<Line>)
    requires OpenIsLast(a) && OpenIsLast(b) && Alike(a, b)
    requires forall i :: 0 <= i < |lines| ==> WellClassified(lines[i])
    ensures Alike(ReadLines(a, lines), ReadLines(b, SessionStream(lines)))
    decreases |lines|
  {
    if lines != [] {
      var line, rest := lines[0], lines[1..];
      if IsHeader(line) {
        ReadingIsReadingTheStream(a, b, rest);
      } else if Ignorable(line) {
        IgnorableLine(a, line);
        ReadingIsReadingTheStream(ReadLine(a, line), b, rest);
      } else {
        AlikeLine(a, b, line);
        ReadingIsReadingTheStream(ReadLine(a, line), ReadLine(b, line), rest);
        assert SessionStream(lines)[1..] == SessionStream(rest);
      }
    }
  }

  lemma CheckIgnoresCounters(a: Session, b: Session)
    requires QuietSession(a) == QuietSession(b)
    ensures CheckBinary(a) == CheckBinary(b)
  {
  }

  lemma {:induction false} AttributeAlike(tests: seq<string>, a: seq<Session>, b: seq<Session>, table: ExeTable, n: nat)
    requires |a| == |b| && n <= |tests| <= |a|
    requires forall i :: 0 <= i < |a| ==> QuietSession(a[i]) == QuietSession(b[i])
    ensures AlikeAttributed(AttributeFirst(tests, a, table, n).0, AttributeFirst(tests, b, table, n).0)
    ensures AttributeFirst(tests, a, table, n).1 == AttributeFirst(tests, b, table, n).1
  {
    if n > 0 {
      AttributeAlike(tests, a, b, table, n - 1);
      CheckIgnoresCounters(a[n - 1], b[n - 1]);
    }
  }

  lemma FinishAlike(headers: seq<Option<string>>, a: Stdout, b: Stdout, table: ExeTable)
    requires Alike(a, b)
    ensures AlikeAttributed(Finish(headers, a, table).0, Finish(headers, b, table).0)
    ensures Finish(headers, a, table).1 == Finish(headers, b, table).1
  {
    AlikeSessions(a, b);
    if !DocTestsTooEarly(headers) && !SessionCountWrong(headers, |a.sessions|) {
      AttributeAlike(TestsOf(headers), a.sessions, b.sessions, table, |TestsOf(headers)|);
    }
  }

  /**
   Stream independence: two logs with the same headers in order and the same libtest stream, however the
   two are interleaved and wherever trybuild and other lines fall, attribute the same results, counts
   and summaries to the same binaries and report the same failures.
   */
  lemma InterleavingDoesNotMatter(one: seq<Line>, other: seq<Line>, table: ExeTable)
    requires forall i :: 0 <= i < |one| ==> WellClassified(one[i])
    requires forall i :: 0 <= i < |other| ==> WellClassified(other[i])
    requires HeadersOf(one) == HeadersOf(other) && SessionStream(one) == SessionStream(other)
    ensures AlikeAttributed(Parse(one, table).0, Parse(other, table).0)
    ensures Parse(one, table).1 == Parse(other, table).1
  {
    ReadingIsReadingTheStream(NOTHING, NOTHING, one);
    ReadingIsReadingTheStream(NOTHING, NOTHING, other);
    FinishAlike(HeadersOf(one), ReadLines(NOTHING, one), ReadLines(NOTHING, other), table);
  }

  // ----- What an answer without failures means

  /** Only the last session can lack its summary or wait for a result, and only while it is open. */
  ghost predicate OnlyLastUnfinished(out: Stdout) {
    forall i :: 0 <= i < |out.sessions| && (out.sessions[i].summary.None? || out.sessions[i].pending.Some?)
                ==> i == |out.sessions| - 1 && out.open
  }

  lemma {:induction false} OnlyLastStaysUnfinished(out: Stdout, lines: seq<Line>)
    requires OpenIsLast(out) && OnlyLastUnfinished(out)
    ensures OnlyLastUnfinished(ReadLines(out, lines))
    decreases |lines|
  {
    if lines != [] {
      OnlyLastStaysUnfinished(if IsHeader(lines[0]) then out else ReadLine(out, lines[0]), lines[1..]);
    }
  }

  /** The result a line records into the open session. */
  function ResultOf(out: Stdout, line: Line): Option<(string, Status)>
    requires OpenIsLast(out)
  {
    if !out.open then None
    else if Last(out).pending.Some? then (if line.Token? then Some((Last(out).pending.value, line.status)) else None)
    else if line.ResultLine? && line.name.Some? then Some((line.name.value, line.status))
    else None
  }

  /** Every result the lines record into session `k`, in order. */
  function ResultsInto(out: Stdout, lines: seq<Line>, k: nat): seq<(string, Status)>
    requires OpenIsLast(out)
    decreases |lines|
  {
    if lines == [] then []
    else if IsHeader(lines[0]) then ResultsInto(out, lines[1..], k)
    else
      var recorded := ResultOf(out, lines[0]);
      (if recorded.Some? && k == |out.sessions| - 1 then [recorded.value] else []) +
      ResultsInto(ReadLine(out, lines[0]), lines[1..], k)
  }

  ghost predicate DistinctNames(results: seq<(string, Status)>) {
    forall i, j :: 0 <= i < j < |results| ==> results[i].0 != results[j].0
  }

  /** `results` is `before` with each recorded result added, each under a new name. */
  ghost predicate AddedOneByOne(before: map<string, Status>, recorded: seq<(string, Status)>, results: map<string, Status>)
    decreases |recorded|
  {
    if recorded == [] then results == before else
      recorded[0].0 !in before && AddedOneByOne(before[recorded[0].0 := recorded[0].1], recorded[1..], results)
  }

  /** So the names are distinct and the results are those recorded, no more and no less. */
  lemma {:induction false} AddedMeansExactly(before: map<string, Status>, recorded: seq<(string, Status)>,
                                             results: map<string, Status>)
    requires AddedOneByOne(before, recorded, results)
    ensures DistinctNames(recorded)
    ensures |results| == |before| + |recorded|
    ensures forall name :: name in before ==> name in results && results[name] == before[name]
    ensures forall i :: 0 <= i < |recorded| ==>
              recorded[i].0 !in before && recorded[i].0 in results && results[recorded[i].0] == recorded[i].1
    decreases |recorded|
  {
    if recorded != [] {
      var next := before[recorded[0].0 := recorded[0].1];
      AddedMeansExactly(next, recorded[1..], results);
      assert |next| == |before| + 1;
      assert recorded[0].0 in next;
      forall i | 1 <= i < |recorded|
        ensures recorded[i].0 !in next && recorded[i].0 in results && results[recorded[i].0] == recorded[i].1
      {
        assert recorded[i] == recorded[1..][i - 1];
      }
      forall i, j | 0 <= i < j < |recorded| ensures recorded[i].0 != recorded[j].0 {
        if i > 0 {
          assert recorded[1..][i - 1].0 != recorded[1..][j - 1].0;
        }
      }
    }
  }

  function ResultsAt(out: Stdout, k: nat): map<string, Status> {
    if k < |out.sessions| then out.sessions[k].results else map[]
  }

  predicate NoSecondResult(failures: seq<Failure>) {
    forall i :: 0 <= i < |failures| ==> !failures[i].SecondResult?
  }

  lemma {:induction false} FailuresOnlyGrow(out: Stdout, lines: seq<Line>)
    requires OpenIsLast(out)
    ensures out.failures <= ReadLines(out, lines).failures
    ensures |out.sessions| <= |ReadLines(out, lines).sessions|
    decreases |lines|
  {
    if lines != [] {
      FailuresOnlyGrow(if IsHeader(lines[0]) then out else ReadLine(out, lines[0]), lines[1..]);
    }
  }

  /** Without a second result, each session holds every result recorded into it, each name once. */
  lemma {:induction false} EveryResultOnce(out: Stdout, lines: seq<Line>, k: nat)
    requires OpenIsLast(out)
    requires NoSecondResult(ReadLines(out, lines).failures)
    ensures AddedOneByOne(ResultsAt(out, k), ResultsInto(out, lines, k), ResultsAt(ReadLines(out, lines), k))
    decreases |lines|
  {
    if lines != [] {
      var line, rest := lines[0], lines[1..];
      if IsHeader(line) {
        EveryResultOnce(out, rest, k);
      } else {
        var next := ReadLine(out, line);
        EveryResultOnce(next, rest, k);
        FailuresOnlyGrow(next, rest);
        OneResult(out, line, k);
        var recorded := ResultOf(out, line);
        if recorded.Some? && k == |out.sessions| - 1 {
          assert ResultsInto(out, lines, k)[1..] == ResultsInto(next, rest, k);
        } else {
          assert ResultsInto(out, lines, k) == ResultsInto(next, rest, k);
        }
      }
    }
  }

  lemma OneResult(out: Stdout, line: Line, k: nat)
    requires OpenIsLast(out) && !IsHeader(line)
    requires out.failures <= ReadLine(out, line).failures && NoSecondResult(ReadLine(out, line).failures)
    ensures var recorded := ResultOf(out, line);
            if recorded.Some? && k == |out.sessions| - 1
            then
              && recorded.value.0 !in ResultsAt(out, k)
              && ResultsAt(ReadLine(out, line), k) == ResultsAt(out, k)[recorded.value.0 := recorded.value.1]
            else ResultsAt(ReadLine(out, line), k) == ResultsAt(out, k)
  {
    assert forall name :: out.failures + [SecondResult(name)] != [] && !NoSecondResult(out.failures + [SecondResult(name)]) by {
      forall name ensures !NoSecondResult(out.failures + [SecondResult(name)]) {
        assert (out.failures + [SecondResult(name)])[|out.failures|].SecondResult?;
      }
    }
  }

  lemma StatusesPartition(results: map<string, Status>)
    ensures |results| == CountOf(results, Passed) + CountOf(results, Failed) + CountOf(results, Ignored)
  {
    var passed, failed, ignored := WithStatus(results, Passed), WithStatus(results, Failed), WithStatus(results, Ignored);
    assert results.Keys == passed + failed + ignored;
    assert |passed + failed| == |passed| + |failed|;
    assert |passed + failed + ignored| == |passed + failed| + |ignored|;
  }

  /** A session `check_binary` finds nothing wrong with. */
  lemma CheckedSession(session: Session)
    requires CheckBinary(session) == []
    ensures session.pending.None? && session.summary.Some?
    ensures |session.results| == session.running == Total(session.summary.value)
    ensures CountOf(session.results, Passed) == session.summary.value.passed
    ensures CountOf(session.results, Failed) == session.summary.value.failed
    ensures CountOf(session.results, Ignored) == session.summary.value.ignored
    ensures session.summary.value.measured == 0
  {
    StatusesPartition(session.results);
  }

  lemma {:induction false} AttributedChecked(tests: seq<string>, sessions: seq<Session>, table: ExeTable, n: nat)
    requires n <= |tests| <= |sessions| && AttributeFirst(tests, sessions, table, n).1 == []
    ensures |AttributeFirst(tests, sessions, table, n).0| == n
    ensures forall i :: 0 <= i < n ==>
              var b := AttributeFirst(tests, sessions, table, n).0[i];
              && tests[i] in table && b.exe == tests[i] && (b.package, b.target) == table[tests[i]]
              && b.session == sessions[i] && CheckBinary(sessions[i]) == []
  {
    if n > 0 {
      AttributedChecked(tests, sessions, table, n - 1);
    }
  }

  /**
   A log that parses without failures: the k-th `Running` header's binary holds exactly the results its
   session recorded, each name once; their number is libtest's running count and its summary's total,
   each status agrees, and so nothing was measured.
   */
  lemma NoFailuresMeansAllAttributed(lines: seq<Line>, table: ExeTable, k: nat)
    requires Parse(lines, table).1 == []
    requires k < |TestsOf(HeadersOf(lines))|
    ensures |Parse(lines, table).0| == |TestsOf(HeadersOf(lines))|
    ensures var b := Parse(lines, table).0[k];
            var recorded := ResultsInto(NOTHING, lines, k);
            && b.exe == TestsOf(HeadersOf(lines))[k] && b.exe in table && (b.package, b.target) == table[b.exe]
            && DistinctNames(recorded)
            && (forall i :: 0 <= i < |recorded| ==> (recorded[i].0, recorded[i].1) in b.session.results.Items)
            && |recorded| == |b.session.results| == b.session.running
            && b.session.summary.Some? && |recorded| == Total(b.session.summary.value) && b.session.summary.value.measured == 0
            && CountOf(b.session.results, Passed) == b.session.summary.value.passed
            && CountOf(b.session.results, Failed) == b.session.summary.value.failed
            && CountOf(b.session.results, Ignored) == b.session.summary.value.ignored
  {
    var out, tests := ReadLines(NOTHING, lines), TestsOf(HeadersOf(lines));
    assert out.failures == [];
    AttributedChecked(tests, out.sessions, table, |tests|);
    EveryResultOnce(NOTHING, lines, k);
    CheckedSession(out.sessions[k]);
    AddedMeansExactly(map[], ResultsInto(NOTHING, lines, k), out.sessions[k].results);
  }
}
