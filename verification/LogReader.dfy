/** `parse_log` as the tooling runs it: line by line, mutating the open session in place. */
module LogReader {
  import opened Wrappers
  import opened LogParser

  /** One libtest session, and once attributed the binary it belongs to. */
  class Binary {
    var owner: Option<(string, string, string)>
    var running: nat
    var summary: Option<Summary>
    var results: map<string, Status>
    var pending: Option<string>
    var foreign: nat
    var nested: nat

    constructor (count: nat)
      ensures View() == Session(count, None, map[], None, 0, 0) && owner == None
    {
      owner, running, summary, results, pending, foreign, nested := None, count, None, map[], None, 0, 0;
    }

    function View(): Session
      reads this
    {
      Session(running, summary, results, pending, foreign, nested)
    }
  }

  function Views(sessions: seq<Binary>): (views: seq<Session>)
    reads sessions
    ensures |views| == |sessions|
    ensures forall i :: 0 <= i < |sessions| ==> views[i] == sessions[i].View()
  {
    if sessions == [] then [] else Views(sessions[..|sessions| - 1]) + [sessions[|sessions| - 1].View()]
  }

  ghost predicate Distinct(sessions: seq<Binary>) {
    forall i, j :: 0 <= i < j < |sessions| ==> sessions[i] != sessions[j]
  }

  /** The reading so far; an open session is the last of the list. */
  ghost function Reading(sessions: seq<Binary>, session: Binary?, failures: seq<Failure>): Stdout
    reads sessions
  {
    Stdout(Views(sessions), session != null, failures)
  }

  ghost predicate Consistent(sessions: seq<Binary>, session: Binary?) {
    Distinct(sessions) && (session != null ==> sessions != [] && session == sessions[|sessions| - 1])
  }

  /** `record`: a second result of one name is a failure and changes nothing. */
  method Record(binary: Binary, name: string, result: Status, failures: seq<Failure>) returns (after: seq<Failure>)
    modifies binary
    ensures binary.owner == old(binary.owner)
    ensures if name in old(binary.results)
            then binary.View() == old(binary.View()) && after == failures + [SecondResult(name)]
            else binary.View() == old(binary.View()).(results := old(binary.results)[name := result]) && after == failures
  {
    if name in binary.results {
      return failures + [SecondResult(name)];
    }
    binary.results := binary.results[name := result];
    after := failures;
  }

  /** One stdout line inside the open session `session`. */
  method ReadInside(ghost sessions: seq<Binary>, session: Binary, failures: seq<Failure>, line: Line)
    returns (open: bool, after: seq<Failure>)
    requires Consistent(sessions, session) && OpenIsLast(Reading(sessions, session, failures))
    modifies session
    ensures session.owner == old(session.owner)
    ensures Reading(sessions, if open then session else null, after) == ReadLine(old(Reading(sessions, session, failures)), line)
  {
    ghost var before := Views(sessions);
    ghost var last := |sessions| - 1;
    assert before[last] == session.View();
    open, after := true, failures;
    if session.pending.Some? {
      if line.Token? {
        after := Record(session, session.pending.value, line.status, failures);
        session.pending := None;
      } else if IsLibtest(line) {
        session.nested := session.nested + 1;
      }
    } else {
      match line {
        case Count(_) => session.nested := session.nested + 1;
        case SummaryLine(summary) => session.summary := Some(summary); open := false;
        case ResultLine(Some(name), status, _) => after := Record(session, name, status, failures);
        case ResultLine(None, _, _) => session.foreign := session.foreign + 1;
        case StartedLine(Some(name), _) => session.pending := Some(name);
        case StartedLine(None, _) => session.foreign := session.foreign + 1;
        case _ =>
      }
    }
    assert Views(sessions) == before[last := session.View()];
  }

  /** One stdout line. */
  method ReadStdout(sessions: seq<Binary>, session: Binary?, failures: seq<Failure>, line: Line)
    returns (now: seq<Binary>, open: Binary?, after: seq<Failure>)
    requires Consistent(sessions, session) && OpenIsLast(Reading(sessions, session, failures))
    modifies sessions
    ensures sessions <= now && Consistent(now, open)
    ensures forall i :: |sessions| <= i < |now| ==> fresh(now[i])
    ensures Reading(now, open, after) == ReadLine(old(Reading(sessions, session, failures)), line)
  {
    ghost var before := Views(sessions);
    now, open, after := sessions, session, failures;
    if session != null {
      var stays;
      stays, after := ReadInside(sessions, session, failures, line);
      open := if stays then session else null;
    } else if line.Count? {
      open := new Binary(line.count);
      now := sessions + [open];
      assert now[..|now| - 1] == sessions;
    } else if IsTrybuild(line) {
      if sessions != [] {
        var last := sessions[|sessions| - 1];
        last.foreign := last.foreign + 1;
        assert Views(sessions) == before[|sessions| - 1 := last.View()];
      }
    } else if line.ResultLine? || line.SummaryLine? || line.StartedLine? {
      after := failures + [OutsideSession(line)];
    }
  }

  /** Both streams of a log. */
  method ReadStreams(lines: seq<Line>) returns (headers: seq<Option<string>>, sessions: seq<Binary>, failures: seq<Failure>)
    ensures headers == HeadersOf(lines)
    ensures Distinct(sessions) && forall i :: 0 <= i < |sessions| ==> fresh(sessions[i])
    ensures Views(sessions) == ReadLines(NOTHING, lines).sessions && failures == ReadLines(NOTHING, lines).failures
  {
    var session: Binary? := null;
    headers, sessions, failures := [], [], [];
    var i := 0;
    while i < |lines|
      invariant 0 <= i <= |lines|
      invariant Consistent(sessions, session) && OpenIsLast(Reading(sessions, session, failures))
      invariant forall i :: 0 <= i < |sessions| ==> fresh(sessions[i])
      invariant headers + HeadersOf(lines[i..]) == HeadersOf(lines)
      invariant ReadLines(Reading(sessions, session, failures), lines[i..]) == ReadLines(NOTHING, lines)
    {
      var line := lines[i];
      assert lines[i..][0] == line && lines[i..][1..] == lines[i + 1..];
      if line.Running? {
        headers := headers + [Some(line.exe)];
      } else if line.DocTests? {
        headers := headers + [None];
      } else {
        sessions, session, failures := ReadStdout(sessions, session, failures, line);
      }
      i := i + 1;
    }
  }

  /** The attribution a binary carries. */
  function Attribution(binary: Binary): Attributed
    reads binary
    requires binary.owner.Some?
  {
    Attributed(binary.owner.value.0, binary.owner.value.1, binary.owner.value.2, binary.View())
  }

  function Attributions(binaries: seq<Binary>): seq<Attributed>
    reads binaries
    requires forall b :: b in binaries ==> b.owner.Some?
  {
    if binaries == [] then [] else [Attribution(binaries[0])] + Attributions(binaries[1..])
  }

  lemma {:induction false} AttributionsAppend(binaries: seq<Binary>, binary: Binary)
    requires forall b :: b in binaries ==> b.owner.Some?
    requires binary.owner.Some?
    ensures Attributions(binaries + [binary]) == Attributions(binaries) + [Attribution(binary)]
    decreases |binaries|
  {
    if binaries != [] {
      assert (binaries + [binary])[1..] == binaries[1..] + [binary];
      AttributionsAppend(binaries[1..], binary);
    }
  }

  lemma {:induction false} TestsAppend(headers: seq<Option<string>>, header: Option<string>)
    ensures TestsOf(headers + [header]) == TestsOf(headers) + if header.Some? then [header.value] else []
    decreases |headers|
  {
    if headers == [] {
      assert (headers + [header])[1..] == [];
    } else {
      assert (headers + [header])[1..] == headers[1..] + [header];
      TestsAppend(headers[1..], header);
    }
  }

  /** The exes of the `Running` headers, and whether a `Doc-tests` header stands among the first of them. */
  method SplitHeaders(headers: seq<Option<string>>) returns (tests: seq<string>, tooEarly: bool)
    ensures tests == TestsOf(headers)
    ensures tooEarly == DocTestsTooEarly(headers)
  {
    tests := [];
    for i := 0 to |headers|
      invariant tests == TestsOf(headers[..i])
    {
      assert headers[..i + 1] == headers[..i] + [headers[i]];
      TestsAppend(headers[..i], headers[i]);
      if headers[i].Some? {
        tests := tests + [headers[i].value];
      }
    }
    assert headers[..|headers|] == headers;
    tooEarly := false;
    for i := 0 to |tests|
      invariant tooEarly == exists j :: 0 <= j < i && headers[j].None?
    {
      tooEarly := tooEarly || headers[i].None?;
    }
  }

  /** Gives a session its binary and lists it. */
  method Own(binaries: seq<Binary>, binary: Binary, owner: (string, string, string)) returns (more: seq<Binary>)
    requires binary !in binaries && forall b :: b in binaries ==> b.owner.Some?
    modifies binary
    ensures binary.View() == old(binary.View())
    ensures more == binaries + [binary] && forall b :: b in more ==> b.owner.Some?
    ensures Attributions(more) == old(Attributions(binaries)) + [Attributed(owner.0, owner.1, owner.2, old(binary.View()))]
  {
    binary.owner := Some(owner);
    more := binaries + [binary];
    AttributionsAppend(binaries, binary);
  }

  /** The k-th session belongs to the k-th exe. */
  method AttributeSessions(tests: seq<string>, sessions: seq<Binary>, table: ExeTable)
    returns (binaries: seq<Binary>, failures: seq<Failure>)
    requires |tests| <= |sessions| && Distinct(sessions)
    modifies sessions
    ensures forall b :: b in binaries ==> b.owner.Some?
    ensures Attributions(binaries) == AttributeFirst(tests, old(Views(sessions)), table, |tests|).0
    ensures failures == AttributeFirst(tests, old(Views(sessions)), table, |tests|).1
  {
    ghost var views := Views(sessions);
    binaries, failures := [], [];
    var k := 0;
    while k < |tests|
      invariant 0 <= k <= |tests|
      invariant forall i :: 0 <= i < |sessions| ==> sessions[i].View() == views[i]
      invariant forall b :: b in binaries ==> b in sessions[..k] && b.owner.Some?
      invariant Attributions(binaries) == AttributeFirst(tests, views, table, k).0
      invariant failures == AttributeFirst(tests, views, table, k).1
    {
      var exe, binary := tests[k], sessions[k];
      if exe !in table {
        failures := failures + [MissingFromTable(exe)];
      } else {
        assert binary !in binaries;
        binaries := Own(binaries, binary, (table[exe].0, table[exe].1, exe));
        failures := failures + CheckBinary(binary.View());
      }
      k := k + 1;
    }
  }

  /** `parse_log`: every test binary of a log with its attributed results, and the failures. */
  method ParseLog(lines: seq<Line>, table: ExeTable) returns (binaries: seq<Binary>, failures: seq<Failure>)
    ensures forall b :: b in binaries ==> b.owner.Some?
    ensures Attributions(binaries) == Parse(lines, table).0
    ensures failures == Parse(lines, table).1
  {
    var headers, sessions, found := ReadStreams(lines);
    var tests, tooEarly := SplitHeaders(headers);
    if tooEarly {
      return [], found + [DocTestsBeforeRunning];
    }
    var docs := |headers| - |tests|;
    if |sessions| < |tests| + docs || (docs == 0 && |sessions| != |tests|) {
      return [], found + [WrongSessionCount(|tests|, docs, |sessions|)];
    }
    var wrong;
    binaries, wrong := AttributeSessions(tests, sessions, table);
    failures := found + wrong;
  }
}
