/**
 The run reader of a diagnosis (`window_runs`). It lists the window's runs once, newest first, and
 feeds two answers from that one pass: `runs` (of the ten most recent runs, the failed and open
 ones) and `runs_grouped` (every failed or open run). It reads a run's status only when one of the
 two answers needs it, and it may be stopped before any read by the deadline or by a failure.

 The reference is the plain algorithm that reads every status: `PlainRuns` and `PlainGrouped`.
 */
module WindowRuns {
  import opened Wrappers

  const RECENT_RUNS: nat := 10
  const OUTCOME_RELAY_UNREGISTERED: string := "outcome_relay_unregistered"

  datatype RunState =
    | NotFound | Admitted | Running | Succeeded | Failed | Cancelled | InterruptedUnterminated

  predicate FailedOrOpen(state: RunState) {
    state.Failed? || state.Admitted? || state.Running? || state.InterruptedUnterminated?
  }

  datatype Dispatch = Manual | Scheduled | Unknown

  datatype Terminal = Terminal(failureCode: Option<string>, finalPage: Option<string>, sequence: nat)

  datatype RunStatus = RunStatus(
    state: RunState,
    taskId: Option<nat>,
    dispatch: Dispatch,
    terminal: Option<Terminal>,
    requestId: Option<nat>,
    instanceId: Option<nat>)

  /** One status read: the status, and when the run recorded its first fact. */
  datatype StatusRead = StatusRead(status: RunStatus, firstFactUnixMs: Option<nat>)

  /** One run as the listing alone shows it. */
  datatype WindowRun = WindowRun(
    requestId: nat,
    taskId: nat,
    orderSequence: nat,
    settled: Option<RunState>,
    openedInWindow: bool)

  /** One failed or open run as `runs_grouped` keeps it. */
  datatype GroupedRun = GroupedRun(
    catalogTaskId: Option<string>,
    failureCode: Option<string>,
    finalPage: Option<string>,
    sequence: nat,
    requestId: Option<nat>,
    instance: Option<nat>)

  /** What the Runtime's ledger holds at the listing's snapshot: the answer of each read that completes. */
  datatype Facts = Facts(
    statusOf: WindowRun -> StatusRead,
    catalogTaskOf: WindowRun -> Option<string>,
    relayedCodeOf: (Option<nat>, nat) -> string,
    aliases: map<nat, string>)

  /** What happens to a read that was started. */
  datatype Fate = Completes | CutByDeadline | Fails(error: nat)

  /**
   What may go wrong, by the number of the look or read it happens to: whether the deadline has
   come at that look, what ends that read, and whether the contract refuses to form its request.
   */
  datatype Interference = Interference(spent: nat -> bool, fate: nat -> Fate, refused: nat -> bool)

  /** One diagnosis of one window. */
  datatype Window = Window(runs: seq<WindowRun>, facts: Facts, sinceUnixMs: nat, taskId: Option<nat>)

  datatype WindowReads = WindowReads(recent: seq<RunStatus>, grouped: seq<GroupedRun>)

  /** Why a read failed: the Runtime's failure, or a query the contract refuses to form. */
  datatype Failure = RuntimeError(error: nat) | QueryInvalid

  // ----- The sections that did not finish

  datatype Section = Runs | ErrorsPage | RunsGrouped | FailuresGrouped

  datatype Warning = CallBudgetExhausted(member: Section) | RuntimeFailure(error: nat)

  /** The sections left unfinished and the warnings that say why. */
  datatype Marks = Marks(sections: seq<Section>, warnings: seq<Warning>)

  /** A section is explained by the warning that names it, or by a failure of a Runtime read. */
  predicate Explained(section: Section, warnings: seq<Warning>) {
    CallBudgetExhausted(section) in warnings || exists w :: w in warnings && w.RuntimeFailure?
  }

  /** Each section is recorded once, each is explained, and no section has two deadline warnings. */
  ghost predicate WellMarked(marks: Marks) {
    && (forall i, j :: 0 <= i < j < |marks.sections| ==> marks.sections[i] != marks.sections[j])
    && (forall s :: s in marks.sections ==> Explained(s, marks.warnings))
    && (forall i :: 0 <= i < |marks.warnings| && marks.warnings[i].CallBudgetExhausted?
                    ==> marks.warnings[i].member in marks.sections)
    && (forall i, j :: 0 <= i < j < |marks.warnings| && marks.warnings[i].CallBudgetExhausted?
                       ==> marks.warnings[i] != marks.warnings[j])
  }

  /** Nothing recorded is ever taken back. */
  predicate Extends(before: Marks, after: Marks) {
    before.sections <= after.sections && before.warnings <= after.warnings
  }

  class Unfinished {
    var sections: seq<Section>
    var warnings: seq<Warning>

    function State(): (marks: Marks)
      reads this
    {
      Marks(sections, warnings)
    }

    constructor ()
      ensures State() == Marks([], [])
      ensures WellMarked(State())
    {
      sections, warnings := [], [];
    }

    /** The deadline came before `section` was read to its end. */
    method Cut(section: Section)
      requires WellMarked(State())
      modifies this
      ensures WellMarked(State()) && Extends(old(State()), State())
      ensures section in sections
      ensures forall s :: s in sections <==> s in old(sections) || s == section
      ensures section in old(sections) ==> warnings == old(warnings)
      ensures section !in old(sections) ==> warnings == old(warnings) + [CallBudgetExhausted(section)]
    {
      if section !in sections {
        sections := sections + [section];
        warnings := warnings + [CallBudgetExhausted(section)];
        assert warnings[|warnings| - 1] == CallBudgetExhausted(section);
      }
    }

    /** The run reads end at the deadline: `runs` is cut too while its ten runs are not all found. */
    method CutRuns(recentOpen: bool)
      requires WellMarked(State())
      modifies this
      ensures WellMarked(State()) && Extends(old(State()), State())
      ensures forall s :: s in sections <==> s in old(sections) || s == RunsGrouped || (recentOpen && s == Runs)
      ensures forall w :: w in warnings && w.RuntimeFailure? ==> w in old(warnings)
    {
      if recentOpen {
        Cut(Runs);
      }
      Cut(RunsGrouped);
    }

    /** A read that `needing` need failed: each is unfinished, and the failure is one warning. */
    method Failed(needing: seq<Section>, error: nat)
      requires WellMarked(State())
      modifies this
      ensures WellMarked(State()) && Extends(old(State()), State())
      ensures forall s :: s in sections <==> s in old(sections) || s in needing
      ensures warnings == old(warnings) + [RuntimeFailure(error)]
    {
      var i := 0;
      while i < |needing|
        invariant 0 <= i <= |needing|
        invariant old(sections) <= sections && warnings == old(warnings)
        invariant forall a, b :: 0 <= a < b < |sections| ==> sections[a] != sections[b]
        invariant forall s :: s in sections <==> s in old(sections) || s in needing[..i]
      {
        if needing[i] !in sections {
          sections := sections + [needing[i]];
        }
        i := i + 1;
      }
      warnings := warnings + [RuntimeFailure(error)];
      assert warnings[|warnings| - 1] == RuntimeFailure(error);
    }

    /** A Runtime failure leaves `needing` unfinished; any other failure fails the diagnosis. */
    method Failure(needing: seq<Section>, failure: Failure) returns (goesOn: bool)
      requires WellMarked(State())
      modifies this
      ensures goesOn == failure.RuntimeError?
      ensures WellMarked(State()) && Extends(old(State()), State())
      ensures forall s :: s in sections <==> s in old(sections) || (goesOn && s in needing)
      ensures !goesOn ==> State() == old(State())
    {
      goesOn := failure.RuntimeError?;
      if goesOn {
        Failed(needing, failure.error);
      }
    }
  }

  // ----- The plain answers

  /**
   Whether a run is one of the window's: it recorded its first fact there, or the listing shows it
   settled with its admission there.
   */
  predicate Counted(w: Window, run: WindowRun) {
    || (run.settled.Some? && run.openedInWindow)
    || FirstRecordedInWindow(w, run)
  }

  predicate FirstRecordedInWindow(w: Window, run: WindowRun) {
    var first := w.facts.statusOf(run).firstFactUnixMs;
    first.Some? && first.value >= w.sinceUnixMs
  }

  predicate OfTask(w: Window, taskId: Option<nat>) {
    w.taskId.Some? ==> taskId == w.taskId
  }

  predicate Shown(w: Window, status: RunStatus) {
    FailedOrOpen(status.state) && OfTask(w, status.taskId)
  }

  /** How many of the `n` newest listed runs are the window's. */
  function CountedIn(w: Window, n: nat): (count: nat)
    requires n <= |w.runs|
    ensures count <= n
  {
    if n == 0 then 0 else CountedIn(w, n - 1) + if Counted(w, w.runs[n - 1]) then 1 else 0
  }

  /** `runs` by reading every status: of the ten newest runs of the window, the failed and open ones. */
  function PlainRuns(w: Window, n: nat): seq<RunStatus>
    requires n <= |w.runs|
  {
    if n == 0 then [] else
      var run := w.runs[n - 1];
      var status := w.facts.statusOf(run).status;
      PlainRuns(w, n - 1) +
      if Counted(w, run) && CountedIn(w, n - 1) < RECENT_RUNS && Shown(w, status) then [status] else []
  }

  /** `runs_grouped` by reading every status: every failed or open run of the window and task. */
  function PlainGrouped(w: Window, n: nat): seq<GroupedRun>
    requires n <= |w.runs|
  {
    if n == 0 then [] else
      var run := w.runs[n - 1];
      var status := w.facts.statusOf(run).status;
      PlainGrouped(w, n - 1) +
      if Counted(w, run) && Shown(w, status) then [GroupedOf(w.facts, run, status)] else []
  }

  /** A run as `runs_grouped` keeps it, every read of it completed. */
  function GroupedOf(facts: Facts, run: WindowRun, status: RunStatus): GroupedRun {
    GroupedRun(
      if status.dispatch.Scheduled? then facts.catalogTaskOf(run) else None,
      match status.terminal
      case None => None
      case Some(terminal) =>
        if terminal.failureCode == Some(OUTCOME_RELAY_UNREGISTERED)
        then Some(facts.relayedCodeOf(status.requestId, terminal.sequence))
        else terminal.failureCode,
      if status.terminal.Some? then status.terminal.value.finalPage else None,
      run.orderSequence,
      status.requestId,
      status.instanceId)
  }

  /** The filter `read` applies to the ten most recent. */
  function KeptRuns(w: Window, recent: seq<RunStatus>): seq<RunStatus> {
    if recent == [] then [] else
      var last := recent[|recent| - 1];
      KeptRuns(w, recent[..|recent| - 1]) + if Shown(w, last) then [last] else []
  }

  /**
   The listing's own contract: a run it shows settled succeeded or was cancelled, as its status
   read would say, and a failed or open run's status names the task the listing names.
   */
  ghost predicate ListingAgrees(w: Window) {
    forall run :: run in w.runs ==>
      var status := w.facts.statusOf(run).status;
      && (run.settled.Some? ==> status.state == run.settled.value && (status.state.Succeeded? || status.state.Cancelled?))
      && (FailedOrOpen(status.state) ==> status.taskId == Some(run.taskId))
  }

  lemma {:induction false} CountedGrows(w: Window, m: nat, n: nat)
    requires m <= n <= |w.runs|
    ensures CountedIn(w, m) <= CountedIn(w, n)
    decreases n - m
  {
    if m < n {
      CountedGrows(w, m, n - 1);
    }
  }

  /** Once ten runs are found no later run changes `runs`: the reads left out cannot matter. */
  lemma {:induction false} RunsSettleAfterTen(w: Window, m: nat, n: nat)
    requires m <= n <= |w.runs|
    requires CountedIn(w, m) >= RECENT_RUNS
    ensures PlainRuns(w, n) == PlainRuns(w, m)
    decreases n - m
  {
    if m < n {
      CountedGrows(w, m, n - 1);
      RunsSettleAfterTen(w, m, n - 1);
    }
  }

  lemma {:induction false} PlainPrefix(w: Window, m: nat, n: nat)
    requires m <= n <= |w.runs|
    ensures PlainRuns(w, m) <= PlainRuns(w, n)
    ensures PlainGrouped(w, m) <= PlainGrouped(w, n)
    decreases n - m
  {
    if m < n {
      PlainPrefix(w, m, n - 1);
    }
  }

  // ----- Counting by status reads alone

  /** How many of the `n` newest listed runs their status reads put in the window. */
  function ReadAllCountedIn(w: Window, n: nat): nat
    requires n <= |w.runs|
  {
    if n == 0 then 0 else ReadAllCountedIn(w, n - 1) + if FirstRecordedInWindow(w, w.runs[n - 1]) then 1 else 0
  }

  /** `runs` counted by status reads alone. */
  function ReadAllRuns(w: Window, n: nat): seq<RunStatus>
    requires n <= |w.runs|
  {
    if n == 0 then [] else
      var status := w.facts.statusOf(w.runs[n - 1]).status;
      ReadAllRuns(w, n - 1) +
      if FirstRecordedInWindow(w, w.runs[n - 1]) && ReadAllCountedIn(w, n - 1) < RECENT_RUNS && Shown(w, status)
      then [status] else []
  }

  /**
   A settled run whose entry check began before the window is counted in it though its status read
   would not count it. That can only cut `runs` short, by older rows, and cannot once every settled
   run that opened in the window was first recorded there.
   */
  lemma {:induction false} CountingBySettledOnlyShortens(w: Window, n: nat)
    requires ListingAgrees(w) && n <= |w.runs|
    ensures ReadAllCountedIn(w, n) <= CountedIn(w, n)
    ensures PlainRuns(w, n) <= ReadAllRuns(w, n)
    ensures CountedIn(w, n) <= RECENT_RUNS ==> PlainRuns(w, n) == ReadAllRuns(w, n)
    ensures (forall run :: run in w.runs[..n] && run.settled.Some? && run.openedInWindow ==> FirstRecordedInWindow(w, run))
            ==> ReadAllCountedIn(w, n) == CountedIn(w, n) && PlainRuns(w, n) == ReadAllRuns(w, n)
  {
    if n > 0 {
      CountingBySettledOnlyShortens(w, n - 1);
      assert w.runs[n - 1] in w.runs;
      assert w.runs[..n] == w.runs[..n - 1] + [w.runs[n - 1]];
    }
  }

  /** A run that status reads alone would answer, though ten runs were already counted before it. */
  predicate Missed(w: Window, k: nat)
    requires k < |w.runs|
  {
    && FirstRecordedInWindow(w, w.runs[k]) && Shown(w, w.facts.statusOf(w.runs[k]).status)
    && ReadAllCountedIn(w, k) < RECENT_RUNS <= CountedIn(w, k)
  }

  function MissedIn(w: Window, n: nat): nat
    requires n <= |w.runs|
  {
    if n == 0 then 0 else MissedIn(w, n - 1) + if Missed(w, n - 1) then 1 else 0
  }

  lemma {:induction false} MissingIsCounted(w: Window, n: nat)
    requires ListingAgrees(w) && n <= |w.runs|
    ensures |ReadAllRuns(w, n)| == |PlainRuns(w, n)| + MissedIn(w, n)
    ensures MissedIn(w, n) == 0 <==> forall k :: 0 <= k < n ==> !Missed(w, k)
  {
    if n > 0 {
      MissingIsCounted(w, n - 1);
      CountingBySettledOnlyShortens(w, n - 1);
      assert w.runs[n - 1] in w.runs;
    }
  }

  /** The two counts answer alike exactly when no run is missed. */
  lemma CountingBySettledAgreesIff(w: Window, n: nat)
    requires ListingAgrees(w) && n <= |w.runs|
    ensures PlainRuns(w, n) == ReadAllRuns(w, n) <==> forall k :: 0 <= k < n ==> !Missed(w, k)
  {
    CountingBySettledOnlyShortens(w, n);
    MissingIsCounted(w, n);
  }

  /** Ten settled runs opened in the window and first recorded before it, then a run that failed in it. */
  ghost function TenSettledThenFailed(): Window {
    var facts := Facts(
      (run: WindowRun) =>
        StatusRead(RunStatus(if run.settled.Some? then Succeeded else RunState.Failed, Some(run.taskId), Manual, None, None, None),
                   Some(if run.settled.Some? then 0 else 1)),
      (run: WindowRun) => None, (request: Option<nat>, sequence: nat) => "", map[]);
    Window(seq(10, (i: nat) => WindowRun(i, 0, 0, Some(Succeeded), true)) + [WindowRun(10, 0, 0, None, true)], facts, 1, None)
  }

  lemma {:induction false} SettledAreCounted(n: nat)
    requires n <= 10
    ensures CountedIn(TenSettledThenFailed(), n) == n && ReadAllCountedIn(TenSettledThenFailed(), n) == 0
  {
    if n > 0 {
      SettledAreCounted(n - 1);
    }
  }

  /** The failed run is missed: the answer is not that of status reads alone. */
  lemma SettledRunsHideTheFailedOne()
    ensures ListingAgrees(TenSettledThenFailed()) && Missed(TenSettledThenFailed(), 10)
    ensures PlainRuns(TenSettledThenFailed(), 11) != ReadAllRuns(TenSettledThenFailed(), 11)
  {
    var w := TenSettledThenFailed();
    SettledAreCounted(10);
    CountingBySettledAgreesIff(w, 11);
  }

  // ----- The reader

  /** `grouped_run`: `None` when the deadline came before, or ended, one of the run's own reads. */
  method ReadGroupedRun(facts: Facts, world: Interference, run: WindowRun, status: RunStatus, tick: nat)
    returns (answer: Result<Option<GroupedRun>, Failure>, next: nat)
    ensures answer.Ok? && answer.value.Some? ==> answer.value.value == GroupedOf(facts, run, status)
    ensures (forall k :: !world.spent(k) && !world.refused(k) && world.fate(k).Completes?)
            ==> answer == Ok(Some(GroupedOf(facts, run, status)))
  {
    next := tick;
    var catalogTaskId: Option<string> := None;
    if status.dispatch.Scheduled? {
      if world.spent(next) {
        return Ok(None), next + 1;
      }
      var fate := world.fate(next + 1);
      next := next + 2;
      if fate.Fails? {
        return Err(RuntimeError(fate.error)), next;
      }
      if fate.CutByDeadline? {
        return Ok(None), next;
      }
      catalogTaskId := facts.catalogTaskOf(run);
    }
    var failureCode: Option<string> := None;
    if status.terminal.Some? {
      failureCode := status.terminal.value.failureCode;
      if failureCode == Some(OUTCOME_RELAY_UNREGISTERED) {
        if world.spent(next) {
          return Ok(None), next + 1;
        }
        if world.refused(next + 1) {
          return Err(QueryInvalid), next + 2;
        }
        var fate := world.fate(next + 1);
        next := next + 2;
        if fate.Fails? {
          return Err(RuntimeError(fate.error)), next;
        }
        failureCode := Some(facts.relayedCodeOf(status.requestId, status.terminal.value.sequence));
      }
    }
    var finalPage := if status.terminal.Some? then status.terminal.value.finalPage else None;
    answer := Ok(Some(GroupedRun(
                        catalogTaskId, failureCode, finalPage, run.orderSequence, status.requestId, status.instanceId)));
  }

  /** Whether `runs_grouped` can keep a run, by the listing alone. */
  predicate GroupedWanted(w: Window, run: WindowRun) {
    run.settled.None? && OfTask(w, Some(run.taskId))
  }

  /** Whether some answer needs the status of the `i`-th newest run. */
  predicate ReadNeeded(w: Window, i: nat)
    requires i < |w.runs|
  {
    var run := w.runs[i];
    && !(run.settled.Some? && run.openedInWindow)
    && (CountedIn(w, i) < RECENT_RUNS || GroupedWanted(w, run))
  }

  /** What the two answers promise, given the sections left unfinished. */
  ghost predicate Answers(w: Window, rows: WindowReads, sections: seq<Section>) {
    && KeptRuns(w, rows.recent) <= PlainRuns(w, |w.runs|)
    && rows.grouped <= PlainGrouped(w, |w.runs|)
    && (Runs !in sections ==> KeptRuns(w, rows.recent) == PlainRuns(w, |w.runs|))
    && (RunsGrouped !in sections ==> rows.grouped == PlainGrouped(w, |w.runs|))
  }

  /** Nothing is in the way: the deadline never comes and every read completes. */
  ghost predicate Calm(world: Interference) {
    forall k :: !world.spent(k) && !world.refused(k) && world.fate(k).Completes?
  }

  /** Recorded reads: each is needed by an answer, and no run is read twice. */
  ghost predicate OnlyNeeded(w: Window, asked: seq<nat>, below: nat)
    requires below <= |w.runs|
  {
    && (forall i :: 0 <= i < |asked| ==> asked[i] < below && ReadNeeded(w, asked[i]))
    && (forall i, j :: 0 <= i < j < |asked| ==> asked[i] < asked[j])
  }

  /** What the reader has found after the `index` newest runs. */
  ghost predicate Progress(w: Window, rows: WindowReads, recentFound: nat, index: nat)
    requires index <= |w.runs|
  {
    && recentFound == (if CountedIn(w, index) < RECENT_RUNS then CountedIn(w, index) else RECENT_RUNS)
    && KeptRuns(w, rows.recent) == PlainRuns(w, index)
    && rows.grouped == PlainGrouped(w, index)
  }

  /** A reader stopped after the `index` newest runs has kept its promises if it marks what it must. */
  lemma StoppedAfter(w: Window, rows: WindowReads, recentFound: nat, index: nat, sections: seq<Section>)
    requires index <= |w.runs| && Progress(w, rows, recentFound, index)
    requires index < |w.runs| ==> RunsGrouped in sections
    requires index < |w.runs| && recentFound < RECENT_RUNS ==> Runs in sections
    ensures Answers(w, rows, sections)
  {
    PlainPrefix(w, index, |w.runs|);
    if recentFound >= RECENT_RUNS {
      RunsSettleAfterTen(w, index, |w.runs|);
    }
  }

  /** A reader stopped inside its `index`-th run has found its `runs` row and not its grouped one. */
  lemma StoppedInside(w: Window, recent: seq<RunStatus>, grouped: seq<GroupedRun>, recentFound: nat, index: nat,
                      sections: seq<Section>)
    requires index < |w.runs|
    requires Progress(w, WindowReads(recent, PlainGrouped(w, index + 1)), recentFound, index + 1)
    requires grouped == PlainGrouped(w, index)
    requires RunsGrouped in sections
    requires index + 1 < |w.runs| && recentFound < RECENT_RUNS ==> Runs in sections
    ensures Answers(w, WindowReads(recent, grouped), sections)
  {
    PlainPrefix(w, index, |w.runs|);
    StoppedAfter(w, WindowReads(recent, PlainGrouped(w, index + 1)), recentFound, index + 1, sections);
  }

  /** A run no answer needs leaves both answers as they are. */
  lemma SkippedRun(w: Window, rows: WindowReads, recentFound: nat, index: nat)
    requires ListingAgrees(w)
    requires index < |w.runs| && Progress(w, rows, recentFound, index)
    requires !ReadNeeded(w, index) || !Counted(w, w.runs[index])
    ensures Progress(
              w, rows,
              if Counted(w, w.runs[index]) && recentFound < RECENT_RUNS then recentFound + 1 else recentFound,
              index + 1)
  {
    assert w.runs[index] in w.runs;
  }

  /** A run of the window, read: its status takes its place among the ten most recent. */
  lemma ReadRun(w: Window, rows: WindowReads, recentFound: nat, index: nat, recent: seq<RunStatus>)
    requires ListingAgrees(w)
    requires index < |w.runs| && Progress(w, rows, recentFound, index)
    requires ReadNeeded(w, index) && Counted(w, w.runs[index])
    requires recent == if recentFound < RECENT_RUNS then rows.recent + [w.facts.statusOf(w.runs[index]).status] else rows.recent
    ensures Progress(
              w, WindowReads(recent, PlainGrouped(w, index + 1)),
              if recentFound < RECENT_RUNS then recentFound + 1 else recentFound,
              index + 1)
  {
    var run := w.runs[index];
    assert run in w.runs;
    if recentFound < RECENT_RUNS {
      assert recent[..|recent| - 1] == rows.recent;
    }
  }

  /** How the reads of one run end: on to the next run, stopped, or the diagnosis fails. */
  datatype Ending = GoesOn(recentFound: nat) | Stopped | DiagnosisFails(failure: Failure)

  /** The reads of the `index`-th newest run, which some answer needs. */
  method ExamineRun(w: Window, world: Interference, tick: nat, index: nat, rows: WindowReads, recentFound: nat, unfinished: Unfinished)
    returns (ending: Ending, after: WindowReads, started: bool, next: nat)
    requires ListingAgrees(w) && WellMarked(unfinished.State())
    requires index < |w.runs| && Progress(w, rows, recentFound, index) && ReadNeeded(w, index)
    modifies unfinished
    ensures WellMarked(unfinished.State()) && Extends(old(unfinished.State()), unfinished.State())
    ensures forall s :: s in unfinished.sections ==> s in old(unfinished.sections) || s == Runs || s == RunsGrouped
    ensures ending.GoesOn? ==> Progress(w, after, ending.recentFound, index + 1) && unfinished.State() == old(unfinished.State())
    ensures ending.Stopped? ==> Answers(w, after, unfinished.sections)
    ensures ending.DiagnosisFails? ==> ending.failure == QueryInvalid
    ensures Calm(world) ==> ending.GoesOn?
  {
    var run := w.runs[index];
    var recentWanted, groupedWanted := recentFound < RECENT_RUNS, GroupedWanted(w, run);
    after, next := rows, tick + 2;
    started := !world.spent(tick);
    var fate := world.fate(tick + 1);
    if !started || fate.CutByDeadline? {
      unfinished.CutRuns(recentWanted);
      StoppedAfter(w, rows, recentFound, index, unfinished.sections);
      return Stopped, after, started, next;
    }
    if fate.Fails? {
      unfinished.Failed(if recentWanted then [Runs, RunsGrouped] else [RunsGrouped], fate.error);
      StoppedAfter(w, rows, recentFound, index, unfinished.sections);
      return Stopped, after, started, next;
    }
    var status := w.facts.statusOf(run).status;
    if !FirstRecordedInWindow(w, run) {
      SkippedRun(w, rows, recentFound, index);
      return GoesOn(recentFound), after, started, next;
    }
    var found := recentFound;
    if recentWanted {
      found := found + 1;
      after := after.(recent := after.recent + [status]);
    }
    ReadRun(w, rows, recentFound, index, after.recent);
    assert run in w.runs;
    if groupedWanted && FailedOrOpen(status.state) {
      var recentOpen := found < RECENT_RUNS && index + 1 < |w.runs|;
      var answer;
      answer, next := ReadGroupedRun(w.facts, world, run, status, next);
      if answer.Err? {
        var goesOn := unfinished.Failure(if recentOpen then [Runs, RunsGrouped] else [RunsGrouped], answer.error);
        if !goesOn {
          return DiagnosisFails(answer.error), after, started, next;
        }
        StoppedInside(w, after.recent, after.grouped, found, index, unfinished.sections);
        return Stopped, after, started, next;
      }
      if answer.value.None? {
        unfinished.CutRuns(recentOpen);
        StoppedInside(w, after.recent, after.grouped, found, index, unfinished.sections);
        return Stopped, after, started, next;
      }
      after := after.(grouped := after.grouped + [answer.value.value]);
    }
    ending := GoesOn(found);
  }

  /** The reads after a complete listing, newest run first. */
  method ExamineRuns(w: Window, world: Interference, start: nat, unfinished: Unfinished)
    returns (rows: Result<WindowReads, Failure>, ghost asked: seq<nat>)
    requires ListingAgrees(w)
    requires WellMarked(unfinished.State())
    modifies unfinished
    ensures WellMarked(unfinished.State()) && Extends(old(unfinished.State()), unfinished.State())
    ensures forall s :: s in unfinished.sections ==> s in old(unfinished.sections) || s == Runs || s == RunsGrouped
    ensures rows.Ok? ==> Answers(w, rows.value, unfinished.sections)
    ensures rows.Err? ==> rows.error == QueryInvalid
    ensures OnlyNeeded(w, asked, |w.runs|)
    ensures Calm(world) ==> rows.Ok? && unfinished.State() == old(unfinished.State())
  {
    var found := WindowReads([], []);
    asked := [];
    var tick, index, recentFound := start, 0, 0;
    while index < |w.runs|
      invariant 0 <= index <= |w.runs|
      invariant Progress(w, found, recentFound, index)
      invariant unfinished.State() == old(unfinished.State())
      invariant OnlyNeeded(w, asked, index)
    {
      var run := w.runs[index];
      var recentWanted := recentFound < RECENT_RUNS;
      if run.settled.Some? && run.openedInWindow {
        SkippedRun(w, found, recentFound, index);
        recentFound := recentFound + if recentWanted then 1 else 0;
      } else if !recentWanted && !GroupedWanted(w, run) {
        SkippedRun(w, found, recentFound, index);
      } else {
        var ending, started;
        ending, found, started, tick := ExamineRun(w, world, tick, index, found, recentFound, unfinished);
        if started {
          asked := asked + [index];
        }
        match ending {
          case GoesOn(now) =>
            recentFound := now;
          case Stopped =>
            return Ok(found), asked;
          case DiagnosisFails(failure) =>
            return Err(failure), asked;
        }
      }
      index := index + 1;
    }
    StoppedAfter(w, found, recentFound, index, unfinished.sections);
    rows := Ok(found);
  }

  /**
   `window_runs`. `listing` is what becomes of the listing read; `asked` records the runs whose
   status it starts to read. Whatever `world` does, each answer is a prefix of its plain answer, and
   is the plain answer unless its section is left unfinished; no read is started that no answer
   needs; and with nothing in the way no section is left unfinished.
   */
  method ReadWindow(w: Window, world: Interference, listing: Fate, known: Option<map<nat, string>>, unfinished: Unfinished)
    returns (rows: Result<WindowReads, Failure>, status: Option<map<nat, string>>, ghost asked: seq<nat>)
    requires ListingAgrees(w)
    requires WellMarked(unfinished.State())
    modifies unfinished
    ensures WellMarked(unfinished.State()) && Extends(old(unfinished.State()), unfinished.State())
    ensures forall s :: s in unfinished.sections ==> s in old(unfinished.sections) || s == Runs || s == RunsGrouped
    ensures rows.Ok? ==> Answers(w, rows.value, unfinished.sections)
    ensures rows.Err? ==> rows.error == QueryInvalid
    ensures OnlyNeeded(w, asked, |w.runs|)
    ensures listing.Completes? && Calm(world) ==> rows.Ok? && unfinished.State() == old(unfinished.State())
    ensures status == known || status == Some(w.facts.aliases)
  {
    var nothing := WindowReads([], []);
    rows, status, asked := Ok(nothing), known, [];
    if world.spent(0) || listing.CutByDeadline? {
      unfinished.CutRuns(true);
      StoppedAfter(w, nothing, 0, 0, unfinished.sections);
      return;
    }
    if listing.Fails? {
      unfinished.Failed([Runs, RunsGrouped], listing.error);
      StoppedAfter(w, nothing, 0, 0, unfinished.sections);
      return;
    }
    if status.None? && exists run :: run in w.runs && run.settled.None? {
      if world.spent(1) {
        unfinished.CutRuns(true);
        StoppedAfter(w, nothing, 0, 0, unfinished.sections);
        return;
      }
      var fate := world.fate(2);
      if fate.Fails? {
        unfinished.Failed([RunsGrouped], fate.error);
      } else {
        status := Some(w.facts.aliases);
      }
    }
    rows, asked := ExamineRuns(w, world, 3, unfinished);
  }
}
