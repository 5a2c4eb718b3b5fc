# Verified models of the ActingCommand Runtime tooling

This project models the algorithms of the ActingCommand Runtime where a wrong answer is easy to give and hard to see:
the lease scheduler, the reads of a diagnosis over a ledger that grows while it is read, the paged and cursor-bound
lists, the parser of the command line, and the continuous-integration tools that read test logs, guard the gate map and
release the outcome catalog. Each is written in the form its source has: objects and loops are classes and methods,
proved against specification functions; expressions and recursion are functions. What the source promises is proved for
every input, every run or every history.

`dafny verify dfyconfig.toml` checks all of it.

## What is proved

**Leases** (`SchedulerState`, `SchedulerOps`, `SchedulerInvariant`, `SchedulerRuns`, `SchedulerSafety`,
`SchedulerMeaning`, `SchedulerFairness`, `SchedulerReplays`, `Scheduler`). Over every run of twenty operations in any
order, with times that never go back and each preparation committed at most once: a write is allowed exactly to the one
holder of an instance; a lease that ended is refused for ever, and so is the fence of a step that ended; no lease is
handed on during a step; no instance taken over has a lease before its cooldown ended; an operation touches one instance
only; a lease jumps nobody when it is prepared, and at its commit exactly the late entries that outrank it and the
held-back ones it does not precede are jumped; a release is answered again exactly until its instance has a new lease,
one carried out as a transfer until the lease it went to ends, and a renewal until its lease ends or is renewed by
another request.

**The reads of a diagnosis** (`WindowRuns`, `Grouping`, `LedgerPages`, `EventPaging`). One pass that reads only the
statuses it needs answers what reading every status would, or says which section is not finished and why. Pages of a
ledger that grows are one answer as of the first page, without a gap or a repeat, and however fast it grows they are at
most one more than the sequences up to there and the pages that stalled. Following cursors, or following the last row
seen, loses nothing.

**Cursors and lists** (`EventCursor`, `CodePages`, `Text`, `Ordering`). What is issued is read back, and the exact
condition under which it is.

**Test logs** (`LogParser`, `LogStreams`, `LogPrinter`, `LogReader`). The parse depends on each stream and not on how two
streams are interleaved; a printed test run parses back exactly; a log without failures has every result of every
binary, once.

**Histories** (`GateMap`, `OutcomeRelease`). Over every sequence of accepted pull requests nothing leaves the gate map
unlisted. Over every sequence of releases the compact files decide the outcome guard exactly as full snapshots would.

**The command line** (`FlagLoop`, `Invocations`, `InvocationPrinter`). A line is accepted exactly when its words are
complete, listed, distinct flags with valid values; their order does not matter; the invocations there are, are exactly
those that come back from their own words.

**The rest** (`Composition`, `ChildWait`, `DwellSharing`). The composition loop ends with exactly the sound games; a
child is waited for until its deadline, and it is settled exactly when its own status is the answer; sharing dwell
objects restores the status and its table is minimal.

## Where the source is not what it says

Each names the lemma with its input, where one is singled out, and the lemma with the exact condition.

- A lease prepared on a free instance can be committed over an eligible entry that arrived since
  (`LateArrivalIsJumped`, `NobodyIsJumpedIff`), and a grant of the pump can take another holder's entry of the same
  request (`OtherEntryIsTaken`, `GrantTakesItsOwnEntryIff`).
- A child that ends by itself just before a kill that succeeds is answered as ended (`EndedByItselfIsAnsweredEnded`,
  `OwnStatusIsAnsweredIff`).
- `agent-wake-test` lists `--instance` and then refuses every line that gives it (`WakeTestParsesIff`).
- An event cursor has more than one accepted spelling: Rust reads `+` and leading zeros in a number
  (`PlusIsAccepted`, `AcceptedIsEncodingIff`).
- An errors page cut to no row says that there is more and gives no cursor (`ErrorsPageContinuesIff`).
- The gate check does not hold the list of retirements to growing, so two accepted pull requests can drop a name and then
  its record (`ShrinkingListLosesTheRecord`, `NothingIsLostIff`).
- Settled runs that opened in a diagnosis window and were first recorded before it are counted among the ten newest, and
  can hide a failed run (`SettledRunsHideTheFailedOne`, `CountingBySettledAgreesIff`).
- A page that is cut off from its relations at the very row its query begins with answers a cursor before that row, so
  a page reader without a deadline can ask for one page for ever (`CutOffReadsForever`; `GoesBackIff` and `StalledIff`
  have the condition for a page, `ReadsForeverIff` for a reading).
- A lease that ended never comes back, but a replaced token of a lease that goes on can (`ReplacedTokenReturns`,
  `RenewedTokenIs`).

## Model

| member | source | states |
|---|---|---|
| SchedulerRuns.WriteIsAllowedIff | crates/scheduler/src/lib.rs:2336-2393 | in every state that keeps the invariant, a write is allowed if and only if the token is exactly the current one, from its own connection, not expired, outside the cooldown, on a lease not reserved for closing |
| SchedulerRuns.OneWriter | crates/scheduler/src/lib.rs:2336-2393 | two tokens allowed to write to one instance at one time are the same token from the same connection |
| SchedulerRuns.StateKeeps | crates/scheduler/src/lib.rs:1113-2518 | every operation keeps the invariant: located ids are exactly the current leases, queues are sorted and bounded, the preemption flag is exact, step ids are distinct, business steps are never on a closing lease |
| SchedulerRuns.WorldKeeps | crates/scheduler/src/lib.rs:1113-2518 | and keeps every preparation a caller still holds apart from each other and from every current lease |
| SchedulerRuns.HandedOutAreFresh | crates/scheduler/src/lib.rs:1113-1184 | what an operation hands out has an id never issued before, and a transfer is only prepared from a lease without a step |
| SchedulerRuns.EveryWorldIsSound | crates/scheduler/src/lib.rs:899-950 | every world of every run keeps both |
| SchedulerRuns.SpentForever | crates/scheduler/src/lib.rs:1186-1243 | an id nobody holds or can commit stays so for the rest of the run |
| SchedulerRuns.EndedForever | crates/scheduler/src/lib.rs:2278-2322 | once its lease ended, by release, expiry, rollback, owned end or transfer, an id is never current again |
| SchedulerRuns.EndedTokensAreRefused | crates/scheduler/src/lib.rs:2847-2872 | from then on no write, step, renewal, expiry, owned end, rollback, transfer or hand-off is granted to any token of it; a release is refused or answered from its record, and changes nothing |
| SchedulerSafety.OthersAreUntouched | crates/scheduler/src/lib.rs:892-908 | an operation leaves every other instance's lease, queue, cooldown and records as they are, and a step is the one before, none or a new one |
| SchedulerSafety.EndedFencesAreRefused | crates/scheduler/src/lib.rs:1833-1857 | the fence of a step that was on its instance and is not any more neither validates nor finishes at any later point of the run |
| SchedulerSafety.EndedStepIsDone | crates/scheduler/src/lib.rs:1773-1831 | such a step is no other instance's either |
| SchedulerSafety.NoTransferDuringStep | crates/scheduler/src/lib.rs:2084-2102 | a transfer in a caller's hands is refused, and changes nothing, while a step is in progress on its instance |
| SchedulerSafety.StartIsSound | crates/scheduler/src/lib.rs:923-950 | the scheduler starts in a world that keeps the invariant and the cooldown of every instance taken over |
| SchedulerSafety.CooldownStepKeeps | crates/scheduler/src/lib.rs:1123-1129 | every operation keeps: a takeover instance has no lease before its cooldown ended |
| SchedulerSafety.NoLeaseInCooldown | crates/scheduler/src/lib.rs:923-950 | in every run from the start, a takeover instance has a lease only after start plus cooldown |
| SchedulerSafety.FirstEligiblePrecedes | crates/scheduler/src/lib.rs:2761-2767 | the first eligible entry of a queue in order precedes every other eligible one |
| SchedulerFairness.PreparationJumpsNobody | crates/scheduler/src/lib.rs:1143-1160 | when it is prepared, an immediate lease, the pump's grant or a transfer passes no eligible entry but those after the one it chose |
| SchedulerFairness.WhoIsJumped | crates/scheduler/src/lib.rs:1186-1243 | at its commit, any time later in the run, it can only come to jump an entry that arrived since, or one that its own gate held back and the gate of the moment does not |
| SchedulerFairness.NobodyIsJumpedIff | crates/scheduler/src/lib.rs:1186-1243 | so it jumps nobody exactly when no eligible entry that arrived since outranks the chosen one by owner kind or priority and the chosen one precedes every eligible entry its own gate held back, none being eligible when nobody was chosen; in particular when nobody has arrived and the gate is the same |
| SchedulerFairness.LateArrivalIsJumped | crates/scheduler/src/lib.rs:1186-1243 | a run in which a lease prepared on a free instance is committed over a direct run of high priority queued since |
| SchedulerFairness.QueuedRequestsAreDistinct | crates/scheduler/src/lib.rs:1354-1396 | in every run a request is queued at most once, over all instances |
| SchedulerFairness.GrantTakesItsOwnEntryIff | crates/scheduler/src/lib.rs:1220-1227 | a committed grant of the pump takes the one entry of its request, which is the entry it was prepared from exactly when it had arrived by then |
| SchedulerFairness.OtherEntryIsTaken | crates/scheduler/src/lib.rs:1220-1227 | a run in which the entry of another holder is taken, its request having been cancelled and queued again |
| SchedulerMeaning.PreparationIs | crates/scheduler/src/lib.rs:1113-1184 | a new lease is prepared exactly on a free instance out of its cooldown with nobody eligible waiting and the gate open to it; the holder's own request is answered its token; no lease and no queue changes |
| SchedulerMeaning.GrantIs | crates/scheduler/src/lib.rs:1186-1243 | a grant is committed exactly before it expires on a free instance out of cooldown; its caller is the holder exactly until expiry, and the first entry of its request leaves the queue |
| SchedulerMeaning.TransferIs | crates/scheduler/src/lib.rs:2084-2151 | a transfer is committed exactly while the lease is as it was prepared from and the receiver still waits; the old lease ends, the receiver is the holder exactly until expiry, and exactly the receiver leaves the queue |
| SchedulerMeaning.BeginsIff | crates/scheduler/src/lib.rs:1773-1831 | a step begins exactly for the holder out of cooldown with none in progress, and for business only on a lease not for closing whose queue head does not preempt; its fence is new and valid |
| SchedulerMeaning.FinishesIff | crates/scheduler/src/lib.rs:1833-1857 | a step is finished exactly by its own fence from its own connection; the fence is void then at any time, and the lease goes on |
| SchedulerMeaning.RenewalIs | crates/scheduler/src/lib.rs:2211-2245 | a renewal that is no replay is granted exactly to the holder, moves the expiry to one lease time from now, and voids the token it replaced unless both expire together |
| SchedulerMeaning.ReleaseIs | crates/scheduler/src/lib.rs:2278-2310 | a release that is no replay is granted exactly to the holder and leaves the instance free with its queue as it was |
| SchedulerMeaning.ExpiryIs | crates/scheduler/src/lib.rs:2435-2459 | an expiry is granted exactly for the current token once its time has come, and leaves the instance free |
| SchedulerMeaning.InsertionIs | crates/scheduler/src/lib.rs:1398-1419 | an entry is queued exactly when there is room, with the next arrival, and the queue gains it alone |
| SchedulerReplays.ReleaseReplaysIff | crates/scheduler/src/lib.rs:2278-2334 | over every run, the same release is answered again without a change exactly as long as its instance has had no new lease, and is refused for the rest of the run from then on |
| SchedulerReplays.TransferredReleaseReplaysIff | crates/scheduler/src/lib.rs:2115-2127 | a release that was carried out as a transfer is answered again without a change exactly as long as the lease it went to goes on, and is refused for the rest of the run from then on |
| SchedulerReplays.RenewReplaysIff | crates/scheduler/src/lib.rs:2211-2276 | over every run, the same renewal is answered again without a change up to a point exactly when up to there its lease goes on and was last renewed by it |
| SchedulerSafety.RenewedTokenIs | crates/scheduler/src/lib.rs:2153-2184 | after a renewal a token of the lease is its holder's exactly when it has the new expiry, and until then |
| SchedulerSafety.ReplacedTokenReturns | crates/scheduler/src/lib.rs:2153-2184 | so two renewals bring a replaced token back: the second to the expiry the token had |
| SchedulerInvariant.InsertedInOrder | crates/scheduler/src/lib.rs:2748-2759 | a new arrival is put where its rank belongs and the queue stays in order |
| SchedulerInvariant.InsertedHas | crates/scheduler/src/lib.rs:1398-1419 | the queue then holds what it held and the new entry |
| SchedulerInvariant.SortedIsUnique | crates/scheduler/src/lib.rs:2748-2759 | sorting leaves no choice: two sorted arrangements of the same entries are the same queue |
| SchedulerInvariant.KeepIs | crates/scheduler/src/lib.rs:2658-2679 | dropping entries keeps exactly the others, in order |
| SchedulerInvariant.PrepareAcquireKeeps | crates/scheduler/src/lib.rs:1113-1184 | an immediate try keeps the invariant and makes no id current |
| SchedulerInvariant.CommitAcquireKeeps | crates/scheduler/src/lib.rs:1186-1243 | a committed grant keeps the invariant and makes only its own id current |
| SchedulerInvariant.CommitTransferKeeps | crates/scheduler/src/lib.rs:2084-2151 | a committed transfer does |
| SchedulerInvariant.EnqueueKeeps | crates/scheduler/src/lib.rs:1398-1419 | queueing keeps the invariant, full queue and overflow included |
| SchedulerInvariant.RequestQueuedKeeps | crates/scheduler/src/lib.rs:1257-1349 | a client's queue request keeps it, answered again, expired, granted at once, queued or refused |
| SchedulerInvariant.BeginStepKeeps | crates/scheduler/src/lib.rs:1773-1831 | beginning a business or closing step keeps it |
| SchedulerInvariant.FinishStepKeeps | crates/scheduler/src/lib.rs:1833-1857 | finishing one keeps it |
| SchedulerInvariant.RenewKeeps | crates/scheduler/src/lib.rs:2211-2245 | a renewal keeps it and the lease id |
| SchedulerInvariant.RenewWithTtlKeeps | crates/scheduler/src/lib.rs:2153-2184 | a Runtime-held renewal does too |
| SchedulerInvariant.CancelKeeps | crates/scheduler/src/lib.rs:1651-1679 | cancelling an entry keeps it |
| SchedulerInvariant.DropKeeps | crates/scheduler/src/lib.rs:1731-1771 | removing entries by any test keeps it |
| SchedulerRuns.EndingOpKeeps | crates/scheduler/src/lib.rs:2278-2518 | release, expiry, owned end and rollback keep it |
| Scheduler.SeedScheduler.constructor | crates/scheduler/src/lib.rs:923-950 | a new scheduler keeps the invariant and every takeover instance is in its cooldown |
| Scheduler.SeedScheduler.PrepareAcquireLease | crates/scheduler/src/lib.rs:1113-1184 | keeps the invariant and every other instance, and hands out a new lease exactly when `MayPrepare` says, or the holder's own token for its own request; no lease and no queue changes |
| Scheduler.SeedScheduler.CommitAcquireLease | crates/scheduler/src/lib.rs:1186-1243 | keeps the invariant and every other instance, and makes the caller the holder exactly until expiry when `MayGrant` holds, and changes nothing otherwise |
| Scheduler.SeedScheduler.InsertQueueEntry | crates/scheduler/src/lib.rs:1398-1419 | keeps the invariant and every other instance, and adds exactly the entry to a queue with room, in order; push, sort and refresh are the ordered insertion |
| Scheduler.SeedScheduler.TakeExpiredOn | crates/scheduler/src/lib.rs:2658-2679 | keeps the invariant; exactly the expired entries leave and are answered, exactly the others stay |
| Scheduler.SeedScheduler.BeginFencedStep | crates/scheduler/src/lib.rs:1773-1831 | keeps the invariant and every other instance, and gives a new valid fence exactly when `MayBegin` holds, and changes nothing otherwise |
| Scheduler.SeedScheduler.FinishDestructiveStep | crates/scheduler/src/lib.rs:1833-1857 | keeps the invariant and every other instance, and ends the step exactly for its own fence, which is void then, and changes nothing otherwise |
| Scheduler.SeedScheduler.CommitLeaseTransfer | crates/scheduler/src/lib.rs:2084-2151 | keeps the invariant and every other instance, and ends the old lease and makes the receiver the holder exactly when `MayTransfer` holds, and changes nothing otherwise |
| Scheduler.SeedScheduler.RenewLease | crates/scheduler/src/lib.rs:2211-2245 | keeps the invariant and every other instance, and moves the holder's expiry, voids the token it replaces, and changes nothing on a replay or a refusal |
| Scheduler.SeedScheduler.ReleaseLease | crates/scheduler/src/lib.rs:2278-2310 | keeps the invariant and every other instance, and frees the instance for its holder, its queue as it was, and changes nothing on a replay or a refusal |
| Scheduler.SeedScheduler.ExpireToken | crates/scheduler/src/lib.rs:2435-2459 | keeps the invariant and every other instance, and frees the instance exactly for its current token once expired, and changes nothing otherwise |
| Scheduler.SortLast | crates/scheduler/src/lib.rs:2748-2759 | the loop computes the ordered insertion |
| Scheduler.SplitExpired | crates/scheduler/src/lib.rs:2658-2679 | the index loop keeps the unexpired entries in order and answers exactly the expired ones |
| WindowRuns.Unfinished.constructor | apps/actingctl/src/diagnose.rs:334-340 | nothing is unfinished at first |
| WindowRuns.Unfinished.Cut | apps/actingctl/src/diagnose.rs:345-352 | a cut section is recorded once, with one deadline warning, and nothing recorded is taken back |
| WindowRuns.Unfinished.CutRuns | apps/actingctl/src/diagnose.rs:356-361 | cuts the grouped runs, and the runs while fewer than ten are found |
| WindowRuns.Unfinished.Failed | apps/actingctl/src/diagnose.rs:365-372 | each section a failed read leaves is recorded once and explained by one failure warning |
| WindowRuns.Unfinished.Failure | apps/actingctl/src/diagnose.rs:377-385 | a Runtime failure leaves sections unfinished, any other fails the diagnosis |
| WindowRuns.CountedGrows | apps/actingctl/src/diagnose.rs:628-641 | the count of the window's runs never falls as older runs are examined |
| WindowRuns.RunsSettleAfterTen | apps/actingctl/src/diagnose.rs:628-641 | once ten runs of the window are found, no older run changes the answer, so the reads left out cannot matter |
| WindowRuns.CountingBySettledOnlyShortens | apps/actingctl/src/diagnose.rs:571-575 | counting settled runs without a read only shortens the answer that status reads alone would give |
| WindowRuns.CountingBySettledAgreesIff | apps/actingctl/src/diagnose.rs:571-575 | the two answers are the same exactly when no failed or open run of the window comes after ten counted runs of which fewer than ten were first recorded in it |
| WindowRuns.SettledRunsHideTheFailedOne | apps/actingctl/src/diagnose.rs:571-575 | ten settled runs opened in the window and first recorded before it hide the failed run after them |
| WindowRuns.ReadGroupedRun | apps/actingctl/src/diagnose.rs:702-745 | a grouped run is kept with all its reads, or none of it when the deadline came before or ended one of them |
| WindowRuns.ExamineRun | apps/actingctl/src/diagnose.rs:642-693 | one run's reads take both answers one run further or mark what they leave unfinished |
| WindowRuns.ExamineRuns | apps/actingctl/src/diagnose.rs:628-696 | the single pass answers both sections as reading every status would, or marks each it does not |
| WindowRuns.ReadWindow | apps/actingctl/src/diagnose.rs:589-696 | each answer is a prefix of the plain answer, and the plain answer unless its section is marked unfinished; with no deadline and no failed read nothing is marked; every read is needed and no run is read twice |
| Grouping.GroupItems | apps/actingctl/src/diagnose.rs:805-830 | one pass leaves for each key the fold of its items, and no other key |
| Grouping.GroupCounts | apps/actingctl/src/diagnose.rs:805-830 | a key has a group exactly when an item has it, counted as often |
| Grouping.GroupBounds | apps/actingctl/src/diagnose.rs:819-826 | a group's bounds are attained and are the lowest and highest sequence of its items, and its request is the last item's of the highest |
| Grouping.GroupInstances | apps/actingctl/src/diagnose.rs:827-829 | its instances are exactly those its items name |
| Grouping.OrderGroups | apps/actingctl/src/diagnose.rs:878-880 | the rows are the groups, each once, the most frequent first, then the most recent, then in key order |
| Grouping.GroupRows | apps/actingctl/src/diagnose.rs:797-874 | every item is in exactly one group, each row is its key's group, and the counts sum to the number of items |
| Grouping.EveryItemCovered | apps/actingctl/src/diagnose.rs:1052-1085 | rows of distinct keys that list every item's key count each item once |
| LedgerPages.RowsComplete | crates/ledger/src/global/sqlite.rs:2605-2694 | no wanted row is missing from the reference answer |
| LedgerPages.ServedPageIsHonest | crates/ledger/src/global/sqlite.rs:2622-2694 | whatever cuts it, a served page holds exactly the wanted rows up to where it says it stopped, and its cursor is past the one it was asked with and not past the end of its query or its snapshot |
| LedgerPages.RefusedIff | crates/ledger/src/global/sqlite.rs:3060-3082 | a page is refused exactly when it comes to a row and is cut off from the relations of the one right after its cursor, or the response has no room for one row |
| LedgerPages.GoesBackIff | crates/ledger/src/global/sqlite.rs:3060-3082 | a page goes on from before the first sequence of its query exactly when it is cut off from the relations of a row there and that is not right after its cursor; it then has no row |
| LedgerPages.WholeIsFirstSnapshot | apps/actingctl/src/diagnose.rs:1014-1047 | a reading without an end of its own answers exactly the ledger of its first page, however it grew |
| LedgerPages.PageAdds | apps/actingctl/src/diagnose.rs:1014-1047 | one more page neither skips nor repeats a row |
| LedgerPages.ReadingIsPrefix | apps/actingctl/src/diagnose.rs:1014-1047 | a reading that has not finished has visited a prefix of the whole answer |
| LedgerPages.SelectRows | crates/ledger/src/global/sqlite.rs:2622-2754 | the loop selects what the specification selects: the rows up to the limit and one more, and where it stopped |
| LedgerPages.FitRows | crates/ledger/src/global/projection/views.rs:214-280 | popping rows keeps exactly as many as fit, and fails exactly when there is a row and none fits |
| LedgerPages.FetchPage | crates/ledger/src/global/sqlite.rs:2474-2595 | a page read at the ledger's own end is answered, and honest, exactly unless the read fails or the page is refused |
| LedgerPages.ReadPages | apps/actingctl/src/diagnose.rs:1014-1047 | the page loop visits each row of the whole answer once and in order, or a prefix of it when it is stopped; however the ledger grows it reads at most one page more than the sequences up to its end and the pages that stalled |
| LedgerPages.ReadUnstalled | apps/actingctl/src/diagnose.rs:1014-1047 | with no deadline and no stalled page, a ledger that grows for ever is read whole in at most one page more than the sequences up to the first page's end |
| LedgerPages.StalledIff | apps/actingctl/src/diagnose.rs:1014-1047 | a page of a reading stalls exactly when its query begins past the first sequence, at a wanted row whose relations it is cut off from |
| LedgerPages.ReadsForeverIff | apps/actingctl/src/diagnose.rs:1014-1047 | a reading never ends exactly when from some page on every page stalls, and ends exactly when from some page on none does |
| LedgerPages.CutOffReadsForever | apps/actingctl/src/diagnose.rs:1014-1047 | two events of which the reader asks for the second for ever, each page cut off from its relations |
| EventPaging.CutPageIsLossless | apps/actingctl/src/mcp/events.rs:81-119 | the rows of an answer are all those up to where it goes on, or up to the snapshot when it does not |
| EventPaging.ErrorsPageContinuesIff | apps/actingctl/src/diagnose.rs:1268-1308 | an errors page that can be continued loses nothing exactly when it keeps a row or had none; cut to no row it says `more` and names no cursor; with a task filter it never names one |
| EventPaging.FollowingLosesNothing | apps/actingctl/src/events.rs:538-566 | following each cursor sees every row once and in order, up to where the caller goes on, and the whole view once no cursor is given; each call moves on |
| EventPaging.FollowingLastRowSeesEachOnce | apps/actingctl/src/events.rs:572-624 | passing each last sequence on as the next start sees every wanted event once, however the ledger grows |
| EventPaging.MovesOnIff | apps/actingctl/src/events.rs:572-624 | a call moves its caller on exactly when a row is kept; a page cut before any row leaves the caller where it was, and its cursor does not go back |
| EventPaging.CompleteFollowingSeesAll | apps/actingctl/src/events.rs:572-624 | once a call is answered the ledger's end whole, nothing is left unseen: the calls together saw every wanted event up to there, each once |
| EventCursor.Decode | apps/actingctl/src/events.rs:475-503 | a decoded cursor is valid, of the wanted query, with numbers that fit |
| EventCursor.DecodeOfEncode | apps/actingctl/src/events.rs:457-503 | an issued cursor is read back by its own binding and query, and refused by every other |
| EventCursor.EncodeIsInjective | apps/actingctl/src/events.rs:457-473 | two cursors with one token are one cursor of one binding |
| EventCursor.AcceptedIsEncodingIff | apps/actingctl/src/events.rs:475-503 | an accepted token is the encoding of its cursor exactly when each number is written as it is printed |
| EventCursor.PlusIsAccepted | apps/actingctl/src/events.rs:475-503 | a `+` before a number is accepted as well |
| Text.SplitOfJoin | apps/actingctl/src/events.rs:465-490 | splitting a joined token gives its parts back when none holds the separator |
| Numerals.ParseOfPrint | apps/actingctl/src/events.rs:465-503 | a printed number parses to itself in either base |
| Numerals.ParseOfPadded | apps/actingctl/src/events.rs:465-473 | zero padding does not change what is parsed |
| CodePages.CursorReadsBackIff | apps/actingctl/src/code_lookup.rs:284-310 | an issued code cursor reads back exactly for names of letters, digits and underscores of at most 64 |
| CodePages.RegisteredIff | tools/outcome-guard/src/catalog.rs:984-1003 | the guard on names admits exactly those of 3 to 64 such characters that begin with a letter, have an underscore, do not end with one and have no two in a row |
| CodePages.GuardedCursorGoesOn | apps/actingctl/src/code_lookup.rs:284-310 | so every cursor a list of a guarded catalog gives is read back as the place it goes on from |
| CodePages.AcceptedCursorIsIssued | apps/actingctl/src/code_lookup.rs:293-310 | an accepted cursor is exactly the text issued for what it decodes to |
| CodePages.ReadPage | apps/actingctl/src/code_lookup.rs:231-281 | a page is in order, each row as its entry has it, nothing listed is passed over, and it is cut exactly when one more matches; it is refused exactly for another list's cursor, or when it comes to an unreadable entry before it is full |
| CodePages.NoCursorIffNothingRemains | apps/actingctl/src/code_lookup.rs:150-177 | no cursor is given exactly when no code is left that the rows do not list |
| CodePages.CursorGoesOn | apps/actingctl/src/code_lookup.rs:150-177 | an answer's cursor is read back as the place it goes on from |
| CodePages.FollowingStaysInOrder | apps/actingctl/src/code_lookup.rs:231-281 | however pages are cut and the catalog changes, followed codes come in increasing order, none twice |
| CodePages.FollowingMissesNone | apps/actingctl/src/code_lookup.rs:231-281 | once no cursor is given, every code that matched in every catalog of the calls was listed |
| CodePages.FollowingListsTheWholeCatalog | apps/actingctl/src/code_lookup.rs:150-281 | with one catalog the pages together are exactly the sorted matching codes |
| CodePages.FollowingEnds | apps/actingctl/src/code_lookup.rs:150-281 | following the cursors of one catalog, each call keeping a row, takes at most one call more than codes match |
| Ordering.Sort | apps/actingctl/src/code_lookup.rs:231-250 | the sorted list is increasing and has exactly the given names |
| Ordering.OrderIsUnique | apps/actingctl/src/code_lookup.rs:231-250 | two increasing lists of the same names are one list |
| LogParser.OrderTestIsExact | ci/gate_check.py:226-230 | the order test refuses a log exactly when some `Doc-tests` header comes before some `Running` header |
| LogStreams.ReadingIsReadingTheStream | ci/gate_check.py:173-225 | reading a log is reading libtest's own stream |
| LogStreams.InterleavingDoesNotMatter | ci/gate_check.py:158-245 | two logs with the same headers and the same libtest stream parse to the same binaries, results, counts and summaries, however they are interleaved |
| LogStreams.OnlyLastStaysUnfinished | ci/gate_check.py:173-225 | only the last session can be without a summary |
| LogStreams.FailuresOnlyGrow | ci/gate_check.py:158-252 | a failure found is never taken back |
| LogStreams.EveryResultOnce | ci/gate_check.py:248-252 | without a second result each session holds every result recorded into it, each name once |
| LogStreams.CheckedSession | ci/gate_check.py:255-277 | a session nothing is found wrong with has as many results as libtest counted and its summary totals, each status as many as the summary says, none measured |
| LogStreams.NoFailuresMeansAllAttributed | ci/gate_check.py:158-277 | a log without failures gives the k-th header's binary exactly its session's results, as many as libtest counted, each status agreeing |
| LogPrinter.PrintedRunParsesBack | ci/gate_check.py:158-277 | any log whose headers and libtest stream are those of a run parses without a failure to exactly the run's binaries, results and counts |
| LogPrinter.StdoutReadBack | ci/gate_check.py:173-225 | the printed libtest stream is read back into the run's sessions |
| LogPrinter.AllBinaries | ci/gate_check.py:173-225 | each printed binary becomes one finished session, in order |
| LogPrinter.AllDocSessions | ci/gate_check.py:226-245 | documentation sessions come after the others and change none of them |
| LogReader.Record | ci/gate_check.py:248-252 | a second result of one name is a failure and changes nothing, any other is added in place |
| LogReader.ReadInside | ci/gate_check.py:190-225 | one line inside an open session does to the object what the specification does to its value |
| LogReader.ReadStdout | ci/gate_check.py:180-225 | one stdout line does too, opening a session where one begins |
| LogReader.ReadStreams | ci/gate_check.py:158-225 | both streams read in place are the specification's reading |
| LogReader.AttributeSessions | ci/gate_check.py:231-245 | the k-th session gets the k-th exe |
| LogReader.ParseLog | ci/gate_check.py:158-245 | the whole parse in place is the specification's, binaries and failures |
| GateMap.KeptNames | ci/gate_check.py:478-495 | exactly the names some row of the head keeps |
| GateMap.LeftTheMap | ci/gate_check.py:478-495 | exactly what the base had and the head does not keep, each once |
| GateMap.RetirementViolations | ci/gate_check.py:498-506 | exactly what left and is not listed |
| GateMap.CheckPullRequest | ci/gate_check.py:610-654 | its violations are exactly the unreadable fragments, the keys a fragment gained, and what left a readable fragment without being listed |
| GateMap.NewKeys | ci/gate_check.py:610-654 | exactly the keys a fragment gained |
| GateMap.OnePullRequest | ci/gate_check.py:610-654 | after an accepted pull request everything the base held is kept or listed, and no fragment gained a key |
| GateMap.NothingLeavesUnlisted | ci/gate_check.py:478-654 | over every history of accepted pull requests whose lists only grow, whatever the map ever held is in it or listed, and a retired key never returns |
| GateMap.ShrinkingListLosesTheRecord | ci/gate_check.py:498-506 | two accepted pull requests lose a name and its record when the list shrinks |
| GateMap.NothingIsLostIff | ci/gate_check.py:478-654 | over every history of accepted pull requests, whatever the map ever held is in it or listed at every point exactly when no pull request drops the record of something gone |
| OutcomeRelease.HoldSection | ci/outcome_release.py:93-106 | a section's entries are appended to what is held under their names |
| OutcomeRelease.HeldSignatures | ci/outcome_release.py:93-106 | what the files hold, or a refusal when a file is of another schema |
| OutcomeRelease.Release | ci/outcome_release.py:145-161 | a release writes exactly the bound signatures the files do not hold, and never overwrites a file |
| OutcomeRelease.FilesHoldEveryBoundSignature | ci/outcome_release.py:67-118 | over every history, the files together hold exactly the signatures some release bound |
| OutcomeRelease.EachSignatureInOneFile | ci/outcome_release.py:109-118 | each signature of a name is in one file only, even when it changes and returns |
| OutcomeRelease.FilesStandForSnapshots | ci/outcome_release.py:67-118 | a test that asks nothing of an entry that does not bind holds of every file exactly when it holds of every release's full snapshot |
| OutcomeRelease.CheckValues | tools/outcome-guard/src/catalog.rs:425-461 | no violation exactly when every value of the snapshot is kept |
| OutcomeRelease.CheckEntry | tools/outcome-guard/src/catalog.rs:390-424 | no violation exactly when the entry is kept |
| OutcomeRelease.CheckSection | tools/outcome-guard/src/catalog.rs:361-424 | no violation exactly when every entry of the section is kept |
| OutcomeRelease.CheckSnapshot | tools/outcome-guard/src/catalog.rs:361-461 | no violation exactly when every entry of the snapshot is kept |
| OutcomeRelease.GuardOnFilesIsGuardOnSnapshots | tools/outcome-guard/src/catalog.rs:361-461 | a catalog passes the guard on all compact files exactly when it would on every release's full snapshot |
| FlagLoop.ReadFlags | apps/actingctl/src/main.rs:1474-1592 | the index loop reads what the specification reads of the words from its start |
| FlagLoop.ReadIsGiven | apps/actingctl/src/main.rs:1484-1590 | what a variable holds after the loop, some listed flag of the words gave it |
| FlagLoop.GroupsOf | apps/actingctl/src/main.rs:1474-1592 | accepted words split into the complete flags they were read as |
| FlagLoop.GoodGroupsAreRead | apps/actingctl/src/main.rs:1474-1592 | good flags are read whole, whatever follows them |
| FlagLoop.AcceptedIffGoodGroups | apps/actingctl/src/main.rs:1472-1592 | words are accepted exactly when they are complete listed flags, each once, each with a valid value; nothing is ignored |
| FlagLoop.FirstFaultIsNamed | apps/actingctl/src/main.rs:1475-1482 | after good flags, a word that is no new listed flag is refused by its own name, as repeated or unknown |
| FlagLoop.AssignedMeans | apps/actingctl/src/main.rs:1484-1590 | a variable holds a value exactly when a flag gave it |
| FlagLoop.FlattenIsInjective | apps/actingctl/src/main.rs:1474-1592 | words are complete flags in one way only |
| FlagLoop.OrderDoesNotMatter | apps/actingctl/src/main.rs:1474-1592 | every permutation of complete flags gives the same variables, or all are refused |
| Invocations.ListsAreSound | apps/actingctl/src/main.rs:1803-1932 | no subcommand lists a flag twice or two flags for one variable |
| Invocations.SpellIsInjective | apps/actingctl/src/main.rs:1484-1590 | no two flags are spelled alike |
| Invocations.OffsetHasText | apps/actingctl/src/main.rs:1446-1460 | every offset of `i64` is written by some text |
| Invocations.ParseInvocation | apps/actingctl/src/main.rs:1393-1725 | positional words, the flag loop, the command and the instance rule, in the source's order; an invocation has the state root and the instance its words give, and an instance exactly when its command needs one, unless it is optional |
| InvocationPrinter.WordReadsBack | apps/actingctl/src/main.rs:1484-1590 | each flag's printed word is read as the value it was printed for |
| InvocationPrinter.BeforeReadsBack | apps/actingctl/src/main.rs:1400-1471 | the positional words are read back and end where the flags begin |
| InvocationPrinter.InvocationReadsBack | apps/actingctl/src/main.rs:1393-1725 | every sound invocation of every subcommand comes back from its own words |
| InvocationPrinter.ParsedIsSound | apps/actingctl/src/main.rs:1393-1725 | only sound invocations are parsed, each from its own subcommand, with the instance and wait rules |
| InvocationPrinter.FlagOrderDoesNotMatter | apps/actingctl/src/main.rs:1393-1725 | every permutation of a line's flags parses to the same invocation, or none parses |
| InvocationPrinter.WakeTestParsesIff | apps/actingctl/src/main.rs:1703-1718 | a line of good `agent-wake-test` flags parses exactly when it gives `--state-root` and `--to` and not the listed `--instance` |
| Composition.Survivors | apps/actingctl/src/packs.rs:669-735 | the games kept have their schedules unchanged, and composing them succeeds or refuses none of them |
| Composition.Rounds | apps/actingctl/src/packs.rs:669-735 | the rounds and the games kept are together at most one more than the games given |
| Composition.Rows.constructor | apps/actingctl/src/packs.rs:480-486 | no warning at first |
| Composition.Rows.Warn | apps/actingctl/src/packs.rs:505-510 | a warning is recorded once |
| Composition.Rows.WarnIssue | apps/actingctl/src/packs.rs:690-720 | a refusal is a warning of its game, or of each composed game when it names none |
| Composition.Rows.WarnIssues | apps/actingctl/src/packs.rs:690-720 | every refusal of a composition becomes warnings, none twice |
| Composition.ComposeGames | apps/actingctl/src/packs.rs:669-735 | the loop ends within one round more than there are games; a composition it returns is of exactly the games kept; every dropped game is warned about |
| Composition.SoundGamesAreComposed | apps/actingctl/src/packs.rs:669-735 | when a game's refusals depend on it and its schedule alone, exactly the sound games are composed, in at most two rounds |
| Composition.ReadingComposerRefusesByGame | apps/actingctl/src/packs.rs:685-705 | a composer that refuses schedules by their text is one of these |
| ChildWait.WaitFor | apps/actingctl/src/child.rs:203-233 | looks once per poll and answers the child's status, its failure or the deadline's end in the source's order; nothing is killed before the deadline or when it is left running, and only a killed child is reaped |
| ChildWait.AnswersInTime | apps/actingctl/src/child.rs:203-233 | the wait answers at its first look when it starts at or past the deadline, and else within one poll interval of it |
| ChildWait.WaitByPauses | apps/actingctl/src/child.rs:203-233 | on a clock that moves by the pauses every wait ends: it looks once per poll and answers within one poll interval of the deadline |
| ChildWait.OwnStatusIsAnsweredIff | apps/actingctl/src/child.rs:203-233 | a child's own status is answered exactly when it ended before the last look, or before the kill and the kill failed; `Ended` is answered exactly for a kill and a reap that succeed, whoever was first |
| ChildWait.EndedByItselfIsAnsweredEnded | apps/actingctl/src/child.rs:203-233 | a child that ended by itself between the look and a kill that still succeeds is answered as ended |
| DwellSharing.FirstMetFirst | apps/actingctl/src/overview.rs:661-711 | values enter the table in the order they are first met |
| DwellSharing.SharedRow | apps/actingctl/src/overview.rs:661-711 | a shared row's references resolve and it is restored by any table that goes on from its own |
| DwellSharing.SharedRowsRestore | apps/actingctl/src/overview.rs:661-711 | rows shared in turn are all restored by the final table |
| DwellSharing.ShareEach | apps/actingctl/src/overview.rs:661-711 | the loop shares the rows of a list in turn |
| DwellSharing.PerformanceAnswer | apps/actingctl/src/overview.rs:661-711 | the answer is the status with its rows shared and its table |
| DwellSharing.AnswerRestores | apps/actingctl/src/overview.rs:661-711 | replacing each reference by its entry restores the status, and each reference is the index of its value |
| DwellSharing.TableIsMinimal | apps/actingctl/src/overview.rs:661-711 | the table repeats no value and holds no entry that nothing refers to |

## Left out

- The Runtime host, the ledger writer, phased task execution and the recognition crates: they are not modelled.
- The remaining `actingctl` commands and the MCP surface around them: they would add plain readers and renderers.
- The Runtime's reads, clocks, deadlines and child processes are parameters: functions of a count of reads or looks, so
  every timing is covered; a loop that a clock ends takes a look by which it has ended.
- A lease id is the next number of a counter: the issuer's uniqueness is taken as given.
- Poisoned locks, panics and the durability of what the scheduler decides are not modelled.
- Scheduler operations beyond those listed as methods (transfers and hand-offs before their commit, queue requests and
  cancellations, owned ends, rollbacks and cooldown clearing) are functions of the state, not methods.
- The queue position as a 32-bit number, and the loops that apply a per-instance removal or cooldown clearing to every
  instance, are left to their per-instance step.
- The texts of warnings, event payloads and JSON objects are values; their spelling is not modelled.
- WindowRuns.ReadWindow: takes the run listing to agree with the statuses it lists, as the source does.
- LedgerPages.ReadPages: takes the ledger to grow at its end only, and whether a row matches to depend on the row alone;
  its `patience` is a page from which on none stalls, without which a reading never ends (`ReadsForeverIff`).
- LedgerPages.SelectRows: the doubling spans of a page, the rows of a statement and the statement that is interrupted
  are one test of after which sequence the selection stops, and a window's start is part of whether a row matches.
- EventPaging.MovesOnIff: a page without a row may name the caller's own place as its cursor, as `GoesBackIff` says.
- Composition.SoundGamesAreComposed: needs refusals that depend on one game and its schedule; `ComposeGames` needs
  nothing.
- EventCursor.Decode and CodePages.ReadPage take a query's fingerprint as a value: the hash is not modelled.
- Invocations.ParseInvocation: which word names which subcommand, the JSON of an action, the rules of a pause reason, a
  monitor policy and a capture sequence, and `config_changes` are parameters; `codes`, `events`, `run`, `devices` and the
  other subcommands that leave before this parser are not modelled.
- The regular expressions of `gate_check.py` are a classification of each line; how a line of text is matched is not
  modelled.
