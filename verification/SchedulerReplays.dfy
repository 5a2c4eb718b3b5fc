/** How long a release and a renewal are answered again, over every run. */
module SchedulerReplays {
  import opened Wrappers
  import opened Claims
  import opened SchedulerState
  import opened SchedulerOps
  import opened SchedulerInvariant
  import opened Runs
  import opened SchedulerRuns
  import opened SchedulerSafety
  import opened SchedulerMeaning

  // ----- The record of a release

  function RecordOn(s: State, i: nat): Option<ReleaseRecord> { At(s, i).lastRelease }

  /** The id of the lease on an instance. */
  function IdOn(s: State, i: nat): Option<nat> {
    if LeaseOf(s, i).Some? then Some(LeaseOf(s, i).value.token.lease) else None
  }

  /** The record stays while the lease does, or while there is none; then it is none, or of a lease that was current. */
  predicate RecordFollows(s: State, next: State, i: nat) {
    if IdOn(next, i) == IdOn(s, i) then RecordOn(next, i) == RecordOn(s, i)
    else RecordOn(next, i).None? || RecordOn(next, i).value.submitted.lease in s.locations
  }

  /** The lease is the same but for its preemption flag, and so is the record. */
  ghost predicate SameHold(s: State, next: State, i: nat) {
    && RecordOn(next, i) == RecordOn(s, i) && (LeaseOf(next, i).None? <==> LeaseOf(s, i).None?)
    && (LeaseOf(s, i).Some? ==> LeaseOf(next, i).value == LeaseOf(s, i).value.(preempt := LeaseOf(next, i).value.preempt))
  }

  lemma AcquireKeepsHold(s: State, request: nat, i: nat, holder: nat, connection: nat, policy: Policy, now: nat)
    ensures SameHold(s, PrepareAcquire(s, request, i, holder, connection, policy, now).state, i)
  {
  }

  lemma EnqueueKeepsHold(s: State, i: nat, entry: Entry)
    ensures SameHold(s, Enqueue(s, i, entry).state, i)
  {
  }

  lemma RequestKeepsHold(s: State, request: nat, i: nat, holder: nat, connection: nat, priority: Priority, timeout: nat,
                         gate: ClaimGate, immediate: bool, now: nat)
    ensures SameHold(s, RequestQueued(s, request, i, holder, connection, priority, timeout, gate, immediate, now).state, i)
  {
    var touched := Touched(TakeExpired(s, i, now), i);
    assert SameHold(s, touched, i);
    RequestQueuedIs(s, request, i, holder, connection, priority, timeout, gate, immediate, now);
    RequestNewIs(s, request, i, holder, connection, priority, timeout, gate, immediate, now);
    AcquireKeepsHold(touched, request, i, holder, connection, Policy(priority, s.config.leaseTtl, ClientLease, gate), now);
    EnqueueKeepsHold(touched, i, Entry(request, holder, connection, priority, now + timeout, 0, ClientLease, s.config.leaseTtl, true));
  }

  lemma QueueOpKeepsHold(s: State, op: Op, now: nat)
    requires OfQueue(op)
    ensures SameHold(s, NextState(s, op, now), Target(op))
  {
    match op
    case DoPrepareAcquire(request, i, holder, connection, policy) => AcquireKeepsHold(s, request, i, holder, connection, policy, now);
    case DoPrepareDedicated(request, i, holder, connection, kind, gate) =>
      AcquireKeepsHold(s, request, i, holder, connection, Policy(Normal, s.config.leaseTtl, kind, Open), now);
    case DoEnqueueClaim(claim) =>
      EnqueueClaimIs(s, claim);
      EnqueueKeepsHold(s, claim.instance, ClaimEntry(claim));
    case DoRequestQueued(request, i, holder, connection, priority, timeout, gate, immediate) =>
      RequestKeepsHold(s, request, i, holder, connection, priority, timeout, gate, immediate, now);
    case DoPrepareGrant(i, gate) => GrantPreparationIs(s, i, gate, now);
    case _ =>
  }

  lemma TokenOpRecords(s: State, op: Op, now: nat)
    requires OfToken(op)
    ensures RecordFollows(s, NextState(s, op, now), Target(op))
  {
  }

  lemma LeaseOpRecords(w: World, op: Op, now: nat)
    requires WorldInv(w) && Enabled(w, op, now) && !OfQueue(op) && !OfToken(op)
    ensures RecordFollows(w.state, NextState(w.state, op, now), Target(op))
  {
    InstanceIsOk(w.state, Target(op));
    if op.DoPrepareTransfer? || op.DoPrepareHandOff? {
      TransferPreparationIs(w.state, op, now);
    }
  }

  lemma RecordsFollow(w: World, op: Op, now: nat, i: nat)
    requires WorldInv(w) && Enabled(w, op, now)
    ensures RecordFollows(w.state, NextState(w.state, op, now), i)
  {
    OthersAreUntouched(w.state, op, now, i);
    if OfQueue(op) {
      QueueOpKeepsHold(w.state, op, now);
    } else if OfToken(op) {
      TokenOpRecords(w.state, op, now);
    } else {
      LeaseOpRecords(w, op, now);
    }
  }

  // ----- A release replays until the lease of its instance is another

  /** The instance remembers the release, and its lease is this one, or none. */
  ghost predicate Remembered(w: World, held: Option<nat>, record: ReleaseRecord) {
    IdOn(w.state, record.submitted.instance) == held && RecordOn(w.state, record.submitted.instance) == Some(record)
  }

  /** The lease is spent and no record is of it. */
  ghost predicate Forgotten(w: World, i: nat, id: nat) {
    Spent(w, id) && (RecordOn(w.state, i).None? || RecordOn(w.state, i).value.submitted.lease != id)
  }

  lemma ForgottenStays(w: World, next: World, i: nat, id: nat)
    requires WorldInv(w) && Steps(w, next) && Forgotten(w, i, id)
    ensures Forgotten(next, i, id)
  {
    var op, now :| Enabled(w, op, now) && next == Next(w, op, now);
    SpentStays(w, op, now, id);
    RecordsFollow(w, op, now, i);
  }

  lemma RememberedOrForgotten(w: World, next: World, held: Option<nat>, record: ReleaseRecord)
    requires WorldInv(w) && Steps(w, next) && Spent(w, record.submitted.lease) && Remembered(w, held, record)
    ensures
      if IdOn(next.state, record.submitted.instance) == held then Remembered(next, held, record)
      else Forgotten(next, record.submitted.instance, record.submitted.lease)
  {
    var op, now :| Enabled(w, op, now) && next == Next(w, op, now);
    SpentStays(w, op, now, record.submitted.lease);
    RecordsFollow(w, op, now, record.submitted.instance);
  }

  lemma RememberedReplays(s: State, record: ReleaseRecord, later: nat)
    requires RecordOn(s, record.submitted.instance) == Some(record) && record.submitted.epoch == s.epoch
    ensures Release(s, record.request, record.submitted, record.connection, later) == Outcome(Ok(record.released), s)
  {
  }

  lemma ForgottenIsRefused(w: World, request: nat, token: Token, connection: nat, later: nat)
    requires Forgotten(w, token.instance, token.lease)
    ensures Release(w.state, request, token, connection, later).result.Err?
  {
  }

  lemma ForgottenForever(worlds: seq<World>, i: nat, id: nat, from: nat, n: nat)
    requires Run(worlds) && from <= n < |worlds| && Forgotten(worlds[from], i, id)
    ensures Forgotten(worlds[n], i, id)
  {
    EveryWorldIsSound(worlds, from);
    forall w, next | WorldInv(w) && Forgotten(w, i, id) && Steps(w, next) ensures WorldInv(next) && Forgotten(next, i, id) {
      StepKeeps(w, next);
      ForgottenStays(w, next, i, id);
    }
    HoldsOn(worlds, Step(), w => WorldInv(w) && Forgotten(w, i, id), from, n);
  }

  ghost predicate Settled(w: World, held: Option<nat>, record: ReleaseRecord) {
    && Spent(w, record.submitted.lease)
    && (Remembered(w, held, record) || Forgotten(w, record.submitted.instance, record.submitted.lease))
  }

  lemma SettledStays(w: World, next: World, held: Option<nat>, record: ReleaseRecord)
    requires WorldInv(w) && Steps(w, next) && Settled(w, held, record)
    ensures Settled(next, held, record)
  {
    StepSpends(w, next, record.submitted.lease);
    if Remembered(w, held, record) {
      RememberedOrForgotten(w, next, held, record);
    } else {
      ForgottenStays(w, next, record.submitted.instance, record.submitted.lease);
    }
  }

  lemma SettledForever(worlds: seq<World>, held: Option<nat>, record: ReleaseRecord, from: nat, n: nat)
    requires Run(worlds) && from <= n < |worlds| && Settled(worlds[from], held, record)
    ensures Settled(worlds[n], held, record)
  {
    EveryWorldIsSound(worlds, from);
    forall w, next | WorldInv(w) && Settled(w, held, record) && Steps(w, next) ensures WorldInv(next) && Settled(next, held, record) {
      StepKeeps(w, next);
      SettledStays(w, next, held, record);
    }
    HoldsOn(worlds, Step(), w => WorldInv(w) && Settled(w, held, record), from, n);
  }

  lemma RememberedWhile(worlds: seq<World>, held: Option<nat>, record: ReleaseRecord, from: nat, n: nat)
    requires Run(worlds) && from <= n < |worlds| && Remembered(worlds[from], held, record)
      && Spent(worlds[from], record.submitted.lease)
    requires forall m :: from < m <= n ==> IdOn(worlds[m].state, record.submitted.instance) == held
    ensures Remembered(worlds[n], held, record)
  {
    EveryWorldIsSound(worlds, from);
    var i, id := record.submitted.instance, record.submitted.lease;
    forall w, next | WorldInv(w) && Spent(w, id) && Remembered(w, held, record) && Steps(w, next) && IdOn(next.state, i) == held
      ensures WorldInv(next) && Spent(next, id) && Remembered(next, held, record)
    {
      StepKeeps(w, next);
      StepSpends(w, next, id);
      RememberedOrForgotten(w, next, held, record);
    }
    HoldsWhile(worlds, Step(), w => WorldInv(w) && Spent(w, id) && Remembered(w, held, record),
               (w: World) => IdOn(w.state, i) == held, from, n);
  }

  /** A remembered release replays exactly until the lease of its instance is another than it was then. */
  lemma RememberedReplaysIff(worlds: seq<World>, held: Option<nat>, record: ReleaseRecord, from: nat, n: nat, later: nat)
    requires Run(worlds) && from <= n < |worlds| && Remembered(worlds[from], held, record)
      && Spent(worlds[from], record.submitted.lease)
    requires record.submitted.epoch == worlds[from].state.epoch
    ensures
      var again := Release(worlds[n].state, record.request, record.submitted, record.connection, later);
      if forall m :: from <= m <= n ==> IdOn(worlds[m].state, record.submitted.instance) == held
      then again == Outcome(Ok(record.released), worlds[n].state)
      else again.result.Err?
  {
    var i, id := record.submitted.instance, record.submitted.lease;
    if m :| from <= m <= n && IdOn(worlds[m].state, i) != held {
      SettledForever(worlds, held, record, from, m);
      ForgottenForever(worlds, i, id, m, n);
      ForgottenIsRefused(worlds[n], record.request, record.submitted, record.connection, later);
    } else {
      RememberedWhile(worlds, held, record, from, n);
      EpochStays(worlds, from, n);
      RememberedReplays(worlds[n].state, record, later);
    }
  }

  /** The world after a release that was no replay. */
  lemma ReleasedIsRemembered(w: World, request: nat, token: Token, connection: nat, now: nat)
    requires WorldInv(w) && Enabled(w, DoRelease(request, token, connection), now)
    requires ReplayedRelease(w.state, request, token, connection) == Ok(None)
    requires Release(w.state, request, token, connection, now).result.Ok?
    ensures
      var next := Next(w, DoRelease(request, token, connection), now);
      && Spent(next, token.lease) && next.state.epoch == token.epoch
      && Remembered(next, None, ReleaseRecord(request, token, connection, Released(token, Explicit)))
  {
    ReleaseIs(w.state, request, token, connection, now);
    EndedIsSpent(w, DoRelease(request, token, connection), now, token.lease);
  }

  /**
   A release is answered again, and changes nothing, exactly as long as its instance has no new lease; from the
   next one on the same release is refused for the rest of the run.
   */
  lemma ReleaseReplaysIff(worlds: seq<World>, request: nat, token: Token, connection: nat, now: nat, r: nat, n: nat, later: nat)
    requires Run(worlds) && r < n < |worlds| && Enabled(worlds[r], DoRelease(request, token, connection), now)
    requires worlds[r + 1] == Next(worlds[r], DoRelease(request, token, connection), now)
    requires ReplayedRelease(worlds[r].state, request, token, connection) == Ok(None)
    requires Release(worlds[r].state, request, token, connection, now).result.Ok?
    ensures
      var again := Release(worlds[n].state, request, token, connection, later);
      if forall m :: r < m <= n ==> LeaseOf(worlds[m].state, token.instance).None?
      then again == Outcome(Ok(Released(token, Explicit)), worlds[n].state)
      else again.result.Err?
  {
    EveryWorldIsSound(worlds, r);
    ReleasedIsRemembered(worlds[r], request, token, connection, now);
    RememberedReplaysIff(worlds, None, ReleaseRecord(request, token, connection, Released(token, Explicit)), r + 1, n, later);
    assert forall m :: r + 1 <= m <= n ==>
      (IdOn(worlds[m].state, token.instance) == None <==> LeaseOf(worlds[m].state, token.instance).None?);
  }

  /** The record of the release a transfer carries out. */
  function RecordOf(transfer: PreparedTransfer): ReleaseRecord
    requires transfer.releaseRequest.Some?
  {
    ReleaseRecord(transfer.releaseRequest.value, transfer.from.token, transfer.from.connection,
                  Released(transfer.from.token, transfer.reason))
  }

  lemma TransferredIsRemembered(w: World, transfer: PreparedTransfer, now: nat)
    requires WorldInv(w) && Enabled(w, DoCommitTransfer(transfer), now)
    requires transfer.releaseRequest.Some? && CommitTransfer(w.state, transfer, now).result.Ok?
    ensures
      var next := Next(w, DoCommitTransfer(transfer), now);
      && Spent(next, transfer.from.token.lease) && next.state.epoch == transfer.from.token.epoch
      && Remembered(next, Some(transfer.to.lease), RecordOf(transfer))
  {
    TransferIs(w.state, transfer, now);
    EndedIsSpent(w, DoCommitTransfer(transfer), now, transfer.from.token.lease);
  }

  /**
   A release that was carried out as a transfer is answered again exactly as long as the lease it went to goes on,
   and is refused for the rest of the run from then on.
   */
  lemma TransferredReleaseReplaysIff(worlds: seq<World>, transfer: PreparedTransfer, now: nat, r: nat, n: nat, later: nat)
    requires Run(worlds) && r < n < |worlds| && Enabled(worlds[r], DoCommitTransfer(transfer), now)
    requires worlds[r + 1] == Next(worlds[r], DoCommitTransfer(transfer), now)
    requires transfer.releaseRequest.Some? && CommitTransfer(worlds[r].state, transfer, now).result.Ok?
    ensures
      var token := transfer.from.token;
      var again := Release(worlds[n].state, transfer.releaseRequest.value, token, transfer.from.connection, later);
      if forall m :: r < m <= n ==> IdOn(worlds[m].state, token.instance) == Some(transfer.to.lease)
      then again == Outcome(Ok(Released(token, transfer.reason)), worlds[n].state)
      else again.result.Err?
  {
    EveryWorldIsSound(worlds, r);
    TransferredIsRemembered(worlds[r], transfer, now);
    RememberedReplaysIff(worlds, Some(transfer.to.lease), RecordOf(transfer), r + 1, n, later);
  }

  lemma EpochStays(worlds: seq<World>, from: nat, n: nat)
    requires Run(worlds) && from <= n < |worlds|
    ensures worlds[n].state.epoch == worlds[from].state.epoch
  {
    var epoch := worlds[from].state.epoch;
    EveryWorldIsSound(worlds, from);
    forall w, next | WorldInv(w) && w.state.epoch == epoch && Steps(w, next) ensures WorldInv(next) && next.state.epoch == epoch {
      StepKeeps(w, next);
      StepKeepsEpoch(w, next);
    }
    HoldsOn(worlds, Step(), w => WorldInv(w) && w.state.epoch == epoch, from, n);
  }

  // ----- A renewal replays until its lease ends or is renewed under another request

  /** While a lease goes on, its connection stays, and so does its renewal until one of another request. */
  predicate RenewalFollows(before: Option<Lease>, after: Option<Lease>) {
    before.Some? && after.Some? && before.value.token.lease == after.value.token.lease ==>
      && after.value.connection == before.value.connection
      && (after.value.lastRenew == before.value.lastRenew
          || (after.value.lastRenew.Some? &&
              (before.value.lastRenew.None? || after.value.lastRenew.value.request != before.value.lastRenew.value.request)))
  }

  lemma TokenOpRenews(s: State, op: Op, now: nat)
    requires OfToken(op)
    ensures RenewalFollows(LeaseOf(s, Target(op)), LeaseOf(NextState(s, op, now), Target(op)))
  {
  }

  lemma StepOpKeepsRenewal(s: State, op: Op, now: nat)
    requires op.DoBeginStep? || op.DoFinishStep?
    ensures RenewalFollows(LeaseOf(s, Target(op)), LeaseOf(NextState(s, op, now), Target(op)))
  {
  }

  lemma LeaseOpKeepsRenewal(w: World, op: Op, now: nat)
    requires WorldInv(w) && Enabled(w, op, now) && !OfQueue(op) && !OfToken(op)
    ensures RenewalFollows(LeaseOf(w.state, Target(op)), LeaseOf(NextState(w.state, op, now), Target(op)))
  {
    if op.DoPrepareTransfer? || op.DoPrepareHandOff? {
      TransferPreparationIs(w.state, op, now);
    } else if op.DoBeginStep? || op.DoFinishStep? {
      StepOpKeepsRenewal(w.state, op, now);
    } else {
      InstanceIsOk(w.state, Target(op));
    }
  }

  lemma RenewalsFollow(w: World, next: World, i: nat)
    requires WorldInv(w) && Steps(w, next)
    ensures RenewalFollows(LeaseOf(w.state, i), LeaseOf(next.state, i))
  {
    var op, now :| Enabled(w, op, now) && next == Next(w, op, now);
    OthersAreUntouched(w.state, op, now, i);
    if OfQueue(op) {
      QueueOpKeepsHold(w.state, op, now);
    } else if OfToken(op) {
      TokenOpRenews(w.state, op, now);
    } else {
      LeaseOpKeepsRenewal(w, op, now);
    }
  }

  /** The lease goes on and its last renewal is this request's. */
  predicate LastRenewedBy(s: State, i: nat, id: nat, request: nat) {
    && LeaseOf(s, i).Some? && LeaseOf(s, i).value.token.lease == id
    && LeaseOf(s, i).value.lastRenew.Some? && LeaseOf(s, i).value.lastRenew.value.request == request
  }

  predicate HoldsRenewal(s: State, record: RenewRecord, connection: nat) {
    && LastRenewedBy(s, record.submitted.instance, record.submitted.lease, record.request)
    && LeaseOf(s, record.submitted.instance).value.lastRenew == Some(record)
    && LeaseOf(s, record.submitted.instance).value.connection == connection && record.submitted.epoch == s.epoch
  }

  lemma RenewalHoldsWhile(worlds: seq<World>, record: RenewRecord, connection: nat, from: nat, n: nat)
    requires Run(worlds) && from <= n < |worlds| && HoldsRenewal(worlds[from].state, record, connection)
    requires forall m :: from < m <= n ==>
      LastRenewedBy(worlds[m].state, record.submitted.instance, record.submitted.lease, record.request)
    ensures HoldsRenewal(worlds[n].state, record, connection)
  {
    var i, id, epoch := record.submitted.instance, record.submitted.lease, record.submitted.epoch;
    EveryWorldIsSound(worlds, from);
    forall w: World, next: World | && WorldInv(w) && HoldsRenewal(w.state, record, connection)
                                   && Steps(w, next) && LastRenewedBy(next.state, i, id, record.request)
      ensures WorldInv(next) && HoldsRenewal(next.state, record, connection)
    {
      StepKeeps(w, next);
      RenewalsFollow(w, next, i);
      InstanceIsOk(next.state, i);
      StepKeepsEpoch(w, next);
    }
    HoldsWhile(worlds, Step(), (w: World) => WorldInv(w) && HoldsRenewal(w.state, record, connection),
               (w: World) => LastRenewedBy(w.state, i, id, record.request), from, n);
  }

  lemma StepKeepsEpoch(w: World, next: World)
    requires WorldInv(w) && Steps(w, next)
    ensures next.state.epoch == w.state.epoch
  {
    var op, now :| Enabled(w, op, now) && next == Next(w, op, now);
    StateKeeps(w, op, now);
  }

  /** The same renewal answers the same and changes nothing, at any time. */
  ghost predicate RenewReplays(s: State, record: RenewRecord, connection: nat) {
    forall later :: Renew(s, record.request, record.submitted, connection, later) == Outcome(Ok(record.renewed), s)
  }

  lemma HeldRenewalReplays(s: State, record: RenewRecord, connection: nat)
    requires HoldsRenewal(s, record, connection)
    ensures RenewReplays(s, record, connection)
  {
  }

  lemma ReplayIsOfItsRequest(s: State, record: RenewRecord, connection: nat)
    requires Inv(s) && RenewReplays(s, record, connection)
    ensures LastRenewedBy(s, record.submitted.instance, record.submitted.lease, record.request)
  {
    InstanceIsOk(s, record.submitted.instance);
    assert Renew(s, record.request, record.submitted, connection, 0) == Outcome(Ok(record.renewed), s);
  }

  lemma RenewedIsHeld(s: State, request: nat, token: Token, connection: nat, now: nat)
    requires Inv(s) && ReplayedRenew(s, request, token, connection) == Ok(None) && Renew(s, request, token, connection, now).result.Ok?
    ensures
      var o := Renew(s, request, token, connection, now);
      HoldsRenewal(o.state, RenewRecord(request, token, o.result.value), connection)
  {
    RenewalIs(s, request, token, connection, now);
  }

  /**
   From a renewal on, the same renewal is answered again without a change at every point up to `n` exactly when at
   each of them its lease goes on and was last renewed by it.
   */
  lemma RenewReplaysIff(worlds: seq<World>, request: nat, token: Token, connection: nat, now: nat, r: nat, n: nat)
    requires Run(worlds) && r < n < |worlds| && Enabled(worlds[r], DoRenew(request, token, connection), now)
    requires worlds[r + 1] == Next(worlds[r], DoRenew(request, token, connection), now)
    requires ReplayedRenew(worlds[r].state, request, token, connection) == Ok(None)
    requires Renew(worlds[r].state, request, token, connection, now).result.Ok?
    ensures
      var record := RenewRecord(request, token, Renew(worlds[r].state, request, token, connection, now).result.value);
      (forall m :: r < m <= n ==> RenewReplays(worlds[m].state, record, connection)) <==>
      (forall m :: r < m <= n ==> LastRenewedBy(worlds[m].state, token.instance, token.lease, request))
  {
    var record := RenewRecord(request, token, Renew(worlds[r].state, request, token, connection, now).result.value);
    EveryWorldIsSound(worlds, r);
    RenewedIsHeld(worlds[r].state, request, token, connection, now);
    if forall m :: r < m <= n ==> LastRenewedBy(worlds[m].state, token.instance, token.lease, request) {
      forall m | r < m <= n ensures RenewReplays(worlds[m].state, record, connection) {
        RenewalHoldsWhile(worlds, record, connection, r + 1, m);
        HeldRenewalReplays(worlds[m].state, record, connection);
      }
    }
    forall m | r < m <= n && RenewReplays(worlds[m].state, record, connection)
      ensures LastRenewedBy(worlds[m].state, token.instance, token.lease, request)
    {
      EveryWorldIsSound(worlds, m);
      ReplayIsOfItsRequest(worlds[m].state, record, connection);
    }
  }
}
