/** Runs of any machine, and what they keep. */
module Runs {

  ghost predicate IsRun<W(!new)>(worlds: seq<W>, step: (W, W) -> bool) {
    forall n :: 0 < n < |worlds| ==> step(worlds[n - 1], worlds[n])
  }

  ghost predicate Stable<W(!new)>(step: (W, W) -> bool, holds: W -> bool) {
    forall w, next :: holds(w) && step(w, next) ==> holds(next)
  }

  /** What every step keeps holds from its first world on. */
  lemma {:induction false} HoldsOn<W(!new)>(worlds: seq<W>, step: (W, W) -> bool, holds: W -> bool, from: nat, n: nat)
    requires IsRun(worlds, step) && Stable(step, holds) && from <= n < |worlds| && holds(worlds[from])
    ensures holds(worlds[n])
    decreases n
  {
    if n > from {
      HoldsOn(worlds, step, holds, from, n - 1);
      assert step(worlds[n - 1], worlds[n]);
    }
  }

  /** And what a step keeps while a condition goes on holds for as long as it does. */
  lemma {:induction false} HoldsWhile<W(!new)>(worlds: seq<W>, step: (W, W) -> bool, holds: W -> bool,
                                               goesOn: W -> bool, from: nat, n: nat)
    requires IsRun(worlds, step) && (forall w, next :: holds(w) && step(w, next) && goesOn(next) ==> holds(next))
    requires from <= n < |worlds| && holds(worlds[from]) && forall m :: from < m <= n ==> goesOn(worlds[m])
    ensures holds(worlds[n])
    decreases n
  {
    if n > from {
      HoldsWhile(worlds, step, holds, goesOn, from, n - 1);
      assert step(worlds[n - 1], worlds[n]);
    }
  }
}

/** Every run of the scheduler: its operations in any order, at times that never go back, each preparation committed at most once. */
module SchedulerRuns {
  import opened Wrappers
  import opened Claims
  import opened SchedulerState
  import opened SchedulerOps
  import opened SchedulerInvariant
  import opened Runs

  datatype Op =
    | DoPrepareAcquire(request: nat, instance: nat, holder: nat, connection: nat, policy: Policy)
    | DoPrepareDedicated(request: nat, instance: nat, holder: nat, connection: nat, kind: ClaimKind, gate: ClaimGate)
    | DoCommitAcquire(prepared: PreparedLease)
    | DoEnqueueClaim(claim: Claim)
    | DoRequestQueued(request: nat, instance: nat, holder: nat, connection: nat, priority: Priority, timeout: nat,
                      gate: ClaimGate, immediate: bool)
    | DoPrepareGrant(instance: nat, gate: ClaimGate)
    | DoCancel(instance: nat, request: nat, connection: nat)
    | DoDrop(instance: nat, drop: Entry -> bool)
    | DoBeginStep(token: Token, connection: nat, purpose: Purpose)
    | DoFinishStep(fence: FencedWrite, connection: nat)
    | DoPrepareTransfer(token: Token, connection: nat, reason: EndReason, releaseRequest: Option<nat>, gate: ClaimGate)
    | DoPrepareHandOff(token: Token, connection: nat, reason: EndReason, releaseRequest: Option<nat>, claim: Claim, gate: ClaimGate)
    | DoCommitTransfer(transfer: PreparedTransfer)
    | DoRenew(request: nat, token: Token, connection: nat)
    | DoRenewWithTtl(token: Token, connection: nat, ttl: nat)
    | DoRelease(request: nat, token: Token, connection: nat)
    | DoExpire(token: Token)
    | DoReleaseOwned(token: Token, connection: nat, reason: EndReason)
    | DoRollback(token: Token)
    | DoClearCooldown(instance: nat)

  /**
   The scheduler, the preparations its callers hold, the time, and the end of each takeover instance's cooldown.
   */
  datatype World = World(state: State, leases: set<PreparedLease>, transfers: set<PreparedTransfer>, clock: nat, until: map<nat, nat>)

  function NextState(s: State, op: Op, now: nat): State {
    match op
    case DoPrepareAcquire(request, i, holder, connection, policy) =>
      PrepareAcquire(s, request, i, holder, connection, policy, now).state
    case DoPrepareDedicated(request, i, holder, connection, kind, gate) =>
      PrepareDedicated(s, request, i, holder, connection, kind, gate, now).state
    case DoCommitAcquire(prepared) => CommitAcquire(s, prepared, now).state
    case DoEnqueueClaim(claim) => EnqueueClaim(s, claim).state
    case DoRequestQueued(request, i, holder, connection, priority, timeout, gate, immediate) =>
      RequestQueued(s, request, i, holder, connection, priority, timeout, gate, immediate, now).state
    case DoPrepareGrant(i, gate) => PrepareGrant(s, i, gate, now).state
    case DoCancel(i, request, connection) => CancelAt(s, i, request, connection).state
    case DoDrop(i, drop) => DropEntries(s, i, drop)
    case DoBeginStep(token, connection, purpose) => BeginStep(s, token, connection, purpose, now).state
    case DoFinishStep(fence, connection) => FinishStep(s, fence, connection).state
    case DoPrepareTransfer(token, connection, reason, request, gate) =>
      PrepareTransfer(s, token, connection, reason, request, gate, now).state
    case DoPrepareHandOff(token, connection, reason, request, claim, gate) =>
      PrepareHandOff(s, token, connection, reason, request, claim, gate, now).state
    case DoCommitTransfer(transfer) => CommitTransfer(s, transfer, now).state
    case DoRenew(request, token, connection) => Renew(s, request, token, connection, now).state
    case DoRenewWithTtl(token, connection, ttl) => RenewWithTtl(s, token, connection, ttl, now).state
    case DoRelease(request, token, connection) => Release(s, request, token, connection, now).state
    case DoExpire(token) => Expire(s, token, now).state
    case DoReleaseOwned(token, connection, reason) => ReleaseOwned(s, token, connection, reason).state
    case DoRollback(token) => Rollback(s, token).state
    case DoClearCooldown(i) => ClearCooldown(s, i, now)
  }

  function LeasesOf(result: Result<Preparation, SchedulerError>): set<PreparedLease> {
    if result.Ok? && result.value.New? then {result.value.prepared} else {}
  }

  /** The prepared leases an operation hands out. */
  function NewLeases(s: State, op: Op, now: nat): set<PreparedLease> {
    match op
    case DoPrepareAcquire(request, i, holder, connection, policy) =>
      LeasesOf(PrepareAcquire(s, request, i, holder, connection, policy, now).result)
    case DoPrepareDedicated(request, i, holder, connection, kind, gate) =>
      LeasesOf(PrepareDedicated(s, request, i, holder, connection, kind, gate, now).result)
    case DoRequestQueued(request, i, holder, connection, priority, timeout, gate, immediate) =>
      var result := RequestQueued(s, request, i, holder, connection, priority, timeout, gate, immediate, now).result;
      if result.Ok? && result.value.Leased? && result.value.preparation.New? then {result.value.preparation.prepared} else {}
    case DoPrepareGrant(i, gate) =>
      var result := PrepareGrant(s, i, gate, now).result;
      if result.Ok? && result.value.Some? then {result.value.value} else {}
    case _ => {}
  }

  function TransfersOf(result: Result<TransferPreparation, SchedulerError>): set<PreparedTransfer> {
    if result.Ok? && result.value.Ready? then {result.value.transfer} else {}
  }

  /** The prepared transfers an operation hands out. */
  function NewTransfers(s: State, op: Op, now: nat): set<PreparedTransfer> {
    match op
    case DoPrepareTransfer(token, connection, reason, request, gate) =>
      TransfersOf(PrepareTransfer(s, token, connection, reason, request, gate, now).result)
    case DoPrepareHandOff(token, connection, reason, request, claim, gate) =>
      TransfersOf(PrepareHandOff(s, token, connection, reason, request, claim, gate, now).result)
    case _ => {}
  }

  ghost predicate Enabled(w: World, op: Op, now: nat) {
    && now >= w.clock
    && (op.DoCommitAcquire? ==> op.prepared in w.leases)
    && (op.DoCommitTransfer? ==> op.transfer in w.transfers)
  }

  /** One operation; a commit takes its preparation from the caller, whether or not it is refused. */
  ghost function Next(w: World, op: Op, now: nat): World {
    World(NextState(w.state, op, now),
          w.leases - (if op.DoCommitAcquire? then {op.prepared} else {}) + NewLeases(w.state, op, now),
          w.transfers - (if op.DoCommitTransfer? then {op.transfer} else {}) + NewTransfers(w.state, op, now),
          now, w.until)
  }

  // ----- What every reachable world keeps

  /** A prepared id was issued and is nobody's current lease. */
  predicate Waiting(s: State, id: nat) { id < s.minted && id !in s.locations }

  ghost predicate PreparedOk(w: World) {
    && (forall p :: p in w.leases ==> Waiting(w.state, p.token.lease) && p.token.epoch == w.state.epoch)
    && (forall t :: t in w.transfers ==>
          Waiting(w.state, t.to.lease) && t.to.epoch == w.state.epoch && t.to.instance == t.from.token.instance && t.from.step.None?)
    && (forall p, q :: p in w.leases && q in w.leases && p.token.lease == q.token.lease ==> p == q)
    && (forall t, u :: t in w.transfers && u in w.transfers && t.to.lease == u.to.lease ==> t == u)
    && (forall p, t :: p in w.leases && t in w.transfers ==> p.token.lease != t.to.lease)
  }

  ghost predicate WorldInv(w: World) { Inv(w.state) && PreparedOk(w) }

  function Committed(op: Op): set<nat> {
    if op.DoCommitAcquire? then {op.prepared.token.lease} else if op.DoCommitTransfer? then {op.transfer.to.lease} else {}
  }

  lemma DedicatedKeeps(s: State, request: nat, i: nat, holder: nat, connection: nat, kind: ClaimKind, gate: ClaimGate, now: nat)
    ensures Keeps(s, PrepareDedicated(s, request, i, holder, connection, kind, gate, now).state, {})
  {
    PrepareAcquireKeeps(s, request, i, holder, connection, Policy(Normal, s.config.leaseTtl, kind, Open), now);
  }

  lemma GrantPreparationIs(s: State, i: nat, gate: ClaimGate, now: nat)
    ensures PrepareGrant(s, i, gate, now).state in {s, Minted(s)}
  {
  }

  lemma EnqueueClaimIs(s: State, claim: Claim)
    ensures EnqueueClaim(s, claim).state in {s, Enqueue(s, claim.instance, ClaimEntry(claim)).state}
  {
  }

  lemma QueueOpKeeps(s: State, op: Op, now: nat)
    requires op.DoEnqueueClaim? || op.DoRequestQueued? || op.DoPrepareGrant? || op.DoCancel? || op.DoDrop?
    ensures Keeps(s, NextState(s, op, now), {})
  {
    match op
    case DoEnqueueClaim(claim) =>
      EnqueueClaimIs(s, claim);
      EnqueueKeeps(s, claim.instance, ClaimEntry(claim));
    case DoRequestQueued(request, i, holder, connection, priority, timeout, gate, immediate) =>
      RequestQueuedKeeps(s, request, i, holder, connection, priority, timeout, gate, immediate, now);
    case DoPrepareGrant(i, gate) =>
      GrantPreparationIs(s, i, gate, now);
      MintKeeps(s);
    case DoCancel(i, request, connection) => CancelKeeps(s, i, request, connection);
    case DoDrop(i, drop) => DropKeeps(s, i, drop);
  }

  lemma TransferPreparationIs(s: State, op: Op, now: nat)
    requires op.DoPrepareTransfer? || op.DoPrepareHandOff?
    ensures NextState(s, op, now) == s || NextState(s, op, now) == Minted(s)
  {
  }

  lemma TransferPreparationKeeps(s: State, op: Op, now: nat)
    requires op.DoPrepareTransfer? || op.DoPrepareHandOff?
    ensures Keeps(s, NextState(s, op, now), {})
  {
    TransferPreparationIs(s, op, now);
    MintKeeps(s);
  }

  lemma EndingOpIs(s: State, op: Op, now: nat)
    requires op.DoRelease? || op.DoExpire? || op.DoReleaseOwned? || op.DoRollback?
    ensures EndsAtMost(s, NextState(s, op, now), op.token.instance)
  {
  }

  lemma EndingOpKeeps(s: State, op: Op, now: nat)
    requires op.DoRelease? || op.DoExpire? || op.DoReleaseOwned? || op.DoRollback?
    ensures Keeps(s, NextState(s, op, now), {})
  {
    EndingOpIs(s, op, now);
    EndsKeep(s, NextState(s, op, now), op.token.instance);
  }

  lemma ClearKeeps(s: State, i: nat, now: nat)
    ensures Keeps(s, ClearCooldown(s, i, now), {})
  {
    CooldownKeeps(s, i, 0);
  }

  /** The scheduler keeps its invariant at every operation. */
  lemma StateKeeps(w: World, op: Op, now: nat)
    requires WorldInv(w) && Enabled(w, op, now)
    ensures Inv(NextState(w.state, op, now)) && Follows(w.state, NextState(w.state, op, now), Committed(op))
  {
    var s := w.state;
    match op
    case DoPrepareAcquire(request, i, holder, connection, policy) =>
      PrepareAcquireKeeps(s, request, i, holder, connection, policy, now);
    case DoPrepareDedicated(request, i, holder, connection, kind, gate) =>
      DedicatedKeeps(s, request, i, holder, connection, kind, gate, now);
    case DoCommitAcquire(prepared) => CommitAcquireKeeps(s, prepared, now);
    case DoBeginStep(token, connection, purpose) => BeginStepKeeps(s, token, connection, purpose, now);
    case DoFinishStep(fence, connection) => FinishStepKeeps(s, fence, connection);
    case DoPrepareTransfer(_, _, _, _, _) => TransferPreparationKeeps(s, op, now);
    case DoPrepareHandOff(_, _, _, _, _, _) => TransferPreparationKeeps(s, op, now);
    case DoCommitTransfer(transfer) => CommitTransferKeeps(s, transfer, now);
    case DoRenew(request, token, connection) => RenewKeeps(s, request, token, connection, now);
    case DoRenewWithTtl(token, connection, ttl) => RenewWithTtlKeeps(s, token, connection, ttl, now);
    case DoRelease(_, _, _) => EndingOpKeeps(s, op, now);
    case DoExpire(_) => EndingOpKeeps(s, op, now);
    case DoReleaseOwned(_, _, _) => EndingOpKeeps(s, op, now);
    case DoRollback(_) => EndingOpKeeps(s, op, now);
    case DoClearCooldown(i) => ClearKeeps(s, i, now);
    case _ => QueueOpKeeps(s, op, now);
  }

  /** What an operation hands out has the next id. */
  ghost predicate Fresh(s: State, next: State, leases: set<PreparedLease>, transfers: set<PreparedTransfer>) {
    && (forall p, q :: p in leases && q in leases ==> p == q) && (forall t, u :: t in transfers && u in transfers ==> t == u)
    && (leases == {} || transfers == {})
    && (forall p :: p in leases ==> p.token.lease == s.minted < next.minted && p.token.epoch == s.epoch)
    && (forall t :: t in transfers ==>
          t.to.lease == s.minted < next.minted && t.to.epoch == s.epoch && t.to.instance == t.from.token.instance && t.from.step.None?)
  }

  lemma AcquiredAreFresh(s: State, request: nat, i: nat, holder: nat, connection: nat, policy: Policy, now: nat)
    ensures
      var o := PrepareAcquire(s, request, i, holder, connection, policy, now);
      Fresh(s, o.state, LeasesOf(o.result), {})
  {
  }

  /** A new lease for a queue request is an immediate try's. */
  lemma RequestedIsAcquired(s: State, request: nat, i: nat, holder: nat, connection: nat, priority: Priority, timeout: nat,
                            gate: ClaimGate, immediate: bool, now: nat)
    requires
      var o := RequestNew(s, request, i, holder, connection, priority, timeout, gate, immediate, now);
      o.result.Ok? && o.result.value.Leased?
    ensures
      var o := RequestNew(s, request, i, holder, connection, priority, timeout, gate, immediate, now);
      var touched := Touched(TakeExpired(s, i, now), i);
      && touched.minted == s.minted && touched.epoch == s.epoch && FirstEligible(At(touched, i).queue, gate, now).None?
      && Outcome(Ok(o.result.value.preparation), o.state)
         == PrepareAcquire(touched, request, i, holder, connection, Policy(priority, s.config.leaseTtl, ClientLease, gate), now)
  {
  }

  lemma RequestedAreFresh(s: State, op: Op, now: nat)
    requires op.DoRequestQueued?
    ensures Fresh(s, NextState(s, op, now), NewLeases(s, op, now), {})
  {
    if NewLeases(s, op, now) != {} {
      RequestQueuedIs(s, op.request, op.instance, op.holder, op.connection, op.priority, op.timeout, op.gate, op.immediate, now);
      NewIsNotReplayed(s, op.request, op.instance, op.holder, op.connection, op.priority, op.timeout, op.gate, op.immediate, now);
      RequestedIsAcquired(s, op.request, op.instance, op.holder, op.connection, op.priority, op.timeout, op.gate, op.immediate, now);
      var touched := Touched(TakeExpired(s, op.instance, now), op.instance);
      AcquiredAreFresh(touched, op.request, op.instance, op.holder, op.connection,
                       Policy(op.priority, s.config.leaseTtl, ClientLease, op.gate), now);
    }
  }

  lemma NewIsNotReplayed(s: State, request: nat, i: nat, holder: nat, connection: nat, priority: Priority, timeout: nat,
                         gate: ClaimGate, immediate: bool, now: nat)
    requires
      var o := RequestQueued(s, request, i, holder, connection, priority, timeout, gate, immediate, now);
      o.result.Ok? && o.result.value.Leased? && o.result.value.preparation.New?
    ensures RequestQueued(s, request, i, holder, connection, priority, timeout, gate, immediate, now)
         == RequestNew(s, request, i, holder, connection, priority, timeout, gate, immediate, now)
  {
  }

  lemma TransfersAreFresh(s: State, op: Op, now: nat)
    requires op.DoPrepareTransfer? || op.DoPrepareHandOff?
    ensures Fresh(s, NextState(s, op, now), {}, NewTransfers(s, op, now))
  {
  }

  lemma HandedOutAreFresh(s: State, op: Op, now: nat)
    ensures Fresh(s, NextState(s, op, now), NewLeases(s, op, now), NewTransfers(s, op, now))
  {
    match op
    case DoPrepareAcquire(request, i, holder, connection, policy) => AcquiredAreFresh(s, request, i, holder, connection, policy, now);
    case DoPrepareDedicated(request, i, holder, connection, kind, gate) =>
      AcquiredAreFresh(s, request, i, holder, connection, Policy(Normal, s.config.leaseTtl, kind, Open), now);
    case DoRequestQueued(_, _, _, _, _, _, _, _) => RequestedAreFresh(s, op, now);
    case DoPrepareTransfer(_, _, _, _, _) => TransfersAreFresh(s, op, now);
    case DoPrepareHandOff(_, _, _, _, _, _) => TransfersAreFresh(s, op, now);
    case _ =>
  }

  /** The preparations callers hold stay apart from the leases there are, and from each other. */
  lemma PreparedStayOk(w: World, v: World, committed: set<nat>, leases: set<PreparedLease>, transfers: set<PreparedTransfer>)
    requires PreparedOk(w) && Follows(w.state, v.state, committed) && Fresh(w.state, v.state, leases, transfers)
    requires v.leases <= w.leases + leases && v.transfers <= w.transfers + transfers
    requires forall p :: p in v.leases && p in w.leases ==> p.token.lease !in committed
    requires forall t :: t in v.transfers && t in w.transfers ==> t.to.lease !in committed
    requires forall id :: id in w.state.locations || id in committed ==> id < w.state.minted
    ensures PreparedOk(v)
  {
  }

  lemma CommittedIsTaken(w: World, op: Op, now: nat)
    requires PreparedOk(w) && Enabled(w, op, now)
    ensures forall id :: id in Committed(op) ==> id < w.state.minted
    ensures op.DoCommitAcquire? ==> forall p :: p in w.leases - {op.prepared} ==> p.token.lease !in Committed(op)
    ensures op.DoCommitAcquire? ==> forall t :: t in w.transfers ==> t.to.lease !in Committed(op)
    ensures op.DoCommitTransfer? ==> forall p :: p in w.leases ==> p.token.lease !in Committed(op)
    ensures op.DoCommitTransfer? ==> forall t :: t in w.transfers - {op.transfer} ==> t.to.lease !in Committed(op)
  {
  }

  /** Every operation leads from a sound world to a sound world. */
  lemma WorldKeeps(w: World, op: Op, now: nat)
    requires WorldInv(w) && Enabled(w, op, now)
    ensures WorldInv(Next(w, op, now))
  {
    var leases, transfers := NewLeases(w.state, op, now), NewTransfers(w.state, op, now);
    StateKeeps(w, op, now);
    HandedOutAreFresh(w.state, op, now);
    LocatedWereMinted(w.state);
    CommittedIsTaken(w, op, now);
    assert op.DoCommitAcquire? || op.DoCommitTransfer? ==> leases == {} && transfers == {};
    PreparedStayOk(w, Next(w, op, now), Committed(op), leases, transfers);
  }

  lemma LocatedWereMinted(s: State)
    requires Inv(s)
    ensures forall id :: id in s.locations ==> id < s.minted
  {
    forall id | id in s.locations ensures id < s.minted {
      InstanceIsOk(s, s.locations[id]);
    }
  }

  // ----- A lease that ended never comes back

  /** An id that was issued and that nobody holds or can still commit. */
  ghost predicate Spent(w: World, id: nat) {
    && Waiting(w.state, id)
    && (forall p :: p in w.leases ==> p.token.lease != id)
    && (forall t :: t in w.transfers ==> t.to.lease != id)
  }

  lemma SpentStays(w: World, op: Op, now: nat, id: nat)
    requires WorldInv(w) && Enabled(w, op, now) && Spent(w, id)
    ensures Spent(Next(w, op, now), id)
  {
    StateKeeps(w, op, now);
    HandedOutAreFresh(w.state, op, now);
  }

  lemma EndedIsSpent(w: World, op: Op, now: nat, id: nat)
    requires WorldInv(w) && Enabled(w, op, now) && id in w.state.locations && id !in Next(w, op, now).state.locations
    ensures Spent(Next(w, op, now), id)
  {
    StateKeeps(w, op, now);
    HandedOutAreFresh(w.state, op, now);
    LocatedWereMinted(w.state);
  }

  /** One world follows another by an operation that was possible there. */
  ghost predicate Steps(w: World, next: World) {
    exists op, now :: Enabled(w, op, now) && next == Next(w, op, now)
  }

  lemma StepKeeps(w: World, next: World)
    requires WorldInv(w) && Steps(w, next)
    ensures WorldInv(next)
  {
    var op, now :| Enabled(w, op, now) && next == Next(w, op, now);
    WorldKeeps(w, op, now);
  }

  /** An id that is spent stays spent, and one whose lease ends is spent. */
  lemma StepSpends(w: World, next: World, id: nat)
    requires WorldInv(w) && Steps(w, next) && (Spent(w, id) || (id in w.state.locations && id !in next.state.locations))
    ensures Spent(next, id)
  {
    var op, now :| Enabled(w, op, now) && next == Next(w, op, now);
    if Spent(w, id) {
      SpentStays(w, op, now, id);
    } else {
      EndedIsSpent(w, op, now, id);
    }
  }

  ghost function Step(): (World, World) -> bool { (w, next) => Steps(w, next) }

  ghost predicate Run(worlds: seq<World>) { |worlds| > 0 && WorldInv(worlds[0]) && IsRun(worlds, Step()) }

  lemma EveryWorldIsSound(worlds: seq<World>, n: nat)
    requires Run(worlds) && n < |worlds|
    ensures WorldInv(worlds[n])
  {
    forall w, next | WorldInv(w) && Steps(w, next) ensures WorldInv(next) {
      StepKeeps(w, next);
    }
    HoldsOn(worlds, Step(), w => WorldInv(w), 0, n);
  }

  /** Once spent, an id stays spent for the rest of the run. */
  lemma SpentForever(worlds: seq<World>, id: nat, from: nat, n: nat)
    requires IsRun(worlds, Step()) && from <= n < |worlds| && WorldInv(worlds[from]) && Spent(worlds[from], id)
    ensures Spent(worlds[n], id)
  {
    forall w, next | WorldInv(w) && Spent(w, id) && Steps(w, next) ensures WorldInv(next) && Spent(next, id) {
      StepKeeps(w, next);
      StepSpends(w, next, id);
    }
    HoldsOn(worlds, Step(), w => WorldInv(w) && Spent(w, id), from, n);
  }

  ghost predicate HeldOrSpent(w: World, id: nat) { id in w.state.locations || Spent(w, id) }

  lemma HeldOrSpentStays(w: World, next: World, id: nat)
    requires WorldInv(w) && Steps(w, next) && HeldOrSpent(w, id)
    ensures HeldOrSpent(next, id)
  {
    if id !in next.state.locations {
      StepSpends(w, next, id);
    }
  }

  /** Once its lease ended, an id is never current again, at any later point of the run. */
  lemma EndedForever(worlds: seq<World>, id: nat, held: nat, ended: nat, n: nat)
    requires Run(worlds) && held < ended <= n < |worlds|
    requires id in worlds[held].state.locations && id !in worlds[ended].state.locations
    ensures Spent(worlds[n], id)
  {
    EveryWorldIsSound(worlds, held);
    forall w, next | WorldInv(w) && HeldOrSpent(w, id) && Steps(w, next) ensures WorldInv(next) && HeldOrSpent(next, id) {
      StepKeeps(w, next);
      HeldOrSpentStays(w, next, id);
    }
    HoldsOn(worlds, Step(), w => WorldInv(w) && HeldOrSpent(w, id), held, ended);
    SpentForever(worlds, id, ended, n);
  }

  /** A token of a lease that is not current: no lookup finds it. */
  lemma UnlocatedIsNotFound(s: State, token: Token, connection: nat, now: nat)
    requires token.lease !in s.locations
    ensures CurrentLease(s, token, connection, now).Err? && ValidateWrite(s, token, connection, now).Err?
    ensures LocatedLease(s, token, connection, now).Err? && HeldLease(s, token).Err?
  {
  }

  /** Nor is its renewal replayed. */
  lemma UnlocatedIsNotRenewed(s: State, request: nat, token: Token, connection: nat, ttl: nat, now: nat)
    requires Inv(s) && token.lease !in s.locations
    ensures Renew(s, request, token, connection, now).result.Err? && RenewWithTtl(s, token, connection, ttl, now).result.Err?
  {
    InstanceIsOk(s, token.instance);
  }

  /**
   So every token of it is refused from then on: no write, no step, no renewal, no end and no transfer. A release is
   refused too, or is answered from its record, and changes nothing.
   */
  lemma EndedTokensAreRefused(worlds: seq<World>, token: Token, held: nat, ended: nat, n: nat, connection: nat, now: nat)
    requires Run(worlds) && held < ended <= n < |worlds|
    requires token.lease in worlds[held].state.locations && token.lease !in worlds[ended].state.locations
    ensures ValidateWrite(worlds[n].state, token, connection, now).Err?
    ensures forall purpose :: BeginStep(worlds[n].state, token, connection, purpose, now).result.Err?
    ensures forall request :: Renew(worlds[n].state, request, token, connection, now).result.Err?
    ensures forall ttl :: RenewWithTtl(worlds[n].state, token, connection, ttl, now).result.Err?
    ensures Expire(worlds[n].state, token, now).result.Err? && Rollback(worlds[n].state, token).result.Err?
    ensures forall reason :: ReleaseOwned(worlds[n].state, token, connection, reason).result.Err?
    ensures forall reason, request, gate :: PrepareTransfer(worlds[n].state, token, connection, reason, request, gate, now).result.Err?
    ensures forall reason, request, claim, gate ::
              PrepareHandOff(worlds[n].state, token, connection, reason, request, claim, gate, now).result.Err?
    ensures forall request ::
              var o := Release(worlds[n].state, request, token, connection, now);
              o.state == worlds[n].state && (o.result.Ok? ==>
                At(worlds[n].state, token.instance).lastRelease == Some(ReleaseRecord(request, token, connection, o.result.value)))
  {
    var s := worlds[n].state;
    EndedForever(worlds, token.lease, held, ended, n);
    EveryWorldIsSound(worlds, n);
    UnlocatedIsNotFound(s, token, connection, now);
    forall request, ttl
      ensures Renew(s, request, token, connection, now).result.Err? && RenewWithTtl(s, token, connection, ttl, now).result.Err?
    {
      UnlocatedIsNotRenewed(s, request, token, connection, ttl, now);
    }
  }

  // ----- Writes: who may

  /** The holder of an instance, as its token, its connection and the time say. */
  predicate Owns(s: State, token: Token, connection: nat, now: nat) {
    && LeaseOf(s, token.instance).Some? && LeaseOf(s, token.instance).value.token == token
    && LeaseOf(s, token.instance).value.connection == connection && token.expires > now
  }

  /** A write is allowed exactly to the holder, outside its cooldown, on a lease that is not for closing only. */
  lemma WriteIsAllowedIff(s: State, token: Token, connection: nat, now: nat)
    requires Inv(s)
    ensures ValidateWrite(s, token, connection, now).Ok? <==>
              Owns(s, token, connection, now) && At(s, token.instance).cooldown <= now && !LeaseOf(s, token.instance).value.closeOnly
  {
    InstanceIsOk(s, token.instance);
  }

  /** At most one token and one connection may write to an instance at a time. */
  lemma OneWriter(s: State, token: Token, connection: nat, other: Token, otherConnection: nat, now: nat)
    requires Inv(s) && token.instance == other.instance
    requires ValidateWrite(s, token, connection, now).Ok? && ValidateWrite(s, other, otherConnection, now).Ok?
    ensures token == other && connection == otherConnection
  {
    WriteIsAllowedIff(s, token, connection, now);
    WriteIsAllowedIff(s, other, otherConnection, now);
  }
}
