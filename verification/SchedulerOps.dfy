/** The scheduler's operations as functions of its state. */
module SchedulerOps {
  import opened Basics
  import opened Wrappers
  import opened Claims
  import opened SchedulerState

  // ----- Preparations: values a caller holds until it commits them, once

  datatype PreparedLease = PreparedLease(
    token: Token, connection: nat, request: nat, priority: Priority, closeOnly: bool, kind: ClaimKind, fromQueue: bool)

  datatype Preparation = Existing(token: Token) | New(prepared: PreparedLease)

  datatype PreparedTransfer = PreparedTransfer(
    from: Lease, queued: Entry, to: Token, reason: EndReason, releaseRequest: Option<nat>, handOff: bool)

  datatype TransferPreparation = NoCandidate | Deferred | Ready(transfer: PreparedTransfer)

  datatype Claim = Claim(request: nat, instance: nat, holder: nat, connection: nat, kind: ClaimKind, priority: Priority, ttl: nat)

  datatype Policy = Policy(priority: Priority, ttl: nat, kind: ClaimKind, gate: ClaimGate)

  function Fail<T>(s: State, error: SchedulerError): Outcome<T> { Outcome(Err(error), s) }

  function FreshToken(s: State, i: nat, holder: nat, expires: nat): Token { Token(s.epoch, s.minted, i, holder, expires) }

  function Minted(s: State): State { s.(minted := s.minted + 1) }

  // ----- Acquiring

  /** What an immediate try finds on its instance, whose elapsed cooldown it clears. */
  function TryLease(instance: Instance, request: nat, holder: nat, connection: nat, policy: Policy,
                    now: nat): Result<Option<Token>, SchedulerError> {
    match instance.lease
    case Some(lease) =>
      if lease.token.expires <= now then Err(LeaseExpired)
      else if lease.request == request && lease.connection == connection && lease.token.holder == holder then Ok(Some(lease.token))
      else Err(Busy(lease.token.holder, lease.token.lease, lease.token.expires))
    case None =>
      match FirstEligible(instance.queue, policy.gate, now)
      case Some(position) => Err(QueueAhead(instance.queue[position].kind, position + 1))
      case None => if GateHolds(policy.gate, policy.kind) && !policy.kind.PolicyDispatch? then Err(GateHeld) else Ok(None)
  }

  /** `prepare_acquire_with_policy`. */
  function PrepareAcquire(s: State, request: nat, i: nat, holder: nat, connection: nat, policy: Policy,
                          now: nat): Outcome<Preparation> {
    var instance := At(s, i);
    if instance.cooldown > now then Fail(Touched(s, i), CoolingDown(instance.cooldown - now))
    else
      var s := WithInstance(s, i, instance.(cooldown := 0));
      match TryLease(instance, request, holder, connection, policy, now)
      case Err(error) => Fail(s, error)
      case Ok(Some(token)) => Outcome(Ok(Existing(token)), s)
      case Ok(None) =>
        if now + policy.ttl > U64_MAX then Fail(s, ExpiryOverflow)
        else
          var token := FreshToken(s, i, holder, now + policy.ttl);
          Outcome(Ok(New(PreparedLease(token, connection, request, policy.priority, false, policy.kind, false))), Minted(s))
  }

  /** The entries that refuse a dedicated lease. */
  predicate Refuses(entry: Entry, gate: ClaimGate, now: nat) { Eligible(entry, gate, now) && !HolderOwned(entry.kind) }

  /** `prepare_dedicated_lease`. */
  function PrepareDedicated(s: State, request: nat, i: nat, holder: nat, connection: nat, kind: ClaimKind,
                            gate: ClaimGate, now: nat): Outcome<Preparation> {
    if exists k :: 0 <= k < |At(s, i).queue| && Refuses(At(s, i).queue[k], gate, now) then Fail(s, TransferNotSafe)
    else
      var o := PrepareAcquire(s, request, i, holder, connection, Policy(Normal, s.config.leaseTtl, kind, Open), now);
      match o.result
      case Ok(New(prepared)) => Outcome(Ok(New(prepared.(closeOnly := true))), o.state)
      case Ok(Existing(_)) => Fail(o.state, ResourceCloseOnly)
      case Err(error) => o
  }

  function LeaseFrom(prepared: PreparedLease): Lease {
    Lease(prepared.token, prepared.connection, prepared.closeOnly, prepared.request, None, prepared.priority, None,
          false, prepared.kind)
  }

  /** `commit_acquire` of a new lease. */
  function CommitAcquire(s: State, prepared: PreparedLease, now: nat): Outcome<Token> {
    var i := prepared.token.instance;
    if prepared.token.epoch != s.epoch then Fail(s, StaleOwnerEpoch)
    else if prepared.token.expires <= now then Fail(s, LeaseExpired)
    else if i !in s.instances then Fail(s, LeaseMissing)
    else
      var instance := s.instances[i];
      if instance.cooldown > now then Fail(s, CoolingDown(instance.cooldown - now))
      else if instance.lease.Some? then
        var held := instance.lease.value.token;
        Fail(s, Busy(held.holder, held.lease, held.expires))
      else
        var position := PositionOf(instance.queue, prepared.request);
        if prepared.fromQueue && position.None? then Fail(s, QueueMissing)
        else
          var queue := if prepared.fromQueue then Without(instance.queue, position.value) else instance.queue;
          Outcome(Ok(prepared.token), Granted(s, i, LeaseFrom(prepared), queue, None))
  }

  // ----- Queueing

  /** `insert_queue_entry`; the answer is the entry as it was queued. */
  function Enqueue(s: State, i: nat, entry: Entry): Outcome<Entry> {
    if s.nextArrival + 1 > U64_MAX then Fail(s, QueueSequenceOverflow)
    else if |At(s, i).queue| >= s.config.maxDepth then Fail(Touched(s, i), QueueFull)
    else
      var queued := entry.(arrival := s.nextArrival);
      Outcome(Ok(queued), WithQueue(s.(nextArrival := s.nextArrival + 1), i, Inserted(At(s, i).queue, queued)))
  }

  function ClaimEntry(claim: Claim): Entry {
    Entry(claim.request, claim.holder, claim.connection, claim.priority, U64_MAX, 0, claim.kind, claim.ttl, false)
  }

  /** `enqueue_claim`: a continuation is queued only by the holder of its instance. */
  function EnqueueClaim(s: State, claim: Claim): Outcome<Entry> {
    if !TtlIsValid(s, claim.ttl) then Fail(s, InvalidConfig)
    else if MentionedAnywhere(s, claim.request) then Fail(s, QueueRequestMismatch)
    else if HolderOwned(claim.kind) && LeaseOf(s, claim.instance).None? then Fail(s, LeaseMissing)
    else if HolderOwned(claim.kind) && LeaseOf(s, claim.instance).value.token.holder != claim.holder then Fail(s, HolderMismatch)
    else Enqueue(s, claim.instance, ClaimEntry(claim))
  }

  /** Entries of one instance leave its queue: expired, cancelled, disconnected or drained. */
  function DropEntries(s: State, i: nat, drop: Entry -> bool): State {
    if i in s.instances then WithQueue(s, i, Keep(s.instances[i].queue, drop)) else s
  }

  function TakeExpired(s: State, i: nat, now: nat): State { DropEntries(s, i, (e: Entry) => e.deadline <= now) }

  datatype Admission = Leased(preparation: Preparation) | Queued(entry: Entry)

  lemma LeastExists(ids: set<nat>, id: nat)
    requires id in ids
    ensures exists least :: least in ids && forall other :: other in ids ==> least <= other
    decreases id
  {
    if other :| other in ids && other < id {
      LeastExists(ids, other);
    }
  }

  /** The first instance, in the order of their ids, with a lease or an entry of a request. */
  function FirstMention(s: State, request: nat): (first: Option<nat>)
    ensures first.Some? ==> first.value in s.instances && Mentions(s.instances[first.value], request)
    ensures first.None? <==> !MentionedAnywhere(s, request)
  {
    var ids := set i | i in s.instances && Mentions(s.instances[i], request);
    if ids == {} then
      assert forall i :: i in s.instances && Mentions(s.instances[i], request) ==> i in ids;
      None
    else
      assert exists least :: least in ids && forall id :: id in ids ==> least <= id by {
        var id :| id in ids;
        LeastExists(ids, id);
      }
      var least :| least in ids && forall id :: id in ids ==> least <= id;
      Some(least)
  }

  /** `replay_queue_request`: what a request that is already held or queued is answered. */
  function ReplayedRequest(s: State, request: nat, i: nat, holder: nat, connection: nat,
                           priority: Priority): Result<Option<Admission>, SchedulerError> {
    match FirstMention(s, request)
    case None => Ok(None)
    case Some(first) =>
      var instance := s.instances[first];
      if instance.lease.Some? && instance.lease.value.request == request then
        var lease := instance.lease.value;
        if first != i || lease.token.holder != holder || lease.priority != priority then Err(QueueRequestMismatch)
        else if lease.connection != connection then Err(QueueConnectionMismatch)
        else Ok(Some(Leased(Existing(lease.token))))
      else
        var entry := instance.queue[PositionOf(instance.queue, request).value];
        if first != i || entry.holder != holder || entry.priority != priority then Err(QueueRequestMismatch)
        else if entry.connection != connection then Err(QueueConnectionMismatch)
        else Ok(Some(Queued(entry)))
  }

  /** `request_queued_gated`: a request already held or queued is answered again, unless its entry has expired. */
  function RequestQueued(s: State, request: nat, i: nat, holder: nat, connection: nat, priority: Priority, timeout: nat,
                         gate: ClaimGate, immediate: bool, now: nat): Outcome<Admission>
  {
    if timeout == 0 || timeout > s.config.maxQueueTimeout then Fail(s, QueueTimeoutInvalid)
    else
      match ReplayedRequest(s, request, i, holder, connection, priority)
      case Err(error) => Fail(s, error)
      case Ok(Some(admission)) =>
        if admission.Queued? && admission.entry.deadline <= now then Fail(CancelAt(s, i, request, connection).state, QueueExpired)
        else Outcome(Ok(admission), s)
      case Ok(None) => RequestNew(s, request, i, holder, connection, priority, timeout, gate, immediate, now)
  }

  /** A request no lease or entry has yet. */
  function RequestNew(s: State, request: nat, i: nat, holder: nat, connection: nat, priority: Priority, timeout: nat,
                      gate: ClaimGate, immediate: bool, now: nat): Outcome<Admission>
  {
    var s := Touched(TakeExpired(s, i, now), i);
    var instance := s.instances[i];
    if instance.lease.None? && instance.cooldown > now then Fail(s, CoolingDown(instance.cooldown - now))
    else if instance.lease.None? && immediate && FirstEligible(instance.queue, gate, now).None? then
      var o := PrepareAcquire(s, request, i, holder, connection, Policy(priority, s.config.leaseTtl, ClientLease, gate), now);
      match o.result
      case Err(error) => Fail(o.state, error)
      case Ok(preparation) => Outcome(Ok(Leased(preparation)), o.state)
    else if now + timeout > U64_MAX then Fail(s, ExpiryOverflow)
    else
      var o := Enqueue(s, i, Entry(request, holder, connection, priority, now + timeout, 0, ClientLease, s.config.leaseTtl, true));
      match o.result
      case Err(error) => Fail(o.state, error)
      case Ok(entry) => Outcome(Ok(Queued(entry)), o.state)
  }

  /** `prepare_queued_grant`: the pump grants the first eligible entry of a free instance. */
  function PrepareGrant(s: State, i: nat, gate: ClaimGate, now: nat): Outcome<Option<PreparedLease>> {
    var instance := At(s, i);
    var position := FirstEligible(instance.queue, gate, now);
    if i !in s.instances || instance.lease.Some? || instance.cooldown > now || position.None? then Outcome(Ok(None), s)
    else
      var entry := instance.queue[position.value];
      if now + entry.ttl > U64_MAX then Fail(s, ExpiryOverflow)
      else
        var token := FreshToken(s, i, entry.holder, now + entry.ttl);
        Outcome(Ok(Some(PreparedLease(token, entry.connection, entry.request, entry.priority, false, entry.kind, true))), Minted(s))
  }

  /** `cancel_queued` of an entry of instance `i`, and `poll_queued` of one whose deadline has passed. */
  function CancelAt(s: State, i: nat, request: nat, connection: nat): Outcome<Entry> {
    match PositionOf(At(s, i).queue, request)
    case None => Fail(s, QueueMissing)
    case Some(position) =>
      var entry := At(s, i).queue[position];
      if entry.connection != connection then Fail(s, QueueConnectionMismatch)
      else Outcome(Ok(entry), WithQueue(s, i, Without(At(s, i).queue, position)))
  }

  // ----- Destructive steps

  datatype FencedWrite = FencedWrite(token: Token, connection: nat, id: nat, purpose: Purpose)

  /** `begin_destructive_step` and `begin_resource_close`. */
  function BeginStep(s: State, token: Token, connection: nat, purpose: Purpose, now: nat): Outcome<FencedWrite> {
    var current := if purpose.Business? then ValidateWrite(s, token, connection, now) else CurrentLease(s, token, connection, now);
    match current
    case Err(error) => Fail(s, error)
    case Ok(lease) =>
      if lease.step.Some? then Fail(s, DestructiveStateMismatch)
      else if purpose.Business? && lease.preempt then Fail(s, TransferNotSafe)
      else if s.nextStep + 1 > U64_MAX then Fail(s, StepSequenceOverflow)
      else
        Outcome(Ok(FencedWrite(token, connection, s.nextStep, purpose)),
                Changed(s.(nextStep := s.nextStep + 1), token.instance, lease.(step := Some(StepMark(s.nextStep, purpose)))))
  }

  /** `finish_destructive_step`. */
  function FinishStep(s: State, fence: FencedWrite, connection: nat): Outcome<()> {
    match HeldLease(s, fence.token)
    case Err(error) => Fail(s, if error == LeaseMismatch && LocateToken(s, fence.token).Ok? then ConnectionMismatch else error)
    case Ok(lease) =>
      if lease.connection != connection || fence.connection != connection then Fail(s, ConnectionMismatch)
      else if lease.step != Some(StepMark(fence.id, fence.purpose)) then Fail(s, DestructiveStateMismatch)
      else Outcome(Ok(()), Changed(s, fence.token.instance, lease.(step := None)))
  }

  /** `validate_destructive_step`. */
  function ValidateStep(s: State, fence: FencedWrite, connection: nat, now: nat): Result<Lease, SchedulerError> {
    match CurrentLease(s, fence.token, connection, now)
    case Err(error) => Err(error)
    case Ok(lease) =>
      if fence.connection != connection || lease.step != Some(StepMark(fence.id, fence.purpose)) then Err(DestructiveStateMismatch)
      else Ok(lease)
  }

  // ----- Transfers

  function PreparedTransferOf(s: State, from: Lease, queued: Entry, reason: EndReason, releaseRequest: Option<nat>,
                              handOff: bool, now: nat)
    : Outcome<TransferPreparation>
  {
    if now + queued.ttl > U64_MAX then Fail(s, ExpiryOverflow)
    else
      var to := FreshToken(s, from.token.instance, queued.holder, now + queued.ttl);
      Outcome(Ok(Ready(PreparedTransfer(from, queued, to, reason, releaseRequest, handOff))), Minted(s))
  }

  /** `prepare_transfer_gated`; a transfer names no `InstancePaused` or `ConnectionPrepared` reason. */
  function PrepareTransfer(s: State, token: Token, connection: nat, reason: EndReason, releaseRequest: Option<nat>,
                           gate: ClaimGate, now: nat)
    : Outcome<TransferPreparation>
  {
    if reason.Explicit? != releaseRequest.Some? then Fail(s, QueueRequestMismatch)
    else
      match HeldBy(s, token, connection)
      case Err(error) => Fail(s, error)
      case Ok(lease) =>
        if lease.step.Some? then Outcome(Ok(Deferred), s)
        else
          var queue := At(s, token.instance).queue;
          match FirstEligible(queue, gate, now)
          case None => Outcome(Ok(NoCandidate), s)
          case Some(position) =>
            var queued := queue[position];
            if reason.Preempted? && !(queued.mayPreempt && Above(queued.priority, lease.priority)) then Outcome(Ok(NoCandidate), s)
            else PreparedTransferOf(s, lease, queued, reason, releaseRequest, false, now)
  }

  /** `prepare_hand_off` and `prepare_release_hand_off`: a transfer that bypasses the queue. */
  function PrepareHandOff(s: State, token: Token, connection: nat, reason: EndReason, releaseRequest: Option<nat>, claim: Claim,
                          gate: ClaimGate, now: nat): Outcome<TransferPreparation>
  {
    if reason.Explicit? != releaseRequest.Some? then Fail(s, QueueRequestMismatch)
    else if !TtlIsValid(s, claim.ttl) then Fail(s, InvalidConfig)
    else if claim.instance != token.instance then Fail(s, InstanceMismatch)
    else
      match HeldBy(s, token, connection)
      case Err(error) => Fail(s, error)
      case Ok(lease) =>
        if lease.step.Some? then Outcome(Ok(Deferred), s)
        else if GateHolds(gate, claim.kind) then Outcome(Ok(NoCandidate), s)
        else if MentionedAnywhere(s, claim.request) then Fail(s, QueueRequestMismatch)
        else PreparedTransferOf(s, lease, ClaimEntry(claim), reason, releaseRequest, true, now)
  }

  function LeaseTo(to: Token, queued: Entry): Lease {
    Lease(to, queued.connection, false, queued.request, None, queued.priority, None, false,
          if queued.kind.LadderContinuation? then Ladder else queued.kind)
  }

  function IndexOf(queue: seq<Entry>, entry: Entry): (position: Option<nat>)
    ensures position.Some? ==> position.value < |queue| && queue[position.value] == entry
    ensures position.None? ==> entry !in queue
  {
    if queue == [] then None
    else if queue[0] == entry then Some(0)
    else
      match IndexOf(queue[1..], entry)
      case Some(position) => Some(position + 1)
      case None => None
  }

  /** `commit_transfer`: the lease is still the one the transfer was prepared from. */
  function CommitTransfer(s: State, transfer: PreparedTransfer, now: nat): Outcome<Token> {
    var i := transfer.from.token.instance;
    var instance := At(s, i);
    var position := IndexOf(instance.queue, transfer.queued);
    if transfer.from.token.epoch != s.epoch || transfer.to.epoch != s.epoch then Fail(s, StaleOwnerEpoch)
    else if transfer.to.expires <= now then Fail(s, LeaseExpired)
    else if i !in s.instances then Fail(s, LeaseMissing)
    else if instance.lease != Some(transfer.from) then Fail(s, LeaseMismatch)
    else if (if transfer.handOff then PositionOf(instance.queue, transfer.queued.request).Some? else position.None?) then
      Fail(s, QueueRequestMismatch)
    else
      var queue := if transfer.handOff then instance.queue else Without(instance.queue, position.value);
      var record :=
        if transfer.releaseRequest.None? then None
        else Some(ReleaseRecord(transfer.releaseRequest.value, transfer.from.token, transfer.from.connection,
                                Released(transfer.from.token, transfer.reason)));
      Outcome(Ok(transfer.to), Granted(s, i, LeaseTo(transfer.to, transfer.queued), queue, record))
  }

  // ----- Renewing

  /** `replayed_renew`. */
  function ReplayedRenew(s: State, request: nat, token: Token, connection: nat): Result<Option<Token>, SchedulerError> {
    if token.epoch != s.epoch then Err(StaleOwnerEpoch)
    else
      match LeaseOf(s, token.instance)
      case None => Ok(None)
      case Some(lease) =>
        if lease.lastRenew.None? || lease.lastRenew.value.request != request then Ok(None)
        else if lease.lastRenew.value.submitted != token then Err(LeaseMismatch)
        else if lease.connection != connection then Err(ConnectionMismatch)
        else Ok(Some(lease.lastRenew.value.renewed))
  }

  /** The current lease as `renew` and `release` look it up: no cooldown is checked. */
  function LocatedLease(s: State, token: Token, connection: nat, now: nat): Result<Lease, SchedulerError> {
    match LocateToken(s, token)
    case Err(error) => Err(error)
    case Ok(i) => if LeaseOf(s, i).None? then Err(LeaseMissing) else CheckLease(LeaseOf(s, i).value, token, connection, now)
  }

  /** `renew`. */
  function Renew(s: State, request: nat, token: Token, connection: nat, now: nat): Outcome<Token> {
    match ReplayedRenew(s, request, token, connection)
    case Err(error) => Fail(s, error)
    case Ok(Some(renewed)) => Outcome(Ok(renewed), s)
    case Ok(None) =>
      if LocateToken(s, token).Err? then Fail(s, LocateToken(s, token).error)
      else if now + s.config.leaseTtl > U64_MAX then Fail(s, ExpiryOverflow)
      else
        match LocatedLease(s, token, connection, now)
        case Err(error) => Fail(s, error)
        case Ok(lease) =>
          var renewed := lease.token.(expires := now + s.config.leaseTtl);
          var record := RenewRecord(request, token, renewed);
          Outcome(Ok(renewed), Changed(s, token.instance, lease.(token := renewed, lastRenew := Some(record))))
  }

  /** `renew_with_ttl`. */
  function RenewWithTtl(s: State, token: Token, connection: nat, ttl: nat, now: nat): Outcome<Token> {
    if !TtlIsValid(s, ttl) then Fail(s, InvalidConfig)
    else if token.epoch != s.epoch then Fail(s, StaleOwnerEpoch)
    else if now + ttl > U64_MAX then Fail(s, ExpiryOverflow)
    else if LeaseOf(s, token.instance).None? || LeaseOf(s, token.instance).value.token.lease != token.lease then Fail(s, LeaseMissing)
    else
      match CheckLease(LeaseOf(s, token.instance).value, token, connection, now)
      case Err(error) => Fail(s, error)
      case Ok(lease) =>
        var renewed := lease.token.(expires := now + ttl);
        Outcome(Ok(renewed), Changed(s, token.instance, lease.(token := renewed)))
  }

  // ----- Ending

  /** `replayed_release`. */
  function ReplayedRelease(s: State, request: nat, token: Token, connection: nat): Result<Option<Released>, SchedulerError> {
    if token.epoch != s.epoch then Err(StaleOwnerEpoch)
    else
      match At(s, token.instance).lastRelease
      case None => Ok(None)
      case Some(record) =>
        if record.request != request then Ok(None)
        else if record.submitted != token then Err(LeaseMismatch)
        else if record.connection != connection then Err(ConnectionMismatch)
        else Ok(Some(record.released))
  }

  /** `release`. */
  function Release(s: State, request: nat, token: Token, connection: nat, now: nat): Outcome<Released> {
    match ReplayedRelease(s, request, token, connection)
    case Err(error) => Fail(s, error)
    case Ok(Some(released)) => Outcome(Ok(released), s)
    case Ok(None) =>
      match LocatedLease(s, token, connection, now)
      case Err(error) => Fail(s, error)
      case Ok(lease) =>
        var released := Released(lease.token, Explicit);
        Outcome(Ok(released), Ended(s, token.instance, lease, Some(ReleaseRecord(request, token, connection, released))))
  }

  /** `expire_token`. */
  function Expire(s: State, token: Token, now: nat): Outcome<Released> {
    match HeldLease(s, token)
    case Err(error) => Fail(s, error)
    case Ok(lease) =>
      if lease.token.expires > now then Fail(s, LeaseNotExpired)
      else Outcome(Ok(Released(lease.token, Expired)), Ended(s, token.instance, lease, None))
  }

  /** `release_owned`. */
  function ReleaseOwned(s: State, token: Token, connection: nat, reason: EndReason): Outcome<Released> {
    if reason.Explicit? || reason.Expired? then Fail(s, LeaseMismatch)
    else
      match HeldBy(s, token, connection)
      case Err(error) => Fail(s, error)
      case Ok(lease) => Outcome(Ok(Released(lease.token, reason)), Ended(s, token.instance, lease, None))
  }

  /** `rollback_lease`. */
  function Rollback(s: State, token: Token): Outcome<()> {
    match HeldLease(s, token)
    case Err(error) => Fail(s, error)
    case Ok(lease) => Outcome(Ok(()), Ended(s, token.instance, lease, None))
  }

  /** `clear_elapsed_cooldowns`, one instance of it. */
  function ClearCooldown(s: State, i: nat, now: nat): State {
    if i in s.instances && 0 < s.instances[i].cooldown <= now then WithInstance(s, i, s.instances[i].(cooldown := 0)) else s
  }
}
