/** What each change of the scheduler means to its caller: who may act, what is free, who left the queue. */
module SchedulerMeaning {
  import opened Basics
  import opened Wrappers
  import opened Claims
  import opened SchedulerState
  import opened SchedulerOps
  import opened SchedulerInvariant
  import opened SchedulerRuns
  import opened SchedulerSafety

  /** `token` is its holder's exactly until it expires. */
  ghost predicate OwnsUntilExpiry(s: State, token: Token, connection: nat) {
    forall at: nat :: Owns(s, token, connection, at) <==> at < token.expires
  }

  ghost predicate OthersUntouched(s: State, next: State, i: nat) {
    forall j :: j != i ==> At(next, j) == At(s, j)
  }

  predicate HasToken(s: State, token: Token) {
    LeaseOf(s, token.instance).Some? && LeaseOf(s, token.instance).value.token == token
  }

  lemma WithoutTakesOne(queue: seq<Entry>, position: nat)
    requires position < |queue|
    ensures multiset(Without(queue, position)) == multiset(queue) - multiset{queue[position]}
  {
    assert queue == queue[..position] + [queue[position]] + queue[position + 1..];
  }

  /** A lease is looked up by exactly its current token. */
  lemma HeldIff(s: State, token: Token)
    requires Inv(s)
    ensures HeldLease(s, token).Ok? <==> HasToken(s, token)
    ensures HeldLease(s, token).Ok? ==> HeldLease(s, token).value == LeaseOf(s, token.instance).value
  {
    InstanceIsOk(s, token.instance);
  }

  // ----- An immediate try

  ghost predicate MayPrepare(s: State, i: nat, policy: Policy, now: nat) {
    && At(s, i).cooldown <= now && LeaseOf(s, i).None? && now + policy.ttl <= U64_MAX
    && (forall e :: e in At(s, i).queue ==> !Eligible(e, policy.gate, now))
    && (GateHolds(policy.gate, policy.kind) ==> policy.kind.PolicyDispatch?)
  }

  predicate IsOwnRequest(s: State, request: nat, i: nat, holder: nat, connection: nat, now: nat) {
    && At(s, i).cooldown <= now && LeaseOf(s, i).Some? && LeaseOf(s, i).value.request == request
    && LeaseOf(s, i).value.connection == connection && LeaseOf(s, i).value.token.holder == holder
    && LeaseOf(s, i).value.token.expires > now
  }

  /**
   A new lease is prepared exactly on a free instance out of its cooldown, with nobody waiting and the gate open to it;
   the holder's own request is answered with its token; and no lease and no queue changes.
   */
  ghost predicate PreparationMeans(s: State, request: nat, i: nat, holder: nat, connection: nat, policy: Policy,
                                   now: nat, o: Outcome<Preparation>) {
    && (o.result.Ok? && o.result.value.New? <==> MayPrepare(s, i, policy, now))
    && (o.result.Ok? && o.result.value.New? ==> o.result.value.prepared.token == Token(s.epoch, s.minted, i, holder, now + policy.ttl))
    && (o.result.Ok? && o.result.value.Existing? <==> IsOwnRequest(s, request, i, holder, connection, now))
    && (o.result.Ok? && o.result.value.Existing? ==> o.result.value.token == LeaseOf(s, i).value.token)
    && o.state.locations == s.locations && LeaseOf(o.state, i) == LeaseOf(s, i) && At(o.state, i).queue == At(s, i).queue
    && OthersUntouched(s, o.state, i)
  }

  lemma PreparationIs(s: State, request: nat, i: nat, holder: nat, connection: nat, policy: Policy, now: nat)
    ensures PreparationMeans(s, request, i, holder, connection, policy, now,
                             PrepareAcquire(s, request, i, holder, connection, policy, now))
  {
    var queue := At(s, i).queue;
    var first := FirstEligible(queue, policy.gate, now);
    assert first.None? <==> forall e :: e in queue ==> !Eligible(e, policy.gate, now) by {
      assert first.Some? ==> queue[first.value] in queue;
    }
    AcquireIsLocal(s, request, i, holder, connection, policy, now);
  }

  // ----- A committed grant

  predicate MayGrant(s: State, prepared: PreparedLease, now: nat) {
    var i := prepared.token.instance;
    && prepared.token.epoch == s.epoch && prepared.token.expires > now && i in s.instances && At(s, i).cooldown <= now
    && LeaseOf(s, i).None?
    && (prepared.fromQueue ==> PositionOf(At(s, i).queue, prepared.request).Some?)
  }

  /**
   A grant is committed exactly on a free instance out of its cooldown, before its lease expires. Its caller is the
   holder until then, and the first entry of its request leaves the queue.
   */
  ghost predicate GrantMeans(s: State, prepared: PreparedLease, now: nat, o: Outcome<Token>) {
    var i := prepared.token.instance;
    && (o.result.Ok? <==> MayGrant(s, prepared, now)) && (o.result.Err? ==> o.state == s)
    && (o.result.Ok? ==> o.result.value == prepared.token && OwnsUntilExpiry(o.state, prepared.token, prepared.connection))
    && (o.result.Ok? ==> multiset(At(o.state, i).queue) == multiset(At(s, i).queue) - Taken(At(s, i).queue, prepared))
    && OthersUntouched(s, o.state, i)
  }

  function Taken(queue: seq<Entry>, prepared: PreparedLease): multiset<Entry> {
    var position := PositionOf(queue, prepared.request);
    if prepared.fromQueue && position.Some? then multiset{queue[position.value]} else multiset{}
  }

  lemma GrantTakes(s: State, prepared: PreparedLease, now: nat)
    requires CommitAcquire(s, prepared, now).result.Ok?
    ensures
      var i := prepared.token.instance;
      multiset(At(CommitAcquire(s, prepared, now).state, i).queue) == multiset(At(s, i).queue) - Taken(At(s, i).queue, prepared)
  {
    var queue := At(s, prepared.token.instance).queue;
    var position := PositionOf(queue, prepared.request);
    if prepared.fromQueue {
      WithoutTakesOne(queue, position.value);
    }
  }

  lemma GrantHolds(s: State, prepared: PreparedLease, now: nat)
    ensures CommitAcquire(s, prepared, now).result.Ok? <==> MayGrant(s, prepared, now)
    ensures
      var o := CommitAcquire(s, prepared, now);
      o.result.Ok? ==> o.result.value == prepared.token && OwnsUntilExpiry(o.state, prepared.token, prepared.connection)
  {
  }

  lemma GrantIs(s: State, prepared: PreparedLease, now: nat)
    ensures GrantMeans(s, prepared, now, CommitAcquire(s, prepared, now))
  {
    GrantHolds(s, prepared, now);
    if CommitAcquire(s, prepared, now).result.Ok? {
      GrantTakes(s, prepared, now);
    }
  }

  // ----- A queued entry

  /** The entry is queued exactly when there is room, with the next arrival, and the queue gains it alone. */
  ghost predicate InsertionMeans(s: State, i: nat, entry: Entry, o: Outcome<Entry>) {
    && (o.result.Ok? <==> s.nextArrival < U64_MAX && |At(s, i).queue| < s.config.maxDepth)
    && (o.result.Ok? ==> o.result.value == entry.(arrival := s.nextArrival)
                         && multiset(At(o.state, i).queue) == multiset(At(s, i).queue) + multiset{o.result.value})
    && (o.result.Err? ==> At(o.state, i) == At(s, i)) && OthersUntouched(s, o.state, i)
  }

  lemma InsertionIs(s: State, i: nat, entry: Entry)
    ensures InsertionMeans(s, i, entry, Enqueue(s, i, entry))
  {
    InsertedHas(At(s, i).queue, entry.(arrival := s.nextArrival));
    EnqueueIsLocal(s, i, entry);
  }

  // ----- A step

  predicate MayBegin(s: State, token: Token, connection: nat, purpose: Purpose, now: nat) {
    && Owns(s, token, connection, now) && At(s, token.instance).cooldown <= now && StepOf(s, token.instance).None?
    && s.nextStep < U64_MAX
    && (purpose.Business? ==>
          && !LeaseOf(s, token.instance).value.closeOnly
          && !Preempts(At(s, token.instance).queue, LeaseOf(s, token.instance).value))
  }

  /** A step begins exactly for the holder, with none in progress and nobody it has to make room for; its fence is new and valid. */
  ghost predicate StepMeans(s: State, token: Token, connection: nat, purpose: Purpose, now: nat, o: Outcome<FencedWrite>) {
    && (o.result.Ok? <==> MayBegin(s, token, connection, purpose, now)) && (o.result.Err? ==> o.state == s)
    && (o.result.Ok? ==>
          && o.result.value.id == s.nextStep < o.state.nextStep
          && ValidateStep(o.state, o.result.value, connection, now).Ok?)
    && OthersUntouched(s, o.state, token.instance)
  }

  lemma BeginsIff(s: State, token: Token, connection: nat, purpose: Purpose, now: nat)
    requires Inv(s)
    ensures StepMeans(s, token, connection, purpose, now, BeginStep(s, token, connection, purpose, now))
  {
    InstanceIsOk(s, token.instance);
    if BeginStep(s, token, connection, purpose, now).result.Ok? {
      BegunStepIs(s, token, connection, purpose, now);
    }
  }

  predicate IsOwnFence(s: State, fence: FencedWrite, connection: nat) {
    && HasToken(s, fence.token) && LeaseOf(s, fence.token.instance).value.connection == connection && fence.connection == connection
    && LeaseOf(s, fence.token.instance).value.step == Some(StepMark(fence.id, fence.purpose))
  }

  /** A step is finished exactly by its own fence from its own connection; the fence is void then, and the lease goes on. */
  ghost predicate FinishMeans(s: State, fence: FencedWrite, connection: nat, o: Outcome<()>) {
    && (o.result.Ok? <==> IsOwnFence(s, fence, connection)) && (o.result.Err? ==> o.state == s)
    && (o.result.Ok? ==> StepOf(o.state, fence.token.instance).None? && HasToken(o.state, fence.token))
    && (o.result.Ok? ==> forall at: nat :: ValidateStep(o.state, fence, connection, at).Err?)
    && OthersUntouched(s, o.state, fence.token.instance)
  }

  lemma FinishesIff(s: State, fence: FencedWrite, connection: nat)
    requires Inv(s)
    ensures FinishMeans(s, fence, connection, FinishStep(s, fence, connection))
  {
    HeldIff(s, fence.token);
  }

  // ----- A committed transfer

  predicate MayTransfer(s: State, transfer: PreparedTransfer, now: nat) {
    var queue := At(s, transfer.from.token.instance).queue;
    && transfer.to.epoch == s.epoch && transfer.to.expires > now && LeaseOf(s, transfer.from.token.instance) == Some(transfer.from)
    && if transfer.handOff then PositionOf(queue, transfer.queued.request).None? else transfer.queued in queue
  }

  /**
   A transfer is committed exactly while the lease is still as it was prepared from and its receiver still waits. The
   old lease ends, the receiver is the holder until expiry, and exactly the receiver leaves the queue.
   */
  ghost predicate TransferMeans(s: State, transfer: PreparedTransfer, now: nat, o: Outcome<Token>) {
    var i := transfer.from.token.instance;
    && (o.result.Ok? <==> MayTransfer(s, transfer, now)) && (o.result.Err? ==> o.state == s)
    && (o.result.Ok? ==> o.result.value == transfer.to && OwnsUntilExpiry(o.state, transfer.to, transfer.queued.connection))
    && (o.result.Ok? ==> transfer.from.token.lease in s.locations && transfer.from.token.lease !in o.state.locations)
    && (o.result.Ok? ==>
          multiset(At(o.state, i).queue)
          == multiset(At(s, i).queue) - if transfer.handOff then multiset{} else multiset{transfer.queued})
    && OthersUntouched(s, o.state, i)
  }

  lemma TransferTakes(s: State, transfer: PreparedTransfer, now: nat)
    requires CommitTransfer(s, transfer, now).result.Ok?
    ensures
      var i := transfer.from.token.instance;
      multiset(At(CommitTransfer(s, transfer, now).state, i).queue)
        == multiset(At(s, i).queue) - if transfer.handOff then multiset{} else multiset{transfer.queued}
  {
    var queue := At(s, transfer.from.token.instance).queue;
    if !transfer.handOff {
      WithoutTakesOne(queue, IndexOf(queue, transfer.queued).value);
    }
  }

  lemma TransferHolds(s: State, transfer: PreparedTransfer, now: nat)
    requires Inv(s) && Waiting(s, transfer.to.lease) && transfer.to.instance == transfer.from.token.instance
    ensures CommitTransfer(s, transfer, now).result.Ok? <==> MayTransfer(s, transfer, now)
    ensures
      var o := CommitTransfer(s, transfer, now);
      o.result.Ok? ==> o.result.value == transfer.to && OwnsUntilExpiry(o.state, transfer.to, transfer.queued.connection)
                       && transfer.from.token.lease in s.locations && transfer.from.token.lease !in o.state.locations
  {
    InstanceIsOk(s, transfer.from.token.instance);
  }

  lemma TransferIs(s: State, transfer: PreparedTransfer, now: nat)
    requires Inv(s) && Waiting(s, transfer.to.lease) && transfer.to.instance == transfer.from.token.instance
    ensures TransferMeans(s, transfer, now, CommitTransfer(s, transfer, now))
  {
    TransferHolds(s, transfer, now);
    if CommitTransfer(s, transfer, now).result.Ok? {
      TransferTakes(s, transfer, now);
    }
  }

  // ----- A renewal and an end

  /**
   A renewal that is no replay is the holder's own, moves the expiry to one lease time from now and voids the token it
   replaced, unless both expire together; a replay changes nothing.
   */
  ghost predicate RenewalMeans(s: State, request: nat, token: Token, connection: nat, now: nat, o: Outcome<Token>) {
    var replayed, renewed := ReplayedRenew(s, request, token, connection), token.(expires := now + s.config.leaseTtl);
    && (replayed == Ok(None) ==> (o.result.Ok? <==> Owns(s, token, connection, now) && now + s.config.leaseTtl <= U64_MAX))
    && (replayed == Ok(None) && o.result.Ok? ==> o.result.value == renewed && OwnsUntilExpiry(o.state, renewed, connection))
    && (replayed == Ok(None) && o.result.Ok? && token != renewed ==> forall at: nat :: !Owns(o.state, token, connection, at))
    && (replayed != Ok(None) || o.result.Err? ==> o.state == s) && OthersUntouched(s, o.state, token.instance)
  }

  lemma RenewalIs(s: State, request: nat, token: Token, connection: nat, now: nat)
    requires Inv(s)
    ensures RenewalMeans(s, request, token, connection, now, Renew(s, request, token, connection, now))
  {
    InstanceIsOk(s, token.instance);
  }

  /** A release that is no replay is the holder's own and leaves the instance free with its queue as it was. */
  ghost predicate ReleaseMeans(s: State, request: nat, token: Token, connection: nat, now: nat, o: Outcome<Released>) {
    var replayed := ReplayedRelease(s, request, token, connection);
    && (replayed == Ok(None) ==> (o.result.Ok? <==> Owns(s, token, connection, now)))
    && (replayed == Ok(None) && o.result.Ok? ==> o.result.value == Released(token, Explicit) && Freed(s, o.state, token))
    && (replayed != Ok(None) || o.result.Err? ==> o.state == s) && OthersUntouched(s, o.state, token.instance)
  }

  predicate Freed(s: State, next: State, token: Token) {
    && token.lease in s.locations && token.lease !in next.locations && LeaseOf(next, token.instance).None?
    && At(next, token.instance).queue == At(s, token.instance).queue
  }

  lemma ReleaseIs(s: State, request: nat, token: Token, connection: nat, now: nat)
    requires Inv(s)
    ensures ReleaseMeans(s, request, token, connection, now, Release(s, request, token, connection, now))
  {
    InstanceIsOk(s, token.instance);
  }

  /** An expiry is granted exactly for the current token once its time has come, and leaves the instance free. */
  ghost predicate ExpiryMeans(s: State, token: Token, now: nat, o: Outcome<Released>) {
    && (o.result.Ok? <==> HasToken(s, token) && token.expires <= now) && (o.result.Err? ==> o.state == s)
    && (o.result.Ok? ==> o.result.value == Released(token, Expired) && Freed(s, o.state, token))
    && OthersUntouched(s, o.state, token.instance)
  }

  lemma ExpiryIs(s: State, token: Token, now: nat)
    requires Inv(s)
    ensures ExpiryMeans(s, token, now, Expire(s, token, now))
  {
    HeldIff(s, token);
    InstanceIsOk(s, token.instance);
  }

  lemma ReleaseEnds(s: State, request: nat, token: Token, connection: nat, now: nat)
    ensures EndsAtMost(s, Release(s, request, token, connection, now).state, token.instance)
  {
  }

  lemma ExpireEnds(s: State, token: Token, now: nat)
    ensures EndsAtMost(s, Expire(s, token, now).state, token.instance)
  {
  }
}
