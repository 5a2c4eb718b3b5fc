/** What the scheduler promises over every run: isolation, fenced steps, the takeover cooldown, and renewed tokens. */
module SchedulerSafety {
  import opened Basics
  import opened Wrappers
  import opened Claims
  import opened SchedulerState
  import opened SchedulerOps
  import opened SchedulerInvariant
  import opened Runs
  import opened SchedulerRuns

  // ----- An operation touches one instance

  function Target(op: Op): nat {
    match op
    case DoPrepareAcquire(_, i, _, _, _) => i
    case DoPrepareDedicated(_, i, _, _, _, _) => i
    case DoCommitAcquire(prepared) => prepared.token.instance
    case DoEnqueueClaim(claim) => claim.instance
    case DoRequestQueued(_, i, _, _, _, _, _, _) => i
    case DoPrepareGrant(i, _) => i
    case DoCancel(i, _, _) => i
    case DoDrop(i, _) => i
    case DoBeginStep(token, _, _) => token.instance
    case DoFinishStep(fence, _) => fence.token.instance
    case DoPrepareTransfer(token, _, _, _, _) => token.instance
    case DoPrepareHandOff(token, _, _, _, _, _) => token.instance
    case DoCommitTransfer(transfer) => transfer.from.token.instance
    case DoRenew(_, token, _) => token.instance
    case DoRenewWithTtl(token, _, _) => token.instance
    case DoRelease(_, token, _) => token.instance
    case DoExpire(token) => token.instance
    case DoReleaseOwned(token, _, _) => token.instance
    case DoRollback(token) => token.instance
    case DoClearCooldown(i) => i
  }

  /** Operations on the queue and on preparations; the others act on a lease. */
  predicate OfQueue(op: Op) {
    || op.DoPrepareAcquire? || op.DoPrepareDedicated? || op.DoEnqueueClaim? || op.DoRequestQueued?
    || op.DoPrepareGrant? || op.DoCancel?
    || op.DoDrop? || op.DoClearCooldown?
  }

  predicate OfToken(op: Op) {
    || op.DoRenew? || op.DoRenewWithTtl? || op.DoRelease? || op.DoExpire? || op.DoReleaseOwned? || op.DoRollback?
  }

  /** Only instance `i` changes, and its step does not. */
  ghost predicate Local(s: State, next: State, i: nat) {
    && next.nextStep == s.nextStep && StepOf(next, i) == StepOf(s, i)
    && (forall j :: j != i ==> At(next, j) == At(s, j))
  }

  lemma LocalOn(s: State, middle: State, next: State, i: nat)
    requires Local(s, middle, i) && Local(middle, next, i)
    ensures Local(s, next, i)
  {
  }

  lemma AcquireIsLocal(s: State, request: nat, i: nat, holder: nat, connection: nat, policy: Policy, now: nat)
    ensures Local(s, PrepareAcquire(s, request, i, holder, connection, policy, now).state, i)
  {
  }

  lemma EnqueueIsLocal(s: State, i: nat, entry: Entry)
    ensures Local(s, Enqueue(s, i, entry).state, i)
  {
  }

  lemma TouchIsLocal(s: State, i: nat, now: nat)
    ensures Local(s, Touched(TakeExpired(s, i, now), i), i)
  {
  }

  lemma RequestNewIsLocal(s: State, request: nat, i: nat, holder: nat, connection: nat, priority: Priority, timeout: nat,
                             gate: ClaimGate, immediate: bool, now: nat)
    ensures Local(s, RequestNew(s, request, i, holder, connection, priority, timeout, gate, immediate, now).state, i)
  {
    var touched := Touched(TakeExpired(s, i, now), i);
    var policy := Policy(priority, s.config.leaseTtl, ClientLease, gate);
    var entry := Entry(request, holder, connection, priority, now + timeout, 0, ClientLease, s.config.leaseTtl, true);
    TouchIsLocal(s, i, now);
    AcquireIsLocal(touched, request, i, holder, connection, policy, now);
    LocalOn(s, touched, PrepareAcquire(touched, request, i, holder, connection, policy, now).state, i);
    EnqueueIsLocal(touched, i, entry);
    LocalOn(s, touched, Enqueue(touched, i, entry).state, i);
    RequestNewIs(s, request, i, holder, connection, priority, timeout, gate, immediate, now);
  }

  lemma RequestQueuedIsLocal(s: State, request: nat, i: nat, holder: nat, connection: nat, priority: Priority, timeout: nat,
                             gate: ClaimGate, immediate: bool, now: nat)
    ensures Local(s, RequestQueued(s, request, i, holder, connection, priority, timeout, gate, immediate, now).state, i)
  {
    RequestQueuedIs(s, request, i, holder, connection, priority, timeout, gate, immediate, now);
    RequestNewIsLocal(s, request, i, holder, connection, priority, timeout, gate, immediate, now);
  }

  lemma QueueOpIsLocal(s: State, op: Op, now: nat)
    requires OfQueue(op)
    ensures Local(s, NextState(s, op, now), Target(op))
  {
    match op
    case DoRequestQueued(request, i, holder, connection, priority, timeout, gate, immediate) =>
      RequestQueuedIsLocal(s, request, i, holder, connection, priority, timeout, gate, immediate, now);
    case DoPrepareAcquire(request, i, holder, connection, policy) => AcquireIsLocal(s, request, i, holder, connection, policy, now);
    case DoPrepareDedicated(request, i, holder, connection, kind, gate) =>
      AcquireIsLocal(s, request, i, holder, connection, Policy(Normal, s.config.leaseTtl, kind, Open), now);
    case DoEnqueueClaim(claim) =>
      EnqueueClaimIs(s, claim);
      EnqueueIsLocal(s, claim.instance, ClaimEntry(claim));
    case DoPrepareGrant(i, gate) => GrantPreparationIs(s, i, gate, now);
    case _ =>
  }

  lemma TokenOpIsLocal(s: State, op: Op, now: nat, j: nat)
    requires OfToken(op)
    ensures j != Target(op) ==> At(NextState(s, op, now), j) == At(s, j)
    ensures NextState(s, op, now).nextStep == s.nextStep
    ensures StepOf(NextState(s, op, now), Target(op)) in {StepOf(s, Target(op)), None}
  {
  }

  /** A step is the one before, none, or a new one. */
  predicate StepFollows(s: State, next: State, i: nat) {
    StepOf(next, i) == StepOf(s, i) || StepOf(next, i).None? || s.nextStep <= StepOf(next, i).value < next.nextStep
  }

  lemma LeaseOpIsLocal(s: State, op: Op, now: nat, j: nat)
    requires !OfQueue(op) && !OfToken(op)
    ensures j != Target(op) ==> At(NextState(s, op, now), j) == At(s, j)
    ensures NextState(s, op, now).nextStep >= s.nextStep && StepFollows(s, NextState(s, op, now), Target(op))
  {
  }

  /** Instances are isolated: the lease, queue, cooldown and records of every other instance stay as they are. */
  lemma OthersAreUntouched(s: State, op: Op, now: nat, j: nat)
    ensures j != Target(op) ==> At(NextState(s, op, now), j) == At(s, j)
    ensures NextState(s, op, now).nextStep >= s.nextStep && StepFollows(s, NextState(s, op, now), j)
  {
    if OfQueue(op) {
      QueueOpIsLocal(s, op, now);
    } else if OfToken(op) {
      TokenOpIsLocal(s, op, now, j);
    } else {
      LeaseOpIsLocal(s, op, now, j);
    }
  }

  // ----- A step that ended never comes back

  /** A step that was begun and is no longer anyone's. */
  ghost predicate StepDone(s: State, n: nat) { n < s.nextStep && forall i :: StepOf(s, i) != Some(n) }

  lemma StepDoneStays(w: World, next: World, n: nat)
    requires Steps(w, next) && StepDone(w.state, n)
    ensures StepDone(next.state, n)
  {
    var op, now :| Enabled(w, op, now) && next == Next(w, op, now);
    forall i ensures StepOf(next.state, i) != Some(n) {
      OthersAreUntouched(w.state, op, now, i);
    }
    OthersAreUntouched(w.state, op, now, 0);
  }

  /** A step that is not on its instance any more is done: no other instance has it. */
  lemma LostStepIsDone(w: World, next: World, n: nat, i: nat)
    requires WorldInv(w) && Steps(w, next) && StepOf(w.state, i) == Some(n) && StepOf(next.state, i) != Some(n)
    ensures StepDone(next.state, n)
  {
    var op, now :| Enabled(w, op, now) && next == Next(w, op, now);
    InstanceIsOk(w.state, i);
    OthersAreUntouched(w.state, op, now, i);
    forall j ensures StepOf(next.state, j) != Some(n) {
      if j != i {
        OthersAreUntouched(w.state, op, now, j);
        assert StepOf(w.state, j) != Some(n);
      }
    }
  }

  ghost predicate OnOrDone(s: State, n: nat, i: nat) { StepOf(s, i) == Some(n) || StepDone(s, n) }

  lemma OnOrDoneStays(w: World, next: World, n: nat, i: nat)
    requires WorldInv(w) && Steps(w, next) && OnOrDone(w.state, n, i)
    ensures OnOrDone(next.state, n, i)
  {
    if StepDone(w.state, n) {
      StepDoneStays(w, next, n);
    } else if StepOf(next.state, i) != Some(n) {
      LostStepIsDone(w, next, n, i);
    }
  }

  lemma StepDoneForever(worlds: seq<World>, id: nat, from: nat, n: nat)
    requires IsRun(worlds, Step()) && from <= n < |worlds| && StepDone(worlds[from].state, id)
    ensures StepDone(worlds[n].state, id)
  {
    forall w: World, next | StepDone(w.state, id) && Steps(w, next) ensures StepDone(next.state, id) {
      StepDoneStays(w, next, id);
    }
    HoldsOn(worlds, Step(), (w: World) => StepDone(w.state, id), from, n);
  }

  lemma EndedStepIsDone(worlds: seq<World>, id: nat, i: nat, begun: nat, ended: nat)
    requires Run(worlds) && begun <= ended < |worlds|
    requires StepOf(worlds[begun].state, i) == Some(id) && StepOf(worlds[ended].state, i) != Some(id)
    ensures StepDone(worlds[ended].state, id)
  {
    EveryWorldIsSound(worlds, begun);
    forall w: World, next | WorldInv(w) && OnOrDone(w.state, id, i) && Steps(w, next)
      ensures WorldInv(next) && OnOrDone(next.state, id, i)
    {
      StepKeeps(w, next);
      OnOrDoneStays(w, next, id, i);
    }
    HoldsOn(worlds, Step(), (w: World) => WorldInv(w) && OnOrDone(w.state, id, i), begun, ended);
  }

  /** A fence whose step was finished, or whose lease ended or was handed on, is refused for the rest of the run. */
  lemma EndedFencesAreRefused(worlds: seq<World>, fence: FencedWrite, begun: nat, ended: nat, n: nat, connection: nat, now: nat)
    requires Run(worlds) && begun <= ended <= n < |worlds|
    requires StepOf(worlds[begun].state, fence.token.instance) == Some(fence.id)
    requires StepOf(worlds[ended].state, fence.token.instance) != Some(fence.id)
    ensures ValidateStep(worlds[n].state, fence, connection, now).Err?
    ensures FinishStep(worlds[n].state, fence, connection).result.Err?
  {
    EndedStepIsDone(worlds, fence.id, fence.token.instance, begun, ended);
    StepDoneForever(worlds, fence.id, ended, n);
    assert StepOf(worlds[n].state, fence.token.instance) != Some(fence.id);
  }

  /** No lease is handed on while a step is in progress. */
  lemma NoTransferDuringStep(w: World, transfer: PreparedTransfer, now: nat)
    requires WorldInv(w) && transfer in w.transfers && StepOf(w.state, transfer.from.token.instance).Some?
    ensures CommitTransfer(w.state, transfer, now).result.Err? && CommitTransfer(w.state, transfer, now).state == w.state
  {
  }

  // ----- The takeover cooldown

  predicate Cooling(instance: Instance, until: nat) { instance.cooldown == until && instance.lease.None? }

  lemma CoolingStays(s: State, op: Op, now: nat, until: nat)
    requires Cooling(At(s, Target(op)), until) && now < until
    ensures Cooling(At(NextState(s, op, now), Target(op)), until)
  {
  }

  /** A takeover instance has no lease before its cooldown ended. */
  ghost predicate CooldownHolds(w: World) {
    forall i :: i in w.until ==> w.until[i] <= w.clock || Cooling(At(w.state, i), w.until[i])
  }

  lemma CooldownStepKeeps(w: World, next: World)
    requires Steps(w, next) && CooldownHolds(w)
    ensures CooldownHolds(next)
  {
    var op, now :| Enabled(w, op, now) && next == Next(w, op, now);
    forall i | i in next.until ensures next.until[i] <= next.clock || Cooling(At(next.state, i), next.until[i]) {
      if now < w.until[i] {
        if i == Target(op) {
          CoolingStays(w.state, op, now, w.until[i]);
        } else {
          OthersAreUntouched(w.state, op, now, i);
        }
      }
    }
  }

  /** `SeedScheduler::new`: a restarted scheduler takes instances over and waits before it grants any of them. */
  ghost function Started(epoch: nat, config: Config, takeover: set<nat>, now: nat): World {
    var until := now + config.takeoverCooldown;
    World(State(epoch, config, 0, map i | i in takeover :: NEW_INSTANCE.(cooldown := until), map[], 1, 1),
          {}, {}, now, map i | i in takeover :: until)
  }

  lemma StartIsSound(epoch: nat, config: Config, takeover: set<nat>, now: nat)
    ensures WorldInv(Started(epoch, config, takeover, now)) && CooldownHolds(Started(epoch, config, takeover, now))
  {
  }

  /** From the start on, a takeover instance has a lease only after the whole cooldown. */
  lemma NoLeaseInCooldown(worlds: seq<World>, epoch: nat, config: Config, takeover: set<nat>, now: nat, i: nat, n: nat)
    requires n < |worlds| && worlds[0] == Started(epoch, config, takeover, now) && IsRun(worlds, Step()) && i in takeover
    requires LeaseOf(worlds[n].state, i).Some?
    ensures worlds[n].clock >= now + config.takeoverCooldown
  {
    StartIsSound(epoch, config, takeover, now);
    var until := worlds[0].until;
    forall w, next | CooldownHolds(w) && w.until == until && Steps(w, next) ensures CooldownHolds(next) && next.until == until {
      CooldownStepKeeps(w, next);
    }
    HoldsOn(worlds, Step(), w => CooldownHolds(w) && w.until == until, 0, n);
  }

  // ----- The first eligible entry

  /** A transfer, and the pump's grant, go to the entry that precedes every other the gate lets through. */
  lemma FirstEligiblePrecedes(queue: seq<Entry>, gate: ClaimGate, now: nat, k: nat)
    requires InQueueOrder(queue) && k < |queue| && Eligible(queue[k], gate, now)
    ensures FirstEligible(queue, gate, now).Some?
    ensures var first := FirstEligible(queue, gate, now).value; first == k || Precedes(queue[first], queue[k])
  {
  }

  // ----- Tokens of a lease that goes on

  /** After a renewal, a token of the lease is its holder's exactly when it has the new expiry. */
  lemma RenewedTokenIs(s: State, token: Token, connection: nat, ttl: nat, now: nat, expires: nat, at: nat)
    requires RenewWithTtl(s, token, connection, ttl, now).result.Ok?
    ensures
      Owns(RenewWithTtl(s, token, connection, ttl, now).state, token.(expires := expires), connection, at) <==>
        expires == now + ttl && at < expires
  {
  }

  /**
   A lease that ended never comes back, but a token of a lease that goes on can: a renewal replaces it, and a
   second one to the same expiry makes it current again.
   */
  lemma ReplacedTokenReturns(s: State, token: Token, connection: nat, ttl: nat, now: nat, later: nat)
    requires Inv(s) && Owns(s, token, connection, now) && now <= later < now + ttl <= U64_MAX && later < token.expires <= U64_MAX
    requires TtlIsValid(s, ttl) && TtlIsValid(s, token.expires - later)
    ensures
      var once := RenewWithTtl(s, token, connection, ttl, now);
      once.result == Ok(token.(expires := now + ttl))
      && RenewWithTtl(once.state, token.(expires := now + ttl), connection, token.expires - later, later).result == Ok(token)
  {
    InstanceIsOk(s, token.instance);
  }
}
