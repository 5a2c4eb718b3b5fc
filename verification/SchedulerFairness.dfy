/** How the queues evolve over every run: requests queued once, and whom a lease that is committed passes. */
module SchedulerFairness {
  import opened Basics
  import opened Wrappers
  import opened Claims
  import opened SchedulerState
  import opened SchedulerOps
  import opened SchedulerInvariant
  import opened Runs
  import opened SchedulerRuns
  import opened SchedulerSafety
  import opened SchedulerMeaning

  // ----- A queue grows only by new arrivals of new requests

  /** An entry of the next queue was there before, or is the one that just arrived. */
  ghost predicate QueueFollows(s: State, next: State, i: nat) {
    && next.nextArrival >= s.nextArrival
    && (forall e :: e in At(next, i).queue ==> e in At(s, i).queue || NewArrival(s, next, e))
    && (forall e, f :: e in At(next, i).queue && f in At(next, i).queue && e !in At(s, i).queue && f !in At(s, i).queue ==> e == f)
  }

  predicate NewArrival(s: State, next: State, e: Entry) {
    e.arrival == s.nextArrival < next.nextArrival && !MentionedAnywhere(s, e.request)
  }

  /** The queue loses entries and gains none. */
  ghost predicate QueueShrinks(s: State, next: State, i: nat) {
    next.nextArrival == s.nextArrival && forall e :: e in At(next, i).queue ==> e in At(s, i).queue
  }

  lemma DropShrinks(s: State, i: nat, drop: Entry -> bool)
    ensures QueueShrinks(s, DropEntries(s, i, drop), i)
  {
    if i in s.instances {
      KeptWereThere(s.instances[i].queue, drop);
    }
  }

  lemma {:induction false} KeptWereThere(queue: seq<Entry>, drop: Entry -> bool)
    ensures forall e :: e in Keep(queue, drop) ==> e in queue
    decreases |queue|
  {
    if queue != [] {
      KeptWereThere(queue[1..], drop);
    }
  }

  lemma EnqueueFollows(s: State, touched: State, i: nat, entry: Entry)
    requires QueueShrinks(s, touched, i) && !MentionedAnywhere(s, entry.request)
    ensures QueueFollows(s, Enqueue(touched, i, entry).state, i)
  {
    InsertedHas(At(touched, i).queue, entry.(arrival := touched.nextArrival));
  }

  lemma AcquireKeepsQueue(s: State, request: nat, i: nat, holder: nat, connection: nat, policy: Policy, now: nat)
    ensures
      var next := PrepareAcquire(s, request, i, holder, connection, policy, now).state;
      At(next, i).queue == At(s, i).queue && next.nextArrival == s.nextArrival
  {
  }

  lemma RequestNewFollows(s: State, request: nat, i: nat, holder: nat, connection: nat, priority: Priority, timeout: nat,
                          gate: ClaimGate, immediate: bool, now: nat)
    requires !MentionedAnywhere(s, request)
    ensures QueueFollows(s, RequestNew(s, request, i, holder, connection, priority, timeout, gate, immediate, now).state, i)
  {
    var touched := Touched(TakeExpired(s, i, now), i);
    var entry := Entry(request, holder, connection, priority, now + timeout, 0, ClientLease, s.config.leaseTtl, true);
    DropShrinks(s, i, (e: Entry) => e.deadline <= now);
    EnqueueFollows(s, touched, i, entry);
    AcquireKeepsQueue(touched, request, i, holder, connection, Policy(priority, s.config.leaseTtl, ClientLease, gate), now);
    RequestNewIs(s, request, i, holder, connection, priority, timeout, gate, immediate, now);
  }

  lemma RequestQueuedFollows(s: State, request: nat, i: nat, holder: nat, connection: nat, priority: Priority, timeout: nat,
                             gate: ClaimGate, immediate: bool, now: nat)
    ensures QueueFollows(s, RequestQueued(s, request, i, holder, connection, priority, timeout, gate, immediate, now).state, i)
  {
    RequestQueuedIs(s, request, i, holder, connection, priority, timeout, gate, immediate, now);
    if !MentionedAnywhere(s, request) {
      RequestNewFollows(s, request, i, holder, connection, priority, timeout, gate, immediate, now);
    }
  }

  lemma QueueOpFollows(s: State, op: Op, now: nat)
    requires OfQueue(op)
    ensures QueueFollows(s, NextState(s, op, now), Target(op))
  {
    match op
    case DoPrepareAcquire(request, i, holder, connection, policy) => AcquireKeepsQueue(s, request, i, holder, connection, policy, now);
    case DoPrepareDedicated(request, i, holder, connection, kind, gate) =>
      AcquireKeepsQueue(s, request, i, holder, connection, Policy(Normal, s.config.leaseTtl, kind, Open), now);
    case DoEnqueueClaim(claim) =>
      if !MentionedAnywhere(s, claim.request) {
        EnqueueFollows(s, s, claim.instance, ClaimEntry(claim));
      }
    case DoRequestQueued(request, i, holder, connection, priority, timeout, gate, immediate) =>
      RequestQueuedFollows(s, request, i, holder, connection, priority, timeout, gate, immediate, now);
    case DoPrepareGrant(i, gate) => GrantPreparationIs(s, i, gate, now);
    case DoDrop(i, drop) => DropShrinks(s, i, drop);
    case _ =>
  }

  lemma TokenOpKeepsQueue(s: State, op: Op, now: nat)
    requires OfToken(op)
    ensures QueueShrinks(s, NextState(s, op, now), Target(op))
  {
  }

  lemma CommitsShrinkQueue(s: State, op: Op, now: nat)
    requires op.DoCommitAcquire? || op.DoCommitTransfer?
    ensures QueueShrinks(s, NextState(s, op, now), Target(op))
  {
  }

  lemma StepsKeepQueue(s: State, op: Op, now: nat)
    requires op.DoBeginStep? || op.DoFinishStep?
    ensures QueueShrinks(s, NextState(s, op, now), Target(op))
  {
  }

  lemma QueuesFollow(s: State, op: Op, now: nat, i: nat)
    ensures QueueFollows(s, NextState(s, op, now), i)
  {
    if OfQueue(op) {
      QueueOpFollows(s, op, now);
    } else if OfToken(op) {
      TokenOpKeepsQueue(s, op, now);
    } else if op.DoCommitAcquire? || op.DoCommitTransfer? {
      CommitsShrinkQueue(s, op, now);
    } else if op.DoBeginStep? || op.DoFinishStep? {
      StepsKeepQueue(s, op, now);
    } else {
      TransferPreparationIs(s, op, now);
    }
    OthersAreUntouched(s, op, now, i);
  }

  // ----- A request waits in one place

  /** No two queued entries have one request, on one instance or on two. */
  ghost predicate RequestsDistinct(s: State) {
    forall i, j, e, f :: e in At(s, i).queue && f in At(s, j).queue && e.request == f.request ==> i == j && e == f
  }

  lemma QueuedIsMentioned(s: State, i: nat, e: Entry)
    requires e in At(s, i).queue
    ensures MentionedAnywhere(s, e.request)
  {
    assert i in s.instances && Mentions(s.instances[i], e.request);
  }

  lemma RequestsStayDistinct(s: State, op: Op, now: nat)
    requires RequestsDistinct(s)
    ensures RequestsDistinct(NextState(s, op, now))
  {
    var next := NextState(s, op, now);
    forall i, j, e, f | e in At(next, i).queue && f in At(next, j).queue && e.request == f.request ensures i == j && e == f {
      QueuesFollow(s, op, now, i);
      QueuesFollow(s, op, now, j);
      OthersAreUntouched(s, op, now, i);
      OthersAreUntouched(s, op, now, j);
      if e in At(s, i).queue {
        QueuedIsMentioned(s, i, e);
      }
      if f in At(s, j).queue {
        QueuedIsMentioned(s, j, f);
      }
    }
  }

  /** In every run from an empty start a request is queued at most once, over all instances. */
  lemma QueuedRequestsAreDistinct(worlds: seq<World>, n: nat)
    requires n < |worlds| && RequestsDistinct(worlds[0].state) && IsRun(worlds, Step())
    ensures RequestsDistinct(worlds[n].state)
  {
    forall w: World, next | RequestsDistinct(w.state) && Steps(w, next) ensures RequestsDistinct(next.state) {
      var op, at :| Enabled(w, op, at) && next == Next(w, op, at);
      RequestsStayDistinct(w.state, op, at);
    }
    HoldsOn(worlds, Step(), (w: World) => RequestsDistinct(w.state), 0, n);
  }

  // ----- Whom a lease passes

  /** The gate an operation that hands out a lease or a transfer was asked with. */
  function GateOf(op: Op): ClaimGate {
    match op
    case DoPrepareAcquire(_, _, _, _, policy) => policy.gate
    case DoRequestQueued(_, _, _, _, _, _, gate, _) => gate
    case DoPrepareGrant(_, gate) => gate
    case DoPrepareTransfer(_, _, _, _, gate) => gate
    case _ => Open
  }

  /** The entry the pump or a transfer chose; an immediate try chooses none. */
  function ChosenBy(s: State, op: Op, now: nat): Option<Entry> {
    var queue := At(s, Target(op)).queue;
    var first := FirstEligible(queue, GateOf(op), now);
    if (op.DoPrepareGrant? || op.DoPrepareTransfer?) && first.Some? then Some(queue[first.value]) else None
  }

  /** An operation that goes by the queue; a hand-off bypasses it by design. */
  predicate HandsOut(s: State, op: Op, now: nat) {
    NewLeases(s, op, now) != {} || (op.DoPrepareTransfer? && NewTransfers(s, op, now) != {})
  }

  /** An entry that is eligible, is not the chosen one and does not come after it. */
  predicate Jumped(chosen: Option<Entry>, e: Entry, gate: ClaimGate, now: nat) {
    Eligible(e, gate, now) && (chosen.None? || (e != chosen.value && !Precedes(chosen.value, e)))
  }

  lemma EligibleStays(s: State, i: nat, now: nat, gate: ClaimGate, e: Entry)
    requires Inv(s) && e in At(s, i).queue && Eligible(e, gate, now)
    ensures FirstEligible(At(Touched(TakeExpired(s, i, now), i), i).queue, gate, now).Some?
  {
    InstanceIsOk(s, i);
    KeepIs(At(s, i).queue, (x: Entry) => x.deadline <= now);
  }

  lemma FirstOfQueue(s: State, i: nat, gate: ClaimGate, now: nat, e: Entry)
    requires Inv(s) && e in At(s, i).queue && Eligible(e, gate, now)
    ensures
      var first := FirstEligible(At(s, i).queue, gate, now);
      first.Some? && (e == At(s, i).queue[first.value] || Precedes(At(s, i).queue[first.value], e))
  {
    InstanceIsOk(s, i);
    var k :| 0 <= k < |At(s, i).queue| && At(s, i).queue[k] == e;
    FirstEligiblePrecedes(At(s, i).queue, gate, now, k);
  }

  /** When it is prepared, a lease or a transfer jumps nobody. */
  lemma PreparationJumpsNobody(s: State, op: Op, now: nat, e: Entry)
    requires Inv(s) && HandsOut(s, op, now) && e in At(s, Target(op)).queue
    ensures !Jumped(ChosenBy(s, op, now), e, GateOf(op), now)
  {
    if Eligible(e, GateOf(op), now) {
      FirstOfQueue(s, Target(op), GateOf(op), now, e);
      if op.DoRequestQueued? {
        EligibleStays(s, op.instance, now, op.gate, e);
        RequestIsNew(s, op, now);
      }
    }
  }

  lemma RequestIsNew(s: State, op: Op, now: nat)
    requires op.DoRequestQueued? && NewLeases(s, op, now) != {}
    ensures FirstEligible(At(Touched(TakeExpired(s, op.instance, now), op.instance), op.instance).queue, op.gate, now).None?
  {
    NewIsNotReplayed(s, op.request, op.instance, op.holder, op.connection, op.priority, op.timeout, op.gate, op.immediate, now);
    RequestedIsAcquired(s, op.request, op.instance, op.holder, op.connection, op.priority, op.timeout, op.gate, op.immediate, now);
  }

  /** What an instance's queue holds later was there, or arrived since. */
  ghost predicate SinceThen(w: World, i: nat, arrivals: nat, queue: seq<Entry>, clock: nat) {
    && w.state.nextArrival >= arrivals && w.clock >= clock
    && (forall e :: e in At(w.state, i).queue ==> e in queue || e.arrival >= arrivals)
  }

  lemma SinceThenStays(w: World, next: World, i: nat, arrivals: nat, queue: seq<Entry>, clock: nat)
    requires Steps(w, next) && SinceThen(w, i, arrivals, queue, clock)
    ensures SinceThen(next, i, arrivals, queue, clock)
  {
    var op, now :| Enabled(w, op, now) && next == Next(w, op, now);
    QueuesFollow(w.state, op, now, i);
  }

  lemma QueueSince(worlds: seq<World>, i: nat, from: nat, n: nat)
    requires IsRun(worlds, Step()) && from <= n < |worlds|
    ensures SinceThen(worlds[n], i, worlds[from].state.nextArrival, At(worlds[from].state, i).queue, worlds[from].clock)
  {
    var start := worlds[from];
    var arrivals, queue, clock := start.state.nextArrival, At(start.state, i).queue, start.clock;
    forall w, next | SinceThen(w, i, arrivals, queue, clock) && Steps(w, next) ensures SinceThen(next, i, arrivals, queue, clock) {
      SinceThenStays(w, next, i, arrivals, queue, clock);
    }
    HoldsOn(worlds, Step(), w => SinceThen(w, i, arrivals, queue, clock), from, n);
  }

  /**
   Between its preparation and its commit a lease can only come to jump an entry that arrived since, or one the
   gate of the preparation held back.
   */
  lemma WhoIsJumped(worlds: seq<World>, op: Op, asked: nat, p: nat, c: nat, gate: ClaimGate, now: nat, e: Entry)
    requires Run(worlds) && p < c < |worlds| && Enabled(worlds[p], op, asked) && worlds[p + 1] == Next(worlds[p], op, asked)
    requires HandsOut(worlds[p].state, op, asked) && now >= worlds[c].clock
    requires e in At(worlds[c].state, Target(op)).queue && Jumped(ChosenBy(worlds[p].state, op, asked), e, gate, now)
    ensures e.arrival >= worlds[p].state.nextArrival || (GateHolds(GateOf(op), e.kind) && !GateHolds(gate, e.kind))
  {
    EveryWorldIsSound(worlds, p);
    QueueSince(worlds, Target(op), p, c);
    QueueSince(worlds, Target(op), p + 1, c);
    if e in At(worlds[p].state, Target(op)).queue {
      PreparationJumpsNobody(worlds[p].state, op, asked, e);
    }
  }

  /** `e` comes before `a` by owner kind or priority, whenever either arrived. */
  predicate Outranks(e: Entry, a: Entry) {
    if HolderOwned(e.kind) != HolderOwned(a.kind) then HolderOwned(e.kind) else e.priority.High? && !a.priority.High?
  }

  /**
   With the gate the lease was asked with and the arrivals by then: an entry of the queue is not in the way when it
   is not eligible, or when the chosen one keeps its place before it.
   */
  predicate OutOfTheWay(chosen: Option<Entry>, asked: ClaimGate, arrivals: nat, e: Entry, gate: ClaimGate, now: nat) {
    Eligible(e, gate, now) ==>
      && (e.arrival >= arrivals ==> chosen.Some? && !Outranks(e, chosen.value))
      && (e.arrival < arrivals && GateHolds(asked, e.kind) ==> chosen.Some? && Precedes(chosen.value, e))
  }

  lemma LateOrHeldIsJumpedIff(chosen: Option<Entry>, asked: ClaimGate, arrivals: nat, e: Entry, gate: ClaimGate,
                              now: nat)
    requires chosen.Some? ==> chosen.value.arrival < arrivals && !GateHolds(asked, chosen.value.kind)
    requires e.arrival >= arrivals || GateHolds(asked, e.kind)
    ensures Jumped(chosen, e, gate, now) <==> !OutOfTheWay(chosen, asked, arrivals, e, gate, now)
  {
  }

  /**
   So a lease committed at `now` jumps nobody exactly when no eligible entry that arrived since it was prepared
   outranks the chosen one, and the chosen one precedes every eligible entry its own gate held back; with nobody
   chosen, when there is no eligible one of either. In particular when nobody has arrived and the gate is the same.
   */
  lemma NobodyIsJumpedIff(worlds: seq<World>, op: Op, asked: nat, p: nat, c: nat, gate: ClaimGate, now: nat)
    requires Run(worlds) && p < c < |worlds| && Enabled(worlds[p], op, asked) && worlds[p + 1] == Next(worlds[p], op, asked)
    requires HandsOut(worlds[p].state, op, asked) && now >= worlds[c].clock
    ensures
      var chosen, queue := ChosenBy(worlds[p].state, op, asked), At(worlds[c].state, Target(op)).queue;
      (forall e :: e in queue ==> !Jumped(chosen, e, gate, now)) <==>
      (forall e :: e in queue ==> OutOfTheWay(chosen, GateOf(op), worlds[p].state.nextArrival, e, gate, now))
    ensures
      worlds[c].state.nextArrival == worlds[p].state.nextArrival && gate == GateOf(op) ==>
        forall e :: e in At(worlds[c].state, Target(op)).queue ==> !Jumped(ChosenBy(worlds[p].state, op, asked), e, gate, now)
  {
    var chosen, queue := ChosenBy(worlds[p].state, op, asked), At(worlds[c].state, Target(op)).queue;
    EveryWorldIsSound(worlds, p);
    EveryWorldIsSound(worlds, c);
    InstanceIsOk(worlds[p].state, Target(op));
    InstanceIsOk(worlds[c].state, Target(op));
    var arrivals := worlds[p].state.nextArrival;
    forall e | e in queue
      ensures Jumped(chosen, e, gate, now) <==> !OutOfTheWay(chosen, GateOf(op), arrivals, e, gate, now)
      ensures Jumped(chosen, e, gate, now) ==> e.arrival >= arrivals || gate != GateOf(op)
      ensures e.arrival < worlds[c].state.nextArrival
    {
      var k :| 0 <= k < |queue| && queue[k] == e;
      if Jumped(chosen, e, gate, now) {
        WhoIsJumped(worlds, op, asked, p, c, gate, now, e);
      }
      if e.arrival >= arrivals || GateHolds(GateOf(op), e.kind) {
        LateOrHeldIsJumpedIff(chosen, GateOf(op), arrivals, e, gate, now);
      }
    }
  }

  const SAMPLE_CONFIG := Config(5_000, 6_000, 120_000, 60_000, 64)

  /**
   And a late arrival is jumped: a client prepares a lease on a free instance, a direct run of high priority is
   queued, and the client's commit is granted over it.
   */
  lemma LateArrivalIsJumped() returns (worlds: seq<World>, prepared: PreparedLease, e: Entry)
    ensures Run(worlds) && |worlds| == 3
    ensures worlds[0].state.instances == map[] && prepared in worlds[2].leases
    ensures e in At(worlds[2].state, 0).queue && Jumped(None, e, Open, 0) && e.priority.High?
    ensures CommitAcquire(worlds[2].state, prepared, 0).result == Ok(prepared.token)
  {
    var first := Started(0, SAMPLE_CONFIG, {}, 0);
    var acquire := DoPrepareAcquire(1, 0, 11, 21, Policy(Normal, 120_000, ClientLease, Open));
    prepared := PreparedLease(Token(0, 0, 0, 11, 120_000), 21, 1, Normal, false, ClientLease, false);
    assert NewLeases(first.state, acquire, 0) == {prepared};
    var second := Next(first, acquire, 0);
    var claim := Claim(2, 0, 12, 22, DirectTaskRun, High, 120_000);
    e := ClaimEntry(claim).(arrival := 1);
    assert !MentionedAnywhere(second.state, 2);
    assert Enqueue(second.state, 0, ClaimEntry(claim)).result == Ok(e);
    var third := Next(second, DoEnqueueClaim(claim), 0);
    assert At(third.state, 0).queue == [e];
    assert third.leases == {prepared};
    worlds := [first, second, third];
    StartIsSound(0, SAMPLE_CONFIG, {}, 0);
    assert Steps(first, second) by {
      assert Enabled(first, acquire, 0);
    }
    assert Steps(second, third) by {
      assert Enabled(second, DoEnqueueClaim(claim), 0);
    }
  }

  // ----- Which entry a grant takes

  /**
   A committed grant of the pump takes the one entry of its request from the queue. That is the entry it was
   prepared from exactly when it had arrived by then; otherwise that entry left and its request was queued again.
   */
  lemma GrantTakesItsOwnEntryIff(worlds: seq<World>, op: Op, asked: nat, p: nat, c: nat, prepared: PreparedLease, now: nat)
    requires Run(worlds) && p < c < |worlds| && Enabled(worlds[p], op, asked) && worlds[p + 1] == Next(worlds[p], op, asked)
    requires RequestsDistinct(worlds[0].state)
    requires op.DoPrepareGrant? && prepared in NewLeases(worlds[p].state, op, asked)
    requires CommitAcquire(worlds[c].state, prepared, now).result.Ok?
    ensures
      var chosen, queue := ChosenBy(worlds[p].state, op, asked), At(worlds[c].state, op.instance).queue;
      var position := PositionOf(queue, prepared.request);
      && chosen.Some? && chosen.value.request == prepared.request && chosen.value.holder == prepared.token.holder
      && position.Some? && (forall e :: e in queue && e.request == prepared.request ==> e == queue[position.value])
      && multiset(At(CommitAcquire(worlds[c].state, prepared, now).state, op.instance).queue)
         == multiset(queue) - multiset{queue[position.value]}
      && (queue[position.value] == chosen.value <==> queue[position.value].arrival < worlds[p].state.nextArrival)
  {
    var s, queue := worlds[p].state, At(worlds[c].state, op.instance).queue;
    var chosen := ChosenBy(s, op, asked).value;
    QueuedRequestsAreDistinct(worlds, p);
    QueuedRequestsAreDistinct(worlds, c);
    EveryWorldIsSound(worlds, p);
    InstanceIsOk(s, op.instance);
    assert chosen in At(s, op.instance).queue;
    GrantTakes(worlds[c].state, prepared, now);
    var taken := queue[PositionOf(queue, prepared.request).value];
    assert taken in queue;
    QueueSince(worlds, op.instance, p, c);
  }

  /** A scheduler with one free instance and this queue. */
  ghost function Alone(queue: seq<Entry>, minted: nat, arrival: nat, leases: set<PreparedLease>): World {
    World(State(0, SAMPLE_CONFIG, minted, map[0 := Instance(None, None, 0, queue)], map[], arrival, 1), leases, {}, 0, map[])
  }

  lemma AloneQueues(claim: Claim, minted: nat, arrival: nat, leases: set<PreparedLease>)
    requires claim.instance == 0 && claim.kind.DirectTaskRun? && claim.ttl == 120_000 && arrival < U64_MAX
    ensures Steps(Alone([], minted, arrival, leases), Alone([ClaimEntry(claim).(arrival := arrival)], minted, arrival + 1, leases))
  {
    var w, op := Alone([], minted, arrival, leases), DoEnqueueClaim(claim);
    assert !MentionedAnywhere(w.state, claim.request);
    assert Enabled(w, op, 0);
    assert Next(w, op, 0) == Alone([ClaimEntry(claim).(arrival := arrival)], minted, arrival + 1, leases);
  }

  lemma AlonePrepares(e: Entry, arrival: nat)
    requires Eligible(e, Open, 0) && e.ttl == 120_000
    ensures Steps(Alone([e], 0, arrival, {}), Alone([e], 1, arrival, {GrantOf(e)}))
  {
    var w, op := Alone([e], 0, arrival, {}), DoPrepareGrant(0, Open);
    assert NewLeases(w.state, op, 0) == {GrantOf(e)};
    assert Enabled(w, op, 0);
    assert Next(w, op, 0) == Alone([e], 1, arrival, {GrantOf(e)});
  }

  function GrantOf(e: Entry): PreparedLease {
    PreparedLease(Token(0, 0, 0, e.holder, e.ttl), e.connection, e.request, e.priority, false, e.kind, true)
  }

  lemma AloneCancels(e: Entry, arrival: nat, leases: set<PreparedLease>)
    ensures Steps(Alone([e], 1, arrival, leases), Alone([], 1, arrival, leases))
  {
    var w, op := Alone([e], 1, arrival, leases), DoCancel(0, e.request, e.connection);
    assert Enabled(w, op, 0);
    assert Without([e], 0) == [];
    assert Next(w, op, 0) == Alone([], 1, arrival, leases);
  }

  /** The entry of another holder is taken: the entry is cancelled and its request queued again before the commit. */
  lemma OtherEntryIsTaken() returns (worlds: seq<World>, prepared: PreparedLease, e: Entry)
    ensures Run(worlds) && |worlds| == 5 && prepared in worlds[4].leases
    ensures At(worlds[4].state, 0).queue == [e] && e.holder != prepared.token.holder
    ensures CommitAcquire(worlds[4].state, prepared, 0).result == Ok(prepared.token)
    ensures At(CommitAcquire(worlds[4].state, prepared, 0).state, 0).queue == []
  {
    var claim, other := Claim(1, 0, 12, 22, DirectTaskRun, High, 120_000), Claim(1, 0, 99, 23, DirectTaskRun, High, 120_000);
    var queued := ClaimEntry(claim).(arrival := 1);
    e := ClaimEntry(other).(arrival := 2);
    prepared := GrantOf(queued);
    worlds := [Alone([], 0, 1, {}), Alone([queued], 0, 2, {}), Alone([queued], 1, 2, {prepared}), Alone([], 1, 2, {prepared}),
               Alone([e], 1, 3, {prepared})];
    AloneIsSound();
    AloneCommits(e, 3, prepared);
    forall n | 0 < n < |worlds| ensures Step()(worlds[n - 1], worlds[n]) {
      if n == 1 {
        AloneQueues(claim, 0, 1, {});
      } else if n == 2 {
        AlonePrepares(queued, 2);
      } else if n == 3 {
        AloneCancels(queued, 2, {prepared});
      } else {
        AloneQueues(other, 1, 2, {prepared});
      }
    }
  }

  lemma AloneCommits(e: Entry, arrival: nat, prepared: PreparedLease)
    requires prepared.token.epoch == 0 && prepared.token.instance == 0 && prepared.token.expires > 0
    requires prepared.fromQueue && prepared.request == e.request
    ensures
      var o := CommitAcquire(Alone([e], 1, arrival, {prepared}).state, prepared, 0);
      o.result == Ok(prepared.token) && At(o.state, 0).queue == []
  {
    assert Without([e], 0) == [];
  }

  lemma AloneIsSound()
    ensures WorldInv(Alone([], 0, 1, {}))
  {
  }
}
