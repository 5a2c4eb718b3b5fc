/** What every operation of the scheduler keeps. */
module SchedulerInvariant {
  import opened Wrappers
  import opened Claims
  import opened SchedulerState
  import opened SchedulerOps

  /** A queue in its order, each entry with an arrival of its own, no longer than its depth. */
  predicate QueueOk(s: State, queue: seq<Entry>) {
    && InQueueOrder(queue) && |queue| <= s.config.maxDepth
    && (forall k :: 0 <= k < |queue| ==> queue[k].arrival < s.nextArrival)
  }

  /** The lease of instance `i`: its token is this scheduler's, its id is located, and its flags are exact. */
  predicate LeaseOk(s: State, i: nat, lease: Lease, queue: seq<Entry>) {
    && lease.token.instance == i && lease.token.epoch == s.epoch && lease.token.lease < s.minted
    && lease.token.lease in s.locations && s.locations[lease.token.lease] == i
    && lease.preempt == Preempts(queue, lease)
    && (lease.step.Some? ==> lease.step.value.id < s.nextStep && (lease.step.value.purpose.Business? ==> !lease.closeOnly))
    && (lease.lastRenew.Some? ==> lease.lastRenew.value.submitted.lease == lease.token.lease)
  }

  predicate InstanceOk(s: State, i: nat, instance: Instance) {
    QueueOk(s, instance.queue) && (instance.lease.Some? ==> LeaseOk(s, i, instance.lease.value, instance.queue))
  }

  /** Every located id is a current lease's. */
  predicate Located(s: State) {
    forall id :: id in s.locations ==>
      s.locations[id] in s.instances && LeaseOf(s, s.locations[id]).Some? && LeaseOf(s, s.locations[id]).value.token.lease == id
  }

  function StepOf(s: State, i: nat): Option<nat> {
    if LeaseOf(s, i).Some? && LeaseOf(s, i).value.step.Some? then Some(LeaseOf(s, i).value.step.value.id) else None
  }

  /** No two instances have one step. */
  ghost predicate StepsDistinct(s: State) {
    forall i, j :: i in s.instances && j in s.instances && StepOf(s, i).Some? && StepOf(s, i) == StepOf(s, j) ==> i == j
  }

  ghost predicate Inv(s: State) {
    && (forall i :: i in s.instances ==> InstanceOk(s, i, s.instances[i]))
    && Located(s) && StepsDistinct(s)
  }

  // ----- Changes that keep it

  /** Nothing that counts goes back: the ids, arrivals and steps issued so far. */
  lemma CountersKeep(s: State, next: State)
    requires Inv(s) && next == s.(minted := next.minted, nextArrival := next.nextArrival, nextStep := next.nextStep)
    requires next.minted >= s.minted && next.nextArrival >= s.nextArrival && next.nextStep >= s.nextStep
    ensures Inv(next)
  {
    forall i | i in next.instances ensures InstanceOk(next, i, next.instances[i]) {
      assert InstanceOk(s, i, s.instances[i]);
    }
    assert forall i :: StepOf(next, i) == StepOf(s, i);
  }

  /** An instance that is not changed stays as it should be while its lease stays located. */
  lemma Framed(s: State, next: State, j: nat, instance: Instance)
    requires InstanceOk(s, j, instance)
    requires next.epoch == s.epoch && next.config == s.config
    requires next.minted == s.minted && next.nextArrival == s.nextArrival && next.nextStep == s.nextStep
    requires instance.lease.Some? ==>
      var id := instance.lease.value.token.lease; id in next.locations && next.locations[id] == j
    ensures InstanceOk(next, j, instance)
  {
  }

  /** Only instance `i` changes, and its step is none or its own. */
  lemma StepsStayDistinct(s: State, i: nat, instance: Instance, locations: map<nat, nat>)
    requires StepsDistinct(s)
    requires instance.lease.Some? && instance.lease.value.step.Some? ==>
      forall j :: j in s.instances && j != i ==> StepOf(s, j) != Some(instance.lease.value.step.value.id)
    ensures StepsDistinct(WithInstance(s, i, instance).(locations := locations))
  {
    var next := WithInstance(s, i, instance).(locations := locations);
    assert forall j :: j != i ==> StepOf(next, j) == StepOf(s, j);
  }

  /** The queue of an instance, and its cooldown. */
  lemma QueueKeeps(s: State, i: nat, queue: seq<Entry>, cooldown: nat)
    requires Inv(s) && QueueOk(s, queue)
    ensures Inv(WithInstance(s, i, Refreshed(At(s, i).(queue := queue, cooldown := cooldown))))
  {
    var instance := Refreshed(At(s, i).(queue := queue, cooldown := cooldown));
    var next := WithInstance(s, i, instance);
    assert next == next.(locations := s.locations);
    StepsStayDistinct(s, i, instance, s.locations) by {
      assert instance.lease.Some? ==>
        StepOf(s, i) == if instance.lease.value.step.Some? then Some(instance.lease.value.step.value.id) else None;
    }
    assert InstanceOk(next, i, instance) by {
      assert i in s.instances ==> InstanceOk(s, i, s.instances[i]);
    }
    forall j | j in next.instances && j != i ensures InstanceOk(next, j, next.instances[j]) {
      Framed(s, next, j, s.instances[j]);
    }
    assert Located(next);
  }

  lemma GrantKeeps(s: State, i: nat, lease: Lease, queue: seq<Entry>, lastRelease: Option<ReleaseRecord>)
    requires Inv(s) && QueueOk(s, queue) && lease.step.None? && lease.lastRenew.None?
    requires lease.token.instance == i && lease.token.epoch == s.epoch && lease.token.lease < s.minted
      && lease.token.lease !in s.locations
    ensures Inv(Granted(s, i, lease, queue, lastRelease))
  {
    var next := Granted(s, i, lease, queue, lastRelease);
    StepsStayDistinct(s, i, next.instances[i], next.locations);
    assert InstanceOk(next, i, next.instances[i]);
    forall j | j in next.instances && j != i ensures InstanceOk(next, j, next.instances[j]) {
      assert InstanceOk(s, j, s.instances[j]);
      Framed(s, next, j, s.instances[j]) by {
        assert At(s, i).lease.Some? ==> InstanceOk(s, i, s.instances[i]);
      }
    }
    GrantStaysLocated(s, i, lease, queue, lastRelease);
  }

  lemma GrantStaysLocated(s: State, i: nat, lease: Lease, queue: seq<Entry>, lastRelease: Option<ReleaseRecord>)
    requires Located(s) && lease.token.lease !in s.locations
    requires At(s, i).lease.Some? ==> LeaseOk(s, i, At(s, i).lease.value, At(s, i).queue)
    ensures Located(Granted(s, i, lease, queue, lastRelease))
  {
    var next := Granted(s, i, lease, queue, lastRelease);
    forall id | id in next.locations
      ensures next.locations[id] in next.instances && LeaseOf(next, next.locations[id]).Some?
      ensures LeaseOf(next, next.locations[id]).value.token.lease == id
    {
      if id != lease.token.lease {
        assert s.locations[id] in s.instances && LeaseOf(s, s.locations[id]).value.token.lease == id;
      }
    }
  }

  lemma EndKeeps(s: State, i: nat, lease: Lease, lastRelease: Option<ReleaseRecord>)
    requires Inv(s) && LeaseOf(s, i) == Some(lease)
    ensures Inv(Ended(s, i, lease, lastRelease))
  {
    var next := Ended(s, i, lease, lastRelease);
    StepsStayDistinct(s, i, next.instances[i], next.locations);
    assert InstanceOk(s, i, s.instances[i]);
    assert InstanceOk(next, i, next.instances[i]);
    forall j | j in next.instances && j != i ensures InstanceOk(next, j, next.instances[j]) {
      assert InstanceOk(s, j, s.instances[j]);
      Framed(s, next, j, s.instances[j]);
    }
    forall id | id in next.locations
      ensures next.locations[id] in next.instances && LeaseOf(next, next.locations[id]).Some?
      ensures LeaseOf(next, next.locations[id]).value.token.lease == id
    {
      assert s.locations[id] in s.instances && LeaseOf(s, s.locations[id]).value.token.lease == id;
    }
  }

  lemma ChangeKeeps(s: State, i: nat, before: Lease, lease: Lease)
    requires Inv(s) && LeaseOf(s, i) == Some(before) && LeaseOk(s, i, lease, s.instances[i].queue)
    requires lease.token.lease == before.token.lease
    requires lease.step.Some? ==> forall j :: j in s.instances && j != i ==> StepOf(s, j) != Some(lease.step.value.id)
    ensures Inv(Changed(s, i, lease))
  {
    var next := Changed(s, i, lease);
    StepsStayDistinct(s, i, next.instances[i], s.locations);
    assert next == next.(locations := s.locations);
    forall j | j in next.instances ensures InstanceOk(next, j, next.instances[j]) {
      assert InstanceOk(s, j, s.instances[j]);
      if j != i {
        Framed(s, next, j, s.instances[j]);
      }
    }
    assert Located(next);
  }

  // ----- Queues

  lemma {:induction false} InsertedHas(queue: seq<Entry>, entry: Entry)
    ensures multiset(Inserted(queue, entry)) == multiset(queue) + multiset{entry} && |Inserted(queue, entry)| == |queue| + 1
    ensures forall e :: e in Inserted(queue, entry) <==> e == entry || e in queue
    decreases |queue|
  {
    if queue != [] {
      assert queue == [queue[0]] + queue[1..];
      InsertedHas(queue[1..], entry);
    }
  }

  lemma HeadPrecedes(first: Entry, rest: seq<Entry>)
    requires InQueueOrder(rest) && forall e :: e in rest ==> Precedes(first, e)
    ensures InQueueOrder([first] + rest)
  {
    var queue := [first] + rest;
    forall i, j | 0 <= i < j < |queue| ensures Precedes(queue[i], queue[j]) {
      assert queue[j] == rest[j - 1];
    }
  }

  /** A new arrival is put where its rank belongs: the queue stays in order. */
  lemma {:induction false} InsertedInOrder(queue: seq<Entry>, entry: Entry)
    requires InQueueOrder(queue) && forall e :: e in queue ==> e.arrival < entry.arrival
    ensures InQueueOrder(Inserted(queue, entry))
    decreases |queue|
  {
    if queue != [] {
      var first, rest := queue[0], queue[1..];
      assert forall e :: e in rest ==> Precedes(first, e);
      if Precedes(entry, first) {
        HeadPrecedes(entry, queue);
      } else {
        InsertedInOrder(rest, entry);
        InsertedHas(rest, entry);
        HeadPrecedes(first, Inserted(rest, entry));
      }
    }
  }

  /** The order leaves no choice: any sorted arrangement of the same entries is the same queue. */
  lemma {:induction false} SortedIsUnique(queue: seq<Entry>, other: seq<Entry>)
    requires InQueueOrder(queue) && InQueueOrder(other) && multiset(queue) == multiset(other)
    ensures queue == other
    decreases |queue|
  {
    if queue == [] {
      assert |multiset(other)| == 0;
    } else {
      assert queue == [queue[0]] + queue[1..];
      assert queue[0] in multiset(other) && |other| == |multiset(other)| == |multiset(queue)| == |queue|;
      assert other == [other[0]] + other[1..];
      assert other[0] in multiset(queue);
      assert queue[0] == other[0];
      assert multiset(queue[1..]) == multiset(queue) - multiset{queue[0]};
      assert multiset(other[1..]) == multiset(other) - multiset{queue[0]};
      SortedIsUnique(queue[1..], other[1..]);
    }
  }

  lemma WithoutKeepsOrder(s: State, queue: seq<Entry>, position: nat)
    requires QueueOk(s, queue) && position < |queue|
    ensures QueueOk(s, Without(queue, position))
  {
  }

  lemma {:induction false} KeepIs(queue: seq<Entry>, drop: Entry -> bool)
    requires InQueueOrder(queue)
    ensures InQueueOrder(Keep(queue, drop))
    ensures forall e :: e in Keep(queue, drop) <==> e in queue && !drop(e)
    decreases |queue|
  {
    if queue != [] {
      assert forall e :: e in queue <==> e == queue[0] || e in queue[1..];
      assert forall e :: e in queue[1..] ==> Precedes(queue[0], e);
      KeepIs(queue[1..], drop);
    }
  }

  // ----- The operations

  /** Counters never go back, and an id becomes current only when a caller commits it. */
  predicate Follows(s: State, next: State, committed: set<nat>) {
    && next.epoch == s.epoch && next.config == s.config
    && next.minted >= s.minted && next.nextArrival >= s.nextArrival && next.nextStep >= s.nextStep
    && (forall id :: id in next.locations ==> id in s.locations || id in committed)
  }

  ghost predicate Keeps(s: State, next: State, committed: set<nat>) {
    Inv(s) ==> Inv(next) && Follows(s, next, committed)
  }

  lemma InstanceIsOk(s: State, i: nat)
    requires Inv(s)
    ensures InstanceOk(s, i, At(s, i))
  {
    if i in s.instances {
      assert InstanceOk(s, i, s.instances[i]);
    }
  }

  lemma CooldownKeeps(s: State, i: nat, cooldown: nat)
    ensures Keeps(s, WithInstance(s, i, At(s, i).(cooldown := cooldown)), {})
  {
    if Inv(s) {
      InstanceIsOk(s, i);
      var instance := At(s, i);
      assert Refreshed(instance.(queue := instance.queue, cooldown := cooldown)) == instance.(cooldown := cooldown);
      QueueKeeps(s, i, instance.queue, cooldown);
    }
  }

  lemma TouchKeeps(s: State, i: nat)
    ensures Keeps(s, Touched(s, i), {})
  {
    var instance := At(s, i);
    assert instance.(cooldown := instance.cooldown) == instance;
    CooldownKeeps(s, i, instance.cooldown);
  }

  lemma MintKeeps(s: State)
    ensures Keeps(s, Minted(s), {})
  {
    if Inv(s) {
      CountersKeep(s, Minted(s));
    }
  }

  lemma PrepareAcquireKeeps(s: State, request: nat, i: nat, holder: nat, connection: nat, policy: Policy, now: nat)
    ensures Keeps(s, PrepareAcquire(s, request, i, holder, connection, policy, now).state, {})
  {
    if At(s, i).cooldown > now {
      TouchKeeps(s, i);
    } else {
      CooldownKeeps(s, i, 0);
      MintKeeps(WithInstance(s, i, At(s, i).(cooldown := 0)));
    }
  }

  lemma CommitAcquireKeeps(s: State, prepared: PreparedLease, now: nat)
    requires prepared.token.lease < s.minted && prepared.token.lease !in s.locations
    ensures Keeps(s, CommitAcquire(s, prepared, now).state, {prepared.token.lease})
  {
    var i := prepared.token.instance;
    var o := CommitAcquire(s, prepared, now);
    if Inv(s) && o.result.Ok? {
      InstanceIsOk(s, i);
      var instance := s.instances[i];
      var position := PositionOf(instance.queue, prepared.request);
      if prepared.fromQueue {
        WithoutKeepsOrder(s, instance.queue, position.value);
        GrantKeeps(s, i, LeaseFrom(prepared), Without(instance.queue, position.value), None);
      } else {
        GrantKeeps(s, i, LeaseFrom(prepared), instance.queue, None);
      }
    }
  }

  lemma NewQueueKeeps(s: State, i: nat, queue: seq<Entry>)
    requires QueueOk(s, queue)
    ensures Keeps(s, WithQueue(s, i, queue), {})
  {
    if Inv(s) {
      var instance := At(s, i);
      assert instance.(queue := queue, cooldown := instance.cooldown) == instance.(queue := queue);
      QueueKeeps(s, i, queue, instance.cooldown);
    }
  }

  lemma InsertedIsOk(s: State, queue: seq<Entry>, queued: Entry)
    requires QueueOk(s, queue) && |queue| < s.config.maxDepth && queued.arrival == s.nextArrival
    ensures QueueOk(s.(nextArrival := s.nextArrival + 1), Inserted(queue, queued))
  {
    InsertedInOrder(queue, queued);
    InsertedHas(queue, queued);
    assert forall k :: 0 <= k < |Inserted(queue, queued)| ==> Inserted(queue, queued)[k] in Inserted(queue, queued);
  }

  lemma EnqueueKeeps(s: State, i: nat, entry: Entry)
    ensures Keeps(s, Enqueue(s, i, entry).state, {})
  {
    if Inv(s) {
      InstanceIsOk(s, i);
      if Enqueue(s, i, entry).result.Err? {
        TouchKeeps(s, i);
      } else {
        var queued := entry.(arrival := s.nextArrival);
        var counted := s.(nextArrival := s.nextArrival + 1);
        InsertedIsOk(s, At(s, i).queue, queued);
        CountersKeep(s, counted);
        NewQueueKeeps(counted, i, Inserted(At(s, i).queue, queued));
      }
    }
  }

  lemma DropKeeps(s: State, i: nat, drop: Entry -> bool)
    ensures Keeps(s, DropEntries(s, i, drop), {})
  {
    if Inv(s) && i in s.instances {
      InstanceIsOk(s, i);
      var queue := s.instances[i].queue;
      KeepIs(queue, drop);
      assert forall k :: 0 <= k < |Keep(queue, drop)| ==> Keep(queue, drop)[k] in Keep(queue, drop);
      NewQueueKeeps(s, i, Keep(queue, drop));
    }
  }

  lemma KeepsOn(s: State, middle: State, next: State)
    requires Keeps(s, middle, {}) && Keeps(middle, next, {})
    ensures Keeps(s, next, {})
  {
  }

  lemma CancelKeeps(s: State, i: nat, request: nat, connection: nat)
    ensures Keeps(s, CancelAt(s, i, request, connection).state, {})
  {
    var queue := At(s, i).queue;
    var position := PositionOf(queue, request);
    if Inv(s) && position.Some? {
      InstanceIsOk(s, i);
      WithoutKeepsOrder(s, queue, position.value);
      NewQueueKeeps(s, i, Without(queue, position.value));
    }
  }

  lemma RequestNewKeeps(s: State, request: nat, i: nat, holder: nat, connection: nat, priority: Priority, timeout: nat,
                           gate: ClaimGate, immediate: bool, now: nat)
    ensures Keeps(s, RequestNew(s, request, i, holder, connection, priority, timeout, gate, immediate, now).state, {})
  {
    var dropped := TakeExpired(s, i, now);
    var touched := Touched(dropped, i);
    DropKeeps(s, i, (e: Entry) => e.deadline <= now);
    TouchKeeps(dropped, i);
    KeepsOn(s, dropped, touched);
    var policy := Policy(priority, s.config.leaseTtl, ClientLease, gate);
    var entry := Entry(request, holder, connection, priority, now + timeout, 0, ClientLease, s.config.leaseTtl, true);
    var acquired := PrepareAcquire(touched, request, i, holder, connection, policy, now).state;
    var queued := Enqueue(touched, i, entry).state;
    PrepareAcquireKeeps(touched, request, i, holder, connection, policy, now);
    EnqueueKeeps(touched, i, entry);
    KeepsOn(s, touched, acquired);
    KeepsOn(s, touched, queued);
    RequestNewIs(s, request, i, holder, connection, priority, timeout, gate, immediate, now);
  }

  /** A new request ends in one of three states. */
  lemma RequestNewIs(s: State, request: nat, i: nat, holder: nat, connection: nat, priority: Priority, timeout: nat,
                        gate: ClaimGate, immediate: bool, now: nat)
    ensures
      var touched := Touched(TakeExpired(s, i, now), i);
      var next := RequestNew(s, request, i, holder, connection, priority, timeout, gate, immediate, now).state;
      || next == touched
      || next == PrepareAcquire(touched, request, i, holder, connection,
                                Policy(priority, s.config.leaseTtl, ClientLease, gate), now).state
      || next == Enqueue(touched, i, Entry(request, holder, connection, priority, now + timeout, 0, ClientLease,
                                           s.config.leaseTtl, true)).state
  {
  }

  /** A request that is already there changes nothing, or loses its expired entry. */
  lemma RequestQueuedIs(s: State, request: nat, i: nat, holder: nat, connection: nat, priority: Priority, timeout: nat,
                        gate: ClaimGate, immediate: bool, now: nat)
    ensures
      var o := RequestQueued(s, request, i, holder, connection, priority, timeout, gate, immediate, now);
      || o.state == s || o.state == CancelAt(s, i, request, connection).state
      || (!MentionedAnywhere(s, request)
          && o == RequestNew(s, request, i, holder, connection, priority, timeout, gate, immediate, now))
  {
  }

  lemma RequestQueuedKeeps(s: State, request: nat, i: nat, holder: nat, connection: nat, priority: Priority, timeout: nat,
                           gate: ClaimGate, immediate: bool, now: nat)
    ensures Keeps(s, RequestQueued(s, request, i, holder, connection, priority, timeout, gate, immediate, now).state, {})
  {
    RequestQueuedIs(s, request, i, holder, connection, priority, timeout, gate, immediate, now);
    CancelKeeps(s, i, request, connection);
    RequestNewKeeps(s, request, i, holder, connection, priority, timeout, gate, immediate, now);
  }

  lemma StepBegins(s: State, i: nat, lease: Lease, purpose: Purpose)
    requires Inv(s) && LeaseOf(s, i) == Some(lease) && (purpose.Business? ==> !lease.closeOnly)
    ensures Keeps(s, Changed(s.(nextStep := s.nextStep + 1), i, lease.(step := Some(StepMark(s.nextStep, purpose)))), {})
  {
    var counted := s.(nextStep := s.nextStep + 1);
    InstanceIsOk(s, i);
    CountersKeep(s, counted);
    forall j | j in s.instances && j != i ensures StepOf(counted, j) != Some(s.nextStep) {
      InstanceIsOk(s, j);
    }
    ChangeKeeps(counted, i, lease, lease.(step := Some(StepMark(s.nextStep, purpose))));
  }

  lemma CurrentLeaseIs(s: State, token: Token, connection: nat, now: nat)
    requires CurrentLease(s, token, connection, now).Ok?
    ensures LeaseOf(s, token.instance) == Some(CurrentLease(s, token, connection, now).value)
    ensures CurrentLease(s, token, connection, now).value.token == token
  {
  }

  lemma BegunStepIs(s: State, token: Token, connection: nat, purpose: Purpose, now: nat)
    requires BeginStep(s, token, connection, purpose, now).result.Ok?
    ensures LeaseOf(s, token.instance).Some? && LeaseOf(s, token.instance).value.step.None?
    ensures purpose.Business? ==> !LeaseOf(s, token.instance).value.closeOnly && !LeaseOf(s, token.instance).value.preempt
    ensures BeginStep(s, token, connection, purpose, now).state
         == Changed(s.(nextStep := s.nextStep + 1), token.instance,
                    LeaseOf(s, token.instance).value.(step := Some(StepMark(s.nextStep, purpose))))
  {
    CurrentLeaseIs(s, token, connection, now);
  }

  lemma BeginStepKeeps(s: State, token: Token, connection: nat, purpose: Purpose, now: nat)
    ensures Keeps(s, BeginStep(s, token, connection, purpose, now).state, {})
  {
    if BeginStep(s, token, connection, purpose, now).result.Ok? {
      BegunStepIs(s, token, connection, purpose, now);
      if Inv(s) {
        StepBegins(s, token.instance, LeaseOf(s, token.instance).value, purpose);
      }
    }
  }

  lemma FinishStepKeeps(s: State, fence: FencedWrite, connection: nat)
    ensures Keeps(s, FinishStep(s, fence, connection).state, {})
  {
    var o := FinishStep(s, fence, connection);
    if Inv(s) && o.result.Ok? {
      InstanceIsOk(s, fence.token.instance);
      var lease := LeaseOf(s, fence.token.instance).value;
      ChangeKeeps(s, fence.token.instance, lease, lease.(step := None));
    }
  }

  lemma CommitTransferKeeps(s: State, transfer: PreparedTransfer, now: nat)
    requires transfer.to.lease < s.minted && transfer.to.lease !in s.locations && transfer.to.instance == transfer.from.token.instance
    ensures Keeps(s, CommitTransfer(s, transfer, now).state, {transfer.to.lease})
  {
    var i := transfer.from.token.instance;
    var o := CommitTransfer(s, transfer, now);
    if Inv(s) && o.result.Ok? {
      InstanceIsOk(s, i);
      var queue := s.instances[i].queue;
      var position := IndexOf(queue, transfer.queued);
      if !transfer.handOff {
        WithoutKeepsOrder(s, queue, position.value);
      }
      GrantKeeps(s, i, LeaseTo(transfer.to, transfer.queued), if transfer.handOff then queue else Without(queue, position.value),
                 o.state.instances[i].lastRelease);
    }
  }

  lemma RenewalKeeps(s: State, i: nat, lease: Lease, renewed: Lease)
    requires Inv(s) && LeaseOf(s, i) == Some(lease) && renewed == lease.(token := renewed.token, lastRenew := renewed.lastRenew)
    requires renewed.token == lease.token.(expires := renewed.token.expires)
    requires renewed.lastRenew == lease.lastRenew || (renewed.lastRenew.Some? && renewed.lastRenew.value.submitted == lease.token)
    ensures Keeps(s, Changed(s, i, renewed), {})
  {
    InstanceIsOk(s, i);
    ChangeKeeps(s, i, lease, renewed);
  }

  lemma RenewKeeps(s: State, request: nat, token: Token, connection: nat, now: nat)
    ensures Keeps(s, Renew(s, request, token, connection, now).state, {})
  {
    var o := Renew(s, request, token, connection, now);
    if Inv(s) && o.state != s {
      RenewalKeeps(s, token.instance, LeaseOf(s, token.instance).value, o.state.instances[token.instance].lease.value);
    }
  }

  lemma RenewWithTtlKeeps(s: State, token: Token, connection: nat, ttl: nat, now: nat)
    ensures Keeps(s, RenewWithTtl(s, token, connection, ttl, now).state, {})
  {
    var o := RenewWithTtl(s, token, connection, ttl, now);
    if Inv(s) && o.state != s {
      RenewalKeeps(s, token.instance, LeaseOf(s, token.instance).value, o.state.instances[token.instance].lease.value);
    }
  }

  lemma EndingKeeps(s: State, i: nat, lease: Lease, lastRelease: Option<ReleaseRecord>)
    requires LeaseOf(s, i) == Some(lease)
    ensures Keeps(s, Ended(s, i, lease, lastRelease), {})
  {
    if Inv(s) {
      EndKeeps(s, i, lease, lastRelease);
    }
  }

  /** The operation did nothing, or ended the lease of `i`. */
  predicate EndsAtMost(s: State, next: State, i: nat) {
    next == s || (LeaseOf(s, i).Some? && i in next.instances
                  && next == Ended(s, i, LeaseOf(s, i).value, next.instances[i].lastRelease))
  }

  lemma EndsKeep(s: State, next: State, i: nat)
    requires EndsAtMost(s, next, i)
    ensures Keeps(s, next, {})
  {
    if next != s {
      EndingKeeps(s, i, LeaseOf(s, i).value, next.instances[i].lastRelease);
    }
  }
}
