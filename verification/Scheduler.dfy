/** The scheduler itself: an object whose methods change its instances, each proved to do what the operation says. */
module Scheduler {
  import opened Basics
  import opened Wrappers
  import opened Claims
  import opened SchedulerState
  import opened SchedulerOps
  import opened SchedulerInvariant
  import opened SchedulerRuns
  import opened SchedulerSafety
  import opened SchedulerMeaning

  class SeedScheduler {
    const epoch: nat
    const config: Config
    var minted: nat
    var instances: map<nat, Instance>
    var locations: map<nat, nat>
    var nextArrival: nat
    var nextStep: nat

    function View(): State
      reads this
    {
      State(epoch, config, minted, instances, locations, nextArrival, nextStep)
    }

    /** Every takeover instance starts in its cooldown. */
    constructor (epoch: nat, config: Config, takeover: set<nat>, now: nat)
      ensures this.epoch == epoch && this.config == config && Inv(View())
      ensures instances == map i | i in takeover :: NEW_INSTANCE.(cooldown := now + config.takeoverCooldown)
      ensures minted == 0 && locations == map[] && nextArrival == 1 && nextStep == 1
    {
      this.epoch, this.config := epoch, config;
      instances := map i | i in takeover :: NEW_INSTANCE.(cooldown := now + config.takeoverCooldown);
      minted, locations, nextArrival, nextStep := 0, map[], 1, 1;
    }

    /** `instances.entry(i).or_default()`. */
    method Entry(i: nat)
      modifies this`instances
      ensures View() == Touched(old(View()), i)
    {
      if i !in instances {
        instances := instances[i := NEW_INSTANCE];
      }
    }

    /** `prepare_acquire_with_policy`. */
    method PrepareAcquireLease(request: nat, i: nat, holder: nat, connection: nat, policy: Policy, now: nat)
      returns (r: Result<Preparation, SchedulerError>)
      requires Inv(View())
      modifies this`instances, this`minted
      ensures Inv(View()) && PreparationMeans(old(View()), request, i, holder, connection, policy, now, Outcome(r, View()))
      ensures Outcome(r, View()) == PrepareAcquire(old(View()), request, i, holder, connection, policy, now)
    {
      ghost var s := View();
      Entry(i);
      var instance := instances[i];
      if instance.cooldown > now {
        r := Err(CoolingDown(instance.cooldown - now));
      } else {
        instances := instances[i := instance.(cooldown := 0)];
        var ahead := FirstEligible(instance.queue, policy.gate, now);
        if instance.lease.Some? {
          var lease := instance.lease.value;
          if lease.token.expires <= now {
            r := Err(LeaseExpired);
          } else if lease.request == request && lease.connection == connection && lease.token.holder == holder {
            r := Ok(Existing(lease.token));
          } else {
            r := Err(Busy(lease.token.holder, lease.token.lease, lease.token.expires));
          }
        } else if ahead.Some? {
          r := Err(QueueAhead(instance.queue[ahead.value].kind, ahead.value + 1));
        } else if GateHolds(policy.gate, policy.kind) && !policy.kind.PolicyDispatch? {
          r := Err(GateHeld);
        } else if now + policy.ttl > U64_MAX {
          r := Err(ExpiryOverflow);
        } else {
          var token := Token(epoch, minted, i, holder, now + policy.ttl);
          minted := minted + 1;
          r := Ok(New(PreparedLease(token, connection, request, policy.priority, false, policy.kind, false)));
        }
      }
      assert Outcome(r, View()) == PrepareAcquire(s, request, i, holder, connection, policy, now);
      PrepareAcquireKeeps(s, request, i, holder, connection, policy, now);
      PreparationIs(s, request, i, holder, connection, policy, now);
    }

    /** `commit_acquire` of a preparation that this scheduler handed out and nobody has committed. */
    method CommitAcquireLease(prepared: PreparedLease, now: nat) returns (r: Result<Token, SchedulerError>)
      requires Inv(View()) && Waiting(View(), prepared.token.lease)
      modifies this`instances, this`locations
      ensures Inv(View()) && GrantMeans(old(View()), prepared, now, Outcome(r, View()))
      ensures Outcome(r, View()) == CommitAcquire(old(View()), prepared, now)
    {
      ghost var s := View();
      var i := prepared.token.instance;
      if prepared.token.epoch != epoch {
        r := Err(StaleOwnerEpoch);
      } else if prepared.token.expires <= now {
        r := Err(LeaseExpired);
      } else if i !in instances {
        r := Err(LeaseMissing);
      } else if instances[i].cooldown > now {
        r := Err(CoolingDown(instances[i].cooldown - now));
      } else if instances[i].lease.Some? {
        var held := instances[i].lease.value.token;
        r := Err(Busy(held.holder, held.lease, held.expires));
      } else {
        var instance := instances[i];
        var position := PositionOf(instance.queue, prepared.request);
        if prepared.fromQueue && position.None? {
          r := Err(QueueMissing);
        } else {
          var queue := if prepared.fromQueue then Without(instance.queue, position.value) else instance.queue;
          instances := instances[i := Refreshed(instance.(queue := queue, lease := Some(LeaseFrom(prepared)), lastRelease := None))];
          locations := locations[prepared.token.lease := i];
          r := Ok(prepared.token);
        }
      }
      assert Outcome(r, View()) == CommitAcquire(s, prepared, now);
      CommitAcquireKeeps(s, prepared, now);
      GrantIs(s, prepared, now);
    }

    /** `insert_queue_entry`: the entry is pushed and moved up to where its rank belongs. */
    method InsertQueueEntry(i: nat, entry: Entry) returns (r: Result<Entry, SchedulerError>)
      requires Inv(View())
      modifies this`instances, this`nextArrival
      ensures Inv(View()) && InsertionMeans(old(View()), i, entry, Outcome(r, View()))
      ensures Outcome(r, View()) == Enqueue(old(View()), i, entry)
    {
      ghost var s := View();
      if nextArrival + 1 > U64_MAX {
        r := Err(QueueSequenceOverflow);
      } else {
        Entry(i);
        var instance := instances[i];
        if |instance.queue| >= config.maxDepth {
          r := Err(QueueFull);
        } else {
          var queued := entry.(arrival := nextArrival);
          nextArrival := nextArrival + 1;
          var queue := SortLast(instance.queue, queued);
          instances := instances[i := Refreshed(instance.(queue := queue))];
          r := Ok(queued);
        }
      }
      assert Outcome(r, View()) == Enqueue(s, i, entry);
      EnqueueKeeps(s, i, entry);
      InsertionIs(s, i, entry);
    }

    /** `take_expired_for_instance`. */
    method TakeExpiredOn(i: nat, now: nat) returns (expired: seq<Entry>)
      requires Inv(View())
      modifies this`instances
      ensures Inv(View()) && View() == TakeExpired(old(View()), i, now)
      ensures forall e :: e in expired <==> i in old(instances) && e in old(instances)[i].queue && e.deadline <= now
      ensures forall e :: e in At(View(), i).queue <==> e in old(At(View(), i).queue) && e.deadline > now
    {
      ghost var s := View();
      expired := [];
      if i in instances {
        var queue;
        queue, expired := SplitExpired(instances[i].queue, now);
        instances := instances[i := Refreshed(instances[i].(queue := queue))];
      }
      DropKeeps(s, i, (e: Entry) => e.deadline <= now);
      InstanceIsOk(s, i);
      KeepIs(At(s, i).queue, (e: Entry) => e.deadline <= now);
    }

    /** `begin_destructive_step` and `begin_resource_close`. */
    method BeginFencedStep(token: Token, connection: nat, purpose: Purpose, now: nat) returns (r: Result<FencedWrite, SchedulerError>)
      requires Inv(View())
      modifies this`instances, this`nextStep
      ensures Inv(View()) && StepMeans(old(View()), token, connection, purpose, now, Outcome(r, View()))
      ensures Outcome(r, View()) == BeginStep(old(View()), token, connection, purpose, now)
    {
      ghost var s := View();
      var current := if purpose.Business? then ValidateWrite(View(), token, connection, now)
        else CurrentLease(View(), token, connection, now);
      if current.Err? {
        r := Err(current.error);
      } else if current.value.step.Some? {
        r := Err(DestructiveStateMismatch);
      } else if purpose.Business? && current.value.preempt {
        r := Err(TransferNotSafe);
      } else if nextStep + 1 > U64_MAX {
        r := Err(StepSequenceOverflow);
      } else {
        var i, step := token.instance, nextStep;
        nextStep := step + 1;
        instances := instances[i := instances[i].(lease := Some(current.value.(step := Some(StepMark(step, purpose)))))];
        r := Ok(FencedWrite(token, connection, step, purpose));
      }
      assert Outcome(r, View()) == BeginStep(s, token, connection, purpose, now);
      BeginStepKeeps(s, token, connection, purpose, now);
      BeginsIff(s, token, connection, purpose, now);
    }

    /** `finish_destructive_step`. */
    method FinishDestructiveStep(fence: FencedWrite, connection: nat) returns (r: Result<(), SchedulerError>)
      requires Inv(View())
      modifies this`instances
      ensures Inv(View()) && FinishMeans(old(View()), fence, connection, Outcome(r, View()))
      ensures Outcome(r, View()) == FinishStep(old(View()), fence, connection)
    {
      ghost var s := View();
      var i, located := fence.token.instance, LocateToken(View(), fence.token);
      if fence.token.epoch != epoch {
        r := Err(StaleOwnerEpoch);
      } else if located.Err? {
        r := Err(located.error);
      } else if i !in instances || instances[i].lease.None? {
        r := Err(LeaseMissing);
      } else {
        var lease := instances[i].lease.value;
        if lease.token != fence.token || lease.connection != connection || fence.connection != connection {
          r := Err(ConnectionMismatch);
        } else if lease.step != Some(StepMark(fence.id, fence.purpose)) {
          r := Err(DestructiveStateMismatch);
        } else {
          instances := instances[i := instances[i].(lease := Some(lease.(step := None)))];
          r := Ok(());
        }
      }
      assert Outcome(r, View()) == FinishStep(s, fence, connection);
      FinishStepKeeps(s, fence, connection);
      FinishesIff(s, fence, connection);
    }

    /** `commit_transfer` of a transfer that this scheduler handed out and nobody has committed. */
    method CommitLeaseTransfer(transfer: PreparedTransfer, now: nat) returns (r: Result<Token, SchedulerError>)
      requires Inv(View()) && Waiting(View(), transfer.to.lease) && transfer.to.instance == transfer.from.token.instance
      modifies this`instances, this`locations
      ensures Inv(View()) && TransferMeans(old(View()), transfer, now, Outcome(r, View()))
      ensures Outcome(r, View()) == CommitTransfer(old(View()), transfer, now)
    {
      ghost var s := View();
      var i := transfer.from.token.instance;
      if transfer.from.token.epoch != epoch || transfer.to.epoch != epoch {
        r := Err(StaleOwnerEpoch);
      } else if transfer.to.expires <= now {
        r := Err(LeaseExpired);
      } else if i !in instances {
        r := Err(LeaseMissing);
      } else if instances[i].lease != Some(transfer.from) {
        r := Err(LeaseMismatch);
      } else {
        var instance := instances[i];
        var position := IndexOf(instance.queue, transfer.queued);
        if (if transfer.handOff then PositionOf(instance.queue, transfer.queued.request).Some? else position.None?) {
          r := Err(QueueRequestMismatch);
        } else {
          var queue := if transfer.handOff then instance.queue else Without(instance.queue, position.value);
          var record := None;
          if transfer.releaseRequest.Some? {
            var released := Released(transfer.from.token, transfer.reason);
            record := Some(ReleaseRecord(transfer.releaseRequest.value, transfer.from.token, transfer.from.connection, released));
          }
          var lease := LeaseTo(transfer.to, transfer.queued);
          instances := instances[i := Refreshed(instance.(lease := Some(lease), lastRelease := record, queue := queue))];
          locations := locations - {transfer.from.token.lease};
          locations := locations[transfer.to.lease := i];
          r := Ok(transfer.to);
        }
      }
      assert Outcome(r, View()) == CommitTransfer(s, transfer, now);
      CommitTransferKeeps(s, transfer, now);
      TransferIs(s, transfer, now);
    }

    /** `renew`. */
    method RenewLease(request: nat, token: Token, connection: nat, now: nat) returns (r: Result<Token, SchedulerError>)
      requires Inv(View())
      modifies this`instances
      ensures Inv(View()) && RenewalMeans(old(View()), request, token, connection, now, Outcome(r, View()))
      ensures Outcome(r, View()) == Renew(old(View()), request, token, connection, now)
    {
      ghost var s := View();
      var i, replayed, located := token.instance, ReplayedRenew(View(), request, token, connection), LocateToken(View(), token);
      if replayed.Err? {
        r := Err(replayed.error);
      } else if replayed.value.Some? {
        r := Ok(replayed.value.value);
      } else if located.Err? {
        r := Err(located.error);
      } else if now + config.leaseTtl > U64_MAX {
        r := Err(ExpiryOverflow);
      } else if i !in instances || instances[i].lease.None? {
        r := Err(LeaseMissing);
      } else {
        var checked := CheckLease(instances[i].lease.value, token, connection, now);
        if checked.Err? {
          r := Err(checked.error);
        } else {
          var renewed := checked.value.token.(expires := now + config.leaseTtl);
          var lease := checked.value.(token := renewed, lastRenew := Some(RenewRecord(request, token, renewed)));
          instances := instances[i := instances[i].(lease := Some(lease))];
          r := Ok(renewed);
        }
      }
      assert Outcome(r, View()) == Renew(s, request, token, connection, now);
      RenewKeeps(s, request, token, connection, now);
      RenewalIs(s, request, token, connection, now);
    }

    /** `release`. */
    method ReleaseLease(request: nat, token: Token, connection: nat, now: nat) returns (r: Result<Released, SchedulerError>)
      requires Inv(View())
      modifies this`instances, this`locations
      ensures Inv(View()) && ReleaseMeans(old(View()), request, token, connection, now, Outcome(r, View()))
      ensures Outcome(r, View()) == Release(old(View()), request, token, connection, now)
    {
      ghost var s := View();
      var i, replayed := token.instance, ReplayedRelease(View(), request, token, connection);
      var located := LocatedLease(View(), token, connection, now);
      if replayed.Err? {
        r := Err(replayed.error);
      } else if replayed.value.Some? {
        r := Ok(replayed.value.value);
      } else if located.Err? {
        r := Err(located.error);
      } else {
        var released := Released(located.value.token, Explicit);
        var record := Some(ReleaseRecord(request, token, connection, released));
        instances := instances[i := instances[i].(lease := None, lastRelease := record)];
        locations := locations - {token.lease};
        r := Ok(released);
      }
      assert Outcome(r, View()) == Release(s, request, token, connection, now);
      ReleaseEnds(s, request, token, connection, now);
      EndsKeep(s, View(), i);
      ReleaseIs(s, request, token, connection, now);
    }

    /** `expire_token`. */
    method ExpireToken(token: Token, now: nat) returns (r: Result<Released, SchedulerError>)
      requires Inv(View())
      modifies this`instances, this`locations
      ensures Inv(View()) && ExpiryMeans(old(View()), token, now, Outcome(r, View()))
      ensures Outcome(r, View()) == Expire(old(View()), token, now)
    {
      ghost var s := View();
      var i, held := token.instance, HeldLease(View(), token);
      if held.Err? {
        r := Err(held.error);
      } else if held.value.token.expires > now {
        r := Err(LeaseNotExpired);
      } else {
        instances := instances[i := instances[i].(lease := None, lastRelease := None)];
        locations := locations - {token.lease};
        r := Ok(Released(token, Expired));
      }
      assert Outcome(r, View()) == Expire(s, token, now);
      ExpireEnds(s, token, now);
      EndsKeep(s, View(), i);
      ExpiryIs(s, token, now);
    }
  }

  /** `push` and `sort_queue`: the queue was in order, so only the new entry moves. */
  method SortLast(queue: seq<Entry>, entry: Entry) returns (sorted: seq<Entry>)
    ensures sorted == Inserted(queue, entry)
  {
    var k := 0;
    while k < |queue| && !Precedes(entry, queue[k])
      invariant k <= |queue| && Inserted(queue, entry) == queue[..k] + Inserted(queue[k..], entry)
    {
      assert queue[k..][1..] == queue[k + 1..];
      assert queue[..k] + [queue[k]] == queue[..k + 1];
      k := k + 1;
    }
    sorted := queue[..k] + [entry] + queue[k..];
  }

  predicate Due(e: Entry, now: nat) { e.deadline <= now }

  method SplitExpired(queue: seq<Entry>, now: nat) returns (kept: seq<Entry>, expired: seq<Entry>)
    ensures kept == Keep(queue, (e: Entry) => e.deadline <= now)
    ensures forall e :: e in expired <==> e in queue && e.deadline <= now
  {
    ghost var drop := (e: Entry) => e.deadline <= now;
    var position := 0;
    kept, expired := queue, [];
    while position < |kept|
      invariant position <= |kept| && Keep(queue, drop) == kept[..position] + Keep(kept[position..], drop)
      invariant forall e :: e in queue && Due(e, now) <==> e in expired || (e in kept[position..] && Due(e, now))
      decreases |kept| - position
    {
      var entry, rest := kept[position], kept[position + 1..];
      assert kept[position..] == [entry] + rest;
      assert Keep(kept[position..], drop) == (if Due(entry, now) then [] else [entry]) + Keep(rest, drop);
      if Due(entry, now) {
        expired := expired + [entry];
        kept := kept[..position] + rest;
        assert kept[position..] == rest;
      } else {
        assert kept[..position + 1] == kept[..position] + [entry];
        position := position + 1;
      }
    }
  }
}
