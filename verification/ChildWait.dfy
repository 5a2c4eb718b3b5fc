/**
 Waiting for a child process until a deadline (`wait`): it looks at the child once per poll, and a child
 still running at the deadline is left running or is ended and reaped. The child and the clock may
 behave in any way.
 */
module ChildWait {
  import opened Wrappers

  const POLL_INTERVAL_MS: nat := 20

  datatype AtDeadline = Leave | End

  /** What a look at the child answers: it runs, it ended with its status, or the look failed. */
  datatype Look = StillUp | Exited(status: int) | LookFailed(error: int)

  datatype ChildFailure = Io(error: int) | StillRunning(pid: nat) | Ended

  /** How a child answers: its k-th look, the kill, and the wait that reaps it. */
  datatype Behaviour = Behaviour(pid: nat, look: nat -> Look, kill: Result<(), int>, reap: Result<int, int>)

  class Child {
    const behaviour: Behaviour
    var looks: nat
    var kills: nat
    var reaps: nat

    constructor (behaviour: Behaviour)
      ensures this.behaviour == behaviour && looks == 0 && kills == 0 && reaps == 0
    {
      this.behaviour := behaviour;
      looks, kills, reaps := 0, 0, 0;
    }

    method TryWait() returns (look: Look)
      modifies this
      ensures look == behaviour.look(old(looks)) && looks == old(looks) + 1
      ensures kills == old(kills) && reaps == old(reaps)
    {
      look := behaviour.look(looks);
      looks := looks + 1;
    }

    method Kill() returns (answer: Result<(), int>)
      modifies this
      ensures answer == behaviour.kill && kills == old(kills) + 1
      ensures looks == old(looks) && reaps == old(reaps)
    {
      answer := behaviour.kill;
      kills := kills + 1;
    }

    method Wait() returns (answer: Result<int, int>)
      modifies this
      ensures answer == behaviour.reap && reaps == old(reaps) + 1
      ensures looks == old(looks) && kills == old(kills)
    {
      answer := behaviour.reap;
      reaps := reaps + 1;
    }
  }

  /** The answer of a wait whose last poll is `last`: the child had ended, its look failed, or the deadline had come. */
  function AnswerAt(child: Behaviour, mode: AtDeadline, last: nat): Result<int, ChildFailure> {
    match child.look(last)
    case LookFailed(error) => Err(Io(error))
    case Exited(status) => Ok(status)
    case StillUp =>
      if mode.Leave? then Err(StillRunning(child.pid)) else
      match child.kill
      case Ok(_) => (match child.reap case Ok(_) => Err(Ended) case Err(error) => Err(Io(error)))
      case Err(error) =>
        // It may have ended between the look and the kill: its status is then the answer.
        match child.look(last + 1)
        case LookFailed(lookError) => Err(Io(lookError))
        case Exited(status) => Ok(status)
        case StillUp => Err(Io(error))
  }

  /** The polls before `last` all found the child running before the deadline; the one at `last` did not. */
  predicate LastPoll(child: Behaviour, now: nat -> int, deadline: int, last: nat) {
    && (forall k :: 0 <= k < last ==> child.look(k) == StillUp && now(k) < deadline)
    && (child.look(last) != StillUp || now(last) >= deadline)
  }

  /**
   `wait`. `now(k)` is what the clock reads at its k-th reading. `patience` is a poll by which the child
   has ended or the deadline has come: without one the wait is as long as the child.
   */
  method WaitFor(child: Child, deadline: Option<int>, mode: AtDeadline, now: nat -> int, ghost patience: nat)
    returns (answer: Result<int, ChildFailure>, ghost last: nat)
    requires child.looks == 0 && child.kills == 0 && child.reaps == 0
    requires deadline.Some? ==> child.behaviour.look(patience) != StillUp || now(patience) >= deadline.value
    modifies child
    ensures deadline.Some? ==>
              LastPoll(child.behaviour, now, deadline.value, last) && answer == AnswerAt(child.behaviour, mode, last)
    ensures deadline.None? ==>
              && child.looks == 0 && child.kills == 0
              && answer == match child.behaviour.reap case Ok(status) => Ok(status) case Err(error) => Err(Io(error))
    ensures mode.Leave? ==> child.kills == 0
    ensures answer == Err(Ended) ==>
              && mode.End? && deadline.Some? && child.behaviour.look(last) == StillUp && now(last) >= deadline.value
              && child.kills == 1 && child.behaviour.kill.Ok? && child.reaps == 1 && child.behaviour.reap.Ok?
    ensures child.kills > 0 ==> deadline.Some? && child.behaviour.look(last) == StillUp && now(last) >= deadline.value
    ensures child.reaps > 0 ==> deadline.None? || (child.kills == 1 && child.behaviour.kill.Ok?)
    ensures deadline.Some? ==> child.looks == last + 1 + if child.kills == 1 && child.behaviour.kill.Err? then 1 else 0
  {
    last := 0;
    if deadline.None? {
      var reaped := child.Wait();
      match reaped {
        case Ok(status) => return Ok(status), last;
        case Err(error) => return Err(Io(error)), last;
      }
    }
    var polls := 0;
    while true
      invariant polls <= patience && child.looks == polls && child.kills == 0 && child.reaps == 0
      invariant forall k :: 0 <= k < polls ==> child.behaviour.look(k) == StillUp && now(k) < deadline.value
      decreases patience - polls
    {
      last := polls;
      var look := child.TryWait();
      if look.LookFailed? {
        return Err(Io(look.error)), last;
      }
      if look.Exited? {
        return Ok(look.status), last;
      }
      if now(polls) >= deadline.value {
        if mode.Leave? {
          return Err(StillRunning(child.behaviour.pid)), last;
        }
        var killed := child.Kill();
        if killed.Err? {
          look := child.TryWait();
          match look {
            case LookFailed(error) => return Err(Io(error)), last;
            case Exited(status) => return Ok(status), last;
            case StillUp => return Err(Io(killed.error)), last;
          }
        }
        var reaped := child.Wait();
        match reaped {
          case Ok(_) => return Err(Ended), last;
          case Err(error) => return Err(Io(error)), last;
        }
      }
      polls := polls + 1;
    }
  }

  // ----- A clock that moves only by the pauses

  /** A clock that starts at `start` and moves one poll interval at each pause. */
  function PausesOnly(start: int): nat -> int {
    (k: nat) => start + k * POLL_INTERVAL_MS
  }

  /** Such a clock reaches any deadline. */
  lemma DeadlineComes(start: int, deadline: int) returns (patience: nat)
    ensures PausesOnly(start)(patience) >= deadline
  {
    patience := if deadline > start then deadline - start else 0;
  }

  /**
   On such a clock the wait answers in time: at its first look when it starts at or past the deadline,
   and else within one poll interval of it.
   */
  lemma AnswersInTime(child: Behaviour, start: int, deadline: int, last: nat)
    requires LastPoll(child, PausesOnly(start), deadline, last)
    ensures start >= deadline ==> last == 0
    ensures start < deadline ==> PausesOnly(start)(last) < deadline + POLL_INTERVAL_MS
    ensures child.look(last) == StillUp ==> PausesOnly(start)(last) >= deadline
  {
    if last > 0 {
      assert PausesOnly(start)(last - 1) < deadline;
    }
  }

  /**
   On such a clock every wait ends: it looks once per poll, at the latest at the first poll at or past the deadline,
   and answers within one poll interval of it.
   */
  method WaitByPauses(child: Child, start: int, deadline: int, mode: AtDeadline)
    returns (answer: Result<int, ChildFailure>, ghost last: nat)
    requires child.looks == 0 && child.kills == 0 && child.reaps == 0
    modifies child
    ensures LastPoll(child.behaviour, PausesOnly(start), deadline, last) && answer == AnswerAt(child.behaviour, mode, last)
    ensures start < deadline ==> PausesOnly(start)(last) < deadline + POLL_INTERVAL_MS
    ensures start >= deadline ==> last == 0
    ensures child.looks <= last + 2 && (child.kills == 0 ==> child.looks == last + 1)
  {
    ghost var patience := DeadlineComes(start, deadline);
    answer, last := WaitFor(child, Some(deadline), mode, PausesOnly(start), patience);
    AnswersInTime(child.behaviour, start, deadline, last);
  }

  // ----- A child as the system keeps it

  /** A child that ends by itself with `status` before its look `ends`, and looks that keep its status. */
  ghost predicate EndsByItself(child: Behaviour, ends: nat, status: int) {
    && (forall k :: 0 <= k < ends ==> child.look(k) == StillUp)
    && (forall k :: ends <= k ==> child.look(k) == Exited(status))
  }

  /**
   The kill race. The wait answers the child's own status exactly when it ended before the last look, or ended before
   the kill and the kill said so by failing. A kill that succeeds is answered as the end of the child, whoever was first.
   */
  lemma OwnStatusIsAnsweredIff(child: Behaviour, now: nat -> int, deadline: int, last: nat, ends: nat, status: int)
    requires LastPoll(child, now, deadline, last) && EndsByItself(child, ends, status)
    ensures ends >= last
    ensures AnswerAt(child, End, last).Ok? <==> ends == last || (ends == last + 1 && child.kill.Err?)
    ensures AnswerAt(child, End, last).Ok? ==> AnswerAt(child, End, last) == Ok(status)
    ensures AnswerAt(child, End, last) == Err(Ended) <==> ends > last && child.kill.Ok? && child.reap.Ok?
    ensures AnswerAt(child, Leave, last) == if ends == last then Ok(status) else Err(StillRunning(child.pid))
  {
    assert child.look(ends) == Exited(status);
  }

  /** So the child can lose it: it ends with status 0 between the look and a kill that still succeeds. */
  lemma EndedByItselfIsAnsweredEnded() returns (child: Behaviour, now: nat -> int)
    ensures LastPoll(child, now, 0, 0) && EndsByItself(child, 1, 0)
    ensures AnswerAt(child, End, 0) == Err(Ended)
  {
    child := Behaviour(1, (k: nat) => if k < 1 then StillUp else Exited(0), Ok(()), Ok(0));
    now := (k: nat) => 0;
  }
}
