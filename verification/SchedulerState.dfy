/** The kinds of claim on an instance, and the gate a pause or a blackout lays over them. */
module Claims {

  datatype ClaimKind =
    | PolicyDispatch | Ladder | LadderContinuation | StartupPackage | Autostart | DirectTaskRun | EmulatorControl | InputLifecycle
    | ResumeReconnect | SelfCheck | BackendSwitch | DaemonStartPreparation | LabOperation | ClientLease | ResourceClose

  predicate GatedByPause(kind: ClaimKind) { kind.PolicyDispatch? || kind.Ladder? || kind.StartupPackage? }

  predicate HolderOwned(kind: ClaimKind) { kind.LadderContinuation? }

  datatype ClaimGate = Open | RoutineHeld | Silenced(routineHeld: bool, autostart: bool)

  predicate GateHolds(gate: ClaimGate, kind: ClaimKind) {
    match gate
    case Open => false
    case RoutineHeld => GatedByPause(kind)
    case Silenced(routineHeld, autostart) =>
      (routineHeld && GatedByPause(kind)) || kind.StartupPackage? || (autostart && kind.Autostart?)
  }
}

/** The scheduler's state: one lease at most per instance, and the entries that wait for it. */
module SchedulerState {
  import opened Wrappers
  import opened Claims

  const LONGEST_DEADLINE_MS: nat := 1_800_000

  datatype Token = Token(epoch: nat, lease: nat, instance: nat, holder: nat, expires: nat)

  datatype Priority = Normal | High

  predicate Above(p: Priority, q: Priority) { p.High? && q.Normal? }

  datatype Purpose = Business | Close

  datatype StepMark = StepMark(id: nat, purpose: Purpose)

  datatype RenewRecord = RenewRecord(request: nat, submitted: Token, renewed: Token)

  datatype EndReason =
    | Explicit | Preempted | Disconnect | Expired | BackendFailure | HostShutdown | InstancePaused | ConnectionPrepared

  datatype Released = Released(token: Token, reason: EndReason)

  datatype ReleaseRecord = ReleaseRecord(request: nat, submitted: Token, connection: nat, released: Released)

  datatype Lease = Lease(
    token: Token, connection: nat, closeOnly: bool, request: nat, lastRenew: Option<RenewRecord>, priority: Priority,
    step: Option<StepMark>, preempt: bool, kind: ClaimKind)

  datatype Entry = Entry(
    request: nat, holder: nat, connection: nat, priority: Priority, deadline: nat, arrival: nat, kind: ClaimKind,
    ttl: nat, mayPreempt: bool)

  datatype Instance = Instance(lease: Option<Lease>, lastRelease: Option<ReleaseRecord>, cooldown: nat, queue: seq<Entry>)

  const NEW_INSTANCE: Instance := Instance(None, None, 0, [])

  datatype Config = Config(heartbeat: nat, takeoverCooldown: nat, leaseTtl: nat, maxQueueTimeout: nat, maxDepth: nat)

  /** `minted` counts the lease ids issued so far: an issued id is never issued again. */
  datatype State = State(
    epoch: nat, config: Config, minted: nat, instances: map<nat, Instance>, locations: map<nat, nat>, nextArrival: nat, nextStep: nat)

  datatype SchedulerError =
    | InvalidConfig | ExpiryOverflow | Busy(holder: nat, lease: nat, expires: nat) | CoolingDown(retryAfter: nat) | StaleOwnerEpoch
    | LeaseMismatch | InstanceMismatch | HolderMismatch | ConnectionMismatch | LeaseExpired | LeaseNotExpired | LeaseMissing
    | QueueFull | QueueExpired | QueueMissing | QueueConnectionMismatch | QueueRequestMismatch | QueueTimeoutInvalid
    | QueueSequenceOverflow | StepSequenceOverflow | TransferNotSafe | DestructiveStateMismatch | ResourceCloseOnly
    | QueueAhead(kind: ClaimKind, position: nat) | GateHeld

  datatype Outcome<+T> = Outcome(result: Result<T, SchedulerError>, state: State)

  // ----- The queue

  /** A holder's own continuation first, then high before normal priority, then the order of arrival. */
  predicate Precedes(a: Entry, b: Entry) {
    if HolderOwned(a.kind) != HolderOwned(b.kind) then HolderOwned(a.kind)
    else if a.priority != b.priority then a.priority.High?
    else a.arrival < b.arrival
  }

  predicate InQueueOrder(queue: seq<Entry>) {
    forall i, j :: 0 <= i < j < |queue| ==> Precedes(queue[i], queue[j])
  }

  /** The queue with one more entry, sorted. */
  function Inserted(queue: seq<Entry>, entry: Entry): seq<Entry> {
    if queue == [] then [entry]
    else if Precedes(entry, queue[0]) then [entry] + queue
    else [queue[0]] + Inserted(queue[1..], entry)
  }

  predicate Eligible(entry: Entry, gate: ClaimGate, now: nat) {
    entry.deadline > now && !GateHolds(gate, entry.kind)
  }

  function FirstEligible(queue: seq<Entry>, gate: ClaimGate, now: nat): (position: Option<nat>)
    ensures position.Some? ==> position.value < |queue| && Eligible(queue[position.value], gate, now)
    ensures position.Some? ==> forall i :: 0 <= i < position.value ==> !Eligible(queue[i], gate, now)
    ensures position.None? ==> forall i :: 0 <= i < |queue| ==> !Eligible(queue[i], gate, now)
  {
    if queue == [] then None
    else if Eligible(queue[0], gate, now) then Some(0)
    else
      match FirstEligible(queue[1..], gate, now)
      case Some(position) => Some(position + 1)
      case None => None
  }

  function PositionOf(queue: seq<Entry>, request: nat): (position: Option<nat>)
    ensures position.Some? ==> position.value < |queue| && queue[position.value].request == request
    ensures position.None? ==> forall i :: 0 <= i < |queue| ==> queue[i].request != request
  {
    if queue == [] then None
    else if queue[0].request == request then Some(0)
    else
      match PositionOf(queue[1..], request)
      case Some(position) => Some(position + 1)
      case None => None
  }

  function Without<T>(s: seq<T>, i: nat): seq<T>
    requires i < |s|
  {
    s[..i] + s[i + 1..]
  }

  /** The entries `drop` does not name, in order. */
  function Keep(queue: seq<Entry>, drop: Entry -> bool): (kept: seq<Entry>)
    ensures |kept| <= |queue|
  {
    if queue == [] then []
    else if drop(queue[0]) then Keep(queue[1..], drop)
    else [queue[0]] + Keep(queue[1..], drop)
  }

  /** Only a client entry at the head of the queue asks for a preemption. */
  predicate Preempts(queue: seq<Entry>, lease: Lease) {
    queue != [] && queue[0].mayPreempt && Above(queue[0].priority, lease.priority)
  }

  /** `refresh_preempt_requested`. */
  function Refreshed(instance: Instance): Instance {
    match instance.lease
    case None => instance
    case Some(lease) => instance.(lease := Some(lease.(preempt := Preempts(instance.queue, lease))))
  }

  // ----- Changes of one instance

  function At(s: State, i: nat): Instance { if i in s.instances then s.instances[i] else NEW_INSTANCE }

  /** `instances.entry(i).or_default()`. */
  function Touched(s: State, i: nat): State { s.(instances := s.instances[i := At(s, i)]) }

  function WithInstance(s: State, i: nat, instance: Instance): State { s.(instances := s.instances[i := instance]) }

  function WithQueue(s: State, i: nat, queue: seq<Entry>): State {
    WithInstance(s, i, Refreshed(At(s, i).(queue := queue)))
  }

  /** A lease begins on `i`; one that was there ends. */
  function Granted(s: State, i: nat, lease: Lease, queue: seq<Entry>, lastRelease: Option<ReleaseRecord>): State {
    var before := At(s, i);
    var ended := if before.lease.Some? then s.locations - {before.lease.value.token.lease} else s.locations;
    WithInstance(s, i, Refreshed(Instance(Some(lease), lastRelease, before.cooldown, queue)))
      .(locations := ended[lease.token.lease := i])
  }

  function Ended(s: State, i: nat, lease: Lease, lastRelease: Option<ReleaseRecord>): State {
    WithInstance(s, i, At(s, i).(lease := None, lastRelease := lastRelease)).(locations := s.locations - {lease.token.lease})
  }

  /** The lease of `i` changes and stays the same lease. */
  function Changed(s: State, i: nat, lease: Lease): State {
    WithInstance(s, i, At(s, i).(lease := Some(lease)))
  }

  function LeaseOf(s: State, i: nat): Option<Lease> { At(s, i).lease }

  // ----- Checks

  function LocateToken(s: State, token: Token): Result<nat, SchedulerError> {
    if token.lease !in s.locations then Err(if At(s, token.instance).cooldown > 0 then LeaseMissing else LeaseMismatch)
    else if s.locations[token.lease] != token.instance then Err(InstanceMismatch)
    else Ok(token.instance)
  }

  /** `validate_active_lease`. */
  function CheckLease(lease: Lease, token: Token, connection: nat, now: nat): Result<Lease, SchedulerError> {
    if lease.token.instance != token.instance then Err(InstanceMismatch)
    else if lease.token.lease != token.lease then Err(LeaseMismatch)
    else if lease.token.holder != token.holder then Err(HolderMismatch)
    else if lease.connection != connection then Err(ConnectionMismatch)
    else if lease.token.expires <= now then Err(LeaseExpired)
    else if lease.token != token then Err(LeaseMismatch)
    else Ok(lease)
  }

  /** The current lease a token names, for its own connection, before it expires. */
  function CurrentLease(s: State, token: Token, connection: nat, now: nat): Result<Lease, SchedulerError> {
    if token.epoch != s.epoch then Err(StaleOwnerEpoch)
    else if At(s, token.instance).cooldown > now then Err(CoolingDown(At(s, token.instance).cooldown - now))
    else
      match LocateToken(s, token)
      case Err(error) => Err(error)
      case Ok(i) => if LeaseOf(s, i).None? then Err(LeaseMissing) else CheckLease(LeaseOf(s, i).value, token, connection, now)
  }

  function ValidateWrite(s: State, token: Token, connection: nat, now: nat): Result<Lease, SchedulerError> {
    match CurrentLease(s, token, connection, now)
    case Err(error) => Err(error)
    case Ok(lease) => if lease.closeOnly then Err(ResourceCloseOnly) else Ok(lease)
  }

  /** `transferable_lease`: the lease with exactly this token, expired or not. */
  function HeldLease(s: State, token: Token): Result<Lease, SchedulerError> {
    if token.epoch != s.epoch then Err(StaleOwnerEpoch)
    else
      match LocateToken(s, token)
      case Err(error) => Err(error)
      case Ok(i) =>
        if LeaseOf(s, i).None? then Err(LeaseMissing)
        else if LeaseOf(s, i).value.token != token then Err(LeaseMismatch)
        else Ok(LeaseOf(s, i).value)
  }

  function HeldBy(s: State, token: Token, connection: nat): Result<Lease, SchedulerError> {
    match HeldLease(s, token)
    case Err(error) => Err(error)
    case Ok(lease) => if lease.connection != connection then Err(ConnectionMismatch) else Ok(lease)
  }

  /** `validate_claim_ttl`. */
  predicate TtlIsValid(s: State, ttl: nat) {
    s.config.heartbeat < ttl <= LONGEST_DEADLINE_MS + s.config.heartbeat
  }

  /** Whether a lease or an entry of an instance has this request. */
  predicate Mentions(instance: Instance, request: nat) {
    || (instance.lease.Some? && instance.lease.value.request == request)
    || (exists k :: 0 <= k < |instance.queue| && instance.queue[k].request == request)
  }

  predicate MentionedAnywhere(s: State, request: nat) {
    exists i :: i in s.instances && Mentions(s.instances[i], request)
  }
}
