/** Which invocations exist, and that each of them is what its own words parse to. */
module InvocationPrinter {
  import opened Basics
  import opened Wrappers
  import opened Numerals
  import opened FlagLoop
  import opened Invocations

  // ----- Which invocations exist

  function SubcommandOf(command: Command): Subcommand {
    match command
    case AgentPublishFacts(_) => Subcommand.AgentPublishFacts
    case AgentApplyResourceTargets(_) => Subcommand.AgentApplyResourceTargets
    case TaskOffset(_, _) => Subcommand.TaskOffset
    case RequestShutdown => Subcommand.RequestShutdown
    case InstallTransition(_) => Subcommand.InstallTransition
    case Reset => Subcommand.Reset
    case Observe => Subcommand.Observe
    case StatusConfig => Subcommand.Status
    case Status => Subcommand.Status
    case ConfigureSettings(_, _) => Subcommand.Config
    case ProgramFacts(_) => Facts
    case InstanceFacts(_) => Facts
    case MonitorStatus => Subcommand.MonitorStatus
    case PerformanceStatus => PerfStatus
    case FactRefreshStatus => FactRefresh
    case ScheduleExplanation => Schedule
    case MonitorSet(_, _, _) => Subcommand.MonitorSet
    case MonitorClear => Subcommand.MonitorClear
    case EmulatorStatus => Emulator
    case EmulatorControl(_) => Emulator
    case EmulatorDiscover => Emulator
    case Pause(_, _) => Subcommand.Pause
    case Resume => Subcommand.Resume
    case SelfCheck(_) => Subcommand.SelfCheck
    case LadderDrill(_) => Subcommand.LadderDrill
    case AgentWakeTest(_, _) => Subcommand.AgentWakeTest
    case Stream(_, _) => Subcommand.Stream
    case TaskRun(_, _) => Subcommand.TaskRun
  }

  function PositionalsOf(command: Command): Positionals {
    match command
    case TaskOffset(task, offset) => TaskAndOffset(task, offset)
    case ConfigureSettings(change, items) => Changes(change, items)
    case EmulatorStatus => EmulatorAction(STATUS)
    case EmulatorControl(Start) => EmulatorAction(START)
    case EmulatorControl(Stop) => EmulatorAction(STOP)
    case EmulatorControl(Restart) => EmulatorAction(RESTART)
    case EmulatorDiscover => EmulatorAction(DISCOVER)
    case SelfCheck(alias) => Alias(alias)
    case _ => NoPositionals
  }

  function ListOf(command: Command): seq<Flag> {
    Takes(SubcommandOf(command), ActionOf(PositionalsOf(command)))
  }

  predicate SoundPositionals(before: Positionals) {
    match before
    case TaskAndOffset(task, offset) => !LooksLikeFlag(task)
    case Changes(_, items) => forall i :: 0 <= i < |items| ==> !LooksLikeFlag(items[i])
    case Alias(alias) => !LooksLikeFlag(alias) && !Blank(alias)
    case _ => true
  }

  predicate WaitRange(wait: Option<nat>) { wait.Some? ==> 1 <= wait.value <= MAX_WAIT_SECONDS }

  predicate SoundPrefix(prefix: Option<string>) { prefix.Some? ==> prefix.value != "" }

  /** What a command may hold. */
  predicate SoundCommand(contract: Contract, command: Command, wait: Option<nat>, json: string) {
    match command
    case TaskOffset(_, offset) => ParseI64(json) == Some(offset)
    case InstallTransition(action) => contract.action(json) == Some(action) && (wait.Some? ==> action.commitsShutdown)
    case ConfigureSettings(change, items) => contract.changesAreValid(change, items)
    case ProgramFacts(prefix) => SoundPrefix(prefix)
    case InstanceFacts(prefix) => SoundPrefix(prefix)
    case MonitorSet(interval, page, recovery) => interval <= U64_MAX && contract.policyIsValid(interval, page, recovery)
    case Pause(reason, timeout) => contract.reasonIsValid(reason) && MIN_DRAIN_TIMEOUT_MS <= timeout <= MAX_DRAIN_TIMEOUT_MS
    case AgentWakeTest(_, own) => own == wait
    case Stream(frames, interval) => frames <= U16_MAX && interval <= U64_MAX && contract.sequenceIsValid(frames, interval)
    case _ => true
  }

  /** An instance is named exactly when the command is about one; `optional` commands take it or not. */
  predicate SoundInstance(command: Command, instance: Option<string>) {
    && (instance.Some? ==> !Blank(instance.value))
    && (InstanceIsOptional(command) || RequiresInstance(command) == instance.Some?)
  }

  /** The invocations there are; `json` is the text of an install transition's action or of a task's offset. */
  predicate Sound(contract: Contract, invocation: Invocation, json: string) {
    var command := invocation.command;
    && WaitRange(invocation.wait) && (invocation.wait.Some? ==> Wait in ListOf(command) || WaitS in ListOf(command))
    && SoundInstance(command, invocation.instance)
    && SoundPositionals(PositionalsOf(command))
    && SoundCommand(contract, command, invocation.wait, json)
  }

  // ----- Its words

  function TextWord(text: Option<string>): Option<Word> {
    if text.Some? then Some(Text(text.value)) else None
  }

  function NumberWord(number: nat): Word { Text(Print(number, Decimal)) }

  function SwitchWord(on: bool): Option<Word> { if on then Some(Text("")) else None }

  /** The word a flag is given with, if it is given. */
  function WordFor(invocation: Invocation, json: string, flag: Flag): Option<Word> {
    var command := invocation.command;
    match flag
    case StateRoot => Some(invocation.stateRoot)
    case Instance => TextWord(invocation.instance)
    case Wait => if invocation.wait.Some? then Some(NumberWord(invocation.wait.value)) else None
    case WaitS => if invocation.wait.Some? then Some(NumberWord(invocation.wait.value)) else None
    case RecordFile => if command.AgentPublishFacts? then Some(command.recordFile) else None
    case PolicyFile => if command.AgentApplyResourceTargets? then Some(command.policyFile) else None
    case ActionJson => if command.InstallTransition? then Some(Text(json)) else None
    case Reason => if command.Pause? then Some(Text(command.reason)) else None
    case DrainTimeoutMs => if command.Pause? then Some(NumberWord(command.drainTimeoutMs)) else None
    case IntervalMs => if command.MonitorSet? || command.Stream? then Some(NumberWord(command.intervalMs)) else None
    case Expect => if command.MonitorSet? then Some(Text(command.expectedPage)) else None
    case MaxFrames => if command.Stream? then Some(NumberWord(command.frameCount)) else None
    case Package => if command.TaskRun? then Some(command.package) else None
    case RecoveryPackage => if command.TaskRun? then command.recoveryPackage else None
    case Recover => SwitchWord(command.MonitorSet? && command.recoveryEnabled)
    case Device => SwitchWord(command.LadderDrill? && command.device)
    case To => if command.AgentWakeTest? then Some(Text(command.to)) else None
    case Program => SwitchWord(command.ProgramFacts?)
    case Config => SwitchWord(command.StatusConfig?)
    case KeyPrefix => if command.ProgramFacts? || command.InstanceFacts? then TextWord(command.keyPrefix) else None
  }

  /** The value the flag then has. */
  function ValueFor(invocation: Invocation, flag: Flag, word: Word): Value {
    var command := invocation.command;
    if IsSwitch(flag) then On
    else if IsPath(flag) then Path(word)
    else
      match flag
      case Wait => Number(Or(invocation.wait, 0))
      case WaitS => Number(Or(invocation.wait, 0))
      case DrainTimeoutMs => Number(if command.Pause? then command.drainTimeoutMs else 0)
      case IntervalMs => Number(if command.MonitorSet? || command.Stream? then command.intervalMs else 0)
      case MaxFrames => Number(if command.Stream? then command.frameCount else 0)
      case ActionJson => if command.InstallTransition? then Act(command.action) else On
      case _ => if word.Text? then Words(word.text) else On
  }

  lemma NumberReadsBack(n: nat, low: nat, high: nat)
    requires low <= n <= high <= U64_MAX
    ensures NumberIn(Print(n, Decimal), low, high) == Ok(Number(n))
  {
    ParseOfPrint(n, Decimal);
  }

  /** Each printed word is read as the value it was printed for. */
  lemma WordReadsBack(contract: Contract, invocation: Invocation, json: string, flag: Flag)
    requires Sound(contract, invocation, json) && WordFor(invocation, json, flag).Some? && !IsSwitch(flag)
    ensures ValueOf(contract, flag, WordFor(invocation, json, flag).value)
         == Ok(ValueFor(invocation, flag, WordFor(invocation, json, flag).value))
  {
    var command := invocation.command;
    match flag
    case Wait => NumberReadsBack(invocation.wait.value, 1, MAX_WAIT_SECONDS);
    case WaitS => NumberReadsBack(invocation.wait.value, 1, MAX_WAIT_SECONDS);
    case DrainTimeoutMs => NumberReadsBack(command.drainTimeoutMs, MIN_DRAIN_TIMEOUT_MS, MAX_DRAIN_TIMEOUT_MS);
    case IntervalMs => NumberReadsBack(command.intervalMs, 0, U64_MAX);
    case MaxFrames => NumberReadsBack(command.frameCount, 0, U16_MAX);
    case _ =>
  }

  function Printed(invocation: Invocation, json: string, takes: seq<Flag>): seq<Group<Flag>> {
    if takes == [] then [] else
      (if WordFor(invocation, json, takes[0]).Some? then [Group(takes[0], WordFor(invocation, json, takes[0]).value)] else [])
      + Printed(invocation, json, takes[1..])
  }

  lemma {:induction false} PrintedAre(invocation: Invocation, json: string, takes: seq<Flag>)
    requires DistinctFlags(takes)
    ensures Distinct(Printed(invocation, json, takes))
    ensures forall g :: g in Printed(invocation, json, takes) <==> g.flag in takes && WordFor(invocation, json, g.flag) == Some(g.word)
    decreases |takes|
  {
    if takes != [] {
      PrintedAre(invocation, json, takes[1..]);
      var rest := Printed(invocation, json, takes[1..]);
      assert forall i :: 0 <= i < |rest| ==> rest[i] in rest;
      assert takes[0] !in takes[1..];
    }
  }

  lemma PrintedAreGood(contract: Contract, invocation: Invocation, json: string, takes: seq<Flag>)
    requires Sound(contract, invocation, json) && DistinctFlags(takes)
    ensures Good(FlagArms(contract), takes, Printed(invocation, json, takes))
  {
    PrintedAre(invocation, json, takes);
    var groups := Printed(invocation, json, takes);
    forall i | 0 <= i < |groups| ensures GoodGroup(FlagArms(contract), takes, groups[i]) {
      assert groups[i] in groups;
      if !IsSwitch(groups[i].flag) {
        WordReadsBack(contract, invocation, json, groups[i].flag);
      }
    }
  }

  /** The variables hold what the listed flags were printed with, and nothing else. */
  ghost predicate Holds(invocation: Invocation, json: string, takes: seq<Flag>, variables: Variables) {
    && (forall f :: f in takes && WordFor(invocation, json, f).Some? ==>
          Variable(f) in variables && variables[Variable(f)] == ValueFor(invocation, f, WordFor(invocation, json, f).value))
    && (forall v :: v in variables ==> exists f :: f in takes && Variable(f) == v && WordFor(invocation, json, f).Some?)
  }

  lemma PrintedHold(contract: Contract, invocation: Invocation, json: string, takes: seq<Flag>)
    requires Sound(contract, invocation, json) && DistinctFlags(takes) && OneFlagPerVariable(FlagArms(contract), takes)
    requires Good(FlagArms(contract), takes, Printed(invocation, json, takes))
    ensures Holds(invocation, json, takes, Assigned(FlagArms(contract), Printed(invocation, json, takes), map[]))
  {
    var arms, groups := FlagArms(contract), Printed(invocation, json, takes);
    var variables := Assigned(arms, groups, map[]);
    PrintedAre(invocation, json, takes);
    forall f | f in takes && WordFor(invocation, json, f).Some?
      ensures Variable(f) in variables && variables[Variable(f)] == ValueFor(invocation, f, WordFor(invocation, json, f).value)
    {
      var g := Group(f, WordFor(invocation, json, f).value);
      assert g in groups;
      var i :| 0 <= i < |groups| && groups[i] == g;
      AssignedMeans(arms, takes, groups, map[], Variable(f));
      if !IsSwitch(f) {
        WordReadsBack(contract, invocation, json, f);
      }
    }
    forall v | v in variables ensures exists f :: f in takes && Variable(f) == v && WordFor(invocation, json, f).Some? {
      AssignedMeans(arms, takes, groups, map[], v);
      var i :| 0 <= i < |groups| && arms.variable(groups[i].flag) == v;
      assert groups[i] in groups;
    }
  }

  /** The words before the flags. */
  function TextWords(items: seq<string>): seq<Word> {
    if items == [] then [] else [Text(items[0])] + TextWords(items[1..])
  }

  function BeforeWords(before: Positionals, json: string): seq<Word> {
    match before
    case NoPositionals => []
    case TaskAndOffset(task, _) => [Text(task), Text(json)]
    case Changes(change, items) => [Text(change)] + TextWords(items)
    case EmulatorAction(action) => [Text(action)]
    case Alias(alias) => [Text(alias)]
  }

  predicate StartsWithFlag(words: seq<Word>) { words != [] && words[0].Text? && LooksLikeFlag(words[0].text) }

  lemma {:induction false} ItemsReadBack(items: seq<string>, rest: seq<Word>)
    requires StartsWithFlag(rest) && forall i :: 0 <= i < |items| ==> !LooksLikeFlag(items[i])
    ensures ItemsOf(TextWords(items) + rest) == items && |TextWords(items)| == |items|
    decreases |items|
  {
    if items == [] {
      assert TextWords(items) + rest == rest;
    } else {
      var words := TextWords(items) + rest;
      assert words[0] == Text(items[0]) && !LooksLikeFlag(items[0]);
      assert words[1..] == TextWords(items[1..]) + rest;
      ItemsReadBack(items[1..], rest);
    }
  }

  lemma ChangesReadBack(change: string, items: seq<string>, rest: seq<Word>)
    requires StartsWithFlag(rest) && forall i :: 0 <= i < |items| ==> !LooksLikeFlag(items[i])
    ensures Before(Subcommand.Config, [Text(change)] + TextWords(items) + rest) == Ok((Changes(change, items), 1 + |TextWords(items)|))
  {
    ItemsReadBack(items, rest);
    assert ([Text(change)] + TextWords(items) + rest)[1..] == TextWords(items) + rest;
  }

  lemma TaskReadsBack(task: string, text: string, offset: int, rest: seq<Word>)
    requires !LooksLikeFlag(task) && ParseI64(text) == Some(offset)
    ensures Before(Subcommand.TaskOffset, [Text(task), Text(text)] + rest) == Ok((TaskAndOffset(task, offset), 2))
  {
  }

  lemma ActionReadsBack(action: string, rest: seq<Word>)
    ensures Before(Emulator, [Text(action)] + rest) == Ok((EmulatorAction(action), 1))
  {
  }

  lemma AliasReadsBack(alias: string, rest: seq<Word>)
    requires !LooksLikeFlag(alias) && !Blank(alias)
    ensures Before(Subcommand.SelfCheck, [Text(alias)] + rest) == Ok((Alias(alias), 1))
  {
  }

  lemma BeforeReadsBack(command: Command, json: string, rest: seq<Word>)
    requires SoundPositionals(PositionalsOf(command)) && StartsWithFlag(rest)
    requires command.TaskOffset? ==> ParseI64(json) == Some(command.offsetMilli)
    ensures Before(SubcommandOf(command), BeforeWords(PositionalsOf(command), json) + rest)
         == Ok((PositionalsOf(command), |BeforeWords(PositionalsOf(command), json)|))
  {
    match PositionalsOf(command)
    case NoPositionals =>
    case TaskAndOffset(task, offset) => TaskReadsBack(task, json, offset, rest);
    case Changes(change, items) => ChangesReadBack(change, items, rest);
    case EmulatorAction(action) => ActionReadsBack(action, rest);
    case Alias(alias) => AliasReadsBack(alias, rest);
  }

  // ----- The variables build the invocation again

  /** The flag's variable is what the flag was printed with. */
  predicate Held(invocation: Invocation, json: string, variables: Variables, flag: Flag) {
    match WordFor(invocation, json, flag)
    case Some(word) => Variable(flag) in variables && variables[Variable(flag)] == ValueFor(invocation, flag, word)
    case None => Variable(flag) !in variables
  }

  lemma ListedAreHeld(contract: Contract, invocation: Invocation, json: string, takes: seq<Flag>, variables: Variables, flag: Flag)
    requires OneFlagPerVariable(FlagArms(contract), takes) && Holds(invocation, json, takes, variables) && flag in takes
    ensures Held(invocation, json, variables, flag)
  {
    if Variable(flag) in variables {
      var f :| f in takes && Variable(f) == Variable(flag) && WordFor(invocation, json, f).Some?;
      assert FlagArms(contract).variable(f) == FlagArms(contract).variable(flag);
    }
  }

  lemma PublishFactsBuildsBack(contract: Contract, invocation: Invocation, json: string, variables: Variables)
    requires SoundCommand(contract, invocation.command, invocation.wait, json) && invocation.command.AgentPublishFacts?
    requires Held(invocation, json, variables, RecordFile)
    ensures Build(contract, SubcommandOf(invocation.command), NoPositionals, variables) == Ok(invocation.command)
  {
  }

  lemma ApplyTargetsBuildsBack(contract: Contract, invocation: Invocation, json: string, variables: Variables)
    requires SoundCommand(contract, invocation.command, invocation.wait, json) && invocation.command.AgentApplyResourceTargets?
    requires Held(invocation, json, variables, PolicyFile)
    ensures Build(contract, SubcommandOf(invocation.command), NoPositionals, variables) == Ok(invocation.command)
  {
  }

  lemma TransitionBuildsBack(contract: Contract, invocation: Invocation, json: string, variables: Variables)
    requires SoundCommand(contract, invocation.command, invocation.wait, json) && invocation.command.InstallTransition?
    requires Held(invocation, json, variables, ActionJson) && Held(invocation, json, variables, Wait)
    ensures Build(contract, SubcommandOf(invocation.command), NoPositionals, variables) == Ok(invocation.command)
  {
  }

  lemma StatusBuildsBack(contract: Contract, invocation: Invocation, json: string, variables: Variables)
    requires SoundCommand(contract, invocation.command, invocation.wait, json)
      && (invocation.command.Status? || invocation.command.StatusConfig?)
    requires Held(invocation, json, variables, Flag.Config)
    ensures Build(contract, SubcommandOf(invocation.command), NoPositionals, variables) == Ok(invocation.command)
  {
  }

  lemma FactsBuildsBack(contract: Contract, invocation: Invocation, json: string, variables: Variables)
    requires SoundCommand(contract, invocation.command, invocation.wait, json)
    requires SoundInstance(invocation.command, invocation.instance)
    requires invocation.command.ProgramFacts? || invocation.command.InstanceFacts?
    requires Held(invocation, json, variables, Program) && Held(invocation, json, variables, Instance)
      && Held(invocation, json, variables, KeyPrefix)
    ensures Build(contract, SubcommandOf(invocation.command), NoPositionals, variables) == Ok(invocation.command)
  {
  }

  lemma MonitorBuildsBack(contract: Contract, invocation: Invocation, json: string, variables: Variables)
    requires SoundCommand(contract, invocation.command, invocation.wait, json) && invocation.command.MonitorSet?
    requires Held(invocation, json, variables, IntervalMs) && Held(invocation, json, variables, Expect)
      && Held(invocation, json, variables, Recover)
    ensures Build(contract, SubcommandOf(invocation.command), NoPositionals, variables) == Ok(invocation.command)
  {
  }

  lemma PauseBuildsBack(contract: Contract, invocation: Invocation, json: string, variables: Variables)
    requires SoundCommand(contract, invocation.command, invocation.wait, json) && invocation.command.Pause?
    requires Held(invocation, json, variables, Reason) && Held(invocation, json, variables, DrainTimeoutMs)
    ensures Build(contract, SubcommandOf(invocation.command), NoPositionals, variables) == Ok(invocation.command)
  {
  }

  lemma DrillBuildsBack(contract: Contract, invocation: Invocation, json: string, variables: Variables)
    requires SoundCommand(contract, invocation.command, invocation.wait, json) && invocation.command.LadderDrill?
    requires Held(invocation, json, variables, Device)
    ensures Build(contract, SubcommandOf(invocation.command), NoPositionals, variables) == Ok(invocation.command)
  {
  }

  lemma WakeBuildsBack(contract: Contract, invocation: Invocation, json: string, variables: Variables)
    requires SoundCommand(contract, invocation.command, invocation.wait, json) && invocation.command.AgentWakeTest?
    requires Held(invocation, json, variables, To) && Held(invocation, json, variables, WaitS)
    ensures Build(contract, SubcommandOf(invocation.command), NoPositionals, variables) == Ok(invocation.command)
  {
  }

  lemma StreamBuildsBack(contract: Contract, invocation: Invocation, json: string, variables: Variables)
    requires SoundCommand(contract, invocation.command, invocation.wait, json) && invocation.command.Stream?
    requires Held(invocation, json, variables, MaxFrames) && Held(invocation, json, variables, IntervalMs)
    ensures Build(contract, SubcommandOf(invocation.command), NoPositionals, variables) == Ok(invocation.command)
  {
  }

  lemma RunBuildsBack(contract: Contract, invocation: Invocation, json: string, variables: Variables)
    requires SoundCommand(contract, invocation.command, invocation.wait, json) && invocation.command.TaskRun?
    requires Held(invocation, json, variables, Package) && Held(invocation, json, variables, RecoveryPackage)
    ensures Build(contract, SubcommandOf(invocation.command), NoPositionals, variables) == Ok(invocation.command)
  {
  }

  lemma FileAndTransitionBuildBack(contract: Contract, invocation: Invocation, json: string, variables: Variables)
    requires SoundCommand(contract, invocation.command, invocation.wait, json)
    requires SoundInstance(invocation.command, invocation.instance)
    requires forall f :: f in ListOf(invocation.command) ==> Held(invocation, json, variables, f)
    requires invocation.command.AgentPublishFacts? || invocation.command.AgentApplyResourceTargets?
      || invocation.command.InstallTransition?
    ensures Build(contract, SubcommandOf(invocation.command), PositionalsOf(invocation.command), variables) == Ok(invocation.command)
  {
    var takes := ListOf(invocation.command);
    if invocation.command.AgentPublishFacts? {
      assert takes[1] == RecordFile;
      PublishFactsBuildsBack(contract, invocation, json, variables);
    } else if invocation.command.AgentApplyResourceTargets? {
      assert takes[1] == PolicyFile;
      ApplyTargetsBuildsBack(contract, invocation, json, variables);
    } else {
      assert takes[1] == ActionJson && takes[2] == Wait;
      TransitionBuildsBack(contract, invocation, json, variables);
    }
  }

  predicate IsStatusFactsOrMonitor(command: Command) {
    || command.Status? || command.StatusConfig? || command.ProgramFacts? || command.InstanceFacts? || command.MonitorSet?
  }

  lemma StatusFactsAndMonitorBuildBack(contract: Contract, invocation: Invocation, json: string, variables: Variables)
    requires SoundCommand(contract, invocation.command, invocation.wait, json)
    requires SoundInstance(invocation.command, invocation.instance)
    requires forall f :: f in ListOf(invocation.command) ==> Held(invocation, json, variables, f)
    requires IsStatusFactsOrMonitor(invocation.command)
    ensures Build(contract, SubcommandOf(invocation.command), PositionalsOf(invocation.command), variables) == Ok(invocation.command)
  {
    var takes := ListOf(invocation.command);
    if invocation.command.Status? || invocation.command.StatusConfig? {
      assert takes[1] == Flag.Config;
      StatusBuildsBack(contract, invocation, json, variables);
    } else if invocation.command.ProgramFacts? || invocation.command.InstanceFacts? {
      assert takes[1] == Program && takes[2] == Instance && takes[3] == KeyPrefix;
      FactsBuildsBack(contract, invocation, json, variables);
    } else {
      assert takes[2] == IntervalMs && takes[3] == Expect && takes[4] == Recover;
      MonitorBuildsBack(contract, invocation, json, variables);
    }
  }

  lemma PauseDrillAndWakeBuildBack(contract: Contract, invocation: Invocation, json: string, variables: Variables)
    requires SoundCommand(contract, invocation.command, invocation.wait, json)
    requires SoundInstance(invocation.command, invocation.instance)
    requires forall f :: f in ListOf(invocation.command) ==> Held(invocation, json, variables, f)
    requires invocation.command.Pause? || invocation.command.LadderDrill? || invocation.command.AgentWakeTest?
    ensures Build(contract, SubcommandOf(invocation.command), PositionalsOf(invocation.command), variables) == Ok(invocation.command)
  {
    var takes := ListOf(invocation.command);
    if invocation.command.Pause? {
      assert takes[2] == Reason && takes[3] == DrainTimeoutMs;
      PauseBuildsBack(contract, invocation, json, variables);
    } else if invocation.command.LadderDrill? {
      assert takes[2] == Device;
      DrillBuildsBack(contract, invocation, json, variables);
    } else {
      assert takes[1] == To && takes[3] == WaitS;
      WakeBuildsBack(contract, invocation, json, variables);
    }
  }

  lemma StreamAndRunBuildBack(contract: Contract, invocation: Invocation, json: string, variables: Variables)
    requires SoundCommand(contract, invocation.command, invocation.wait, json)
    requires SoundInstance(invocation.command, invocation.instance)
    requires forall f :: f in ListOf(invocation.command) ==> Held(invocation, json, variables, f)
    requires invocation.command.Stream? || invocation.command.TaskRun?
    ensures Build(contract, SubcommandOf(invocation.command), PositionalsOf(invocation.command), variables) == Ok(invocation.command)
  {
    var takes := ListOf(invocation.command);
    if invocation.command.Stream? {
      assert takes[2] == MaxFrames && takes[3] == IntervalMs;
      StreamBuildsBack(contract, invocation, json, variables);
    } else {
      assert takes[2] == Package && takes[3] == RecoveryPackage;
      RunBuildsBack(contract, invocation, json, variables);
    }
  }

  lemma BuildsBack(contract: Contract, invocation: Invocation, json: string, variables: Variables)
    requires SoundCommand(contract, invocation.command, invocation.wait, json)
    requires SoundInstance(invocation.command, invocation.instance)
    requires forall f :: f in ListOf(invocation.command) ==> Held(invocation, json, variables, f)
    ensures Build(contract, SubcommandOf(invocation.command), PositionalsOf(invocation.command), variables) == Ok(invocation.command)
  {
    if invocation.command.AgentPublishFacts? || invocation.command.AgentApplyResourceTargets?
        || invocation.command.InstallTransition? {
      FileAndTransitionBuildBack(contract, invocation, json, variables);
    } else if IsStatusFactsOrMonitor(invocation.command) {
      StatusFactsAndMonitorBuildBack(contract, invocation, json, variables);
    } else if invocation.command.Pause? || invocation.command.LadderDrill? || invocation.command.AgentWakeTest? {
      PauseDrillAndWakeBuildBack(contract, invocation, json, variables);
    } else if invocation.command.Stream? || invocation.command.TaskRun? {
      StreamAndRunBuildBack(contract, invocation, json, variables);
    }
  }

  /** A variable no listed flag assigns is not assigned. */
  lemma NotListed(invocation: Invocation, json: string, takes: seq<Flag>, variables: Variables, v: Flag)
    requires Holds(invocation, json, takes, variables) && forall f :: f in takes ==> Variable(f) != v
    ensures v !in variables
  {
  }

  lemma InstanceIsListed(command: Command)
    requires RequiresInstance(command) || InstanceIsOptional(command)
    ensures Instance in ListOf(command)
  {
    var takes := ListOf(command);
    assert takes[1] == Instance || takes[2] == Instance;
  }

  lemma InstanceReadsBack(invocation: Invocation, json: string, takes: seq<Flag>, variables: Variables)
    requires invocation.instance.Some? ==> Instance in takes
    requires Instance in takes ==> Held(invocation, json, variables, Instance)
    requires Instance !in takes ==> Instance !in variables
    ensures TextIn(variables, Instance) == invocation.instance
  {
  }

  lemma WaitReadsBack(invocation: Invocation, json: string, takes: seq<Flag>, variables: Variables)
    requires invocation.wait.Some? ==> Wait in takes || WaitS in takes
    requires Wait in takes ==> Held(invocation, json, variables, Wait)
    requires WaitS in takes ==> Held(invocation, json, variables, WaitS)
    requires Wait !in takes && WaitS !in takes ==> Wait !in variables
    ensures NumberOf(variables, Wait) == invocation.wait
  {
  }

  /** What the list of a subcommand makes of its variables. */
  ghost predicate ListHeld(invocation: Invocation, json: string, takes: seq<Flag>, variables: Variables) {
    && (forall f :: f in takes ==> Held(invocation, json, variables, f))
    && (Instance !in takes ==> Instance !in variables)
    && (Wait !in takes && WaitS !in takes ==> Wait !in variables)
  }

  lemma PrintedAreHeld(contract: Contract, invocation: Invocation, json: string, takes: seq<Flag>, variables: Variables)
    requires OneFlagPerVariable(FlagArms(contract), takes) && Holds(invocation, json, takes, variables)
    ensures ListHeld(invocation, json, takes, variables)
  {
    forall f | f in takes ensures Held(invocation, json, variables, f) {
      ListedAreHeld(contract, invocation, json, takes, variables, f);
    }
    if Instance !in takes {
      NotListed(invocation, json, takes, variables, Instance);
    }
    if Wait !in takes && WaitS !in takes {
      NotListed(invocation, json, takes, variables, Wait);
    }
  }

  lemma FinishesBack(contract: Contract, invocation: Invocation, json: string, subcommand: Subcommand, before: Positionals,
                     takes: seq<Flag>, variables: Variables)
    requires SoundInstance(invocation.command, invocation.instance)
    requires StateRoot in takes && (invocation.instance.Some? ==> Instance in takes)
    requires invocation.wait.Some? ==> Wait in takes || WaitS in takes
    requires ListHeld(invocation, json, takes, variables)
    requires Build(contract, subcommand, before, variables) == Ok(invocation.command)
    ensures Finished(contract, subcommand, before, variables) == Ok(invocation)
  {
    assert Held(invocation, json, variables, StateRoot);
    InstanceReadsBack(invocation, json, takes, variables);
    WaitReadsBack(invocation, json, takes, variables);
  }

  function InvocationWords(contract: Contract, invocation: Invocation, json: string): seq<Word> {
    BeforeWords(PositionalsOf(invocation.command), json)
    + Flatten(FlagArms(contract), Printed(invocation, json, ListOf(invocation.command)))
  }

  lemma PrintedStartsWithFlag(contract: Contract, invocation: Invocation, json: string)
    ensures StartsWithFlag(Flatten(FlagArms(contract), Printed(invocation, json, ListOf(invocation.command))))
  {
    var takes := ListOf(invocation.command);
    assert takes[0] == StateRoot;
    var groups := Printed(invocation, json, takes);
    assert groups[0] == Group(StateRoot, invocation.stateRoot);
    assert Flatten(FlagArms(contract), groups)[0] == Text(Spell(StateRoot));
  }

  lemma FlagsReadBack(contract: Contract, invocation: Invocation, json: string, takes: seq<Flag>) returns (variables: Variables)
    requires Sound(contract, invocation, json) && DistinctFlags(takes) && OneFlagPerVariable(FlagArms(contract), takes)
    ensures Reading(FlagArms(contract), takes, Flatten(FlagArms(contract), Printed(invocation, json, takes)), [], map[])
         == Ok(variables)
    ensures ListHeld(invocation, json, takes, variables)
  {
    var groups := Printed(invocation, json, takes);
    PrintedAreGood(contract, invocation, json, takes);
    SpellingsAreDistinct(contract);
    AcceptedIffGoodGroups(FlagArms(contract), takes, Flatten(FlagArms(contract), groups));
    PrintedHold(contract, invocation, json, takes);
    variables := Assigned(FlagArms(contract), groups, map[]);
    PrintedAreHeld(contract, invocation, json, takes, variables);
  }

  lemma VariablesFinish(contract: Contract, invocation: Invocation, json: string, variables: Variables)
    requires Sound(contract, invocation, json) && ListHeld(invocation, json, ListOf(invocation.command), variables)
    ensures Finished(contract, SubcommandOf(invocation.command), PositionalsOf(invocation.command), variables) == Ok(invocation)
  {
    var command, takes := invocation.command, ListOf(invocation.command);
    BuildsBack(contract, invocation, json, variables);
    assert takes[0] == StateRoot;
    if invocation.instance.Some? {
      InstanceIsListed(command);
    }
    FinishesBack(contract, invocation, json, SubcommandOf(command), PositionalsOf(command), takes, variables);
  }

  /** Every invocation there is comes back from its own words. */
  lemma InvocationReadsBack(contract: Contract, invocation: Invocation, json: string)
    requires Sound(contract, invocation, json)
    ensures Parsing(contract, SubcommandOf(invocation.command), InvocationWords(contract, invocation, json)) == Ok(invocation)
  {
    var command, takes := invocation.command, ListOf(invocation.command);
    var flags := Flatten(FlagArms(contract), Printed(invocation, json, takes));
    var words := InvocationWords(contract, invocation, json);
    PrintedStartsWithFlag(contract, invocation, json);
    BeforeReadsBack(command, json, flags);
    assert words[|BeforeWords(PositionalsOf(command), json)|..] == flags;
    ListsAreSound(contract, SubcommandOf(command), ActionOf(PositionalsOf(command)));
    var variables := FlagsReadBack(contract, invocation, json, takes);
    VariablesFinish(contract, invocation, json, variables);
  }

  // ----- Only these invocations are parsed

  /** What a variable can hold. */
  ghost predicate ValidVariable(contract: Contract, variable: Flag, value: Value) {
    match variable
    case Instance => value.Words? && !Blank(value.text)
    case Wait => value.Number? && 1 <= value.number <= MAX_WAIT_SECONDS
    case Reason => value.Words? && contract.reasonIsValid(value.text)
    case DrainTimeoutMs => value.Number? && MIN_DRAIN_TIMEOUT_MS <= value.number <= MAX_DRAIN_TIMEOUT_MS
    case IntervalMs => value.Number? && value.number <= U64_MAX
    case MaxFrames => value.Number? && value.number <= U16_MAX
    case KeyPrefix => value.Words? && value.text != ""
    case ActionJson => value.Act? && exists text :: contract.action(text) == Some(value.action)
    case WaitS => false
    case _ => if IsPath(variable) then value.Path? else if IsSwitch(variable) then value.On? else value.Words?
  }

  lemma ReadValuesAreValid(contract: Contract, group: Group<Flag>)
    requires GroupValue(FlagArms(contract), group).Ok?
    ensures ValidVariable(contract, Variable(group.flag), GroupValue(FlagArms(contract), group).value)
  {
  }

  ghost predicate ValidVariables(contract: Contract, variables: Variables) {
    forall v :: v in variables ==> ValidVariable(contract, v, variables[v])
  }

  /** Every variable was assigned by a listed flag. */
  predicate OnlyListed(takes: seq<Flag>, variables: Variables) {
    forall v :: v in variables ==> exists f :: f in takes && Variable(f) == v
  }

  lemma ReadVariablesAreValid(contract: Contract, takes: seq<Flag>, words: seq<Word>)
    requires OneFlagPerVariable(FlagArms(contract), takes) && Reading(FlagArms(contract), takes, words, [], map[]).Ok?
    ensures ValidVariables(contract, Reading(FlagArms(contract), takes, words, [], map[]).value)
    ensures OnlyListed(takes, Reading(FlagArms(contract), takes, words, [], map[]).value)
  {
    var arms := FlagArms(contract);
    var groups := GroupsOf(arms, takes, words, [], map[]);
    var variables := Assigned(arms, groups, map[]);
    forall v | v in variables
      ensures ValidVariable(contract, v, variables[v]) && exists f :: f in takes && Variable(f) == v
    {
      AssignedMeans(arms, takes, groups, map[], v);
      var i :| 0 <= i < |groups| && arms.variable(groups[i].flag) == v;
      ReadValuesAreValid(contract, groups[i]);
    }
  }

  lemma {:induction false} ItemsAreNoFlags(words: seq<Word>)
    ensures forall i :: 0 <= i < |ItemsOf(words)| ==> !LooksLikeFlag(ItemsOf(words)[i])
    decreases |words|
  {
    if ItemsOf(words) != [] {
      ItemsAreNoFlags(words[1..]);
    }
  }

  lemma ReadPositionalsAreSound(subcommand: Subcommand, words: seq<Word>)
    requires Before(subcommand, words).Ok?
    ensures SoundPositionals(Before(subcommand, words).value.0)
  {
    if subcommand.Config? {
      ItemsAreNoFlags(words[1..]);
    }
  }

  /** The kind of positional words a subcommand has. */
  predicate Fits(subcommand: Subcommand, before: Positionals) {
    match subcommand
    case Config => before.Changes?
    case Emulator => before.EmulatorAction?
    case TaskOffset => before.TaskAndOffset?
    case SelfCheck => before.Alias?
    case _ => before.NoPositionals?
  }

  lemma EmulatorBuiltFrom(action: string)
    requires EmulatorCommand(action).Ok?
    ensures SubcommandOf(EmulatorCommand(action).value) == Emulator
    ensures PositionalsOf(EmulatorCommand(action).value) == EmulatorAction(action)
  {
  }

  lemma BuiltFrom(contract: Contract, subcommand: Subcommand, before: Positionals, variables: Variables)
    requires Fits(subcommand, before) && Build(contract, subcommand, before, variables).Ok?
    ensures SubcommandOf(Build(contract, subcommand, before, variables).value) == subcommand
    ensures PositionalsOf(Build(contract, subcommand, before, variables).value) == before
  {
    if subcommand.Emulator? {
      EmulatorBuiltFrom(before.action);
    } else if subcommand.InstallTransition? || subcommand.Facts? {
      assert before.NoPositionals?;
    }
  }

  lemma TransitionIsSound(contract: Contract, variables: Variables, json: string)
    requires TransitionCommand(variables).Ok? && ValidVariables(contract, variables)
    requires contract.action(json) == Some(variables[ActionJson].action)
    ensures SoundCommand(contract, TransitionCommand(variables).value, NumberOf(variables, Wait), json)
  {
  }

  lemma FactsAreSound(contract: Contract, variables: Variables, json: string)
    requires FactsCommand(variables).Ok? && ValidVariables(contract, variables)
    ensures SoundCommand(contract, FactsCommand(variables).value, NumberOf(variables, Wait), json)
  {
  }

  lemma PolicyIsSound(contract: Contract, variables: Variables, json: string)
    requires MonitorCommand(contract, variables).Ok? && ValidVariables(contract, variables)
    ensures SoundCommand(contract, MonitorCommand(contract, variables).value, NumberOf(variables, Wait), json)
  {
  }

  lemma PauseIsSound(contract: Contract, variables: Variables, json: string)
    requires PauseCommand(contract, variables).Ok? && ValidVariables(contract, variables)
    ensures SoundCommand(contract, PauseCommand(contract, variables).value, NumberOf(variables, Wait), json)
  {
  }

  lemma SequenceIsSound(contract: Contract, variables: Variables, json: string)
    requires StreamCommand(contract, variables).Ok? && ValidVariables(contract, variables)
    ensures SoundCommand(contract, StreamCommand(contract, variables).value, NumberOf(variables, Wait), json)
  {
  }

  lemma BuiltIsSound(contract: Contract, subcommand: Subcommand, before: Positionals, variables: Variables, json: string)
    requires ValidVariables(contract, variables) && Build(contract, subcommand, before, variables).Ok?
    requires ActionJson in variables && variables[ActionJson].Act? ==> contract.action(json) == Some(variables[ActionJson].action)
    requires before.TaskAndOffset? ==> ParseI64(json) == Some(before.offsetMilli)
    ensures SoundCommand(contract, Build(contract, subcommand, before, variables).value, NumberOf(variables, Wait), json)
  {
    match subcommand
    case InstallTransition => TransitionIsSound(contract, variables, json);
    case Facts => FactsAreSound(contract, variables, json);
    case MonitorSet => PolicyIsSound(contract, variables, json);
    case Pause => PauseIsSound(contract, variables, json);
    case Stream => SequenceIsSound(contract, variables, json);
    case _ =>
  }

  lemma FinishedIsSound(contract: Contract, invocation: Invocation, json: string, subcommand: Subcommand, before: Positionals,
                        takes: seq<Flag>, variables: Variables)
    requires ValidVariables(contract, variables) && OnlyListed(takes, variables)
    requires Finished(contract, subcommand, before, variables) == Ok(invocation)
    ensures Build(contract, subcommand, before, variables) == Ok(invocation.command)
    ensures invocation.wait == NumberOf(variables, Wait) && WaitRange(invocation.wait)
    ensures invocation.wait.Some? ==> Wait in takes || WaitS in takes
    ensures SoundInstance(invocation.command, invocation.instance)
  {
  }

  /** Only sound invocations are parsed, each from its own subcommand. */
  lemma ParsedIsSound(contract: Contract, subcommand: Subcommand, words: seq<Word>) returns (json: string)
    requires Parsing(contract, subcommand, words).Ok?
    ensures Sound(contract, Parsing(contract, subcommand, words).value, json)
    ensures SubcommandOf(Parsing(contract, subcommand, words).value.command) == subcommand
  {
    var invocation := Parsing(contract, subcommand, words).value;
    var before := Before(subcommand, words).value;
    var takes := Takes(subcommand, ActionOf(before.0));
    var variables := Reading(FlagArms(contract), takes, words[before.1..], [], map[]).value;
    ReadPositionalsAreSound(subcommand, words);
    ListsAreSound(contract, subcommand, ActionOf(before.0));
    ReadVariablesAreValid(contract, takes, words[before.1..]);
    json := "";
    if subcommand.TaskOffset? {
      json := words[1].text;
      assert ActionJson !in variables;
    } else if ActionJson in variables {
      json :| contract.action(json) == Some(variables[ActionJson].action);
    }
    FinishedIsSound(contract, invocation, json, subcommand, before.0, takes, variables);
    BuiltFrom(contract, subcommand, before.0, variables);
    BuiltIsSound(contract, subcommand, before.0, variables, json);
  }

  // ----- The order of the flags, and a flag that is listed but always refused

  lemma {:induction false} ItemsStopAtFlags(words: seq<Word>, rest: seq<Word>, other: seq<Word>)
    requires |ItemsOf(words + rest)| == |words| && (other == [] || StartsWithFlag(other))
    ensures ItemsOf(words + other) == ItemsOf(words + rest)
    decreases |words|
  {
    if words == [] {
      assert words + other == other;
    } else {
      assert (words + rest)[1..] == words[1..] + rest && (words + other)[1..] == words[1..] + other;
      ItemsStopAtFlags(words[1..], rest, other);
    }
  }

  lemma SameBefore(subcommand: Subcommand, words: seq<Word>, rest: seq<Word>, other: seq<Word>)
    requires Before(subcommand, words + rest).Ok? && Before(subcommand, words + rest).value.1 == |words|
    requires other == [] || StartsWithFlag(other)
    ensures Before(subcommand, words + other) == Before(subcommand, words + rest)
  {
    if subcommand.Config? {
      assert (words + rest)[1..] == words[1..] + rest && (words + other)[1..] == words[1..] + other;
      ItemsStopAtFlags(words[1..], rest, other);
    } else {
      assert forall i :: 0 <= i < |words| ==> (words + rest)[i] == words[i] == (words + other)[i];
    }
  }

  lemma FlattenStartsWithFlag(contract: Contract, groups: seq<Group<Flag>>)
    ensures Flatten(FlagArms(contract), groups) == [] || StartsWithFlag(Flatten(FlagArms(contract), groups))
  {
    if groups != [] {
      var flag := groups[0].flag;
      assert LooksLikeFlag(Spell(flag));
      assert Flatten(FlagArms(contract), groups)[0] == Text(Spell(flag));
    }
  }

  /** The order of a subcommand's flags does not matter: every permutation parses to the same invocation, or none parses. */
  lemma FlagOrderDoesNotMatter(contract: Contract, subcommand: Subcommand, words: seq<Word>, groups: seq<Group<Flag>>,
                               other: seq<Group<Flag>>)
    requires Written(FlagArms(contract), groups) && multiset(groups) == multiset(other)
    requires Before(subcommand, words + Flatten(FlagArms(contract), groups)).Ok?
    requires Before(subcommand, words + Flatten(FlagArms(contract), groups)).value.1 == |words|
    ensures Parsing(contract, subcommand, words + Flatten(FlagArms(contract), groups)).Ok? ==>
              Parsing(contract, subcommand, words + Flatten(FlagArms(contract), other))
              == Parsing(contract, subcommand, words + Flatten(FlagArms(contract), groups))
    ensures Parsing(contract, subcommand, words + Flatten(FlagArms(contract), other)).Ok? ==>
              Parsing(contract, subcommand, words + Flatten(FlagArms(contract), groups)).Ok?
  {
    var arms := FlagArms(contract);
    var these, those := Flatten(arms, groups), Flatten(arms, other);
    var before := Before(subcommand, words + these).value.0;
    FlattenStartsWithFlag(contract, other);
    SameBefore(subcommand, words, these, those);
    assert (words + these)[|words|..] == these && (words + those)[|words|..] == those;
    SpellingsAreDistinct(contract);
    ListsAreSound(contract, subcommand, ActionOf(before));
    OrderDoesNotMatter(arms, Takes(subcommand, ActionOf(before)), groups, other);
  }

  /** A flag that is its own variable is given exactly when that is assigned, and to a valid value. */
  lemma GivenIsAssigned(contract: Contract, takes: seq<Flag>, groups: seq<Group<Flag>>, flag: Flag)
    requires OneFlagPerVariable(FlagArms(contract), takes) && Good(FlagArms(contract), takes, groups) && flag != Wait && flag != WaitS
    ensures flag in Flags(groups) <==> flag in Assigned(FlagArms(contract), groups, map[])
    ensures flag in Flags(groups) ==> ValidVariable(contract, flag, Assigned(FlagArms(contract), groups, map[])[flag])
  {
    FlagsAre(groups, flag);
    AssignedMeans(FlagArms(contract), takes, groups, map[], flag);
    if i :| 0 <= i < |groups| && groups[i].flag == flag {
      assert FlagArms(contract).variable(groups[i].flag) == flag;
      ReadValuesAreValid(contract, groups[i]);
    }
  }

  /** `agent-wake-test` needs its state root and its channel, and takes no instance. */
  lemma WakeTestFinishesIff(contract: Contract, variables: Variables)
    ensures
      var finished := Finished(contract, Subcommand.AgentWakeTest, NoPositionals, variables);
      if PathIn(variables, StateRoot).Some? && TextIn(variables, To).Some? && TextIn(variables, Instance).None? then finished.Ok?
      else finished == Err(Usage)
  {
  }

  lemma WakeTestParses(contract: Contract, words: seq<Word>)
    ensures Parsing(contract, Subcommand.AgentWakeTest, words)
         == match Reading(FlagArms(contract), Takes(Subcommand.AgentWakeTest, ""), words, [], map[])
            case Err(problem) => Err(problem)
            case Ok(variables) => Finished(contract, Subcommand.AgentWakeTest, NoPositionals, variables)
  {
    assert words[0..] == words;
  }

  /** A line of good `agent-wake-test` flags parses exactly when it gives `--state-root` and `--to` and not the listed `--instance`. */
  lemma WakeTestParsesIff(contract: Contract, takes: seq<Flag>, groups: seq<Group<Flag>>)
    requires takes == Takes(Subcommand.AgentWakeTest, "") && Good(FlagArms(contract), takes, groups)
    ensures
      var parsed := Parsing(contract, Subcommand.AgentWakeTest, Flatten(FlagArms(contract), groups));
      if StateRoot in Flags(groups) && To in Flags(groups) && Instance !in Flags(groups) then parsed.Ok? else parsed == Err(Usage)
  {
    var words, variables := Flatten(FlagArms(contract), groups), Assigned(FlagArms(contract), groups, map[]);
    ListsAreSound(contract, Subcommand.AgentWakeTest, "");
    SpellingsAreDistinct(contract);
    AcceptedIffGoodGroups(FlagArms(contract), takes, words);
    GivenIsAssigned(contract, takes, groups, StateRoot);
    GivenIsAssigned(contract, takes, groups, To);
    GivenIsAssigned(contract, takes, groups, Instance);
    WakeTestParses(contract, words);
    WakeTestFinishesIff(contract, variables);
  }
}
