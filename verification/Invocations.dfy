/**
 The subcommands of `actingctl` that the flag loop serves: the flags each lists, the words before its flags,
 and the invocation its variables become.
 */
module Invocations {
  import opened Basics
  import opened Wrappers
  import opened Numerals
  import opened FlagLoop

  datatype Flag =
    | RecordFile | PolicyFile | ActionJson | Wait | Reason | DrainTimeoutMs | StateRoot | Instance | IntervalMs | Expect
    | MaxFrames | Package | RecoveryPackage | Recover | Device | To | WaitS | Program | Config | KeyPrefix

  function Spell(flag: Flag): string {
    match flag
    case RecordFile => "--record-file"
    case PolicyFile => "--policy-file"
    case ActionJson => "--action-json"
    case Wait => "--wait"
    case Reason => "--reason"
    case DrainTimeoutMs => "--drain-timeout-ms"
    case StateRoot => "--state-root"
    case Instance => "--instance"
    case IntervalMs => "--interval-ms"
    case Expect => "--expect"
    case MaxFrames => "--max-frames"
    case Package => "--package"
    case RecoveryPackage => "--recovery-package"
    case Recover => "--recover"
    case Device => "--device"
    case To => "--to"
    case WaitS => "--wait-s"
    case Program => "--program"
    case Config => "--config"
    case KeyPrefix => "--key-prefix"
  }

  lemma SpellIsInjective(flag: Flag, other: Flag)
    ensures Spell(flag) == Spell(other) ==> flag == other
  {
    if Spell(flag) == Spell(other) {
      assert |Spell(flag)| == |Spell(other)| && Spell(flag)[2] == Spell(other)[2] && Spell(flag)[3] == Spell(other)[3];
    }
  }

  // ----- Values

  /** An install transition's action, as far as the parser looks at it. */
  datatype Action = Action(commitsShutdown: bool, id: nat)

  /** What the contract's own constructors accept. */
  datatype Contract = Contract(
    action: string -> Option<Action>,
    reasonIsValid: string -> bool,
    policyIsValid: (nat, string, bool) -> bool,
    sequenceIsValid: (nat, nat) -> bool,
    changesAreValid: (string, seq<string>) -> bool)

  datatype Value = Path(word: Word) | Words(text: string) | Number(number: nat) | Act(action: Action) | On

  /** The parser's local variables that were assigned. */
  type Variables = map<Flag, Value>

  const MAX_WAIT_SECONDS: nat := 3600
  const MIN_DRAIN_TIMEOUT_MS: nat := 1_000
  const MAX_DRAIN_TIMEOUT_MS: nat := 600_000
  const U16_MAX: nat := 65_535

  /** The Unicode white space characters. */
  predicate White(c: char) {
    || '\U{0009}' <= c <= '\U{000D}' || '\U{2000}' <= c <= '\U{200A}'
    || c in {' ', '\U{0085}', '\U{00A0}', '\U{1680}', '\U{2028}', '\U{2029}', '\U{202F}', '\U{205F}', '\U{3000}'}
  }

  /** `text.trim().is_empty()`. */
  predicate Blank(text: string) { forall i :: 0 <= i < |text| ==> White(text[i]) }

  /** The variable a flag assigns: both spellings of the wait assign one. */
  function Variable(flag: Flag): Flag { if flag == WaitS then Wait else flag }

  predicate IsSwitch(flag: Flag) { flag.Recover? || flag.Device? || flag.Program? || flag.Config? }

  predicate IsPath(flag: Flag) { flag.RecordFile? || flag.PolicyFile? || flag.StateRoot? || flag.Package? || flag.RecoveryPackage? }

  function NumberIn(text: string, low: nat, high: nat): Result<Value, Problem> {
    match Parse(text, Decimal)
    case Some(n) => if low <= n <= high then Ok(Number(n)) else Err(Usage)
    case None => Err(Usage)
  }

  function TextValue(contract: Contract, flag: Flag, text: string): Result<Value, Problem> {
    match flag
    case ActionJson => (match contract.action(text) case Some(action) => Ok(Act(action)) case None => Err(Usage))
    case Wait => NumberIn(text, 1, MAX_WAIT_SECONDS)
    case WaitS => NumberIn(text, 1, MAX_WAIT_SECONDS)
    case Reason => if contract.reasonIsValid(text) then Ok(Words(text)) else Err(Usage)
    case DrainTimeoutMs => NumberIn(text, MIN_DRAIN_TIMEOUT_MS, MAX_DRAIN_TIMEOUT_MS)
    case Instance => if Blank(text) then Err(Usage) else Ok(Words(text))
    case IntervalMs => NumberIn(text, 0, U64_MAX)
    case MaxFrames => NumberIn(text, 0, U16_MAX)
    case KeyPrefix => if text == "" then Err(Argument(Spell(KeyPrefix), ValueMissing)) else Ok(Words(text))
    case _ => Ok(Words(text))
  }

  /** The value a flag's word stands for: a path may be any word, everything else is text. */
  function ValueOf(contract: Contract, flag: Flag, word: Word): Result<Value, Problem> {
    if IsPath(flag) then Ok(Path(word)) else
    match word
    case Raw(_) => Err(Usage)
    case Text(text) => TextValue(contract, flag, text)
  }

  function FlagArms(contract: Contract): Arms<Flag, Value> {
    Arms(f => Spell(f), f => IsSwitch(f), f => Variable(f), On, (f, w) => ValueOf(contract, f, w))
  }

  lemma SpellingsAreDistinct(contract: Contract)
    ensures DistinctSpellings(FlagArms(contract))
  {
    forall f, g ensures FlagArms(contract).spell(f) == FlagArms(contract).spell(g) ==> f == g {
      SpellIsInjective(f, g);
    }
  }

  // ----- The subcommands

  datatype Subcommand =
    | AgentPublishFacts | AgentApplyResourceTargets | TaskOffset | RequestShutdown | InstallTransition | Reset | Observe
    | Status | Config | Facts | MonitorStatus | PerfStatus | FactRefresh | Schedule | MonitorSet | MonitorClear | Emulator
    | Pause | Resume | SelfCheck | LadderDrill | AgentWakeTest | Stream | TaskRun

  const START: string := "start"
  const STOP: string := "stop"
  const RESTART: string := "restart"
  const STATUS: string := "status"
  const DISCOVER: string := "discover"

  predicate IsControl(action: string) { action == START || action == STOP || action == RESTART }

  /** `flags_of`; `action` is the emulator's. */
  function Takes(subcommand: Subcommand, action: string): seq<Flag> {
    match subcommand
    case AgentPublishFacts => [StateRoot, RecordFile]
    case AgentApplyResourceTargets => [StateRoot, PolicyFile]
    case Config => [StateRoot]
    case MonitorStatus => [StateRoot]
    case SelfCheck => [StateRoot]
    case Emulator =>
      if action == DISCOVER then [StateRoot] else if IsControl(action) then [StateRoot, Instance, Wait] else [StateRoot, Instance]
    case TaskOffset => [StateRoot, Instance]
    case Observe => [StateRoot, Instance]
    case Reset => [StateRoot, Instance]
    case MonitorClear => [StateRoot, Instance]
    case Resume => [StateRoot, Instance]
    case RequestShutdown => [StateRoot, Wait]
    case InstallTransition => [StateRoot, ActionJson, Wait]
    case Status => [StateRoot, Flag.Config]
    case PerfStatus => [StateRoot, Instance]
    case FactRefresh => [StateRoot, Instance]
    case Schedule => [StateRoot, Instance]
    case Facts => [StateRoot, Program, Instance, KeyPrefix]
    case LadderDrill => [StateRoot, Instance, Device]
    case AgentWakeTest => [StateRoot, To, Instance, WaitS]
    case MonitorSet => [StateRoot, Instance, IntervalMs, Expect, Recover]
    case Pause => [StateRoot, Instance, Reason, DrainTimeoutMs]
    case Stream => [StateRoot, Instance, MaxFrames, IntervalMs]
    case TaskRun => [StateRoot, Instance, Package, RecoveryPackage, Wait]
  }

  predicate DistinctFlags(takes: seq<Flag>) {
    forall i, j :: 0 <= i < j < |takes| ==> takes[i] != takes[j]
  }

  /** No subcommand lists a flag twice, or two flags for one variable. */
  lemma ListsAreSound(contract: Contract, subcommand: Subcommand, action: string)
    ensures DistinctFlags(Takes(subcommand, action))
    ensures OneFlagPerVariable(FlagArms(contract), Takes(subcommand, action))
  {
    var takes := Takes(subcommand, action);
    assert !(Wait in takes && WaitS in takes);
  }

  // ----- The words before the flags

  datatype Positionals =
    NoPositionals | TaskAndOffset(taskId: string, offsetMilli: int) | Changes(change: string, items: seq<string>)
    | EmulatorAction(action: string) | Alias(alias: string)

  const I64_LIMIT: int := 0x8000_0000_0000_0000

  predicate I64(n: int) { -I64_LIMIT <= n < I64_LIMIT }

  /** `str::parse::<i64>`. */
  function ParseI64(text: string): Option<int> {
    if text != [] && text[0] == '-' then
      if |text| == 1 then None else
      match Numerals.Value(text[1..], Decimal)
      case Some(n) => if I64(0 - n) then Some(0 - n) else None
      case None => None
    else
      match Parse(text, Decimal)
      case Some(n) => if I64(n) then Some(n) else None
      case None => None
  }

  lemma NegativeText(digits: string, n: nat)
    requires digits != [] && Numerals.Value(digits, Decimal) == Some(n) && I64(0 - n)
    ensures ParseI64("-" + digits) == Some(0 - n)
  {
    assert ("-" + digits)[1..] == digits;
  }

  lemma PositiveText(digits: string, n: nat)
    requires digits != [] && DigitValue(digits[0]).Some? && Parse(digits, Decimal) == Some(n) && I64(n)
    ensures ParseI64(digits) == Some(n)
  {
  }

  /** Every offset has a text. */
  lemma OffsetHasText(n: int) returns (text: string)
    requires I64(n)
    ensures ParseI64(text) == Some(n)
  {
    if n < 0 {
      var digits := Print(0 - n, Decimal);
      ValueOfPrint(0 - n, Decimal);
      NegativeText(digits, 0 - n);
      text := "-" + digits;
    } else {
      text := Print(n, Decimal);
      ParseOfPrint(n, Decimal);
      PrintStartsWithDigit(n, Decimal);
      PositiveText(text, n);
    }
  }

  predicate LooksLikeFlag(text: string) { |text| >= 2 && text[0] == '-' && text[1] == '-' }

  /** The items of `config`: the words before the first that looks like a flag or is not text. */
  function ItemsOf(words: seq<Word>): (items: seq<string>)
    ensures |items| <= |words|
  {
    if words == [] || words[0].Raw? || LooksLikeFlag(words[0].text) then [] else [words[0].text] + ItemsOf(words[1..])
  }

  /** The words after the subcommand's own, up to its flags, and how many they are. */
  function Before(subcommand: Subcommand, words: seq<Word>): (r: Result<(Positionals, nat), Problem>)
    ensures r.Ok? ==> r.value.1 <= |words|
  {
    match subcommand
    case Config =>
      if words == [] || words[0].Raw? then Err(Usage)
      else Ok((Changes(words[0].text, ItemsOf(words[1..])), 1 + |ItemsOf(words[1..])|))
    case Emulator =>
      if words == [] || words[0].Raw? then Err(Usage) else Ok((EmulatorAction(words[0].text), 1))
    case TaskOffset =>
      if |words| < 2 || words[0].Raw? || LooksLikeFlag(words[0].text) || words[1].Raw? || ParseI64(words[1].text).None? then Err(Usage)
      else Ok((TaskAndOffset(words[0].text, ParseI64(words[1].text).value), 2))
    case SelfCheck =>
      if words == [] || words[0].Raw? || LooksLikeFlag(words[0].text) || Blank(words[0].text) then Err(Usage)
      else Ok((Alias(words[0].text), 1))
    case _ => Ok((NoPositionals, 0))
  }

  function ActionOf(positionals: Positionals): string {
    if positionals.EmulatorAction? then positionals.action else ""
  }

  // ----- The invocation

  datatype Control = Start | Stop | Restart

  datatype Command =
    | AgentPublishFacts(recordFile: Word) | AgentApplyResourceTargets(policyFile: Word)
    | TaskOffset(taskId: string, offsetMilli: int) | RequestShutdown | InstallTransition(action: Action) | Reset | Observe
    | StatusConfig | Status | ConfigureSettings(change: string, items: seq<string>)
    | ProgramFacts(keyPrefix: Option<string>) | InstanceFacts(keyPrefix: Option<string>)
    | MonitorStatus | PerformanceStatus | FactRefreshStatus | ScheduleExplanation
    | MonitorSet(intervalMs: nat, expectedPage: string, recoveryEnabled: bool) | MonitorClear
    | EmulatorStatus | EmulatorControl(control: Control) | EmulatorDiscover
    | Pause(reason: string, drainTimeoutMs: nat) | Resume | SelfCheck(alias: string) | LadderDrill(device: bool)
    | AgentWakeTest(to: string, wait: Option<nat>) | Stream(frameCount: nat, intervalMs: nat)
    | TaskRun(package: Word, recoveryPackage: Option<Word>)

  datatype Invocation = Invocation(stateRoot: Word, instance: Option<string>, wait: Option<nat>, command: Command)

  const DEFAULT_PAUSE_REASON: string := "operator"
  const DEFAULT_DRAIN_TIMEOUT_MS: nat := 60_000
  const DEFAULT_MONITOR_INTERVAL_MS: nat := 30_000
  const DEFAULT_PAGE: string := "home"
  const DEFAULT_FRAMES: nat := 1
  const DEFAULT_FRAME_INTERVAL_MS: nat := 250

  function PathIn(variables: Variables, flag: Flag): Option<Word> {
    if flag in variables && variables[flag].Path? then Some(variables[flag].word) else None
  }

  function TextIn(variables: Variables, flag: Flag): Option<string> {
    if flag in variables && variables[flag].Words? then Some(variables[flag].text) else None
  }

  function NumberOf(variables: Variables, flag: Flag): Option<nat> {
    if flag in variables && variables[flag].Number? then Some(variables[flag].number) else None
  }

  function Or<T>(value: Option<T>, default: T): T {
    if value.Some? then value.value else default
  }

  function Checked(holds: bool, command: Command): Result<Command, Problem> {
    if holds then Ok(command) else Err(Usage)
  }

  function TransitionCommand(variables: Variables): Result<Command, Problem> {
    if ActionJson in variables && variables[ActionJson].Act? then
      var action := variables[ActionJson].action;
      Checked(Wait in variables ==> action.commitsShutdown, Command.InstallTransition(action))
    else Err(Usage)
  }

  function FactsCommand(variables: Variables): Result<Command, Problem> {
    match (Program in variables, Instance in variables)
    case (true, false) => Ok(ProgramFacts(TextIn(variables, KeyPrefix)))
    case (false, true) => Ok(InstanceFacts(TextIn(variables, KeyPrefix)))
    case (true, true) => Err(Argument(Spell(Instance), Conflicting))
    case (false, false) => Err(Usage)
  }

  function EmulatorCommand(action: string): Result<Command, Problem> {
    if action == STATUS then Ok(EmulatorStatus)
    else if action == START then Ok(EmulatorControl(Start))
    else if action == STOP then Ok(EmulatorControl(Stop))
    else if action == RESTART then Ok(EmulatorControl(Restart))
    else if action == DISCOVER then Ok(EmulatorDiscover)
    else Err(Usage)
  }

  function MonitorCommand(contract: Contract, variables: Variables): Result<Command, Problem> {
    var interval := Or(NumberOf(variables, IntervalMs), DEFAULT_MONITOR_INTERVAL_MS);
    var page := Or(TextIn(variables, Expect), DEFAULT_PAGE);
    Checked(contract.policyIsValid(interval, page, Recover in variables), Command.MonitorSet(interval, page, Recover in variables))
  }

  function PauseCommand(contract: Contract, variables: Variables): Result<Command, Problem> {
    var reason := Or(TextIn(variables, Reason), DEFAULT_PAUSE_REASON);
    Checked(Reason in variables || contract.reasonIsValid(DEFAULT_PAUSE_REASON),
            Command.Pause(reason, Or(NumberOf(variables, DrainTimeoutMs), DEFAULT_DRAIN_TIMEOUT_MS)))
  }

  function StreamCommand(contract: Contract, variables: Variables): Result<Command, Problem> {
    var frames := Or(NumberOf(variables, MaxFrames), DEFAULT_FRAMES);
    var interval := Or(NumberOf(variables, IntervalMs), DEFAULT_FRAME_INTERVAL_MS);
    Checked(contract.sequenceIsValid(frames, interval), Command.Stream(frames, interval))
  }

  /** The command of a subcommand, from the words before its flags and its flags' variables. */
  function Build(contract: Contract, subcommand: Subcommand, before: Positionals, variables: Variables): Result<Command, Problem> {
    match subcommand
    case AgentPublishFacts =>
      if PathIn(variables, RecordFile).None? then Err(Usage) else Ok(Command.AgentPublishFacts(PathIn(variables, RecordFile).value))
    case AgentApplyResourceTargets =>
      if PathIn(variables, PolicyFile).None? then Err(Usage)
      else Ok(Command.AgentApplyResourceTargets(PathIn(variables, PolicyFile).value))
    case TaskOffset => if before.TaskAndOffset? then Ok(Command.TaskOffset(before.taskId, before.offsetMilli)) else Err(Usage)
    case RequestShutdown => Ok(Command.RequestShutdown)
    case InstallTransition => TransitionCommand(variables)
    case Reset => Ok(Command.Reset)
    case Observe => Ok(Command.Observe)
    case Status => Ok(if Flag.Config in variables then Command.StatusConfig else Command.Status)
    case Config =>
      if before.Changes? then
        Checked(contract.changesAreValid(before.change, before.items), ConfigureSettings(before.change, before.items))
      else Err(Usage)
    case Facts => FactsCommand(variables)
    case MonitorStatus => Ok(Command.MonitorStatus)
    case PerfStatus => Ok(PerformanceStatus)
    case FactRefresh => Ok(FactRefreshStatus)
    case Schedule => Ok(ScheduleExplanation)
    case MonitorSet => MonitorCommand(contract, variables)
    case MonitorClear => Ok(Command.MonitorClear)
    case Emulator => EmulatorCommand(ActionOf(before))
    case Pause => PauseCommand(contract, variables)
    case Resume => Ok(Command.Resume)
    case SelfCheck => if before.Alias? then Ok(Command.SelfCheck(before.alias)) else Err(Usage)
    case LadderDrill => Ok(Command.LadderDrill(Device in variables))
    case AgentWakeTest =>
      if TextIn(variables, To).None? then Err(Usage)
      else Ok(Command.AgentWakeTest(TextIn(variables, To).value, NumberOf(variables, Wait)))
    case Stream => StreamCommand(contract, variables)
    case TaskRun =>
      if PathIn(variables, Package).None? then Err(Usage)
      else Ok(Command.TaskRun(PathIn(variables, Package).value, PathIn(variables, RecoveryPackage)))
  }

  predicate RequiresInstance(command: Command) {
    !(|| command.Status? || command.StatusConfig? || command.ConfigureSettings? || command.ProgramFacts? || command.MonitorStatus?
      || command.PerformanceStatus? || command.FactRefreshStatus? || command.ScheduleExplanation? || command.EmulatorDiscover?
      || command.RequestShutdown? || command.InstallTransition? || command.AgentPublishFacts? || command.AgentApplyResourceTargets?
      || command.SelfCheck? || command.AgentWakeTest?)
  }

  predicate InstanceIsOptional(command: Command) {
    || command.TaskOffset? || command.Pause? || command.Resume? || command.PerformanceStatus? || command.FactRefreshStatus?
    || command.ScheduleExplanation?
  }

  function Finished(contract: Contract, subcommand: Subcommand, before: Positionals,
                    variables: Variables): Result<Invocation, Problem> {
    if PathIn(variables, StateRoot).None? then Err(Usage) else
    match Build(contract, subcommand, before, variables)
    case Err(problem) => Err(problem)
    case Ok(command) =>
      if !InstanceIsOptional(command) && RequiresInstance(command) != TextIn(variables, Instance).Some? then Err(Usage)
      else Ok(Invocation(PathIn(variables, StateRoot).value, TextIn(variables, Instance), NumberOf(variables, Wait), command))
  }

  /** The words after the subcommand's own. */
  function Parsing(contract: Contract, subcommand: Subcommand, words: seq<Word>): Result<Invocation, Problem> {
    match Before(subcommand, words)
    case Err(problem) => Err(problem)
    case Ok(before) =>
      match Reading(FlagArms(contract), Takes(subcommand, ActionOf(before.0)), words[before.1..], [], map[])
      case Err(problem) => Err(problem)
      case Ok(variables) => Finished(contract, subcommand, before.0, variables)
  }

  /** The words give this flag this value. */
  predicate Gives(words: seq<Word>, flag: Flag, value: Word) {
    exists i :: 0 <= i < |words| - 1 && words[i] == Text(Spell(flag)) && words[i + 1] == value
  }

  lemma ReadWasGiven(contract: Contract, takes: seq<Flag>, words: seq<Word>, start: nat, flag: Flag)
    requires start <= |words| && Reading(FlagArms(contract), takes, words[start..], [], map[]).Ok?
    requires flag == StateRoot || flag == Instance
    ensures
      var variables := Reading(FlagArms(contract), takes, words[start..], [], map[]).value;
      && (PathIn(variables, flag).Some? ==> Gives(words, flag, PathIn(variables, flag).value))
      && (TextIn(variables, flag).Some? ==> Gives(words, flag, Text(TextIn(variables, flag).value)))
  {
    var arms, rest := FlagArms(contract), words[start..];
    var variables := Reading(arms, takes, rest, [], map[]).value;
    if flag in variables {
      ReadIsGiven(arms, takes, rest, [], map[], flag);
      var i :| GivenAt(arms, takes, rest, flag, variables[flag], i);
      assert words[start + i] == Text(Spell(flag)) && words[start + i + 1] == rest[i + 1];
    }
  }

  lemma ParsedIsGiven(contract: Contract, subcommand: Subcommand, words: seq<Word>)
    requires Parsing(contract, subcommand, words).Ok?
    ensures
      var invocation := Parsing(contract, subcommand, words).value;
      && Gives(words, StateRoot, invocation.stateRoot)
      && (invocation.instance.Some? ==> Gives(words, Instance, Text(invocation.instance.value)))
      && (!InstanceIsOptional(invocation.command) ==> (RequiresInstance(invocation.command) <==> invocation.instance.Some?))
  {
    var before := Before(subcommand, words).value;
    ReadWasGiven(contract, Takes(subcommand, ActionOf(before.0)), words, before.1, StateRoot);
    ReadWasGiven(contract, Takes(subcommand, ActionOf(before.0)), words, before.1, Instance);
  }

  /** `Invocation::parse`: an invocation has the state root and the instance its words give, and keeps the instance rule. */
  method ParseInvocation(contract: Contract, subcommand: Subcommand, words: seq<Word>) returns (r: Result<Invocation, Problem>)
    ensures r == Parsing(contract, subcommand, words)
    ensures r.Ok? ==> Gives(words, StateRoot, r.value.stateRoot)
    ensures r.Ok? && r.value.instance.Some? ==> Gives(words, Instance, Text(r.value.instance.value))
    ensures r.Ok? && !InstanceIsOptional(r.value.command) ==> (RequiresInstance(r.value.command) <==> r.value.instance.Some?)
  {
    var before := Before(subcommand, words);
    if before.Err? {
      return Err(before.error);
    }
    var takes := Takes(subcommand, ActionOf(before.value.0));
    var variables := ReadFlags(FlagArms(contract), takes, words, before.value.1);
    if variables.Err? {
      return Err(variables.error);
    }
    r := Finished(contract, subcommand, before.value.0, variables.value);
    if r.Ok? {
      ParsedIsGiven(contract, subcommand, words);
    }
  }
}
