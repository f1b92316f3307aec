/** The mutation pipeline of src/server.rs and its audit log as a step relation.

    Any number of attempts run at once over one shared append-only log. An attempt is screened,
    confirmed by a human when its tool is destructive, recorded as intended, sent upstream once
    and recorded again. Appending, asking, sending and answering are separate steps, and every
    append may fail. */
module MutationPipeline {
  import opened Wrappers
  import Text

  const MIN_JUSTIFICATION_LEN := 10

  // ------------------------------------------------------------------ configuration (src/cli.rs)

  datatype Tool = Response | DeviceResponse | Indicators | Triage

  /** What a mutating tool can be asked to do; `Unlisted` is any other action name. */
  datatype Action =
    | CollectPackage | RunLiveResponse | UploadFile | QuarantineFile | DeleteFile
    | Isolate | Unisolate | RestrictApps | UnrestrictApps | RunScan | StartInvestigation | CancelAction
    | AddTag | RemoveTag | SetDeviceValue | Offboard
    | SubmitIndicator | DeleteIndicator | DeleteIndicators
    | UpdateEndpointAlert | UpdateEndpointAlerts | CommentEndpointAlert | UpdateXdrAlert | CommentXdrAlert
    | UpdateIncident | CommentIncident
    | Unlisted(name: string)

  /** The fields of the mutating tools' inputs. */
  datatype Field =
    | MachineId | ActionId | Comment | IsolationType | ScanType | Tag | DeviceValue
    | Commands | FileName | FileContent | Description | ParametersDescription | OverrideIfExists | Sha1
    | IndicatorValue | IndicatorType | IndicatorAction | Title | Severity | ExpirationTime | RbacGroupNames
    | RecommendedActions | GenerateAlert | IndicatorId | IndicatorIds
    | Justification | Id | Ids | Status | AssignedTo | Classification | Determination | Tags

  datatype Categories = Categories(liveResponse: bool, deviceResponse: bool, offboarding: bool, indicators: bool,
      triage: bool)

  function FromFlags(readOnly: bool, liveResponse: bool, deviceResponse: bool, offboarding: bool, indicators: bool,
        triage: bool): Categories {
    if readOnly then Categories(false, false, false, false, false)
    else Categories(liveResponse, deviceResponse, offboarding && deviceResponse, indicators, triage)
  }

  predicate AnyEnabled(c: Categories) {
    c.liveResponse || c.deviceResponse || c.indicators || c.triage
  }

  predicate ToolEnabled(c: Categories, t: Tool) {
    match t
    case Response => c.liveResponse
    case DeviceResponse => c.deviceResponse
    case Indicators => c.indicators
    case Triage => c.triage
  }

  predicate Destructive(t: Tool) {
    !t.Triage?
  }

  datatype Config = Config(readOnly: bool, categories: Categories, confirmDestructive: bool, identity: string,
      hasSink: bool)

  // ------------------------------------------------------------------ records (src/audit.rs)

  datatype Phase = Intent | Outcome | Final

  datatype Confirmation = Accepted | Declined | Unavailable | TurnedOff | NotApplicable

  datatype RejectReason = ReadOnly | CategoryDisabled | Validation | ConfirmationUnavailable | AuditUnavailable

  datatype AuditResult =
    | Pending
    | Submitted(httpStatus: nat, trackingId: Option<string>, upstreamStatus: Option<string>)
    | UpstreamError(code: nat, message: string)
    | TransportError(message: string)
    | Rejected(reason: RejectReason)
    | NotConfirmed

  datatype Record = Record(
    attempt: nat,
    phase: Phase,
    tool: Tool,
    action: Action,
    targets: seq<string>,
    parameters: map<string, string>,
    justification: Option<string>,
    identity: string,
    confirmation: Confirmation,
    result: AuditResult)

  // ------------------------------------------------------------------ requests and answers

  /** What is wrong with a call: its action, a field it should not or should have, no change asked
      for, or a value that does not validate. */
  datatype Invalidity =
    | UnknownAction | Unused(field: Field) | Missing(field: Field) | NoChange | BadValue(message: string)

  datatype Request = Request(
    tool: Tool,
    action: Action,
    targets: seq<string>,
    parameters: map<string, string>,
    justification: Option<string>,
    invalid: Option<Invalidity>)

  /** What upstream answers, with the identifiers extracted from an accepted request. */
  datatype Upstream =
    | Responded(httpStatus: nat, body: string, trackingId: Option<string>, upstreamStatus: Option<string>)
    | Failed(httpError: Option<nat>, message: string)

  datatype ToolAnswer =
    | ReadOnlyViolation
    | CategoryOff
    | Invalid(reason: Invalidity)
    | JustificationTooShort
    | CannotConfirm
    | HumanDeclined
    | NoAudit
    | FromUpstream(upstream: Upstream)

  function ResultOf(u: Upstream): AuditResult {
    match u
    case Responded(status, _, tracking, upstream) => Submitted(status, tracking, upstream)
    case Failed(Some(status), message) => UpstreamError(status % 0x1_0000, message)
    case Failed(None, message) => TransportError(message)
  }

  // ------------------------------------------------------------------ stages

  datatype Pc =
    | Start
    | AskHuman
    | WriteIntent(confirmation: Confirmation)
    | Send(confirmation: Confirmation)
    | AwaitUpstream(confirmation: Confirmation)
    | WriteOutcome(confirmation: Confirmation, upstream: Upstream)
    | WriteFinal(record: Record, answer: ToolAnswer)
    | Done(result: ToolAnswer)

  datatype Attempt = Attempt(request: Request, pc: Pc)

  /** `sent` lists the attempts whose upstream request was made, `approved` those a human accepted. */
  datatype World = World(config: Config, attempts: map<nat, Attempt>, log: seq<Record>, sent: seq<nat>,
      approved: set<nat>)

  predicate ActionEnabled(c: Config, r: Request) {
    ToolEnabled(c.categories, r.tool) && (r.action.Offboard? ==> c.categories.offboarding)
  }

  predicate Justified(r: Request) {
    r.justification.Some? && |Text.Trim(r.justification.value)| >= MIN_JUSTIFICATION_LEN
  }

  function FinalRecord(c: Config, id: nat, r: Request, reason: RejectReason, confirmation: Confirmation): Record {
    Record(id, Final, r.tool, r.action, r.targets, r.parameters, r.justification, c.identity, confirmation,
        Rejected(reason))
  }

  function Trimmed(r: Request): Option<string> {
    if r.justification.Some? then Some(Text.Trim(r.justification.value)) else None
  }

  function DeclinedRecord(c: Config, id: nat, r: Request): Record {
    Record(id, Final, r.tool, r.action, r.targets, r.parameters, Trimmed(r), c.identity, Declined, NotConfirmed)
  }

  function IntentRecord(c: Config, id: nat, r: Request, confirmation: Confirmation): Record {
    Record(id, Intent, r.tool, r.action, r.targets, r.parameters, Trimmed(r), c.identity, confirmation, Pending)
  }

  function OutcomeRecord(c: Config, id: nat, r: Request, confirmation: Confirmation, u: Upstream): Record {
    Record(id, Outcome, r.tool, r.action, r.targets, r.parameters, Trimmed(r), c.identity, confirmation, ResultOf(u))
  }

  /** Stages 1 to 3, and whether stage 4 has to ask. */
  function Screen(c: Config, id: nat, r: Request): Pc {
    if c.readOnly then WriteFinal(FinalRecord(c, id, r, ReadOnly, NotApplicable), ReadOnlyViolation)
    else if !ActionEnabled(c, r) then WriteFinal(FinalRecord(c, id, r, CategoryDisabled, NotApplicable), CategoryOff)
    else if r.invalid.Some? then WriteFinal(FinalRecord(c, id, r, Validation, NotApplicable), Invalid(r.invalid.value))
    else if !Justified(r) then WriteFinal(FinalRecord(c, id, r, Validation, NotApplicable), JustificationTooShort)
    else if !Destructive(r.tool) then WriteIntent(NotApplicable)
    else if c.confirmDestructive then AskHuman
    else WriteIntent(TurnedOff)
  }

  function AfterHuman(c: Config, id: nat, r: Request, outcome: Confirmation): Pc {
    match outcome
    case Accepted => WriteIntent(Accepted)
    case Unavailable => WriteFinal(FinalRecord(c, id, r, ConfirmationUnavailable, Unavailable), CannotConfirm)
    case _ => WriteFinal(DeclinedRecord(c, id, r), HumanDeclined)
  }

  /** A mutating tool without a route is refused before its arguments are read. */
  function HiddenRequest(t: Tool): Request {
    Request(t, Unlisted(""), [], map[], None, None)
  }

  function HiddenPc(c: Config, id: nat, t: Tool): Pc {
    if c.readOnly then WriteFinal(FinalRecord(c, id, HiddenRequest(t), ReadOnly, NotApplicable), ReadOnlyViolation)
    else WriteFinal(FinalRecord(c, id, HiddenRequest(t), CategoryDisabled, NotApplicable), CategoryOff)
  }

  // ------------------------------------------------------------------ steps

  datatype Step =
    | Begin(id: nat, request: Request)
    | BeginHidden(id: nat, tool: Tool)
    | Proceed(id: nat)
    | Human(id: nat, outcome: Confirmation)
    | Append(id: nat, ok: bool)
    | Dispatch(id: nat)
    | Reply(id: nat, upstream: Upstream)

  predicate Writing(pc: Pc) {
    pc.WriteIntent? || pc.WriteOutcome? || pc.WriteFinal?
  }

  predicate Enabled(w: World, s: Step) {
    if s.Begin? then s.id !in w.attempts
    else if s.BeginHidden? then s.id !in w.attempts && !ToolEnabled(w.config.categories, s.tool)
    else
      && s.id in w.attempts
      && var pc := w.attempts[s.id].pc;
         match s
         case Proceed(_) => pc.Start? || (Writing(pc) && !w.config.hasSink)
         case Human(_, _) => pc.AskHuman?
         case Append(_, _) => Writing(pc) && w.config.hasSink
         case Dispatch(_) => pc.Send?
         case Reply(_, _) => pc.AwaitUpstream?
  }

  /** The record a writing stage hands to the sink. */
  function Pen(c: Config, id: nat, a: Attempt): Record
    requires Writing(a.pc)
  {
    match a.pc
    case WriteIntent(confirmation) => IntentRecord(c, id, a.request, confirmation)
    case WriteOutcome(confirmation, u) => OutcomeRecord(c, id, a.request, confirmation, u)
    case WriteFinal(record, _) => record
  }

  /** Where a writing stage goes: only the intent record is required to be written. */
  function AfterWriting(c: Config, id: nat, a: Attempt, written: bool): Pc
    requires Writing(a.pc)
  {
    match a.pc
    case WriteIntent(confirmation) =>
      if written then Send(confirmation)
      else if c.hasSink then WriteFinal(FinalRecord(c, id, a.request, AuditUnavailable, confirmation), NoAudit)
      else Done(NoAudit)
    case WriteOutcome(_, u) => Done(FromUpstream(u))
    case WriteFinal(_, answer) => Done(answer)
  }

  function Goto(w: World, id: nat, pc: Pc): World
    requires id in w.attempts
  {
    w.(attempts := w.attempts[id := w.attempts[id].(pc := pc)])
  }

  function Apply(w: World, s: Step): World
    requires Enabled(w, s)
  {
    match s
    case Begin(id, r) => w.(attempts := w.attempts[id := Attempt(r, Start)])
    case BeginHidden(id, t) => w.(attempts := w.attempts[id := Attempt(HiddenRequest(t), HiddenPc(w.config, id, t))])
    case Proceed(id) =>
      var a := w.attempts[id];
      if a.pc.Start? then Goto(w, id, Screen(w.config, id, a.request))
      else Goto(w, id, AfterWriting(w.config, id, a, false))
    case Human(id, outcome) =>
      var w' := if outcome.Accepted? then w.(approved := w.approved + {id}) else w;
      Goto(w', id, AfterHuman(w.config, id, w.attempts[id].request, outcome))
    case Append(id, ok) =>
      var a := w.attempts[id];
      var w' := if ok then w.(log := w.log + [Pen(w.config, id, a)]) else w;
      Goto(w', id, AfterWriting(w.config, id, a, ok))
    case Dispatch(id) => Goto(w.(sent := w.sent + [id]), id, AwaitUpstream(w.attempts[id].pc.confirmation))
    case Reply(id, u) => Goto(w, id, WriteOutcome(w.attempts[id].pc.confirmation, u))
  }

  ghost predicate Reaches(w: World, steps: seq<Step>, w': World)
    decreases |steps|
  {
    if steps == [] then w == w'
    else Enabled(w, steps[0]) && Reaches(Apply(w, steps[0]), steps[1..], w')
  }

  /** A server that has handled nothing. */
  function Idle(c: Config): World {
    World(c, map[], [], [], {})
  }

  ghost predicate Reachable(w: World) {
    exists steps :: Reaches(Idle(w.config), steps, w)
  }

  /** What the process start-up builds: categories from the flags, and a sink whenever a category
      is enabled or the log path was given. */
  function BuildConfig(readOnly: bool, live: bool, device: bool, offboarding: bool, indicators: bool, triage: bool,
                       confirmDestructive: bool, explicitLogPath: bool, identity: string): Config
  {
    var categories := FromFlags(readOnly, live, device, offboarding, indicators, triage);
    Config(readOnly, categories, confirmDestructive, identity, AnyEnabled(categories) || explicitLogPath)
  }

  /** The records of one attempt, in log order. */
  function Project(log: seq<Record>, id: nat): seq<Record> {
    if log == [] then []
    else
      var n := |log| - 1;
      Project(log[..n], id) + (if log[n].attempt == id then [log[n]] else [])
  }
}
