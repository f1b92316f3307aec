/** The handlers of the mutating tools in src/server.rs: which actions a tool knows, what a handler
    rejects before the pipeline, and what it passes on. */
module MutationHandlers {
  import opened Wrappers
  import opened MutationPipeline
  import opened MutationTheorems

  // ------------------------------------------------------------------ actions

  /** The tool whose list of actions names this one. */
  function ToolOf(a: Action): Option<Tool> {
    match a
    case CollectPackage | RunLiveResponse | UploadFile | QuarantineFile | DeleteFile => Some(Response)
    case Isolate | Unisolate | RestrictApps | UnrestrictApps | RunScan | StartInvestigation | CancelAction
       | AddTag | RemoveTag | SetDeviceValue | Offboard => Some(DeviceResponse)
    case SubmitIndicator | DeleteIndicator | DeleteIndicators => Some(Indicators)
    case UpdateEndpointAlert | UpdateEndpointAlerts | CommentEndpointAlert | UpdateXdrAlert | CommentXdrAlert
       | UpdateIncident | CommentIncident => Some(Triage)
    case Unlisted(_) => None
  }

  /** Offboarding is listed only when its category is enabled. */
  predicate Known(c: Config, tool: Tool, a: Action) {
    ToolOf(a) == Some(tool) && (a.Offboard? ==> c.categories.offboarding)
  }

  // ------------------------------------------------------------------ fields

  /** A call's action and the fields it has. */
  datatype Input = Input(action: Action, fields: map<Field, string>)

  function FirstPresent(fields: seq<Field>, given: map<Field, string>): (f: Option<Field>)
    ensures f.Some? ==> f.value in fields && f.value in given
    ensures f.None? ==> forall g :: g in fields ==> g !in given
  {
    if fields == [] then None else if fields[0] in given then Some(fields[0]) else FirstPresent(fields[1..], given)
  }

  function FirstAbsent(fields: seq<Field>, given: map<Field, string>): (f: Option<Field>)
    ensures f.Some? ==> f.value in fields && f.value !in given
    ensures f.None? ==> forall g :: g in fields ==> g in given
  {
    if fields == [] then None else if fields[0] !in given then Some(fields[0]) else FirstAbsent(fields[1..], given)
  }

  /** How a handler treats an action's fields, in the order in which it looks: those the action does
      not use, whether one of them is a protocol error, those of which an update needs one, and those
      it requires. */
  datatype Handling = Handling(unused: seq<Field>, strict: bool, changes: seq<Field>, required: seq<Field>)

  const ALERT_CHANGES := [Status, AssignedTo, Classification]
  const NOT_IN_COMMENTS := [Ids, Status, AssignedTo, Classification, Determination, Tags]
  const INDICATOR_FIELDS := [
    IndicatorValue, IndicatorType, IndicatorAction, Title, Description, Severity, ExpirationTime,
    RbacGroupNames, RecommendedActions, GenerateAlert
  ]

  function HandlingOf(a: Action): Handling {
    match a
    case CollectPackage => Handling([], false, [], [MachineId])
    case QuarantineFile => Handling([], false, [], [MachineId, Sha1])
    case RunLiveResponse =>
      Handling([FileName, FileContent, Description, ParametersDescription, OverrideIfExists, Sha1], true, [],
               [MachineId, Commands, Comment])
    case UploadFile => Handling([MachineId, Commands, Sha1], true, [], [FileName, FileContent, Description])
    case DeleteFile =>
      Handling([MachineId, Sha1, Commands, FileContent, Description, ParametersDescription, OverrideIfExists], true, [],
               [FileName])
    case Isolate => Handling([ActionId, ScanType, Tag, DeviceValue], false, [], [MachineId])
    case Unisolate | RestrictApps | UnrestrictApps | StartInvestigation | Offboard =>
      Handling([ActionId, IsolationType, ScanType, Tag, DeviceValue], false, [], [MachineId])
    case RunScan => Handling([ActionId, IsolationType, Tag, DeviceValue], false, [], [MachineId, ScanType])
    case CancelAction => Handling([MachineId, IsolationType, ScanType, Tag, DeviceValue], false, [], [ActionId])
    case AddTag | RemoveTag => Handling([ActionId, IsolationType, ScanType, DeviceValue], false, [], [MachineId, Tag])
    case SetDeviceValue => Handling([ActionId, IsolationType, ScanType, Tag], false, [], [MachineId, DeviceValue])
    case SubmitIndicator =>
      Handling([IndicatorId, IndicatorIds], false, [],
               [Title, Description, IndicatorValue, IndicatorType, IndicatorAction])
    case DeleteIndicator => Handling(INDICATOR_FIELDS + [IndicatorIds], false, [], [IndicatorId])
    case DeleteIndicators => Handling([IndicatorId] + INDICATOR_FIELDS, false, [], [IndicatorIds])
    case UpdateEndpointAlert => Handling([Ids, Tags], false, ALERT_CHANGES + [Comment], [Id])
    case UpdateEndpointAlerts => Handling([Id, Tags], false, ALERT_CHANGES + [Comment], [Ids])
    case UpdateXdrAlert => Handling([Ids, Tags, Comment], false, ALERT_CHANGES, [Id])
    case UpdateIncident => Handling([Ids, Comment], false, ALERT_CHANGES + [Tags], [Id])
    case CommentEndpointAlert | CommentXdrAlert | CommentIncident => Handling(NOT_IN_COMMENTS, false, [], [Comment, Id])
    case Unlisted(_) => Handling([], false, [], [])
  }

  // ------------------------------------------------------------------ requests

  /** What the validators make of a call's values: the targets and parameters to record, the first
      value that does not validate, and the description of an upload. */
  datatype Details = Details(targets: seq<string>, parameters: map<string, string>, invalid: Option<string>,
      description: string)

  function Lookup(given: map<Field, string>, f: Field): Option<string> {
    if f in given then Some(given[f]) else None
  }

  /** The field that gives the reason for a call. */
  function Reason(tool: Tool, input: Input): Option<string> {
    Lookup(input.fields, if tool.Triage? then Justification else Comment)
  }

  /** A request that is only there to be rejected and recorded. */
  function Rejection(tool: Tool, input: Input, invalidity: Invalidity): Request {
    Request(tool, input.action, [], map[], Reason(tool, input), Some(invalidity))
  }

  function Built(tool: Tool, input: Input, details: Details): Request {
    var reason := Reason(tool, input);
    var justification :=
      if tool.Triage? || reason.Some? then reason
      else Some(if input.action.UploadFile? then details.description else "");
    Request(tool, input.action, details.targets, details.parameters, justification,
            if details.invalid.Some? then Some(BadValue(details.invalid.value)) else None)
  }

  /** What a handler does with a call: the request it passes on, or the protocol error it returns. */
  function Handle(c: Config, tool: Tool, input: Input, details: Details): Result<Request, Invalidity> {
    if !Known(c, tool, input.action) then Err(UnknownAction)
    else
      var handling := HandlingOf(input.action);
      var unused := FirstPresent(handling.unused, input.fields);
      var missing := FirstAbsent(handling.required, input.fields);
      if unused.Some? then
        if handling.strict then Err(Unused(unused.value)) else Ok(Rejection(tool, input, Unused(unused.value)))
      else if handling.changes != [] && FirstPresent(handling.changes, input.fields).None? then
        Ok(Rejection(tool, input, NoChange))
      else if missing.Some? then Err(Missing(missing.value))
      else Ok(Built(tool, input, details))
  }

  /** The reason the wrapper records when the handler returned an error. */
  function WrapperJustification(tool: Tool, input: Input): Option<string> {
    if tool.Response? && input.action.UploadFile? then Lookup(input.fields, Description) else Reason(tool, input)
  }

  /** The request a call of a known action attempts: its handler's, or one that carries the handler's
      error. */
  function RequestFor(c: Config, tool: Tool, input: Input, details: Details): Request {
    match Handle(c, tool, input, details)
    case Ok(req) => req
    case Err(e) => Request(tool, input.action, [], map[], WrapperJustification(tool, input), Some(e))
  }

  // ------------------------------------------------------------------ what follows

  predicate HasAny(fields: seq<Field>, given: map<Field, string>) {
    exists i :: 0 <= i < |fields| && fields[i] in given
  }

  predicate HasAll(fields: seq<Field>, given: map<Field, string>) {
    forall i :: 0 <= i < |fields| ==> fields[i] in given
  }

  lemma PresentAndAbsent(fields: seq<Field>, given: map<Field, string>)
    ensures FirstPresent(fields, given).Some? <==> HasAny(fields, given)
    ensures FirstAbsent(fields, given).None? <==> HasAll(fields, given)
  {
  }

  /** A handler returns a protocol error exactly for an unknown action, a field that a strict action
      does not use, or a required field that is missing where nothing else is to be recorded. */
  lemma HandlerErrsExactly(c: Config, tool: Tool, input: Input, details: Details)
    ensures var h, given := HandlingOf(input.action), input.fields;
      Handle(c, tool, input, details).Err? <==>
      || !Known(c, tool, input.action)
      || (h.strict && HasAny(h.unused, given))
      || (!HasAny(h.unused, given) && (h.changes == [] || HasAny(h.changes, given)) && !HasAll(h.required, given))
  {
    var h := HandlingOf(input.action);
    PresentAndAbsent(h.unused, input.fields);
    PresentAndAbsent(h.changes, input.fields);
    PresentAndAbsent(h.required, input.fields);
  }

  /** Offboarding is known exactly when its category is enabled. */
  lemma OffboardIsKnown(c: Config)
    ensures Known(c, DeviceResponse, Offboard) <==> c.categories.offboarding
  {
  }

  /** A known action of a routed tool is enabled, so stage 2 of the pipeline never stops it. */
  lemma KnownIsEnabled(c: Config, tool: Tool, input: Input, details: Details)
    requires Known(c, tool, input.action)
    ensures var req := RequestFor(c, tool, input, details);
      && req.tool == tool && req.action == input.action
      && (ActionEnabled(c, req) <==> ToolEnabled(c.categories, tool))
  {
  }

  /** So no record of such a call says that its category is disabled, offboarding included. */
  lemma KnownLeavesNoCategoryRecord(w: World, id: nat, tool: Tool, input: Input, details: Details)
    requires Reachable(w) && id in w.attempts && w.attempts[id].request == RequestFor(w.config, tool, input, details)
    requires Known(w.config, tool, input.action) && ToolEnabled(w.config.categories, tool)
    ensures forall r :: r in Project(w.log, id) ==> r.result != Rejected(CategoryDisabled)
  {
    KnownIsEnabled(w.config, tool, input, details);
    EnabledIsNotRefused(w, id);
  }

  // ------------------------------------------------------------------ actions and fields, field by field

  predicate IsDevice(a: Action) {
    || a.Isolate? || a.Unisolate? || a.RestrictApps? || a.UnrestrictApps? || a.RunScan? || a.StartInvestigation?
    || a.CancelAction? || a.AddTag? || a.RemoveTag? || a.SetDeviceValue? || a.Offboard?
  }

  predicate IsUpdate(a: Action) {
    a.UpdateEndpointAlert? || a.UpdateEndpointAlerts? || a.UpdateXdrAlert? || a.UpdateIncident?
  }

  predicate IsComment(a: Action) {
    a.CommentEndpointAlert? || a.CommentXdrAlert? || a.CommentIncident?
  }

  predicate IsDeletion(a: Action) {
    a.DeleteIndicator? || a.DeleteIndicators?
  }

  /** Which actions each tool knows. */
  lemma KnownExactly(c: Config, a: Action)
    ensures Known(c, Response, a) <==>
              a.CollectPackage? || a.RunLiveResponse? || a.UploadFile? || a.QuarantineFile? || a.DeleteFile?
    ensures Known(c, DeviceResponse, a) <==> IsDevice(a) && (a.Offboard? ==> c.categories.offboarding)
    ensures Known(c, Indicators, a) <==> a.SubmitIndicator? || IsDeletion(a)
    ensures Known(c, Triage, a) <==> IsUpdate(a) || IsComment(a)
  {
  }

  /** Whether a field is needed or rejected, as a handler has it. */
  predicate Needs(a: Action, f: Field) {
    f in HandlingOf(a).required
  }

  predicate Rejects(a: Action, f: Field) {
    f in HandlingOf(a).unused
  }

  /** How many fields an action needs and rejects. */
  predicate Counts(a: Action, needed: nat, rejected: nat) {
    |HandlingOf(a).required| == needed && |HandlingOf(a).unused| == rejected
  }

  /** A device action needs its machine, a cancellation the action it cancels, and whatever it sets;
      it rejects what only other device actions use. */
  lemma DeviceFields(a: Action)
    requires IsDevice(a)
    ensures if a.CancelAction? then Needs(a, ActionId) && Rejects(a, MachineId)
            else Needs(a, MachineId) && Rejects(a, ActionId)
    ensures !a.Isolate? ==> Rejects(a, IsolationType)
    ensures if a.RunScan? then Needs(a, ScanType) else Rejects(a, ScanType)
    ensures if a.AddTag? || a.RemoveTag? then Needs(a, Tag) else Rejects(a, Tag)
    ensures if a.SetDeviceValue? then Needs(a, DeviceValue) else Rejects(a, DeviceValue)
    ensures if a.RunScan? || a.AddTag? || a.RemoveTag? || a.SetDeviceValue? then Counts(a, 2, 4)
            else Counts(a, 1, if a.Isolate? then 4 else 5)
  {
  }

  /** An update needs its alert or incident, or its alerts, and one change. */
  lemma UpdateFields(a: Action)
    requires IsUpdate(a)
    ensures if a.UpdateEndpointAlerts? then Needs(a, Ids) && Rejects(a, Id) else Needs(a, Id) && Rejects(a, Ids)
    ensures a.UpdateXdrAlert? || a.UpdateIncident? ==> Rejects(a, Comment)
    ensures !a.UpdateIncident? ==> Rejects(a, Tags)
    ensures Counts(a, 1, if a.UpdateXdrAlert? then 3 else 2)
    ensures var changes := HandlingOf(a).changes;
      && Status in changes && AssignedTo in changes && Classification in changes
      && (a.UpdateIncident? ==> Tags in changes)
      && (a.UpdateEndpointAlert? || a.UpdateEndpointAlerts? ==> Comment in changes)
      && |changes| == if a.UpdateXdrAlert? then 3 else 4
  {
  }

  /** A comment needs its text and what it is about, and changes nothing. */
  lemma CommentFields(a: Action)
    requires IsComment(a)
    ensures Needs(a, Comment) && Needs(a, Id) && Counts(a, 2, 6) && HandlingOf(a).changes == []
    ensures Rejects(a, Ids) && Rejects(a, Status) && Rejects(a, AssignedTo) && Rejects(a, Classification)
    ensures Rejects(a, Determination) && Rejects(a, Tags)
  {
  }

  /** A submission needs an indicator's parts, a deletion one id or several and nothing of the parts. */
  lemma IndicatorFields(a: Action)
    requires a.SubmitIndicator? || IsDeletion(a)
    ensures a.SubmitIndicator? ==>
              && Needs(a, Title) && Needs(a, Description) && Needs(a, IndicatorValue) && Needs(a, IndicatorType)
              && Needs(a, IndicatorAction) && Rejects(a, IndicatorId) && Rejects(a, IndicatorIds) && Counts(a, 5, 2)
    ensures a.DeleteIndicator? ==> Needs(a, IndicatorId) && Rejects(a, IndicatorIds)
    ensures a.DeleteIndicators? ==> Needs(a, IndicatorIds) && Rejects(a, IndicatorId)
    ensures IsDeletion(a) ==>
              && Rejects(a, IndicatorValue) && Rejects(a, IndicatorType) && Rejects(a, IndicatorAction)
              && Rejects(a, Title) && Rejects(a, Description) && Rejects(a, Severity) && Rejects(a, ExpirationTime)
              && Rejects(a, RbacGroupNames) && Rejects(a, RecommendedActions) && Rejects(a, GenerateAlert)
              && Counts(a, 1, 11)
  {
  }

  /** Live response needs a machine, or a file's name, content and description; three of its actions
      are strict about the rest. */
  lemma ResponseFields(a: Action)
    requires ToolOf(a) == Some(Response)
    ensures a.CollectPackage? || a.QuarantineFile? || a.RunLiveResponse? ==> Needs(a, MachineId)
    ensures a.CollectPackage? ==> Counts(a, 1, 0)
    ensures a.QuarantineFile? ==> Needs(a, Sha1) && Counts(a, 2, 0)
    ensures a.RunLiveResponse? ==>
              && Needs(a, Commands) && Needs(a, Comment) && Counts(a, 3, 6) && Rejects(a, FileName)
              && Rejects(a, Description) && Rejects(a, Sha1)
    ensures a.UploadFile? ==>
              && Needs(a, FileName) && Needs(a, FileContent) && Needs(a, Description) && Counts(a, 3, 3)
              && Rejects(a, MachineId) && Rejects(a, Commands) && Rejects(a, Sha1)
    ensures a.DeleteFile? ==>
              && Needs(a, FileName) && Counts(a, 1, 7) && Rejects(a, MachineId) && Rejects(a, Sha1)
              && Rejects(a, Commands) && Rejects(a, Description)
    ensures a.RunLiveResponse? || a.DeleteFile? ==>
              Rejects(a, FileContent) && Rejects(a, ParametersDescription) && Rejects(a, OverrideIfExists)
  {
  }

  /** Unused fields are a protocol error for the three actions whose input is read strictly. */
  lemma StrictExactly(a: Action)
    ensures HandlingOf(a).strict <==> a.RunLiveResponse? || a.UploadFile? || a.DeleteFile?
  {
  }

  /** The reason a request carries is the caller's: a triage call's justification, any other call's
      comment, or the description for an upload, without a comment or without what it needs. */
  lemma ReasonIsTheCallers(c: Config, tool: Tool, input: Input, details: Details)
    requires Known(c, tool, input.action)
    ensures var r, given := RequestFor(c, tool, input, details).justification, input.fields;
      && (tool == Triage ==> r == if Justification in given then Some(given[Justification]) else None)
      && (tool != Triage && input.action != UploadFile ==>
            if Comment in given then r == Some(given[Comment]) else r in {None, Some("")})
      && (input.action == UploadFile && Handle(c, tool, input, details).Ok? ==>
            r == Some(if Comment in given then given[Comment] else details.description))
      && (input.action == UploadFile && Handle(c, tool, input, details).Err? ==>
            r == if Description in given then Some(given[Description]) else None)
  {
  }

  /** With every field in order the request carries what the validators found: targets, parameters and
      the first invalid value. */
  lemma RequestCarriesDetails(c: Config, tool: Tool, input: Input, details: Details)
    requires Known(c, tool, input.action)
    requires var h, given := HandlingOf(input.action), input.fields;
      !HasAny(h.unused, given) && (h.changes == [] || HasAny(h.changes, given)) && HasAll(h.required, given)
    ensures var r := RequestFor(c, tool, input, details);
      && r.targets == details.targets && r.parameters == details.parameters
      && (details.invalid.None? ==> r.invalid.None?)
      && (details.invalid.Some? ==> r.invalid == Some(BadValue(details.invalid.value)))
  {
    var h := HandlingOf(input.action);
    PresentAndAbsent(h.unused, input.fields);
    PresentAndAbsent(h.changes, input.fields);
    PresentAndAbsent(h.required, input.fields);
  }

  /** Otherwise it carries nothing but what is wrong: a field that the action does not use, no change,
      or a field that is missing, in this order. */
  lemma RequestCarriesRejection(c: Config, tool: Tool, input: Input, details: Details)
    requires Known(c, tool, input.action)
    requires var h, given := HandlingOf(input.action), input.fields;
      HasAny(h.unused, given) || (h.changes != [] && !HasAny(h.changes, given)) || !HasAll(h.required, given)
    ensures var r, h, given := RequestFor(c, tool, input, details), HandlingOf(input.action), input.fields;
      && r.targets == [] && r.parameters == map[] && r.invalid.Some?
      && (HasAny(h.unused, given) <==> r.invalid.value.Unused?)
      && (r.invalid.value.Unused? ==> r.invalid.value.field in h.unused && r.invalid.value.field in given)
      && (r.invalid.value.NoChange? <==>
           !HasAny(h.unused, given) && h.changes != [] && !HasAny(h.changes, given))
      && (r.invalid.value.Missing? ==> r.invalid.value.field in h.required && r.invalid.value.field !in given)
  {
    var h := HandlingOf(input.action);
    PresentAndAbsent(h.unused, input.fields);
    PresentAndAbsent(h.changes, input.fields);
    PresentAndAbsent(h.required, input.fields);
  }
}
