/** What the audit log can look like, and when upstream may be called, in every interleaving. */
module MutationTheorems {
  import opened Wrappers
  import Text
  import opened MutationPipeline

  // ------------------------------------------------------------------ projections

  lemma ProjectAppend(log: seq<Record>, r: Record, id: nat)
    ensures Project(log + [r], id) == Project(log, id) + (if r.attempt == id then [r] else [])
  {
    assert (log + [r])[..|log|] == log;
  }

  // ------------------------------------------------------------------ what an attempt may hold

  ghost predicate Screened(c: Config, r: Request) {
    !c.readOnly && ActionEnabled(c, r) && r.invalid.None? && Justified(r)
  }

  /** A destructive request goes on with a human's acceptance, or with confirmation turned off. */
  function ConfirmationOf(c: Config, t: Tool): Confirmation {
    if !Destructive(t) then NotApplicable else if c.confirmDestructive then Accepted else TurnedOff
  }

  /** Past stage 4: screened, and accepted where a human had to be asked. */
  ghost predicate Cleared(c: Config, accepted: bool, r: Request, confirmation: Confirmation) {
    && Screened(c, r)
    && confirmation == ConfirmationOf(c, r.tool)
    && (confirmation.Accepted? ==> accepted)
  }

  /** A human was asked and did not accept. */
  ghost predicate Refused(c: Config, accepted: bool, r: Request) {
    Screened(c, r) && Destructive(r.tool) && c.confirmDestructive && !accepted
  }

  /** A final record names the first stage that stopped the attempt. */
  ghost predicate FinalFits(c: Config, accepted: bool, id: nat, r: Request, rec: Record) {
    && rec.attempt == id && rec.phase == Final && rec.tool == r.tool && rec.action == r.action
    && rec.targets == r.targets && rec.parameters == r.parameters && rec.identity == c.identity
    && match rec.result
       case Rejected(ReadOnly) => c.readOnly && rec.confirmation.NotApplicable?
       case Rejected(CategoryDisabled) => !c.readOnly && !ActionEnabled(c, r) && rec.confirmation.NotApplicable?
       case Rejected(Validation) =>
         !c.readOnly && ActionEnabled(c, r) && (r.invalid.Some? || !Justified(r)) && rec.confirmation.NotApplicable?
       case Rejected(ConfirmationUnavailable) => Refused(c, accepted, r) && rec.confirmation.Unavailable?
       case NotConfirmed => Refused(c, accepted, r) && rec.confirmation.Declined?
       case Rejected(AuditUnavailable) => Cleared(c, accepted, r, rec.confirmation)
       case _ => false
  }

  /** The attempt's records and its number of upstream requests, by where it stands. */
  ghost predicate Holds(c: Config, accepted: bool, id: nat, a: Attempt, records: seq<Record>, calls: nat) {
    var r := a.request;
    match a.pc
    case Start => records == [] && calls == 0 && !accepted
    case AskHuman => records == [] && calls == 0 && Refused(c, accepted, r)
    case WriteIntent(conf) => records == [] && calls == 0 && Cleared(c, accepted, r, conf)
    case WriteFinal(rec, answer) => records == [] && calls == 0 && FinalFits(c, accepted, id, r, rec)
        && !answer.FromUpstream?
    case Send(conf) => records == [IntentRecord(c, id, r, conf)] && calls == 0 && Cleared(c, accepted, r, conf)
    case AwaitUpstream(conf) => records == [IntentRecord(c, id, r, conf)] && calls == 1 && Cleared(c, accepted, r, conf)
    case WriteOutcome(conf, _) => records == [IntentRecord(c, id, r, conf)] && calls == 1
        && Cleared(c, accepted, r, conf)
    case Done(FromUpstream(u)) =>
      var conf := ConfirmationOf(c, r.tool);
      && calls == 1 && Cleared(c, accepted, r, conf)
      && (records == [IntentRecord(c, id, r, conf)]
          || records == [IntentRecord(c, id, r, conf), OutcomeRecord(c, id, r, conf, u)])
    case Done(_) => calls == 0 && (records == [] || (|records| == 1 && FinalFits(c, accepted, id, r, records[0])))
  }

  ghost predicate AttemptInv(w: World, id: nat) {
    if id in w.attempts then
        && Holds(w.config, id in w.approved, id, w.attempts[id], Project(w.log, id), multiset(w.sent)[id])
        && (id in w.approved ==> Destructive(w.attempts[id].request.tool))
    else Project(w.log, id) == [] && multiset(w.sent)[id] == 0 && id !in w.approved
  }

  ghost predicate Inv(w: World) {
    && (forall id :: AttemptInv(w, id))
    && (!w.config.hasSink ==> w.log == [])
  }

  // ------------------------------------------------------------------ one step keeps it

  lemma PenIsOwn(w: World, id: nat)
    requires id in w.attempts && Writing(w.attempts[id].pc) && AttemptInv(w, id)
    ensures Pen(w.config, id, w.attempts[id]).attempt == id
  {
  }

  /** Attempt `id` looks the same in both. */
  ghost predicate SameFor(w: World, w': World, id: nat) {
    && w'.config == w.config && (id in w'.approved <==> id in w.approved)
    && (id in w'.attempts <==> id in w.attempts) && (id in w.attempts ==> w'.attempts[id] == w.attempts[id])
    && Project(w'.log, id) == Project(w.log, id) && multiset(w'.sent)[id] == multiset(w.sent)[id]
  }

  lemma SameForKeeps(w: World, w': World, id: nat)
    requires SameFor(w, w', id) && AttemptInv(w, id)
    ensures AttemptInv(w', id)
  {
  }

  lemma AppendIsOwn(w: World, s: Step, other: nat)
    requires Enabled(w, s) && s.Append? && AttemptInv(w, s.id) && other != s.id
    ensures Project(Apply(w, s).log, other) == Project(w.log, other)
  {
    PenIsOwn(w, s.id);
    ProjectAppend(w.log, Pen(w.config, s.id, w.attempts[s.id]), other);
  }

  lemma StepSameFor(w: World, s: Step, other: nat)
    requires Enabled(w, s) && other != s.id && Project(Apply(w, s).log, other) == Project(w.log, other)
    ensures SameFor(w, Apply(w, s), other)
  {
  }

  /** A step of one attempt is invisible to every other. */
  lemma OthersUntouched(w: World, s: Step, other: nat)
    requires Enabled(w, s) && AttemptInv(w, other) && AttemptInv(w, s.id) && other != s.id
    ensures SameFor(w, Apply(w, s), other) && AttemptInv(Apply(w, s), other)
  {
    if s.Append? { AppendIsOwn(w, s, other); } else { assert Apply(w, s).log == w.log; }
    StepSameFor(w, s, other);
    SameForKeeps(w, Apply(w, s), other);
  }

  /** Writing with success or without, told apart from how the log is kept. */
  lemma WritingHolds(c: Config, accepted: bool, id: nat, a: Attempt, records: seq<Record>, calls: nat, written: bool)
    requires Writing(a.pc) && Holds(c, accepted, id, a, records, calls)
    ensures var more := if written then [Pen(c, id, a)] else [];
      Holds(c, accepted, id, a.(pc := AfterWriting(c, id, a, written)), records + more, calls)
  {
  }

  lemma ScreenHolds(c: Config, id: nat, a: Attempt)
    ensures Holds(c, false, id, a.(pc := Screen(c, id, a.request)), [], 0)
  {
  }

  lemma ProceedKept(w: World, id: nat)
    requires Enabled(w, Proceed(id)) && AttemptInv(w, id)
    ensures AttemptInv(Apply(w, Proceed(id)), id)
  {
    var a := w.attempts[id];
    if Writing(a.pc) {
      WritingHolds(w.config, id in w.approved, id, a, Project(w.log, id), multiset(w.sent)[id], false);
    } else {
      ScreenHolds(w.config, id, a);
    }
  }

  lemma AppendKept(w: World, id: nat, ok: bool)
    requires Enabled(w, Append(id, ok)) && AttemptInv(w, id)
    ensures AttemptInv(Apply(w, Append(id, ok)), id)
  {
    var a := w.attempts[id];
    PenIsOwn(w, id);
    ProjectAppend(w.log, Pen(w.config, id, a), id);
    WritingHolds(w.config, id in w.approved, id, a, Project(w.log, id), multiset(w.sent)[id], ok);
  }

  lemma HiddenHolds(c: Config, id: nat, t: Tool)
    requires !ToolEnabled(c.categories, t)
    ensures Holds(c, false, id, Attempt(HiddenRequest(t), HiddenPc(c, id, t)), [], 0)
  {
  }

  lemma HumanHolds(c: Config, id: nat, a: Attempt, outcome: Confirmation)
    requires a.pc.AskHuman? && Holds(c, false, id, a, [], 0)
    ensures Holds(c, outcome.Accepted?, id, a.(pc := AfterHuman(c, id, a.request, outcome)), [], 0)
  {
  }

  lemma HumanKept(w: World, id: nat, outcome: Confirmation)
    requires Enabled(w, Human(id, outcome)) && AttemptInv(w, id)
    ensures AttemptInv(Apply(w, Human(id, outcome)), id)
  {
    HumanHolds(w.config, id, w.attempts[id], outcome);
  }

  lemma DispatchKept(w: World, id: nat)
    requires Enabled(w, Dispatch(id)) && AttemptInv(w, id)
    ensures AttemptInv(Apply(w, Dispatch(id)), id)
  {
  }

  lemma OwnKept(w: World, s: Step)
    requires Enabled(w, s) && AttemptInv(w, s.id)
    ensures AttemptInv(Apply(w, s), s.id)
  {
    match s
    case Begin(_, _) =>
    case BeginHidden(id, t) => HiddenHolds(w.config, id, t);
    case Proceed(id) => ProceedKept(w, id);
    case Human(id, outcome) => HumanKept(w, id, outcome);
    case Append(id, ok) => AppendKept(w, id, ok);
    case Dispatch(id) => DispatchKept(w, id);
    case Reply(_, _) =>
  }

  lemma InvKept(w: World, s: Step)
    requires Enabled(w, s) && Inv(w)
    ensures Inv(Apply(w, s)) && Apply(w, s).config == w.config
  {
    forall id ensures AttemptInv(Apply(w, s), id) {
      assert AttemptInv(w, id) && AttemptInv(w, s.id);
      if id == s.id { OwnKept(w, s); } else { OthersUntouched(w, s, id); }
    }
  }

  lemma {:induction false} RunKeepsInv(w: World, steps: seq<Step>, w': World)
    requires Inv(w) && Reaches(w, steps, w')
    ensures Inv(w') && w'.config == w.config
    decreases |steps|
  {
    if steps != [] {
      InvKept(w, steps[0]);
      RunKeepsInv(Apply(w, steps[0]), steps[1..], w');
    }
  }

  lemma ReachableInv(w: World)
    requires Reachable(w)
    ensures Inv(w)
  {
    var steps :| Reaches(Idle(w.config), steps, w);
    RunKeepsInv(Idle(w.config), steps, w);
  }

  // ------------------------------------------------------------------ theorems

  /** The log projected on an attempt is empty, one final record, one intent record, or an intent
      and its outcome, which agree on everything but phase and result. */
  lemma LogGrammar(w: World, id: nat)
    requires Reachable(w)
    ensures var p := Project(w.log, id);
      || p == []
      || (|p| == 1 && p[0].phase.Final?)
      || (|p| == 1 && p[0].phase.Intent?)
      || (|p| == 2 && p[0].phase.Intent? && p[1] == p[0].(phase := Outcome, result := p[1].result)
          && !p[1].result.Pending?)
  {
    ReachableInv(w);
    assert AttemptInv(w, id);
  }

  lemma FinishedHolds(c: Config, accepted: bool, id: nat, a: Attempt, records: seq<Record>, calls: nat)
    requires Holds(c, accepted, id, a, records, calls) && a.pc.Done?
    ensures calls == (if records != [] && records[0].phase.Intent? then 1 else 0)
    ensures a.pc.result.FromUpstream? <==> records != [] && records[0].phase.Intent?
    ensures |records| == 2 ==> records[1].result == ResultOf(a.pc.result.upstream)
  {
  }

  /** A finished attempt made one upstream request when its intent was recorded, and none
      otherwise; it answers with upstream's answer exactly in the first case, and the outcome, when
      it could be written, is that answer. */
  lemma UpstreamOnceAfterIntent(w: World, id: nat)
    requires Reachable(w) && id in w.attempts && w.attempts[id].pc.Done?
    ensures multiset(w.sent)[id] == (if Project(w.log, id) != [] && Project(w.log, id)[0].phase.Intent? then 1 else 0)
    ensures w.attempts[id].pc.result.FromUpstream? <==> Project(w.log, id) != [] && Project(w.log, id)[0].phase.Intent?
    ensures |Project(w.log, id)| == 2 ==>
              w.attempts[id].pc.result.FromUpstream?
                  && Project(w.log, id)[1].result == ResultOf(w.attempts[id].pc.result.upstream)
  {
    ReachableInv(w);
    assert AttemptInv(w, id);
    FinishedHolds(w.config, id in w.approved, id, w.attempts[id], Project(w.log, id), multiset(w.sent)[id]);
  }

  /** What an outcome record may say of upstream's answer. */
  predicate Tells(result: AuditResult, u: Upstream) {
    && (u.Responded? ==> result == Submitted(u.httpStatus, u.trackingId, u.upstreamStatus))
    && (u.Failed? && u.httpError.None? ==> result == TransportError(u.message))
    && (u.Failed? && u.httpError.Some? && u.httpError.value < 65536 ==>
          result == UpstreamError(u.httpError.value, u.message))
  }

  /** A finished attempt's outcome, when it could be written, tells upstream's answer. */
  lemma OutcomeTellsAnswer(w: World, id: nat)
    requires Reachable(w) && id in w.attempts && w.attempts[id].pc.Done? && |Project(w.log, id)| == 2
    ensures w.attempts[id].pc.result.FromUpstream?
    ensures Tells(Project(w.log, id)[1].result, w.attempts[id].pc.result.upstream)
  {
    UpstreamOnceAfterIntent(w, id);
  }

  /** At any moment: whatever was sent upstream passed every stage, a human accepted it where one
      had to be asked, and its intent is already in the log. */
  lemma NothingSentUnrecorded(w: World, id: nat)
    requires Reachable(w) && id in w.sent
    ensures id in w.attempts && multiset(w.sent)[id] == 1
    ensures var r, p := w.attempts[id].request, Project(w.log, id);
      && Screened(w.config, r)
      && (Destructive(r.tool) && w.config.confirmDestructive ==> id in w.approved)
      && p != []
      && p[0] == IntentRecord(w.config, id, r, ConfirmationOf(w.config, r.tool))
  {
    ReachableInv(w);
    assert AttemptInv(w, id);
    assert multiset(w.sent)[id] > 0;
  }

  predicate CategoryOn(c: Categories, t: Tool) {
    || (t == Response && c.liveResponse) || (t == DeviceResponse && c.deviceResponse)
    || (t == Indicators && c.indicators) || (t == Triage && c.triage)
  }

  /** What is sent, in the server's own settings: its tool's category is enabled, offboarding's own too,
      nothing is invalid, the reason has ten characters, and a human accepted it unless asking is off or
      it is triage. */
  lemma SentIsAllowed(w: World, id: nat)
    requires Reachable(w) && id in w.sent
    ensures id in w.attempts && !w.config.readOnly
    ensures var r := w.attempts[id].request;
      && CategoryOn(w.config.categories, r.tool) && (r.action == Offboard ==> w.config.categories.offboarding)
      && r.invalid.None? && r.justification.Some? && |Text.Trim(r.justification.value)| >= 10
      && (w.config.confirmDestructive && r.tool in {Response, DeviceResponse, Indicators} ==> id in w.approved)
  {
    NothingSentUnrecorded(w, id);
  }

  /** Only a human who accepts approves, and only while being asked. */
  lemma ApprovalIsHuman(w: World, s: Step, id: nat)
    requires Enabled(w, s) && id !in w.approved && id in Apply(w, s).approved
    ensures s == Human(id, Accepted) && w.attempts[id].pc.AskHuman?
  {
  }

  /** Nobody is asked about triage, with asking on or off: no triage attempt waits for a human or is
      approved, and its records say that confirmation does not apply. */
  lemma TriageIsNotAsked(w: World, id: nat)
    requires Reachable(w) && id in w.attempts && w.attempts[id].request.tool == Triage
    ensures !w.attempts[id].pc.AskHuman? && id !in w.approved
    ensures forall rec :: rec in Project(w.log, id) ==> rec.confirmation == NotApplicable
  {
    ReachableInv(w);
    assert AttemptInv(w, id);
  }

  /** Every other tool's intents and outcomes say that a human accepted, or that asking is off. */
  lemma OthersAreConfirmed(w: World, id: nat, rec: Record)
    requires Reachable(w) && id in w.attempts && w.attempts[id].request.tool in {Response, DeviceResponse, Indicators}
    requires rec in Project(w.log, id) && rec.phase != Final
    ensures rec.confirmation == if w.config.confirmDestructive then Accepted else TurnedOff
  {
    ReachableInv(w);
    assert AttemptInv(w, id);
  }

  /** A lone final record names the stage that stopped the attempt. */
  lemma FinalNamesTheStage(w: World, id: nat)
    requires Reachable(w) && id in w.attempts && Project(w.log, id) != [] && Project(w.log, id)[0].phase.Final?
    ensures FinalFits(w.config, id in w.approved, id, w.attempts[id].request, Project(w.log, id)[0])
  {
    ReachableInv(w);
    assert AttemptInv(w, id);
  }

  /** No record of an enabled action says that its category is disabled. */
  lemma EnabledIsNotRefused(w: World, id: nat)
    requires Reachable(w) && id in w.attempts && ActionEnabled(w.config, w.attempts[id].request)
    ensures forall r :: r in Project(w.log, id) ==> r.result != Rejected(CategoryDisabled)
  {
    ReachableInv(w);
    assert AttemptInv(w, id);
  }

  lemma {:induction false} ProjectMember(log: seq<Record>, i: nat)
    requires i < |log|
    ensures log[i] in Project(log, log[i].attempt)
  {
    if i < |log| - 1 {
      ProjectMember(log[..|log| - 1], i);
    }
  }

  /** Under read-only nothing is sent and no intent is recorded, whatever is attempted. */
  lemma ReadOnlySendsNothing(w: World)
    requires Reachable(w) && w.config.readOnly
    ensures w.sent == []
    ensures forall i :: 0 <= i < |w.log| ==> w.log[i].phase.Final? && w.log[i].result == Rejected(ReadOnly)
  {
    ReachableInv(w);
    if w.sent != [] { NothingSentUnrecorded(w, w.sent[0]); }
    forall i | 0 <= i < |w.log| ensures w.log[i].phase.Final? && w.log[i].result == Rejected(ReadOnly) {
      assert AttemptInv(w, w.log[i].attempt);
      ProjectMember(w.log, i);
    }
  }

  /** In a server built by the process start-up no attempt reaches the intent stage without a sink. */
  lemma SinkPresentAtIntent(w: World, id: nat, readOnly: bool, live: bool, device: bool, offboarding: bool,
        indicators: bool, triage: bool, confirm: bool, explicitLogPath: bool, identity: string)
    requires w.config ==
            BuildConfig(readOnly, live, device, offboarding, indicators, triage, confirm, explicitLogPath, identity)
    requires Reachable(w) && id in w.attempts && w.attempts[id].pc.WriteIntent?
    ensures w.config.hasSink
    ensures !w.config.readOnly && (live || device || indicators || triage)
  {
    ReachableInv(w);
    assert AttemptInv(w, id);
  }

  /** There is a sink exactly when a category is enabled or a log path was given. */
  lemma SinkExactly(readOnly: bool, live: bool, device: bool, offboarding: bool, indicators: bool, triage: bool,
        confirm: bool, explicitLogPath: bool, identity: string)
    ensures var c :=
              BuildConfig(readOnly, live, device, offboarding, indicators, triage, confirm, explicitLogPath, identity);
      && (c.hasSink <==> explicitLogPath || (!readOnly && (live || device || indicators || triage)))
      && c.readOnly == readOnly && c.confirmDestructive == confirm && c.identity == identity
  {
  }

  lemma FlagsRespectReadOnly(readOnly: bool, live: bool, device: bool, offboarding: bool, indicators: bool,
        triage: bool)
    ensures var c := FromFlags(readOnly, live, device, offboarding, indicators, triage);
      && (readOnly ==> !AnyEnabled(c) && !c.offboarding)
      && (forall t :: ToolEnabled(c, t) ==> AnyEnabled(c))
      && (forall t :: ToolEnabled(c, t) <==> CategoryOn(c, t))
      && (CategoryOn(c, Response) <==> !readOnly && live) && (CategoryOn(c, DeviceResponse) <==> !readOnly && device)
      && (CategoryOn(c, Indicators) <==> !readOnly && indicators) && (CategoryOn(c, Triage) <==> !readOnly && triage)
      && (c.offboarding <==> !readOnly && offboarding && device)
      && (AnyEnabled(c) <==> !readOnly && (live || device || indicators || triage))
  {
    var c := FromFlags(readOnly, live, device, offboarding, indicators, triage);
    forall t: Tool | ToolEnabled(c, t) ensures AnyEnabled(c) {
      match t case Response => case DeviceResponse => case Indicators => case Triage =>
    }
  }

  // ------------------------------------------------------------------ over a run

  lemma FinishedStays(w: World, s: Step, id: nat)
    requires Enabled(w, s) && Inv(w) && id in w.attempts && w.attempts[id].pc.Done?
    ensures SameFor(w, Apply(w, s), id)
  {
    assert id != s.id && AttemptInv(w, id) && AttemptInv(w, s.id);
    OthersUntouched(w, s, id);
  }

  lemma StepAppends(w: World, s: Step)
    requires Enabled(w, s) && Inv(w)
    ensures w.log <= Apply(w, s).log && w.sent <= Apply(w, s).sent
    ensures forall id :: id in w.attempts && w.attempts[id].pc.Done? ==>
              && id in Apply(w, s).attempts && Apply(w, s).attempts[id] == w.attempts[id]
              && Project(Apply(w, s).log, id) == Project(w.log, id)
  {
    forall id | id in w.attempts && w.attempts[id].pc.Done? ensures SameFor(w, Apply(w, s), id) {
      FinishedStays(w, s, id);
    }
  }

  /** The log only grows, and a finished attempt's records, answer and upstream requests never
      change again. */
  lemma {:induction false} FinishedIsFinal(w: World, steps: seq<Step>, w': World)
    requires Inv(w) && Reaches(w, steps, w')
    ensures w.log <= w'.log && w.sent <= w'.sent
    ensures forall id :: id in w.attempts && w.attempts[id].pc.Done? ==>
              id in w'.attempts && w'.attempts[id] == w.attempts[id] && Project(w'.log, id) == Project(w.log, id)
    decreases |steps|
  {
    if steps != [] {
      StepAppends(w, steps[0]);
      InvKept(w, steps[0]);
      FinishedIsFinal(Apply(w, steps[0]), steps[1..], w');
    }
  }

  function Remaining(pc: Pc): nat {
    match pc
    case Start => 7
    case AskHuman => 6
    case WriteIntent(_) => 5
    case Send(_) => 4
    case AwaitUpstream(_) => 3
    case WriteOutcome(_, _) => 1
    case WriteFinal(_, _) => 1
    case Done(_) => 0
  }

  /** An attempt takes seven steps of its own at most. */
  lemma OwnStepsRunOut(w: World, s: Step)
    requires Enabled(w, s) && !s.Begin? && !s.BeginHidden?
    ensures Remaining(Apply(w, s).attempts[s.id].pc) < Remaining(w.attempts[s.id].pc)
  {
  }
}
