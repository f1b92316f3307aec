/** `execute_mutation`, its wrappers and the audit sink as the source writes them.

    `world` mirrors the server as a state of the pipeline's step relation: every method says
    which steps it takes, so the theorems about the log hold of the sink's lines. */
module MutationServer {
  import opened Wrappers
  import Text
  import opened MutationPipeline
  import opened MutationTheorems
  import opened MutationHandlers

  /** What the world outside decides during one attempt. */
  datatype Env = Env(human: Confirmation, intentOk: bool, finalOk: bool, outcomeOk: bool, upstream: Upstream)

  class AuditSink {
    var lines: seq<Record>

    constructor ()
      ensures lines == []
    {
      lines := [];
    }

    /** Append one record, or fail and leave the log as it is. */
    method Append(record: Record, ok: bool) returns (written: bool)
      modifies this
      ensures written == ok
      ensures lines == if written then old(lines) + [record] else old(lines)
    {
      if ok {
        lines := lines + [record];
      }
      written := ok;
    }
  }

  /** `steps` lead from `w0` to `w` and are all of attempt `id`. */
  ghost predicate Path(w0: World, steps: seq<Step>, w: World, id: nat) {
    Reaches(w0, steps, w) && forall s :: s in steps ==> s.id == id
  }

  lemma {:induction false} ReachesSnoc(w0: World, steps: seq<Step>, w: World, s: Step)
    requires Reaches(w0, steps, w) && Enabled(w, s)
    ensures Reaches(w0, steps + [s], Apply(w, s))
    decreases |steps|
  {
    if steps == [] {
      assert ([] + [s])[1..] == [];
    } else {
      ReachesSnoc(Apply(w0, steps[0]), steps[1..], w, s);
      assert (steps + [s])[1..] == steps[1..] + [s];
    }
  }

  lemma {:induction false} ReachesTrans(w0: World, steps: seq<Step>, w1: World, more: seq<Step>, w2: World)
    requires Reaches(w0, steps, w1) && Reaches(w1, more, w2)
    ensures Reaches(w0, steps + more, w2)
    decreases |more|
  {
    if more == [] {
      assert steps + more == steps;
    } else {
      ReachesSnoc(w0, steps, w1, more[0]);
      ReachesTrans(w0, steps + [more[0]], Apply(w1, more[0]), more[1..], w2);
      assert steps + [more[0]] + more[1..] == steps + more;
    }
  }

  lemma StillReachable(w: World, steps: seq<Step>, w': World)
    requires Reachable(w) && Reaches(w, steps, w')
    ensures Reachable(w') && w'.config == w.config
  {
    var before :| Reaches(Idle(w.config), before, w);
    ReachesTrans(Idle(w.config), before, w, steps, w');
    ReachableInv(w);
    RunKeepsInv(w, steps, w');
  }

  /** Between `w` and `w'` one attempt was made, under `id`, with this request and answer. */
  ghost predicate Attempted(w: World, w': World, id: nat, req: Request, answer: ToolAnswer) {
    w'.attempts.Keys == w.attempts.Keys + {id} && w'.attempts[id] == Attempt(req, Done(answer))
  }

  class DefenderServer {
    const config: Config
    const auditSink: AuditSink?
    ghost var world: World

    constructor (config: Config, auditSink: AuditSink?)
      requires config.hasSink <==> auditSink != null
      requires auditSink != null ==> auditSink.lines == []
      ensures Valid() && this.config == config && this.auditSink == auditSink && world == Idle(config)
    {
      this.config, this.auditSink := config, auditSink;
      world := Idle(config);
      new;
      assert Reaches(Idle(config), [], world);
    }

    ghost predicate Mirrors()
      reads this, auditSink
    {
      && world.config == config
      && (config.hasSink <==> auditSink != null)
      && (auditSink != null ==> auditSink.lines == world.log)
    }

    ghost predicate Valid()
      reads this, auditSink
    {
      Mirrors() && Reachable(world)
    }

    /** The mirrored state takes one step of attempt `id`. */
    ghost method Mirror(s: Step, id: nat, w0: World, steps: seq<Step>) returns (steps': seq<Step>)
      requires Path(w0, steps, world, id) && Enabled(world, s) && s.id == id
      modifies this`world
      ensures world == Apply(old(world), s) && Path(w0, steps', world, id)
    {
      ReachesSnoc(w0, steps, world, s);
      world := Apply(world, s);
      steps' := steps + [s];
    }

    /** Hand a record to the sink, if there is one; a failure is only reported. */
    method WriteRecord(record: Record, ok: bool, ghost id: nat, ghost w0: World, ghost steps: seq<Step>)
      returns (written: bool, ghost steps': seq<Step>)
      requires Mirrors() && Path(w0, steps, world, id) && id in world.attempts
      requires Writing(world.attempts[id].pc) && record == Pen(config, id, world.attempts[id])
      modifies this`world, auditSink
      ensures Mirrors() && Path(w0, steps', world, id) && id in world.attempts
      ensures written == (ok && auditSink != null)
      ensures world.attempts[id] ==
              Attempt(old(world).attempts[id].request, AfterWriting(config, id, old(world).attempts[id], written))
      ensures world.attempts.Keys == old(world).attempts.Keys
    {
      written := false;
      if auditSink != null {
        written := auditSink.Append(record, ok);
        steps' := Mirror(Append(id, ok), id, w0, steps);
      } else {
        steps' := Mirror(Proceed(id), id, w0, steps);
      }
    }

    /** Stage 4: ask a human when the tool is destructive and asking is on. */
    method Confirm(req: Request, env: Env, id: nat, ghost w0: World, ghost steps: seq<Step>)
      returns (r: Result<ToolAnswer, Invalidity>, ghost steps': seq<Step>)
      requires Mirrors() && Path(w0, steps, world, id) && id in world.attempts
      requires Justified(req) && !config.readOnly && ActionEnabled(config, req) && req.invalid.None?
      requires world.attempts[id] == Attempt(req, Screen(config, id, req))
      modifies this`world, auditSink
      ensures Mirrors() && Path(w0, steps', world, id)
      ensures r.Ok? && world.attempts.Keys == old(world).attempts.Keys
              && world.attempts[id] == Attempt(req, Done(r.value))
      ensures r.value != CategoryOff
    {
      steps' := steps;
      var confirmation := NotApplicable;
      if Destructive(req.tool) && config.confirmDestructive {
        steps' := Mirror(Human(id, env.human), id, w0, steps');
        if !env.human.Accepted? {
          var record, answer;
          if env.human.Unavailable? {
            record := Record(id, Final, req.tool, req.action, req.targets, req.parameters, req.justification,
                             config.identity, Unavailable, Rejected(ConfirmationUnavailable));
            answer := CannotConfirm;
          } else {
            var justification := Some(Text.Trim(req.justification.value));
            record := Record(id, Final, req.tool, req.action, req.targets, req.parameters, justification,
                             config.identity, Declined, NotConfirmed);
            answer := HumanDeclined;
          }
          var written;
          written, steps' := WriteRecord(record, env.finalOk, id, w0, steps');
          r := Ok(answer);
          return;
        }
        confirmation := Accepted;
      } else if Destructive(req.tool) {
        confirmation := TurnedOff;
      }
      r, steps' := Submit(req, confirmation, env, id, w0, steps');
    }

    /** Stages 5 to 7: the intent record, the one upstream request, the outcome record. */
    method Submit(req: Request, confirmation: Confirmation, env: Env, id: nat, ghost w0: World, ghost steps: seq<Step>)
      returns (r: Result<ToolAnswer, Invalidity>, ghost steps': seq<Step>)
      requires Mirrors() && Path(w0, steps, world, id) && id in world.attempts && Justified(req)
      requires world.attempts[id] == Attempt(req, WriteIntent(confirmation))
      modifies this`world, auditSink
      ensures Mirrors() && Path(w0, steps', world, id)
      ensures r.Ok? && world.attempts.Keys == old(world).attempts.Keys
              && world.attempts[id] == Attempt(req, Done(r.value))
      ensures r.value != CategoryOff
    {
      var justification := Some(Text.Trim(req.justification.value));
      var intent := Record(id, Intent, req.tool, req.action, req.targets, req.parameters, justification,
                           config.identity, confirmation, Pending);
      var written;
      written, steps' := WriteRecord(intent, env.intentOk, id, w0, steps);
      if !written {
        if auditSink != null {
          var record := Record(id, Final, req.tool, req.action, req.targets, req.parameters, req.justification,
                               config.identity, confirmation, Rejected(AuditUnavailable));
          written, steps' := WriteRecord(record, env.finalOk, id, w0, steps');
        }
        r := Ok(NoAudit);
        return;
      }
      steps' := Mirror(Dispatch(id), id, w0, steps');
      steps' := Mirror(Reply(id, env.upstream), id, w0, steps');
      var outcome := Record(id, Outcome, req.tool, req.action, req.targets, req.parameters, justification,
                            config.identity, confirmation, ResultOf(env.upstream));
      written, steps' := WriteRecord(outcome, env.outcomeOk, id, w0, steps');
      r := Ok(FromUpstream(env.upstream));
    }

    /** A rejection by one of the first three stages, recorded. */
    method Reject(req: Request, reason: RejectReason, answer: ToolAnswer, env: Env, id: nat, ghost w0: World,
          ghost steps: seq<Step>)
      returns (ghost steps': seq<Step>)
      requires Mirrors() && Path(w0, steps, world, id) && id in world.attempts
      requires world.attempts[id]
               == Attempt(req, WriteFinal(FinalRecord(config, id, req, reason, NotApplicable), answer))
      modifies this`world, auditSink
      ensures Mirrors() && Path(w0, steps', world, id)
      ensures world.attempts.Keys == old(world).attempts.Keys && world.attempts[id] == Attempt(req, Done(answer))
    {
      var record := Record(id, Final, req.tool, req.action, req.targets, req.parameters, req.justification,
                           config.identity, NotApplicable, Rejected(reason));
      var _, s := WriteRecord(record, env.finalOk, id, w0, steps);
      steps' := s;
    }

    /** Run one mutating request through the seven stages, under the fresh attempt id `id`. It never
        returns a protocol error. */
    method ExecuteMutation(req: Request, env: Env, id: nat)
      returns (r: Result<ToolAnswer, Invalidity>, ghost steps: seq<Step>)
      requires Valid() && id !in world.attempts
      modifies this`world, auditSink
      ensures Valid() && Path(old(world), steps, world, id)
      ensures r.Ok? && Attempted(old(world), world, id, req, r.value)
      ensures r.value == CategoryOff <==> !config.readOnly && !ActionEnabled(config, req)
    {
      ghost var w0 := world;
      assert Path(w0, [], world, id);
      steps := Mirror(Begin(id, req), id, w0, []);
      steps := Mirror(Proceed(id), id, w0, steps);
      var reason, answer := ReadOnly, ReadOnlyViolation;
      var rejected := true;
      if config.readOnly {
      } else if !ToolEnabled(config.categories, req.tool) || (req.action.Offboard? && !config.categories.offboarding) {
        reason, answer := CategoryDisabled, CategoryOff;
      } else if req.invalid.Some? {
        reason, answer := Validation, Invalid(req.invalid.value);
      } else if req.justification.None? || |Text.Trim(req.justification.value)| < MIN_JUSTIFICATION_LEN {
        reason, answer := Validation, JustificationTooShort;
      } else {
        rejected := false;
      }
      if rejected {
        steps := Reject(req, reason, answer, env, id, w0, steps);
        StillReachable(w0, steps, world);
        return Ok(answer), steps;
      }
      r, steps := Confirm(req, env, id, w0, steps);
      StillReachable(w0, steps, world);
    }

    /** The four handlers: what they reject themselves, what they pass on to be rejected and recorded,
        and what they pass on to be done. */
    method RunAction(tool: Tool, input: Input, details: Details, env: Env, id: nat)
      returns (r: Result<ToolAnswer, Invalidity>, ghost steps: seq<Step>)
      requires Valid() && id !in world.attempts
      modifies this`world, auditSink
      ensures Valid() && Path(old(world), steps, world, id)
      ensures var handled := Handle(config, tool, input, details);
        if handled.Err? then r == Err(handled.error) && world == old(world)
        else
          && r.Ok? && Attempted(old(world), world, id, handled.value, r.value)
          && (r.value == CategoryOff ==> !ActionEnabled(config, handled.value))
    {
      if !Known(config, tool, input.action) { return Err(UnknownAction), []; }
      var handling := HandlingOf(input.action);
      var unused := FirstPresent(handling.unused, input.fields);
      if unused.Some? {
        if handling.strict { return Err(Unused(unused.value)), []; }
        r, steps := ExecuteMutation(Rejection(tool, input, Unused(unused.value)), env, id);
        return;
      }
      if handling.changes != [] && FirstPresent(handling.changes, input.fields).None? {
        r, steps := ExecuteMutation(Rejection(tool, input, NoChange), env, id);
        return;
      }
      var missing := FirstAbsent(handling.required, input.fields);
      if missing.Some? { return Err(Missing(missing.value)), []; }
      r, steps := ExecuteMutation(Built(tool, input, details), env, id);
    }

    /** A call of a tool. A known action makes exactly one attempt, whatever the call carries, and is
        never told that its category is off; only an unknown action is a protocol error, and makes
        none. */
    method HandleCall(tool: Tool, input: Input, details: Details, env: Env, id: nat)
      returns (r: Result<ToolAnswer, Invalidity>, ghost steps: seq<Step>)
      requires Valid() && id !in world.attempts
      modifies this`world, auditSink
      ensures Valid() && Path(old(world), steps, world, id)
      ensures Known(config, tool, input.action) ==>
                r.Ok? && Attempted(old(world), world, id, RequestFor(config, tool, input, details), r.value)
      ensures !Known(config, tool, input.action) ==> r == Err(UnknownAction) && world == old(world)
      ensures ToolEnabled(config.categories, tool) ==> r != Ok(CategoryOff)
    {
      var justification := WrapperJustification(tool, input);
      r, steps := RunAction(tool, input, details, env, id);
      if Known(config, tool, input.action) && r.Err? {
        r, steps := ExecuteMutation(Request(tool, input.action, [], map[], justification, Some(r.error)), env, id);
      }
      if Known(config, tool, input.action) { KnownIsEnabled(config, tool, input, details); }
    }

    /** The entry point: a tool whose route was removed is refused, and recorded, without reading
        its arguments. */
    method CallTool(tool: Tool, input: Input, details: Details, env: Env, id: nat)
      returns (r: Result<ToolAnswer, Invalidity>, ghost steps: seq<Step>)
      requires Valid() && id !in world.attempts
      modifies this`world, auditSink
      ensures Valid() && Path(old(world), steps, world, id)
      ensures r.Err? <==> ToolEnabled(config.categories, tool) && !Known(config, tool, input.action)
      ensures r.Err? ==> world == old(world)
      ensures tool.DeviceResponse? && input.action.Offboard? && ToolEnabled(config.categories, tool) ==>
                (id in world.attempts <==> config.categories.offboarding)
      ensures r.Ok? && ToolEnabled(config.categories, tool) ==>
                && r.value != CategoryOff
                && Attempted(old(world), world, id, RequestFor(config, tool, input, details), r.value)
      ensures !ToolEnabled(config.categories, tool) ==>
                && r == Ok(if config.readOnly then ReadOnlyViolation else CategoryOff)
                && Attempted(old(world), world, id, HiddenRequest(tool), r.value)
    {
      if ToolEnabled(config.categories, tool) {
        r, steps := HandleCall(tool, input, details, env, id);
        return;
      }
      ghost var w0 := world;
      assert Path(w0, [], world, id);
      steps := Mirror(BeginHidden(id, tool), id, w0, []);
      var record := Record(id, Final, tool, Unlisted(""), [], map[], None, config.identity, NotApplicable,
                           Rejected(if config.readOnly then ReadOnly else CategoryDisabled));
      var written;
      written, steps := WriteRecord(record, env.finalOk, id, w0, steps);
      StillReachable(w0, steps, world);
      r := Ok(if config.readOnly then ReadOnlyViolation else CategoryOff);
    }
  }
}
