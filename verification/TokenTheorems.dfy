/** Theorems over whole runs of the token protocol, from any successful start-up. */
module TokenTheorems {
  import opened Wrappers
  import opened TokenProtocol
  import opened TokenSafety

  // ------------------------------------------------------------------ start-up

  /** Before any call: nobody holds the lock and every grant so far was answered. */
  ghost predicate Starting(w: World) {
    Inv(w) && w.mode.Delegated? && w.lock.None? && w.calls == map[] && w.reauth.None?
  }

  lemma GrantedRoundStored(w: World, aud: Audience, a: Answer, took: nat)
    requires Starting(w) && aud !in w.cache && a.Success?
    ensures InvStored(SignInRound(w, aud, a, took).value)
  {
    var w' := SignInRound(w, aud, a, took).value;
    var n := |w.grants|;
    forall x | x in w'.cache
      ensures exists i :: 0 <= i <= n && w'.grants[i].aud == x && w'.grants[i].stored == Some(w'.cache[x])
    {
      if x == aud {
        assert w'.grants[n].stored == Some(w'.cache[x]);
      } else {
        var i :| 0 <= i < n && w.grants[i].aud == x && w.grants[i].stored == Some(w.cache[x]);
        assert w'.grants[i] == w.grants[i];
      }
    }
  }

  lemma GrantedRoundFresh(w: World, aud: Audience, a: Answer, took: nat)
    requires Starting(w) && aud !in w.cache && a.Success?
    requires forall i :: 0 <= i < |w.grants| ==> w.grants[i].aud != aud
    ensures InvFresh(SignInRound(w, aud, a, took).value)
  {
  }

  lemma GrantedRoundChain(w: World, aud: Audience, a: Answer, took: nat)
    requires Starting(w) && a.Success?
    ensures InvChain(SignInRound(w, aud, a, took).value)
  {
  }

  lemma GrantedRoundKept(w: World, aud: Audience, a: Answer, took: nat)
    requires Starting(w) && aud !in w.cache && a.Success?
    requires forall i :: 0 <= i < |w.grants| ==> w.grants[i].aud != aud
    ensures Starting(SignInRound(w, aud, a, took).value)
  {
    GrantedRoundStored(w, aud, a, took);
    GrantedRoundFresh(w, aud, a, took);
    GrantedRoundChain(w, aud, a, took);
  }

  lemma RefusedRoundKept(w: World, aud: Audience, a: Answer, took: nat)
    requires Starting(w) && ConsentRefusal(a)
    requires forall i :: 0 <= i < |w.grants| ==> w.grants[i].aud != aud
    ensures Starting(SignInRound(w, aud, a, took).value)
  {
    var w' := SignInRound(w, aud, a, took).value;
    forall x | x in w'.cache
      ensures exists i :: 0 <= i < |w'.grants| && w'.grants[i].aud == x && w'.grants[i].stored == Some(w'.cache[x])
    {
      var i :| 0 <= i < |w.grants| && w.grants[i].aud == x && w.grants[i].stored == Some(w.cache[x]);
      assert w'.grants[i] == w.grants[i];
    }
    assert InvStored(w');
  }

  lemma RoundKept(w: World, aud: Audience, a: Answer, took: nat)
    requires Starting(w) && aud !in w.cache && SignInRound(w, aud, a, took).Ok?
    requires forall i :: 0 <= i < |w.grants| ==> w.grants[i].aud != aud
    ensures Starting(SignInRound(w, aud, a, took).value)
  {
    if a.Success? { GrantedRoundKept(w, aud, a, took); } else { RefusedRoundKept(w, aud, a, took); }
  }

  /** What one round leaves in the cache and the consent map. */
  lemma RoundEffect(w: World, aud: Audience, a: Answer, took: nat)
    ensures SignInRound(w, aud, a, took).Ok? <==> a.Success? || ConsentRefusal(a)
    ensures SignInRound(w, aud, a, took).Ok? ==>
              var w', e := SignInRound(w, aud, a, took).value, w.now + took + (if a.Success? then a.lifetime else 0);
              && w'.mode == w.mode
              && (forall x :: x in w'.cache <==> x in w.cache || (x == aud && a.Success?))
              && (forall x :: x in w'.cache ==>
                    w'.cache[x] == if x == aud && a.Success? then CachedToken(a.token, e) else w.cache[x])
              && w'.consent == w.consent[aud := if a.Success? then Granted(e) else Missing]
              && (forall g :: g in w'.grants ==> g in w.grants || g.aud == aud)
  {
  }

  /** Sign-in succeeds exactly when every audience is granted or lacks consent, and one is granted. */
  lemma SignInSucceeds(now: int, rt: string, a: Answer, took: nat, a': Answer, took': nat)
    ensures SignIn(now, rt, a, took, a', took').Ok?
      <==> (a.Success? && (a'.Success? || ConsentRefusal(a'))) || (ConsentRefusal(a) && a'.Success?)
  {
    var r := SignInRound(SignedIn(now, rt), Endpoint, a, took);
    RoundEffect(SignedIn(now, rt), Endpoint, a, took);
    if r.Ok? { RoundEffect(r.value, Graph, a', took'); }
  }

  /** After start-up an audience is granted with expiry e exactly when the cache holds a token of
      expiry e for it, and one at least is granted. */
  lemma ConsentMatchesCache(now: int, rt: string, a: Answer, took: nat, a': Answer, took': nat)
    requires SignIn(now, rt, a, took, a', took').Ok?
    ensures var w := SignIn(now, rt, a, took, a', took').value;
      && w.consent.Keys == {Endpoint, Graph}
      && (forall aud, e :: aud in w.consent && w.consent[aud] == Granted(e)
            <==> aud in w.cache && w.cache[aud].expiresAt == e)
      && (exists aud :: aud in w.consent && w.consent[aud].Granted?)
  {
    var w1 := SignInRound(SignedIn(now, rt), Endpoint, a, took).value;
    RoundEffect(SignedIn(now, rt), Endpoint, a, took);
    RoundEffect(w1, Graph, a', took');
    SignInSucceeds(now, rt, a, took, a', took');
    var w := SignIn(now, rt, a, took, a', took').value;
    assert w.consent[if a.Success? then Endpoint else Graph].Granted?;
    forall aud: Audience, e
      ensures aud in w.consent && w.consent[aud] == Granted(e) <==> aud in w.cache && w.cache[aud].expiresAt == e
    {
      match aud case Endpoint => case Graph =>
    }
  }

  lemma SignInInv(now: int, rt: string, a: Answer, took: nat, a': Answer, took': nat)
    requires SignIn(now, rt, a, took, a', took').Ok?
    ensures Starting(SignIn(now, rt, a, took, a', took').value)
  {
    var w0 := SignedIn(now, rt);
    var w1 := SignInRound(w0, Endpoint, a, took).value;
    RoundEffect(w0, Endpoint, a, took);
    RoundKept(w0, Endpoint, a, took);
    assert forall i :: 0 <= i < |w1.grants| ==> w1.grants[i] in w1.grants;
    RoundKept(w1, Graph, a', took');
  }

  lemma StartedInv(w: World)
    requires Started(w)
    ensures Inv(w)
  {
    if !(w.mode.App? && w == AppStart(w.now)) {
      var now, rt, a, took, a', took' :| SignIn(now, rt, a, took, a', took') == Ok(w);
      SignInInv(now, rt, a, took, a', took');
    }
  }

  // ------------------------------------------------------------------ runs

  lemma {:induction false} ReachesSnoc(w0: World, steps: seq<Step>, w: World, s: Step)
    requires Reaches(w0, steps, w) && Enabled(w, s)
    ensures Reaches(w0, steps + [s], Apply(w, s))
    decreases |steps|
  {
    if steps == [] {
      assert ([] + [s])[1..] == [];
    } else {
      ReachesSnoc(Apply(w0, steps[0]), steps[1..], w, s);
      assert (steps + [s])[1..] == steps[1..] + [s];
    }
  }

  lemma {:induction false} ReachesTrans(w0: World, steps: seq<Step>, w1: World, more: seq<Step>, w2: World)
    requires Reaches(w0, steps, w1) && Reaches(w1, more, w2)
    ensures Reaches(w0, steps + more, w2)
    decreases |more|
  {
    if more == [] {
      assert steps + more == steps;
    } else {
      ReachesSnoc(w0, steps, w1, more[0]);
      ReachesTrans(w0, steps + [more[0]], Apply(w1, more[0]), more[1..], w2);
      assert steps + [more[0]] + more[1..] == steps + more;
    }
  }

  lemma ReachableTrans(w: World, steps: seq<Step>, w': World)
    requires Reachable(w) && Reaches(w, steps, w')
    ensures Reachable(w')
  {
    var w0, before :| Started(w0) && Reaches(w0, before, w);
    ReachesTrans(w0, before, w, steps, w');
  }

  lemma {:induction false} RunKeepsInv(w: World, steps: seq<Step>, w': World)
    requires Inv(w) && Reaches(w, steps, w')
    ensures Inv(w')
    decreases |steps|
  {
    if steps != [] {
      InvKept(w, steps[0]);
      RunKeepsInv(Apply(w, steps[0]), steps[1..], w');
    }
  }

  lemma ReachableInv(w: World)
    requires Reachable(w)
    ensures Inv(w)
  {
    var w0, steps :| Started(w0) && Reaches(w0, steps, w);
    StartedInv(w0);
    RunKeepsInv(w0, steps, w);
  }

  /** Whatever starts and however calls interleave: the grants, start-up's included, form one chain
      of refresh tokens, and one grant at most is in flight, the last. */
  lemma GrantsFormOneChain(w: World)
    requires Reachable(w)
    ensures Chained(w.signedIn, w.grants)
    ensures forall i :: 0 <= i < |w.grants| && w.grants[i].answer.None? ==>
              i == |w.grants| - 1 && exists id :: id in w.calls && w.calls[id].pc.AwaitAnswer?
    ensures forall id, other :: id in w.calls && other in w.calls ==>
              w.calls[id].pc.AwaitAnswer? && w.calls[other].pc.AwaitAnswer? ==> id == other
    ensures forall id :: id in w.calls && w.calls[id].pc.AwaitAnswer? ==>
              |w.grants| > 0 && w.grants[|w.grants| - 1].answer.None? && w.grants[|w.grants| - 1].aud == w.calls[id].aud
  {
    ReachableInv(w);
    if w.lock.Some? { assert Holder(w) == Some(w.calls[w.lock.value]); }
  }

  /** Every token a call returns was issued to a grant for that call's audience. */
  lemma ReturnedTokensWereIssued(w: World, id: nat)
    requires Reachable(w) && id in w.calls && w.calls[id].pc.Done? && w.calls[id].pc.result.Ok?
    ensures exists i :: 0 <= i < |w.grants| && w.grants[i].aud == w.calls[id].aud
              && w.grants[i].answer.Some? && w.grants[i].answer.value.Success?
              && w.grants[i].answer.value.token == w.calls[id].pc.result.value
  {
    ReachableInv(w);
    var i :| 0 <= i < |w.grants| && w.grants[i].aud == w.calls[id].aud && w.grants[i].stored.Some?
      && w.grants[i].stored.value.token == w.calls[id].pc.result.value;
  }

  // ------------------------------------------------------------------ grants over a run

  /** Recorded grants are only ever completed; a new one begins at the present. */
  ghost predicate GrantsGrow(gs: seq<Grant>, since: int, gs': seq<Grant>) {
    && |gs| <= |gs'|
    && (forall i :: 0 <= i < |gs| ==>
          && gs'[i].aud == gs[i].aud && gs'[i].presented == gs[i].presented && gs'[i].beganAt == gs[i].beganAt
          && (gs[i].stored.Some? ==> gs'[i].stored == gs[i].stored))
    && (forall i :: |gs| <= i < |gs'| ==> since <= gs'[i].beganAt)
  }

  predicate Sends(w: World, s: Step) {
    s.Advance? && s.id in w.calls && w.calls[s.id].pc.SendGrant?
  }

  /** A step that sends no grant leaves their number; it may complete the last one. */
  lemma OthersKeepGrants(w: World, s: Step)
    requires Enabled(w, s) && InvLock(w) && InvChain(w) && !Sends(w, s)
    ensures GrantsGrow(w.grants, w.now, Apply(w, s).grants) && |Apply(w, s).grants| == |w.grants|
  {
    if s.Reply? || (s.Advance? && w.calls[s.id].pc.StoreToken?) {
      assert Holder(w) == Some(w.calls[s.id]);
    } else if s.Advance? {
      if Writes(w.calls[s.id].pc) { CacheUntouched(w, s.id); } else { ReadsOnly(w, s.id); }
    }
  }

  lemma StepGrowsGrants(w: World, s: Step)
    requires Enabled(w, s) && Inv(w)
    ensures GrantsGrow(w.grants, w.now, Apply(w, s).grants)
    ensures w.now <= Apply(w, s).now
    ensures |Apply(w, s).grants| == |w.grants| + (if Sends(w, s) then 1 else 0)
    ensures Sends(w, s) ==> Apply(w, s).grants[|w.grants|].aud == w.calls[s.id].aud
  {
    if s.Advance? { MoveShape(w, s.id); }
    if Sends(w, s) { SendAppends(w, s.id); } else { OthersKeepGrants(w, s); }
  }

  lemma {:induction false} RunGrowsGrants(w: World, steps: seq<Step>, w': World)
    requires Inv(w) && Reaches(w, steps, w')
    ensures GrantsGrow(w.grants, w.now, w'.grants) && w.now <= w'.now
    decreases |steps|
  {
    if steps != [] {
      StepGrowsGrants(w, steps[0]);
      InvKept(w, steps[0]);
      RunGrowsGrants(Apply(w, steps[0]), steps[1..], w');
    }
  }

  /** Single flight: while a cached token is more than the buffer away from its expiry, no grant
      for its audience begins, however many calls are queued, and the token stays cached. */
  lemma SingleFlightHolds(w: World, steps: seq<Step>, w': World, aud: Audience)
    requires Reachable(w) && Reaches(w, steps, w')
    requires aud in w.cache && w'.now + EXPIRY_BUFFER < w.cache[aud].expiresAt
    ensures forall k :: |w.grants| <= k < |w'.grants| ==> w'.grants[k].aud != aud
    ensures aud in w'.cache && w'.cache[aud] == w.cache[aud]
  {
    ReachableInv(w);
    RunKeepsInv(w, steps, w');
    RunGrowsGrants(w, steps, w');
    var i :| 0 <= i < |w.grants| && w.grants[i].aud == aud && w.grants[i].stored == Some(w.cache[aud]);
    assert w'.grants[i].aud == aud && w'.grants[i].stored == Some(w.cache[aud]);
  }

  // ------------------------------------------------------------------ re-authentication

  /** The lock's holder has read the flag for the second time, sent nothing yet, and is not about to
      find that its audience lost consent. */
  predicate MaySend(w: World) {
    && Holder(w).Some?
    && var Call(aud, pc) := Holder(w).value; PastRecheck(pc) && !(pc.RecheckConsent? && Lost(w, aud))
  }

  /** How many grants may still begin once the flag is set. */
  function Exposure(w: World): nat {
    if MaySend(w) then 1 else 0
  }

  lemma ReauthWrite(w: World, id: nat)
    requires Enabled(w, Advance(id)) && Inv(w) && Expelled(w) && Writes(w.calls[id].pc)
    ensures Move(w, id).mode == w.mode && Move(w, id).reauth == w.reauth
    ensures |Move(w, id).grants| + Exposure(Move(w, id)) <= |w.grants| + Exposure(w)
  {
    WriteEffect(w, id);
    assert w.lock == Some(id);
    if w.calls[id].pc.SendGrant? { SendAppends(w, id); }
  }

  lemma ReauthRead(w: World, id: nat)
    requires Enabled(w, Advance(id)) && Inv(w) && Expelled(w) && !Writes(w.calls[id].pc)
    ensures Move(w, id).mode == w.mode && Move(w, id).reauth == w.reauth
    ensures |Move(w, id).grants| + Exposure(Move(w, id)) <= |w.grants| + Exposure(w)
  {
    ReadsOnly(w, id);
  }

  lemma ReauthStep(w: World, s: Step)
    requires Enabled(w, s) && Inv(w) && Expelled(w)
    ensures Expelled(Apply(w, s)) && Apply(w, s).reauth == w.reauth
    ensures |Apply(w, s).grants| + Exposure(Apply(w, s)) <= |w.grants| + Exposure(w)
  {
    if s.Advance? {
      if Writes(w.calls[s.id].pc) { ReauthWrite(w, s.id); } else { ReauthRead(w, s.id); }
    } else {
      StepGrowsGrants(w, s);
      if s.Reply? { assert Holder(w) == Some(w.calls[s.id]); }
    }
  }

  /** Once set, the reason never changes, and one grant at most begins afterwards: by the call that
      was already past its second reading. */
  lemma {:induction false} ReauthIsFinal(w: World, steps: seq<Step>, w': World)
    requires Inv(w) && Expelled(w) && Reaches(w, steps, w')
    ensures w'.reauth == w.reauth && Expelled(w')
    ensures |w'.grants| <= |w.grants| + Exposure(w)
    decreases |steps|
  {
    if steps != [] {
      ReauthStep(w, steps[0]);
      InvKept(w, steps[0]);
      ReauthIsFinal(Apply(w, steps[0]), steps[1..], w');
    }
  }

  /** A refused grant leaves nobody who may still send one. */
  lemma RefusalExposesNone(w: World, id: nat)
    requires Inv(w) && Enabled(w, Advance(id)) && w.calls[id].pc.Refuse?
    ensures Exposure(Move(w, id)) == 0 && Move(w, id).grants == w.grants && Move(w, id).now == w.now
    ensures w.mode.Delegated? && Verdict(w.mode, w.calls[id].pc.refusal).Reauthenticate? ==> Expelled(Move(w, id))
  {
    CacheUntouched(w, id);
    assert w.lock == Some(id);
  }

  /** When a refused grant sets the flag, no grant at all follows. */
  lemma NoGrantAfterRefusal(w: World, id: nat, steps: seq<Step>, w': World)
    requires Reachable(w) && Enabled(w, Advance(id)) && w.calls[id].pc.Refuse?
    requires Verdict(w.mode, w.calls[id].pc.refusal).Reauthenticate?
    requires Reaches(Move(w, id), steps, w')
    ensures |w'.grants| == |w.grants| && GrantsGrow(w.grants, w.now, w'.grants)
    ensures w'.reauth.Some?
  {
    ReachableInv(w);
    InvKept(w, Advance(id));
    RefusalExposesNone(w, id);
    ReauthIsFinal(Move(w, id), steps, w');
    RunGrowsGrants(Move(w, id), steps, w');
  }

  /** A failed grant only fails its call, and leaves the session, the cache and the refresh token as
      they were, exactly in app mode or when it was a network error or an endpoint error other than
      `invalid_grant` and `interaction_required`. */
  lemma TransientFailureIsHarmless(w: World, id: nat)
    requires Reachable(w) && Enabled(w, Advance(id)) && w.calls[id].pc.Refuse?
    ensures var w', a := Move(w, id), w.calls[id].pc.refusal;
      w.mode.App? || a.OtherError? || (a.error != "invalid_grant" && a.error != "interaction_required")
      <==> SameShared(w, w') && w'.calls[id].pc == Done(Err(RefreshFailed))
  {
    WriteEffect(w, id);
    assert Move(w, id).calls[id].pc == Done(Err(Verdict(w.mode, w.calls[id].pc.refusal)));
  }

  predicate InvalidGrant(a: Refusal, codes: set<nat>) {
    a.EndpointError? && a.error == "invalid_grant" && a.aadsts.Some? && a.aadsts.value in codes
  }

  /** A failure and the answer behind it, code by code. */
  predicate Explains(a: Refusal, f: Failure) {
    && (f == Reauthenticate(SessionExpired) <==> InvalidGrant(a, {700082, 70043, 50173}))
    && (f == Reauthenticate(MfaRequired) <==> InvalidGrant(a, {50076, 50079}))
    && (f == ConsentMissing <==> InvalidGrant(a, {65001}))
    && (f == Reauthenticate(SessionRevoked) <==>
         && a.EndpointError? && a.error == "invalid_grant"
         && !InvalidGrant(a, {700082, 70043, 50173, 50076, 50079, 65001}))
    && (f == Reauthenticate(InteractionRequired) <==> a.EndpointError? && a.error == "interaction_required")
    && (f == RefreshFailed <==> a.OtherError? || a.error !in {"invalid_grant", "interaction_required"})
  }

  /** A refused grant of a delegated session fails its call as the error code says; the flag keeps that
      reason, unless it has one, and the audience loses its consent, exactly for the code that says so. */
  lemma RefusalMeansItsCode(w: World, id: nat)
    requires w.mode.Delegated? && Enabled(w, Advance(id)) && w.calls[id].pc.Refuse?
    ensures var a, w' := w.calls[id].pc.refusal, Move(w, id);
      && w'.calls[id].pc.Done? && w'.calls[id].pc.result.Err? && Explains(a, w'.calls[id].pc.result.error)
      && (forall reason :: w'.reauth == Some(reason) <==>
            w.reauth == Some(reason)
            || (w.reauth.None? && w'.calls[id].pc.result.error == Reauthenticate(reason)))
      && w'.consent == if InvalidGrant(a, {65001}) then w.consent[w.calls[id].aud := Missing] else w.consent
  {
    WriteEffect(w, id);
    assert Move(w, id).calls[id].pc == Done(Err(Verdict(w.mode, w.calls[id].pc.refusal)));
  }

  /** How many of its own steps a call still has to take at most. */
  function Remaining(pc: Pc): nat {
    match pc
    case CheckReauth => 12
    case CheckConsent => 11
    case CheckCache => 10
    case WaitLock => 9
    case RecheckReauth => 8
    case RecheckConsent => 7
    case RecheckCache => 6
    case ReadRefresh => 5
    case SendGrant(_) => 4
    case AwaitAnswer(_) => 3
    case Rotate(_) => 2
    case StoreToken(_) => 1
    case Refuse(_) => 1
    case Done(_) => 0
  }

  /** One more step that brings the holder nearer its grant; a fresh token first has to age. */
  lemma HolderGoesOn(w: World, id: nat)
    requires Inv(w) && MaySend(w) && w.lock == Some(id) && !w.calls[id].pc.SendGrant?
    requires w.calls[id].pc.RecheckCache? ==> !Fresh(w, w.calls[id].aud)
    ensures Enabled(w, Advance(id))
    ensures var w' := Move(w, id);
      && w'.lock == Some(id) && MaySend(w') && w'.grants == w.grants
      && Remaining(w'.calls[id].pc) < Remaining(w.calls[id].pc)
  {
    ReadsOnly(w, id);
  }

  lemma Aged(w: World, id: nat) returns (secs: nat)
    requires Inv(w) && MaySend(w) && w.lock == Some(id) && w.calls[id].pc.RecheckCache?
    ensures var w' := Apply(w, Tick(secs));
      !Fresh(w', w.calls[id].aud) && MaySend(w') && w'.calls == w.calls && w'.lock == w.lock && w'.grants == w.grants
  {
    var aud := w.calls[id].aud;
    secs := if aud in w.cache && w.cache[aud].expiresAt > w.now then w.cache[aud].expiresAt - w.now else 0;
  }

  lemma OneStep(w: World, s: Step) returns (steps: seq<Step>)
    requires Enabled(w, s)
    ensures Reaches(w, steps, Apply(w, s))
  {
    steps := [s];
    assert steps[1..] == [];
  }

  /** Wherever a grant may still begin, some run of the holder begins it. */
  lemma {:induction false} HolderSends(w: World, id: nat) returns (steps: seq<Step>, w': World)
    requires Inv(w) && MaySend(w) && w.lock == Some(id)
    ensures Reaches(w, steps, w') && |w'.grants| == |w.grants| + 1
    decreases Remaining(w.calls[id].pc), Fresh(w, w.calls[id].aud)
  {
    var pc := w.calls[id].pc;
    if pc.SendGrant? {
      SendAppends(w, id);
      w' := Move(w, id);
      steps := OneStep(w, Advance(id));
    } else if pc.RecheckCache? && Fresh(w, w.calls[id].aud) {
      var secs := Aged(w, id);
      InvKept(w, Tick(secs));
      steps, w' := HolderSends(Apply(w, Tick(secs)), id);
      steps := [Tick(secs)] + steps;
    } else {
      HolderGoesOn(w, id);
      InvKept(w, Advance(id));
      steps, w' := HolderSends(Move(w, id), id);
      steps := [Advance(id)] + steps;
    }
  }

  ghost predicate SomeGrantFollows(w: World) {
    exists steps, w' :: Reaches(w, steps, w') && |w'.grants| > |w.grants|
  }

  /** Once the flag is set, a grant can still begin if and only if the lock's holder is already past
      its second reading of the flag and does not find its audience's consent lost. */
  lemma GrantMayFollowExactly(w: World)
    requires Reachable(w) && Expelled(w)
    ensures SomeGrantFollows(w) <==> MaySend(w)
  {
    ReachableInv(w);
    if MaySend(w) {
      var steps, w' := HolderSends(w, w.lock.value);
    } else if SomeGrantFollows(w) {
      var steps, w' :| Reaches(w, steps, w') && |w'.grants| > |w.grants|;
      ReauthIsFinal(w, steps, w');
    }
  }

  /** A successful start-up whose tokens are of no use from the first. */
  function Stale(): World {
    SignIn(0, "r", Success("e", 0, None), 0, Success("g", 0, None), 0).value
  }

  lemma OneMore(w: World, s: Step)
    requires Reachable(w) && Enabled(w, s)
    ensures Reachable(Apply(w, s))
  {
    var steps := OneStep(w, s);
    ReachableTrans(w, steps, Apply(w, s));
  }

  /** Delegated, nobody barred, nothing fresh for the first call's audience, which stands at `pc`. */
  ghost predicate Underway(w: World, pc: Pc) {
    && Reachable(w) && w.mode.Delegated? && w.reauth.None? && !Lost(w, Endpoint) && !Fresh(w, Endpoint)
    && 0 in w.calls && w.calls[0] == Call(Endpoint, pc) && (w.lock.None? || w.lock == Some(0))
  }

  lemma FirstCall() returns (w: World)
    ensures Underway(w, CheckReauth) && w.lock.None?
  {
    w := Stale();
    SignInSucceeds(0, "r", Success("e", 0, None), 0, Success("g", 0, None), 0);
    assert Started(w) && Reaches(w, [], w);
    assert Reachable(w);
    OneMore(w, Arrive(0, Endpoint));
    w := Apply(w, Arrive(0, Endpoint));
  }

  lemma CallQueues(w: World) returns (w': World)
    requires Underway(w, CheckReauth) && w.lock.None?
    ensures Underway(w', WaitLock) && w'.lock.None?
  {
    OneMore(w, Advance(0));
    w' := Move(w, 0);
    OneMore(w', Advance(0));
    w' := Move(w', 0);
    OneMore(w', Advance(0));
    w' := Move(w', 0);
  }

  lemma CallRechecks(w: World) returns (w': World)
    requires Underway(w, WaitLock) && w.lock.None?
    ensures Underway(w', RecheckConsent) && w'.lock == Some(0)
  {
    OneMore(w, Advance(0));
    w' := Move(w, 0);
    OneMore(w', Advance(0));
    w' := Move(w', 0);
  }

  /** It happens: a call gets past its second reading, a challenge arrives, and its grant begins. */
  lemma OneGrantMayFollow(reason: ReauthReason)
    ensures exists w :: Reachable(w) && w.reauth == Some(reason) && SomeGrantFollows(w)
  {
    var w := FirstCall();
    w := CallQueues(w);
    w := CallRechecks(w);
    OneMore(w, Challenge(reason));
    w := Apply(w, Challenge(reason));
    GrantMayFollowExactly(w);
  }

  /** Calls that have yet to read the flag, the queued ones included. */
  predicate MustSeeReauth(w: World, id: nat) {
    && id in w.calls
    && var pc := w.calls[id].pc;
       pc.CheckReauth? || pc.WaitLock? || pc.RecheckReauth?
       || (w.reauth.Some? && pc == Done(Err(Reauthenticate(w.reauth.value))))
  }

  lemma LateCallStep(w: World, s: Step, id: nat)
    requires Enabled(w, s) && Expelled(w) && MustSeeReauth(w, id)
    ensures MustSeeReauth(Apply(w, s), id)
  {
    if s.Advance? { MoveShape(w, s.id); }
  }

  /** A call that arrives, or queues, once the flag is set can only return its reason. */
  lemma {:induction false} LateCallsAreRefused(w: World, steps: seq<Step>, w': World, id: nat)
    requires Inv(w) && Expelled(w) && Reaches(w, steps, w') && MustSeeReauth(w, id)
    ensures MustSeeReauth(w', id) && w'.reauth == w.reauth
    decreases |steps|
  {
    if steps != [] {
      ReauthStep(w, steps[0]);
      LateCallStep(w, steps[0], id);
      InvKept(w, steps[0]);
      LateCallsAreRefused(Apply(w, steps[0]), steps[1..], w', id);
    }
  }

  // ------------------------------------------------------------------ consent

  /** A lost consent stays lost, and no grant for that audience begins. */
  lemma LostStep(w: World, s: Step, aud: Audience)
    requires Enabled(w, s) && Inv(w) && Lost(w, aud)
    ensures Lost(Apply(w, s), aud)
    ensures Sends(w, s) ==> w.calls[s.id].aud != aud
  {
    if s.Advance? {
      if Writes(w.calls[s.id].pc) { WriteEffect(w, s.id); } else { ReadsOnly(w, s.id); }
    }
  }

  lemma {:induction false} LostConsentIsFinal(w: World, steps: seq<Step>, w': World, aud: Audience)
    requires Inv(w) && Lost(w, aud) && Reaches(w, steps, w')
    ensures Lost(w', aud)
    ensures forall k :: |w.grants| <= k < |w'.grants| ==> w'.grants[k].aud != aud
    decreases |steps|
  {
    if steps != [] {
      var w1 := Apply(w, steps[0]);
      LostStep(w, steps[0], aud);
      InvKept(w, steps[0]);
      StepGrowsGrants(w, steps[0]);
      LostConsentIsFinal(w1, steps[1..], w', aud);
      RunGrowsGrants(w1, steps[1..], w');
    }
  }

  /** Consent is lost only by a refused grant of that audience, which touches nothing else. */
  lemma LosingConsentIsLocal(w: World, s: Step, aud: Audience)
    requires Enabled(w, s) && Inv(w) && !Lost(w, aud) && Lost(Apply(w, s), aud)
    ensures s.Advance? && w.calls[s.id].aud == aud && w.calls[s.id].pc.Refuse?
    ensures ConsentRefusal(w.calls[s.id].pc.refusal)
    ensures var w' := Apply(w, s);
      && w'.reauth == w.reauth && w'.cache == w.cache && w'.refresh == w.refresh
      && w'.consent == w.consent[aud := Missing]
  {
    if s.Advance? {
      if Writes(w.calls[s.id].pc) { WriteEffect(w, s.id); } else { ReadsOnly(w, s.id); }
    }
  }

  // ------------------------------------------------------------------ progress

  /** No interleaving gets stuck: while any call is unfinished some call can step (one that waits
      for the provider can be answered), and a call's own step brings it nearer its end. */
  lemma NeverStuck(w: World, id: nat)
    requires Reachable(w) && id in w.calls && !w.calls[id].pc.Done?
    ensures exists s :: Enabled(w, s) && (s.Advance? || s.Reply?)
  {
    ReachableInv(w);
    var runner := if w.lock.Some? then w.lock.value else id;
    if w.calls[runner].pc.AwaitAnswer? {
      assert Enabled(w, Reply(runner, OtherError));
    } else {
      assert Enabled(w, Advance(runner));
    }
  }

  lemma OwnStepsRunOut(w: World, s: Step)
    requires Enabled(w, s) && (s.Advance? || s.Reply?)
    ensures Remaining(Apply(w, s).calls[s.id].pc) < Remaining(w.calls[s.id].pc)
    ensures forall other :: other in w.calls && other != s.id
              ==> other in Apply(w, s).calls && Apply(w, s).calls[other] == w.calls[other]
  {
    if s.Advance? { MoveShape(w, s.id); }
  }
}
