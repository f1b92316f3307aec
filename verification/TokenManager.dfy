/** The objects of src/auth.rs and src/auth/session.rs, and `get_token` as the source writes it.

    `world` mirrors the object as a state of the step relation: every method says which steps of
    the protocol it takes, so the theorems about runs are theorems about these objects. */
module TokenManager {
  import opened Wrappers
  import opened TokenProtocol
  import opened TokenSafety
  import opened TokenTheorems

  class DelegatedSession {
    var refreshToken: string
    var consent: map<Audience, Consent>
    var reauth: Option<ReauthReason>

    constructor (refreshToken: string, consent: map<Audience, Consent>)
      ensures this.refreshToken == refreshToken && this.consent == consent && reauth == None
    {
      this.refreshToken, this.consent, reauth := refreshToken, consent, None;
    }

    /** The first reason recorded is the one kept. */
    method SetReauth(reason: ReauthReason)
      modifies this`reauth
      ensures reauth == if old(reauth).Some? then old(reauth) else Some(reason)
    {
      if reauth.None? {
        reauth := Some(reason);
      }
    }

    method SetConsent(aud: Audience, state: Consent)
      modifies this`consent
      ensures consent == old(consent)[aud := state]
    {
      consent := consent[aud := state];
    }

    method ConsentState(aud: Audience) returns (state: Option<Consent>)
      ensures state.Some? <==> aud in consent
      ensures state.Some? ==> state.value == consent[aud]
    {
      state := if aud in consent then Some(consent[aud]) else None;
    }
  }

  datatype Credential = ClientSecret | UserSession(session: DelegatedSession)

  /** `steps` lead from `w0` to `w`, and are nothing but the passing of time and the steps of call
      `id`, answered by `answer`. */
  ghost predicate Path(w0: World, steps: seq<Step>, w: World, id: nat, answer: Answer) {
    && Reaches(w0, steps, w)
    && forall s :: s in steps ==> s.Tick? || s == Advance(id) || s == Reply(id, answer) || (s.Arrive? && s.id == id)
  }

  lemma PathSnoc(w0: World, steps: seq<Step>, w: World, s: Step, id: nat, answer: Answer)
    requires Path(w0, steps, w, id, answer) && Enabled(w, s)
    requires s.Tick? || s == Advance(id) || s == Reply(id, answer) || (s.Arrive? && s.id == id)
    ensures Path(w0, steps + [s], Apply(w, s), id, answer)
  {
    ReachesSnoc(w0, steps, w, s);
  }

  /** What the caller of a phase still sees of the state: everything but the call's own place. */
  ghost predicate SameSession(w: World, w': World) {
    && w'.mode == w.mode && w'.cache == w.cache && w'.refresh == w.refresh
    && w'.consent == w.consent && w'.reauth == w.reauth
  }

  /** The two readings of the session, before the lock or under it. */
  lemma SessionChecked(w0: World, steps: seq<Step>, w: World, id: nat, aud: Audience, answer: Answer, locked: bool)
    returns (steps': seq<Step>, w': World)
    requires Path(w0, steps, w, id, answer) && id in w.calls
    requires w.calls[id] == Call(aud, if locked then RecheckReauth else CheckReauth)
    ensures Path(w0, steps', w', id, answer) && SameSession(w, w') && w'.now == w.now && id in w'.calls
    ensures w'.grants == w.grants
    ensures var stop := Expelled(w) || Lost(w, aud);
      && w'.calls[id] == Call(aud,
           if Expelled(w) then Done(Err(Reauthenticate(w.reauth.value)))
           else if Lost(w, aud) then Done(Err(ConsentMissing))
           else if locked then RecheckCache else CheckCache)
      && w'.lock == if stop && locked then None else w.lock
  {
    PathSnoc(w0, steps, w, Advance(id), id, answer);
    steps', w' := steps + [Advance(id)], Move(w, id);
    if !Expelled(w) {
      PathSnoc(w0, steps', w', Advance(id), id, answer);
      steps', w' := steps' + [Advance(id)], Move(w', id);
    }
  }

  /** A look at the cache at time `now`. */
  lemma CacheRead(w0: World, steps: seq<Step>, w: World, id: nat, aud: Audience, answer: Answer, locked: bool, now: int)
    returns (steps': seq<Step>, w': World)
    requires Path(w0, steps, w, id, answer) && id in w.calls && w.now <= now
    requires w.calls[id] == Call(aud, if locked then RecheckCache else CheckCache)
    ensures Path(w0, steps', w', id, answer) && SameSession(w, w') && w'.now == now && id in w'.calls
    ensures w'.grants == w.grants
    ensures var hit := aud in w.cache && IsValid(w.cache[aud], now);
      && w'.calls[id] ==
          Call(aud, if hit then Done(Ok(w.cache[aud].token)) else if locked then ReadRefresh else WaitLock)
      && w'.lock == if hit && locked then None else w.lock
  {
    var tick := Tick(now - w.now);
    PathSnoc(w0, steps, w, tick, id, answer);
    var w1 := Apply(w, tick);
    PathSnoc(w0, steps + [tick], w1, Advance(id), id, answer);
    steps', w' := steps + [tick] + [Advance(id)], Move(w1, id);
  }

  lemma LockTaken(w0: World, steps: seq<Step>, w: World, id: nat, aud: Audience, answer: Answer)
    returns (steps': seq<Step>, w': World)
    requires Path(w0, steps, w, id, answer) && id in w.calls && w.calls[id] == Call(aud, WaitLock) && w.lock.None?
    ensures Path(w0, steps', w', id, answer) && SameSession(w, w') && w'.now == w.now && w'.lock == Some(id)
    ensures id in w'.calls && w'.calls[id] == Call(aud, RecheckReauth) && w'.grants == w.grants
  {
    PathSnoc(w0, steps, w, Advance(id), id, answer);
    steps', w' := steps + [Advance(id)], Move(w, id);
  }

  /** Read the refresh token and send the grant. */
  lemma GrantSent(w0: World, steps: seq<Step>, w: World, id: nat, aud: Audience, answer: Answer)
    returns (steps': seq<Step>, w': World)
    requires Path(w0, steps, w, id, answer) && id in w.calls
    requires w.calls[id] == Call(aud, ReadRefresh) && w.lock == Some(id)
    ensures Path(w0, steps', w', id, answer) && SameSession(w, w') && w'.now == w.now && w'.lock == w.lock
            && id in w'.calls
    ensures w'.calls[id] == Call(aud, AwaitAnswer(w.refresh))
    ensures w'.grants == w.grants + [Grant(aud, w.refresh, w.now, None, None)]
  {
    PathSnoc(w0, steps, w, Advance(id), id, answer);
    var w1 := Move(w, id);
    PathSnoc(w0, steps + [Advance(id)], w1, Advance(id), id, answer);
    steps', w' := steps + [Advance(id)] + [Advance(id)], Move(w1, id);
  }

  /** Wait until `now` for the answer. */
  lemma AnswerCame(w0: World, steps: seq<Step>, w: World, id: nat, aud: Audience, answer: Answer, now: int)
    returns (steps': seq<Step>, w': World)
    requires Path(w0, steps, w, id, answer) && id in w.calls && w.now <= now
    requires w.calls[id].aud == aud && w.calls[id].pc.AwaitAnswer?
    requires w.mode.App? && answer.Success? ==> answer.rotated.None?
    ensures Path(w0, steps', w', id, answer) && SameSession(w, w') && w'.now == now && w'.lock == w.lock
            && id in w'.calls
    ensures w'.calls[id] == Call(aud, if answer.Success? then Rotate(answer) else Refuse(answer))
  {
    var tick := Tick(now - w.now);
    PathSnoc(w0, steps, w, tick, id, answer);
    var w1 := Apply(w, tick);
    PathSnoc(w0, steps + [tick], w1, Reply(id, answer), id, answer);
    steps', w' := steps + [tick] + [Reply(id, answer)], Apply(w1, Reply(id, answer));
  }

  /** What reading session and cache finds: a failure, a cached token, or neither. */
  function Found(w: World, aud: Audience, now: int): Option<Result<string, Failure>> {
    if Expelled(w) then Some(Err(Reauthenticate(w.reauth.value)))
    else if Lost(w, aud) then Some(Err(ConsentMissing))
    else if aud in w.cache && IsValid(w.cache[aud], now) then Some(Ok(w.cache[aud].token))
    else None
  }

  /** The way of a call to the lock. */
  lemma Entered(w0: World, id: nat, aud: Audience, now: int) returns (steps: seq<Step>, w: World)
    requires id !in w0.calls && w0.now <= now
    ensures Path(w0, steps, w, id, OtherError) && SameSession(w0, w) && w.now <= now && w.lock == w0.lock
    ensures w.grants == w0.grants
    ensures var r := Found(w0, aud, now);
      id in w.calls && w.calls[id] == Call(aud, if r.Some? then Done(r.value) else WaitLock)
  {
    assert Path(w0, [], w0, id, OtherError);
    PathSnoc(w0, [], w0, Arrive(id, aud), id, OtherError);
    steps, w := [Arrive(id, aud)], Apply(w0, Arrive(id, aud));
    steps, w := SessionChecked(w0, steps, w, id, aud, OtherError, false);
    if !Expelled(w0) && !Lost(w0, aud) {
      steps, w := CacheRead(w0, steps, w, id, aud, OtherError, false, now);
    }
  }

  /** The way of a call from the lock to the provider. */
  lemma Acquired(w0: World, id: nat, aud: Audience, answer: Answer, now: int) returns (steps: seq<Step>, w: World)
    requires id in w0.calls && w0.calls[id] == Call(aud, WaitLock) && w0.lock.None? && w0.now <= now
    ensures Path(w0, steps, w, id, answer) && SameSession(w0, w) && w.now <= now && id in w.calls
    ensures var r := Found(w0, aud, now);
      if r.Some? then w.calls[id] == Call(aud, Done(r.value)) && w.lock.None? && w.grants == w0.grants
      else
        && w.calls[id] == Call(aud, AwaitAnswer(w.refresh)) && w.lock == Some(id) && w.now == now
        && w.grants == w0.grants + [Grant(aud, w.refresh, now, None, None)]
  {
    assert Path(w0, [], w0, id, answer);
    steps, w := LockTaken(w0, [], w0, id, aud, answer);
    steps, w := SessionChecked(w0, steps, w, id, aud, answer, true);
    if !Expelled(w0) && !Lost(w0, aud) {
      steps, w := CacheRead(w0, steps, w, id, aud, answer, true, now);
      if Found(w0, aud, now).None? { steps, w := GrantSent(w0, steps, w, id, aud, answer); }
    }
  }

  lemma TokenAccepted(w0: World, steps: seq<Step>, w: World, id: nat, aud: Audience, answer: Issue)
    returns (steps': seq<Step>, w': World)
    requires Path(w0, steps, w, id, answer) && id in w.calls
    requires w.calls[id] == Call(aud, Rotate(answer)) && w.lock == Some(id)
    ensures Path(w0, steps', w', id, answer) && w'.now == w.now && w'.lock.None? && w'.mode == w.mode
    ensures id in w'.calls && w'.calls[id] == Call(aud, Done(Ok(answer.token)))
    ensures w'.refresh == (if answer.rotated.Some? then answer.rotated.value else w.refresh)
    ensures w'.cache == w.cache[aud := CachedToken(answer.token, w.now + answer.lifetime)]
    ensures w'.consent == w.consent && w'.reauth == w.reauth
  {
    PathSnoc(w0, steps, w, Advance(id), id, answer);
    var w1 := Move(w, id);
    PathSnoc(w0, steps + [Advance(id)], w1, Advance(id), id, answer);
    steps', w' := steps + [Advance(id)] + [Advance(id)], Move(w1, id);
  }

  /** What a granted token changes: the refresh token if a new one came, and the cache. */
  ghost predicate TokenKept(w: World, w': World, aud: Audience, answer: Issue, now: int) {
    && w'.refresh == (if answer.rotated.Some? then answer.rotated.value else w.refresh)
    && w'.cache == w.cache[aud := CachedToken(answer.token, now + answer.lifetime)]
    && w'.consent == w.consent && w'.reauth == w.reauth
  }

  /** What a refusal changes: the flag, unless it is set, or the audience's consent, or nothing. */
  ghost predicate RefusalKept(w: World, w': World, aud: Audience, failure: Failure) {
    && w'.refresh == w.refresh && w'.cache == w.cache
    && w'.consent == (if failure.ConsentMissing? then w.consent[aud := Missing] else w.consent)
    && w'.reauth == (if failure.Reauthenticate? && w.reauth.None? then Some(failure.reason) else w.reauth)
  }

  class TokenManager {
    const credential: Credential
    var cache: map<Audience, CachedToken>
    ghost var world: World

    ghost predicate Valid()
      reads this, if credential.UserSession? then {credential.session} else {}
    {
      Mirrors() && Reachable(world)
    }

    /** The fields are what the mirrored state says. */
    ghost predicate Mirrors()
      reads this, if credential.UserSession? then {credential.session} else {}
    {
      && cache == world.cache
      && (match credential
          case ClientSecret => world.mode.App?
          case UserSession(s) =>
            && world.mode.Delegated?
            && s.refreshToken == world.refresh && s.consent == world.consent && s.reauth == world.reauth)
    }

    constructor FromEnv(ghost now: int)
      ensures Valid() && credential.ClientSecret? && cache == map[] && world == AppStart(now)
    {
      credential := ClientSecret;
      cache := map[];
      world := AppStart(now);
      new;
      assert Started(world) && Reaches(world, [], world);
    }

    /** The manager a successful sign-in leaves behind. */
    constructor FromSession(session: DelegatedSession, cache: map<Audience, CachedToken>, ghost w: World)
      requires Started(w) && w.mode.Delegated? && w.lock.None? && cache == w.cache
      requires session.refreshToken == w.refresh && session.consent == w.consent && session.reauth == w.reauth
      ensures Valid() && credential == UserSession(session) && this.cache == cache && world == w
    {
      credential := UserSession(session);
      this.cache := cache;
      world := w;
      new;
      assert Started(world) && Reaches(world, [], world);
    }

    /** Fail fast when re-authentication is required or consent is missing. */
    method CheckSession(aud: Audience) returns (failure: Option<Failure>)
      requires Mirrors()
      ensures failure == if Expelled(world) then Some(Reauthenticate(world.reauth.value))
                         else if Lost(world, aud) then Some(ConsentMissing) else None
    {
      failure := None;
      if credential.UserSession? {
        if credential.session.reauth.Some? {
          return Some(Reauthenticate(credential.session.reauth.value));
        }
        var state := credential.session.ConsentState(aud);
        if state.Some? && state.value.Missing? {
          return Some(ConsentMissing);
        }
      }
    }

    /** A cached token that is more than the buffer away from its expiry. */
    method ReadCache(aud: Audience, now: int) returns (token: Option<string>)
      ensures token == if aud in cache && cache[aud].expiresAt - now > 60 then Some(cache[aud].token) else None
    {
      token := None;
      if aud in cache && IsValid(cache[aud], now) {
        token := Some(cache[aud].token);
      }
    }

    /** The provider granted a token: keep its refresh token when it sent one, then cache the token. */
    method Accept(aud: Audience, answer: Issue, now: int, ghost id: nat, ghost w0: World, ghost steps: seq<Step>)
      returns (token: string, ghost steps': seq<Step>)
      requires Mirrors() && Path(w0, steps, world, id, answer) && id in world.calls && world.now == now
      requires world.calls[id] == Call(aud, Rotate(answer)) && world.lock == Some(id)
      requires credential.ClientSecret? ==> answer.rotated.None?
      modifies this, if credential.UserSession? then {credential.session} else {}
      ensures Mirrors() && Path(w0, steps', world, id, answer) && world.lock.None? && world.now == now
      ensures token == answer.token && id in world.calls && world.calls[id] == Call(aud, Done(Ok(token)))
      ensures TokenKept(old(world), world, aud, answer, now)
    {
      if credential.UserSession? && answer.rotated.Some? {
        credential.session.refreshToken := answer.rotated.value;
      }
      cache := cache[aud := CachedToken(answer.token, now + answer.lifetime)];
      token := answer.token;
      steps', world := TokenAccepted(w0, steps, world, id, aud, answer);
    }

    /** The grant failed: record what the refusal means for the session. */
    method Reject(aud: Audience, answer: Refusal, ghost id: nat, ghost w0: World, ghost steps: seq<Step>)
      returns (failure: Failure, ghost steps': seq<Step>)
      requires Mirrors() && Path(w0, steps, world, id, answer) && id in world.calls
      requires world.calls[id] == Call(aud, Refuse(answer)) && world.lock == Some(id)
      modifies this, if credential.UserSession? then {credential.session} else {}
      ensures Mirrors() && Path(w0, steps', world, id, answer) && world.lock.None? && world.now == old(world).now
      ensures failure == Verdict(world.mode, answer) && id in world.calls
              && world.calls[id] == Call(aud, Done(Err(failure)))
      ensures RefusalKept(old(world), world, aud, failure)
      ensures credential.UserSession? ==> Explains(answer, failure)
      ensures credential.ClientSecret? ==> failure == RefreshFailed
    {
      failure := RefreshFailed;
      if credential.UserSession? {
        failure := Verdict(Delegated, answer);
        match failure
        case Reauthenticate(reason) => credential.session.SetReauth(reason);
        case ConsentMissing => credential.session.SetConsent(aud, Missing);
        case RefreshFailed =>
      }
      PathSnoc(w0, steps, world, Advance(id), id, answer);
      WriteEffect(world, id);
      steps', world := steps + [Advance(id)], Move(world, id);
    }

    /** `get_token` up to the lock: `None` when the call has to queue for it. Other calls may hold the
        lock meanwhile. */
    method Enter(aud: Audience, now: int, ghost id: nat)
      returns (r: Option<Result<string, Failure>>, ghost steps: seq<Step>)
      requires Valid() && id !in world.calls && world.now <= now
      modifies this`world
      ensures Valid() && Path(old(world), steps, world, id, OtherError) && world.now <= now
      ensures SameSession(old(world), world) && world.lock == old(world).lock && world.grants == old(world).grants
      ensures r == Found(old(world), aud, now)
      ensures id in world.calls && world.calls[id] == Call(aud, if r.Some? then Done(r.value) else WaitLock)
    {
      var failure := CheckSession(aud);
      r := None;
      if failure.Some? {
        r := Some(Err(failure.value));
      } else {
        var token := ReadCache(aud, now);
        if token.Some? {
          r := Some(Ok(token.value));
        }
      }
      ghost var w0 := world;
      steps, world := Entered(w0, id, aud, now);
      ReachableTrans(w0, steps, world);
    }

    /** `get_token` from the moment it gets the lock, whatever other calls did while it queued, to the
        moment it waits for the provider: `None` when it sent a grant. */
    method Acquire(aud: Audience, now: int, ghost answer: Answer, ghost id: nat)
      returns (r: Option<Result<string, Failure>>, ghost steps: seq<Step>)
      requires Valid() && id in world.calls && world.calls[id] == Call(aud, WaitLock) && world.lock.None?
              && world.now <= now
      modifies this`world
      ensures Valid() && Path(old(world), steps, world, id, answer) && world.now <= now
      ensures SameSession(old(world), world) && id in world.calls && r == Found(old(world), aud, now)
      ensures r.Some? ==> world.calls[id] == Call(aud, Done(r.value)) && world.lock.None?
      ensures r.None? ==> world.calls[id] == Call(aud, AwaitAnswer(world.refresh))
      ensures r.None? ==> world.lock == Some(id) && world.now == now
      ensures world.grants == old(world).grants
                              + if r.Some? then [] else [Grant(aud, world.refresh, now, None, None)]
    {
      var failure := CheckSession(aud);
      r := None;
      if failure.Some? {
        r := Some(Err(failure.value));
      } else {
        var token := ReadCache(aud, now);
        if token.Some? {
          r := Some(Ok(token.value));
        }
      }
      ghost var w0 := world;
      steps, world := Acquired(w0, id, aud, answer, now);
      ReachableTrans(w0, steps, world);
    }

    /** The provider's answer to the grant that was sent, whatever other calls and challenges came
        while it was under way. */
    method Redeem(aud: Audience, answer: Answer, now: int, ghost id: nat)
      returns (r: Result<string, Failure>, ghost steps: seq<Step>)
      requires Valid() && id in world.calls && world.now <= now
      requires world.calls[id].aud == aud && world.calls[id].pc.AwaitAnswer?
      requires credential.ClientSecret? && answer.Success? ==> answer.rotated.None?
      modifies this, if credential.UserSession? then {credential.session} else {}
      ensures Valid() && Path(old(world), steps, world, id, answer) && world.now == now && world.lock.None?
      ensures id in world.calls && world.calls[id] == Call(aud, Done(r))
      ensures if answer.Success? then r == Ok(answer.token) && TokenKept(old(world), world, aud, answer, now)
              else r == Err(Verdict(world.mode, answer)) && RefusalKept(old(world), world, aud, r.error)
      ensures credential.UserSession? && !answer.Success? ==> Explains(answer, r.error)
      ensures credential.ClientSecret? && !answer.Success? ==> r == Err(RefreshFailed)
    {
      ghost var w0 := world;
      assert Path(w0, [], world, id, answer);
      ReachableInv(world);
      steps, world := AnswerCame(w0, [], world, id, aud, answer, now);
      if answer.Success? {
        var token;
        token, steps := Accept(aud, answer, now, id, w0, steps);
        r := Ok(token);
      } else {
        var failure;
        failure, steps := Reject(aud, answer, id, w0, steps);
        r := Err(failure);
      }
      ReachableTrans(w0, steps, world);
    }

    /** `get_token` from the lock to its end, when nothing else happens while the provider answers. */
    method Refresh(aud: Audience, answer: Answer, t1: int, t2: int, ghost id: nat)
      returns (r: Result<string, Failure>, ghost steps: seq<Step>)
      requires Valid() && id in world.calls && world.calls[id] == Call(aud, WaitLock) && world.lock.None?
      requires world.now <= t1 <= t2 && (credential.ClientSecret? && answer.Success? ==> answer.rotated.None?)
      modifies this, if credential.UserSession? then {credential.session} else {}
      ensures Valid() && Path(old(world), steps, world, id, answer) && world.lock.None?
      ensures id in world.calls && world.calls[id] == Call(aud, Done(r))
      ensures var early := Found(old(world), aud, t1);
        if early.Some? then r == early.value && SameSession(old(world), world)
        else if answer.Success? then r == Ok(answer.token) && TokenKept(old(world), world, aud, answer, t2)
        else r == Err(Verdict(world.mode, answer)) && RefusalKept(old(world), world, aud, r.error)
    {
      ghost var w0 := world;
      var early;
      early, steps := Acquire(aud, t1, answer, id);
      if early.Some? {
        r := early.value;
      } else {
        ghost var w1, before := world, steps;
        r, steps := Redeem(aud, answer, t2, id);
        ReachesTrans(w0, before, w1, steps, world);
        steps := before + steps;
      }
    }

    /** A 401 claims challenge seen by another request; it means nothing in app mode. */
    method SetReauth(reason: ReauthReason)
      requires Valid()
      modifies if credential.UserSession? then {credential.session} else {}, this`world
      ensures Valid() && world == Apply(old(world), Challenge(reason))
    {
      if credential.UserSession? {
        credential.session.SetReauth(reason);
      }
      ghost var w0 := world;
      ReachesSnoc(w0, [], world, Challenge(reason));
      world := Apply(world, Challenge(reason));
      ReachableTrans(w0, [Challenge(reason)], world);
    }
  }

  /** Sign in at start-up: one grant per audience with the token the one before left, then a
      session and its cache. `at` and `took` are when sign-in ended and how long each grant took. */
  method SignInUser(refreshToken: string, answers: map<Audience, Answer>, at: int, took: map<Audience, nat>)
    returns (r: Result<TokenManager, StartFailure>)
    requires answers.Keys == took.Keys == {Endpoint, Graph}
    ensures var spec := SignIn(at, refreshToken, answers[Endpoint], took[Endpoint], answers[Graph], took[Graph]);
      && (r.Ok? <==> spec.Ok?)
      && (r.Err? ==> r.error == spec.error)
      && (r.Ok? ==> fresh(r.value) && r.value.Valid() && r.value.world == spec.value)
  {
    var currentRefresh, now := refreshToken, at;
    var consent: map<Audience, Consent>, cache: map<Audience, CachedToken> := map[], map[];
    var audiences := [Endpoint, Graph];
    ghost var w := SignedIn(at, refreshToken);
    for i := 0 to |audiences|
      invariant w.mode.Delegated? && w.lock.None? && w.reauth.None? && w.now == now
      invariant w.cache == cache && w.consent == consent && w.refresh == currentRefresh
      invariant i == 0 ==> w == SignedIn(at, refreshToken)
      invariant i == 1 ==> Ok(w) == SignInRound(SignedIn(at, refreshToken), Endpoint, answers[Endpoint], took[Endpoint])
      invariant i == 2 ==>
                  && SignInRound(SignedIn(at, refreshToken), Endpoint, answers[Endpoint], took[Endpoint]).Ok?
                  && Ok(w) == SignInRound(
                       SignInRound(SignedIn(at, refreshToken), Endpoint, answers[Endpoint], took[Endpoint]).value,
                       Graph, answers[Graph], took[Graph])
    {
      var aud := audiences[i];
      assert aud == if i == 0 then Endpoint else Graph;
      var answer := answers[aud];
      ghost var round := SignInRound(w, aud, answer, took[aud]);
      now := now + took[aud];
      if answer.Success? {
        currentRefresh := if answer.rotated.Some? then answer.rotated.value else currentRefresh;
        consent := consent[aud := Granted(now + answer.lifetime)];
        cache := cache[aud := CachedToken(answer.token, now + answer.lifetime)];
      } else if answer.EndpointError? && answer.error == "invalid_grant" && answer.aadsts == Some(65001) {
        consent := consent[aud := Missing];
      } else {
        return Err(GrantRefused(answer));
      }
      w := round.value;
    }
    if Endpoint in consent && consent[Endpoint].Missing? && Graph in consent && consent[Graph].Missing? {
      return Err(NoConsent);
    }
    var session := new DelegatedSession(currentRefresh, consent);
    assert SignIn(at, refreshToken, answers[Endpoint], took[Endpoint], answers[Graph], took[Graph]) == Ok(w);
    var manager := new TokenManager.FromSession(session, cache, w);
    r := Ok(manager);
  }
}
