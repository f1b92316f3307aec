/** The token protocol of src/auth.rs as a step relation.

    Any number of `get_token` calls run at once over one shared record: a per-audience cache, a
    rotating refresh token, a consent map, a write-once re-authentication flag and one refresh
    lock. Every read or write of shared state is its own step, so calls interleave between any
    two of them. The identity provider, the clock and whoever answers a 401 claims
    challenge are steps of their own. The sequence `grants` records every token grant. */
module TokenProtocol {
  import opened Wrappers

  const EXPIRY_BUFFER := 60

  datatype Audience = Endpoint | Graph

  datatype Mode = App | Delegated

  datatype CachedToken = CachedToken(token: string, expiresAt: int)

  datatype Consent = Granted(expiresAt: int) | Missing

  datatype ReauthReason = SessionExpired | MfaRequired | InteractionRequired | SessionRevoked | ConditionalAccess

  /** What the identity provider answers to one grant. The lifetime is any integer: the source
      casts an unsigned lifetime to a signed one. */
  datatype Answer =
    | Success(token: string, lifetime: int, rotated: Option<string>)
    | EndpointError(error: string, aadsts: Option<nat>)
    | OtherError

  type Issue = a: Answer | a.Success? witness Success("", 0, None)
  type Refusal = a: Answer | !a.Success? witness OtherError

  /** Why a call returns no token. */
  datatype Failure = Reauthenticate(reason: ReauthReason) | ConsentMissing | RefreshFailed

  /** What an unsuccessful answer means for the session. */
  function Verdict(mode: Mode, a: Refusal): Failure {
    if mode.App? || a.OtherError? then RefreshFailed
    else if a.error == "invalid_grant" then
      if a.aadsts in {Some(700082), Some(70043), Some(50173)} then Reauthenticate(SessionExpired)
      else if a.aadsts in {Some(50076), Some(50079)} then Reauthenticate(MfaRequired)
      else if a.aadsts == Some(65001) then ConsentMissing
      else Reauthenticate(SessionRevoked)
    else if a.error == "interaction_required" then Reauthenticate(InteractionRequired)
    else RefreshFailed
  }

  /** Where a `get_token` call stands. From `RecheckReauth` to `Refuse` it holds the refresh lock. */
  datatype Pc =
    | CheckReauth
    | CheckConsent
    | CheckCache
    | WaitLock
    | RecheckReauth
    | RecheckConsent
    | RecheckCache
    | ReadRefresh
    | SendGrant(presented: string)
    | AwaitAnswer(presented: string)
    | Rotate(answer: Issue)
    | StoreToken(answer: Issue)
    | Refuse(refusal: Refusal)
    | Done(result: Result<string, Failure>)

  datatype Call = Call(aud: Audience, pc: Pc)

  /** One grant: the refresh token it presented, the answer once it came, and what the cache
      received because of it. */
  datatype Grant = Grant(aud: Audience, presented: string, beganAt: int, answer: Option<Answer>,
      stored: Option<CachedToken>)

  datatype World = World(
    mode: Mode,
    now: int,
    cache: map<Audience, CachedToken>,
    signedIn: string,
    refresh: string,
    consent: map<Audience, Consent>,
    reauth: Option<ReauthReason>,
    lock: Option<nat>,
    calls: map<nat, Call>,
    grants: seq<Grant>)

  datatype Step =
    | Tick(secs: nat)
    | Arrive(id: nat, aud: Audience)
    | Challenge(reason: ReauthReason)
    | Advance(id: nat)
    | Reply(id: nat, answer: Answer)

  predicate IsValid(c: CachedToken, now: int) {
    now + EXPIRY_BUFFER < c.expiresAt
  }

  predicate Fresh(w: World, aud: Audience) {
    aud in w.cache && IsValid(w.cache[aud], w.now)
  }

  predicate Lost(w: World, aud: Audience) {
    w.mode.Delegated? && aud in w.consent && w.consent[aud].Missing?
  }

  predicate Expelled(w: World) {
    w.mode.Delegated? && w.reauth.Some?
  }

  predicate Holding(pc: Pc) {
    !(pc.CheckReauth? || pc.CheckConsent? || pc.CheckCache? || pc.WaitLock? || pc.Done?)
  }

  predicate Enabled(w: World, s: Step) {
    match s
    case Tick(_) => true
    case Arrive(id, _) => id !in w.calls
    case Challenge(_) => true
    case Advance(id) =>
      && id in w.calls
      && !w.calls[id].pc.AwaitAnswer?
      && !w.calls[id].pc.Done?
      && (w.calls[id].pc.WaitLock? ==> w.lock.None?)
    case Reply(id, a) =>
      && id in w.calls
      && w.calls[id].pc.AwaitAnswer?
      // A client-credentials answer carries no refresh token.
      && (w.mode.App? && a.Success? ==> a.rotated.None?)
  }

  function Goto(w: World, id: nat, pc: Pc): World
    requires id in w.calls
  {
    w.(calls := w.calls[id := w.calls[id].(pc := pc)])
  }

  /** Return from a call; the lock guard is dropped when the call held it. */
  function Finish(w: World, id: nat, r: Result<string, Failure>): World
    requires id in w.calls
  {
    var w' := if Holding(w.calls[id].pc) then w.(lock := None) else w;
    Goto(w', id, Done(r))
  }

  function SetReauth(w: World, reason: ReauthReason): World {
    if w.mode.Delegated? && w.reauth.None? then w.(reauth := Some(reason)) else w
  }

  function Record(w: World, aud: Audience, f: Failure): World {
    match f
    case Reauthenticate(reason) => SetReauth(w, reason)
    case ConsentMissing => w.(consent := w.consent[aud := Missing])
    case RefreshFailed => w
  }

  function Begin(w: World, aud: Audience, presented: string): World {
    w.(grants := w.grants + [Grant(aud, presented, w.now, None, None)])
  }

  function UpdateLast(gs: seq<Grant>, g: Grant): seq<Grant> {
    if |gs| == 0 then gs else gs[|gs| - 1 := g]
  }

  function Answered(w: World, a: Answer): World {
    if |w.grants| == 0 then w
    else w.(grants := UpdateLast(w.grants, w.grants[|w.grants| - 1].(answer := Some(a))))
  }

  function Rotated(w: World, a: Issue): World {
    if a.rotated.Some? then w.(refresh := a.rotated.value) else w
  }

  function Stored(w: World, aud: Audience, a: Issue): World {
    var c := CachedToken(a.token, w.now + a.lifetime);
    var w' := w.(cache := w.cache[aud := c]);
    if |w.grants| == 0 then w'
    else w'.(grants := UpdateLast(w.grants, w.grants[|w.grants| - 1].(stored := Some(c))))
  }

  /** Before the lock: fast failure, the cached token, then the lock. */
  function Enter(w: World, id: nat): World
    requires id in w.calls
  {
    var Call(aud, pc) := w.calls[id];
    match pc
    case CheckReauth =>
      if Expelled(w) then Finish(w, id, Err(Reauthenticate(w.reauth.value))) else Goto(w, id, CheckConsent)
    case CheckConsent =>
      if Lost(w, aud) then Finish(w, id, Err(ConsentMissing)) else Goto(w, id, CheckCache)
    case CheckCache =>
      if Fresh(w, aud) then Finish(w, id, Ok(w.cache[aud].token)) else Goto(w, id, WaitLock)
    case _ =>
      Goto(w.(lock := Some(id)), id, RecheckReauth)
  }

  /** The same three readings again under the lock. */
  function Recheck(w: World, id: nat): World
    requires id in w.calls
  {
    var Call(aud, pc) := w.calls[id];
    match pc
    case RecheckReauth =>
      if Expelled(w) then Finish(w, id, Err(Reauthenticate(w.reauth.value))) else Goto(w, id, RecheckConsent)
    case RecheckConsent =>
      if Lost(w, aud) then Finish(w, id, Err(ConsentMissing)) else Goto(w, id, RecheckCache)
    case _ =>
      if Fresh(w, aud) then Finish(w, id, Ok(w.cache[aud].token)) else Goto(w, id, ReadRefresh)
  }

  /** The grant and what its answer changes. */
  function Renew(w: World, id: nat): World
    requires id in w.calls
  {
    var Call(aud, pc) := w.calls[id];
    match pc
    case ReadRefresh =>
      Goto(w, id, SendGrant(w.refresh))
    case SendGrant(presented) =>
      Goto(Begin(w, aud, presented), id, AwaitAnswer(presented))
    case Rotate(a) =>
      Goto(Rotated(w, a), id, StoreToken(a))
    case StoreToken(a) =>
      Finish(Stored(w, aud, a), id, Ok(a.token))
    case Refuse(a) =>
      Finish(Record(w, aud, Verdict(w.mode, a)), id, Err(Verdict(w.mode, a)))
    case _ => w
  }

  /** The local step of call `id` from where it stands. */
  function Move(w: World, id: nat): World
    requires Enabled(w, Advance(id))
  {
    var pc := w.calls[id].pc;
    if !Holding(pc) then Enter(w, id)
    else if pc.RecheckReauth? || pc.RecheckConsent? || pc.RecheckCache? then Recheck(w, id)
    else Renew(w, id)
  }

  function Apply(w: World, s: Step): World
    requires Enabled(w, s)
  {
    match s
    case Tick(secs) => w.(now := w.now + secs)
    case Arrive(id, aud) => w.(calls := w.calls[id := Call(aud, CheckReauth)])
    case Challenge(reason) => SetReauth(w, reason)
    case Advance(id) => Move(w, id)
    case Reply(id, a) => Goto(Answered(w, a), id, if a.Success? then Rotate(a) else Refuse(a))
  }

  /** `steps` lead from `w` to `w'`. */
  ghost predicate Reaches(w: World, steps: seq<Step>, w': World)
    decreases |steps|
  {
    if steps == [] then w == w'
    else Enabled(w, steps[0]) && Reaches(Apply(w, steps[0]), steps[1..], w')
  }

  // ------------------------------------------------------------------ start-up

  datatype StartFailure = GrantRefused(answer: Answer) | NoConsent

  /** Start-up in app mode: nothing is cached and no grant was made. */
  function AppStart(now: int): World {
    World(App, now, map[], "", "", map[], None, None, map[], [])
  }

  function SignedIn(now: int, refresh: string): World {
    World(Delegated, now, map[], refresh, refresh, map[], None, None, map[], [])
  }

  predicate ConsentRefusal(a: Answer) {
    a.EndpointError? && a.error == "invalid_grant" && a.aadsts == Some(65001)
  }

  /** One round of the sign-in loop: a grant that ends `took` seconds after it began. */
  function SignInRound(w: World, aud: Audience, a: Answer, took: nat): Result<World, StartFailure> {
    var now := w.now + took;
    if a.Success? then
      var c := CachedToken(a.token, now + a.lifetime);
      Ok(w.(
           now := now,
           refresh := if a.rotated.Some? then a.rotated.value else w.refresh,
           cache := w.cache[aud := c],
           consent := w.consent[aud := Granted(c.expiresAt)],
           grants := w.grants + [Grant(aud, w.refresh, w.now, Some(a), Some(c))]))
    else if ConsentRefusal(a) then
      Ok(w.(
           now := now,
           consent := w.consent[aud := Missing],
           grants := w.grants + [Grant(aud, w.refresh, w.now, Some(a), None)]))
    else Err(GrantRefused(a))
  }

  /** Sign-in asks for a token of each audience in turn and fails when both lack consent. */
  function SignIn(now: int, refresh: string, forEndpoint: Answer, took: nat, forGraph: Answer, took': nat)
    : Result<World, StartFailure>
  {
    match SignInRound(SignedIn(now, refresh), Endpoint, forEndpoint, took)
    case Err(e) => Err(e)
    case Ok(w) =>
      match SignInRound(w, Graph, forGraph, took')
      case Err(e) => Err(e)
      case Ok(w') => if Lost(w', Endpoint) && Lost(w', Graph) then Err(NoConsent) else Ok(w')
  }

  /** A world some successful start-up produces. */
  ghost predicate Started(w: World) {
    || (w.mode.App? && w == AppStart(w.now))
    || (exists now, rt, a, took, a', took' :: SignIn(now, rt, a, took, a', took') == Ok(w))
  }

  ghost predicate Reachable(w: World) {
    exists w0, steps :: Started(w0) && Reaches(w0, steps, w)
  }
}
