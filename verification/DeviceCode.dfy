/** The client side of the device authorization grant (section 3.5 of RFC 8628), as
    src/auth/signin.rs polls the token endpoint. Times are in milliseconds. */
module DeviceCode {
  import opened Wrappers
  const SLOW_DOWN_STEP: nat := 5000
  const DEFAULT_INTERVAL: nat := 5000
  const DEFAULT_LIFETIME: nat := 900000

  datatype SignInError =
    | Transport | Internal | MissingIdToken | MissingRefreshToken | BadIdToken | ExpiredToken | Cancelled
    | AuthorizationDeclined | BadVerificationCode | TokenEndpoint(code: string)

  /** What a poll gets: no answer, an answer that is not tokens, tokens, or an OAuth error. */
  datatype Answer =
    | NoAnswer
    | Garbled
    | Granted(idToken: Option<Result<string, SignInError>>, refreshToken: Option<string>)
    | Refused(code: string)

  /** One turn of the loop, as its surroundings have it: how much longer than asked the sleep lasts
      and whether it is interrupted, then how long the answer takes and what it is. */
  datatype Round = Round(overshoot: nat, interrupted: bool, latency: nat, answer: Answer)

  datatype Poll = Poll(at: nat, answered: nat)
  datatype Outcome = SignedIn(claims: string, secret: string) | Failed(error: SignInError) | StillPolling

  predicate IsSlowDown(a: Answer) {
    a == Refused("slow_down")
  }

  /** The loop goes on after this answer. */
  predicate Continues(a: Answer) {
    a == Refused("authorization_pending") || IsSlowDown(a)
  }

  /** How the flow ends with an answer that ends it. */
  function Ending(a: Answer): Outcome {
    match a
    case NoAnswer => Failed(Transport)
    case Garbled => Failed(Internal)
    case Granted(None, _) => Failed(MissingIdToken)
    case Granted(Some(Err(e)), _) => Failed(e)
    case Granted(Some(Ok(claims)), None) => Failed(MissingRefreshToken)
    case Granted(Some(Ok(claims)), Some(secret)) => SignedIn(claims, secret)
    case Refused(code) =>
      if code == "authorization_declined" then Failed(AuthorizationDeclined)
      else if code == "expired_token" then Failed(ExpiredToken)
      else if code == "bad_verification_code" then Failed(BadVerificationCode)
      else Failed(TokenEndpoint(code))
  }

  // ------------------------------------------------------------------ what a run is

  /** How many of the first `n` answers were `slow_down`. */
  function SlowDowns(rounds: seq<Round>, n: nat): (k: nat)
    requires n <= |rounds|
    ensures k <= n
  {
    if n == 0 then 0 else SlowDowns(rounds, n - 1) + (if IsSlowDown(rounds[n - 1].answer) then 1 else 0)
  }

  /** The interval before poll `n`: the first one, and a step for every `slow_down` so far. */
  function Wait(interval: nat, rounds: seq<Round>, n: nat): nat
    requires n <= |rounds|
  {
    interval + SLOW_DOWN_STEP * SlowDowns(rounds, n)
  }

  /** When the loop is back at its top before poll `n`. */
  function TopAt(start: nat, polls: seq<Poll>, n: nat): nat
    requires n <= |polls|
  {
    if n == 0 then start else polls[n - 1].answered
  }

  /** Poll `n` waits its interval from the answer before it, which asked to go on, and begins before
      the deadline passed at the top of the loop, uninterrupted. */
  predicate IsPoll(start: nat, interval: nat, lifetime: nat, rounds: seq<Round>, polls: seq<Poll>, n: nat)
    requires n < |polls| <= |rounds|
  {
    && TopAt(start, polls, n) < start + lifetime
    && !rounds[n].interrupted
    && polls[n].at == TopAt(start, polls, n) + Wait(interval, rounds, n) + rounds[n].overshoot
    && polls[n].answered == polls[n].at + rounds[n].latency
    && (n > 0 ==> Continues(rounds[n - 1].answer))
  }

  predicate IsTrace(start: nat, interval: nat, lifetime: nat, rounds: seq<Round>, polls: seq<Poll>) {
    |polls| <= |rounds| && forall n :: 0 <= n < |polls| ==> IsPoll(start, interval, lifetime, rounds, polls, n)
  }

  /** A whole run: the polls, and how it ends after the last of them; `StillPolling` when the loop is
      about to go on as its surroundings are cut off. */
  predicate IsRun(start: nat, interval: nat, lifetime: nat, rounds: seq<Round>, polls: seq<Poll>, outcome: Outcome) {
    && IsTrace(start, interval, lifetime, rounds, polls)
    && var n := |polls|;
      if n > 0 && !Continues(rounds[n - 1].answer) then outcome == Ending(rounds[n - 1].answer)
      else if TopAt(start, polls, n) >= start + lifetime then outcome == Failed(ExpiredToken)
      else if n == |rounds| then outcome == StillPolling
      else rounds[n].interrupted && outcome == Failed(Cancelled)
  }

  datatype DeviceCodeResponse = DeviceCodeResponse(interval: Option<nat>, expiresIn: Option<nat>)

  /** The interval and lifetime of a response, in seconds on the wire. */
  function FirstInterval(r: DeviceCodeResponse): nat {
    if r.interval.Some? then 1000 * r.interval.value else DEFAULT_INTERVAL
  }

  function Lifetime(r: DeviceCodeResponse): nat {
    if r.expiresIn.Some? then 1000 * r.expiresIn.value else DEFAULT_LIFETIME
  }

  lemma SameTop(start: nat, polls: seq<Poll>, poll: Poll, n: nat)
    requires n <= |polls|
    ensures TopAt(start, polls + [poll], n) == TopAt(start, polls, n)
  {
  }

  lemma Extended(start: nat, interval: nat, lifetime: nat, rounds: seq<Round>, polls: seq<Poll>, poll: Poll)
    requires IsTrace(start, interval, lifetime, rounds, polls) && |polls| < |rounds|
    requires IsPoll(start, interval, lifetime, rounds, polls + [poll], |polls|)
    ensures IsTrace(start, interval, lifetime, rounds, polls + [poll])
  {
    forall n | 0 <= n < |polls| ensures IsPoll(start, interval, lifetime, rounds, polls + [poll], n) {
      assert IsPoll(start, interval, lifetime, rounds, polls, n);
      SameTop(start, polls, poll, n);
    }
  }

  method RunDeviceCodeFlow(response: Result<DeviceCodeResponse, SignInError>, start: nat, rounds: seq<Round>)
    returns (outcome: Outcome, polls: seq<Poll>)
    ensures response.Err? ==> outcome == Failed(response.error) && polls == []
    ensures response.Ok?
            ==> IsRun(start, FirstInterval(response.value), Lifetime(response.value), rounds, polls, outcome)
  {
    polls := [];
    if response.Err? { return Failed(response.error), []; }
    var interval := FirstInterval(response.value);
    var deadline := start + Lifetime(response.value);
    var now := start;
    for n := 0 to |rounds|
      invariant |polls| == n && IsTrace(start, FirstInterval(response.value), Lifetime(response.value), rounds, polls)
      invariant interval == Wait(FirstInterval(response.value), rounds, n)
      invariant now == TopAt(start, polls, n) && (n > 0 ==> Continues(rounds[n - 1].answer))
    {
      if now >= deadline { return Failed(ExpiredToken), polls; }
      if rounds[n].interrupted { return Failed(Cancelled), polls; }
      var at := now + interval + rounds[n].overshoot;
      now := at + rounds[n].latency;
      SameTop(start, polls, Poll(at, now), n);
      Extended(start, FirstInterval(response.value), Lifetime(response.value), rounds, polls, Poll(at, now));
      polls := polls + [Poll(at, now)];
      if !Continues(rounds[n].answer) { return Ending(rounds[n].answer), polls; }
      if IsSlowDown(rounds[n].answer) { interval := interval + SLOW_DOWN_STEP; }
    }
    outcome := if now >= deadline then Failed(ExpiredToken) else StillPolling;
  }

  // ------------------------------------------------------------------ what every run keeps

  /** The sum of `slow_down` answers seen before each of the first `n` polls. */
  function SlowDownSum(rounds: seq<Round>, n: nat): nat
    requires n <= |rounds|
  {
    if n == 0 then 0 else SlowDownSum(rounds, n - 1) + SlowDowns(rounds, n - 1)
  }

  /** The least time at which poll `n` can be answered. */
  lemma {:induction false} PollsTakeTime(start: nat, interval: nat, lifetime: nat, rounds: seq<Round>,
        polls: seq<Poll>, n: nat)
    requires IsTrace(start, interval, lifetime, rounds, polls) && n <= |polls|
    ensures TopAt(start, polls, n) >= start + n * interval + SLOW_DOWN_STEP * SlowDownSum(rounds, n)
  {
    if n > 0 {
      PollsTakeTime(start, interval, lifetime, rounds, polls, n - 1);
      assert IsPoll(start, interval, lifetime, rounds, polls, n - 1);
      assert n * interval == (n - 1) * interval + interval;
    }
  }

  /** All polls but the last begin, and are answered, before the deadline. */
  lemma OnePollMayBeLate(start: nat, interval: nat, lifetime: nat, rounds: seq<Round>, polls: seq<Poll>)
    requires IsTrace(start, interval, lifetime, rounds, polls)
    ensures forall n :: 0 <= n < |polls| - 1 ==> polls[n].at <= polls[n].answered < start + lifetime
  {
    forall n | 0 <= n < |polls| - 1 ensures polls[n].at <= polls[n].answered < start + lifetime {
      assert IsPoll(start, interval, lifetime, rounds, polls, n)
          && IsPoll(start, interval, lifetime, rounds, polls, n + 1);
    }
  }

  /** `slow_down` is never undone: between two polls, later ones wait at least as long, and a step
      longer for each `slow_down` in between. */
  lemma {:induction false} IntervalsGrow(interval: nat, rounds: seq<Round>, m: nat, n: nat)
    requires m <= n <= |rounds|
    ensures SlowDowns(rounds, m) <= SlowDowns(rounds, n)
    ensures Wait(interval, rounds, n) ==
            Wait(interval, rounds, m) + SLOW_DOWN_STEP * (SlowDowns(rounds, n) - SlowDowns(rounds, m))
    ensures (forall k :: m <= k < n ==> IsSlowDown(rounds[k].answer))
            ==> SlowDowns(rounds, n) == SlowDowns(rounds, m) + (n - m)
    decreases n
  {
    if m < n { IntervalsGrow(interval, rounds, m, n - 1); }
  }

  /** How many polls a lifetime allows, whatever the answers. */
  lemma PollsFitLifetime(start: nat, interval: nat, lifetime: nat, rounds: seq<Round>, polls: seq<Poll>)
    requires IsTrace(start, interval, lifetime, rounds, polls) && polls != []
    ensures (|polls| - 1) * interval + SLOW_DOWN_STEP * SlowDownSum(rounds, |polls| - 1) < lifetime
  {
    PollsTakeTime(start, interval, lifetime, rounds, polls, |polls| - 1);
    assert IsPoll(start, interval, lifetime, rounds, polls, |polls| - 1);
  }

  lemma {:induction false} AllSlow(rounds: seq<Round>, n: nat)
    requires n <= |rounds| && forall k :: 0 <= k < n ==> IsSlowDown(rounds[k].answer)
    ensures SlowDowns(rounds, n) == n && 2 * SlowDownSum(rounds, n) == n * (n - 1)
  {
    if n > 0 {
      AllSlow(rounds, n - 1);
      assert n * (n - 1) == (n - 1) * (n - 2) + 2 * (n - 1);
    }
  }

  lemma Doubled(a: nat, sum: nat, lifetime: nat)
    requires a + SLOW_DOWN_STEP * sum < lifetime
    ensures 2 * a + SLOW_DOWN_STEP * (2 * sum) < 2 * lifetime
  {
  }

  /** Polls all answered `slow_down` thin out: their number grows only as the root of the lifetime. */
  lemma SlowedPollsFitLifetime(start: nat, interval: nat, lifetime: nat, rounds: seq<Round>, polls: seq<Poll>)
    requires IsTrace(start, interval, lifetime, rounds, polls) && polls != []
    requires forall k :: 0 <= k < |polls| - 1 ==> IsSlowDown(rounds[k].answer)
    ensures var n := |polls|; 2 * (n - 1) * interval + SLOW_DOWN_STEP * ((n - 1) * (n - 2)) < 2 * lifetime
  {
    AllSlow(rounds, |polls| - 1);
    PollsFitLifetime(start, interval, lifetime, rounds, polls);
    Doubled((|polls| - 1) * interval, SlowDownSum(rounds, |polls| - 1), lifetime);
    assert 2 * (|polls| - 1) * interval == 2 * ((|polls| - 1) * interval);
  }

  // ------------------------------------------------------------------ a run, in the response's own numbers

  /** Seconds of the response, or what stands for them when it has none. */
  predicate IsMillis(ms: nat, seconds: Option<nat>, otherwise: nat) {
    if seconds.Some? then ms == 1000 * seconds.value else ms == 1000 * otherwise
  }

  /** In every run of a flow: before each poll the client waits the response's interval, five seconds if
      it has none, and five more for each `slow_down` so far; and it begins to wait only within the
      response's lifetime, fifteen minutes if it has none. */
  lemma RunInSeconds(r: DeviceCodeResponse, start: nat, rounds: seq<Round>, polls: seq<Poll>, outcome: Outcome,
        interval: nat, lifetime: nat, n: nat)
    requires IsRun(start, FirstInterval(r), Lifetime(r), rounds, polls, outcome) && n < |polls|
    requires IsMillis(interval, r.interval, 5) && IsMillis(lifetime, r.expiresIn, 900)
    ensures var top := if n == 0 then start else polls[n - 1].answered;
      polls[n].at == top + interval + 5000 * SlowDowns(rounds, n) + rounds[n].overshoot && top < start + lifetime
  {
    assert IsPoll(start, FirstInterval(r), Lifetime(r), rounds, polls, n);
  }

  /** The loop gives up for time exactly when it comes back to its top with that lifetime over; before
      that it goes on, or is interrupted. */
  lemma ExpiresInSeconds(r: DeviceCodeResponse, start: nat, rounds: seq<Round>, polls: seq<Poll>, outcome: Outcome,
        lifetime: nat)
    requires IsRun(start, FirstInterval(r), Lifetime(r), rounds, polls, outcome)
    requires IsMillis(lifetime, r.expiresIn, 900) && (polls != [] ==> Continues(rounds[|polls| - 1].answer))
    ensures var top := if polls == [] then start else polls[|polls| - 1].answered;
      && (outcome == Failed(ExpiredToken) <==> top >= start + lifetime)
      && (top < start + lifetime ==> outcome in {StillPolling, Failed(Cancelled)})
  {
  }

  /** Only the two codes that say so keep the loop going. */
  lemma GoesOnExactly(a: Answer)
    ensures Continues(a) <==> a == Refused("authorization_pending") || a == Refused("slow_down")
  {
  }

  /** How a run ends by its last answer: signed in exactly with both tokens and a readable identity,
      otherwise with the error that the answer stands for. */
  lemma EndsAsAnswered(start: nat, interval: nat, lifetime: nat, rounds: seq<Round>, polls: seq<Poll>,
        outcome: Outcome)
    requires IsRun(start, interval, lifetime, rounds, polls, outcome)
    requires polls != [] && !Continues(rounds[|polls| - 1].answer)
    ensures var a := rounds[|polls| - 1].answer;
      && (forall claims, secret :: outcome == SignedIn(claims, secret) <==>
            a == Granted(Some(Ok(claims)), Some(secret)))
      && (outcome == Failed(AuthorizationDeclined) <==>
            || a == Refused("authorization_declined")
            || (a.Granted? && a.idToken == Some(Err(AuthorizationDeclined))))
      && (a == Refused("expired_token") ==> outcome == Failed(ExpiredToken))
      && (a == Refused("bad_verification_code") ==> outcome == Failed(BadVerificationCode))
      && (a.Refused? && a.code !in {"authorization_declined", "expired_token", "bad_verification_code"} ==>
            outcome == Failed(TokenEndpoint(a.code)))
      && (a.Granted? && a.idToken.None? ==> outcome == Failed(MissingIdToken))
      && (a.Granted? && a.idToken.Some? && a.idToken.value.Ok? && a.refreshToken.None? ==>
            outcome == Failed(MissingRefreshToken))
      && (a.NoAnswer? ==> outcome == Failed(Transport)) && (a.Garbled? ==> outcome == Failed(Internal))
  {
  }

  // ------------------------------------------------------------------ termination

  ghost predicate StaysPolling(start: nat, interval: nat, lifetime: nat, rounds: seq<Round>) {
    exists polls :: IsRun(start, interval, lifetime, rounds, polls, StillPolling)
  }

  /** This many rounds end every run. */
  ghost predicate EndsWithin(start: nat, interval: nat, lifetime: nat, bound: nat) {
    forall rounds :: |rounds| >= bound ==> !StaysPolling(start, interval, lifetime, rounds)
  }

  /** A run that is still polling has used the interval for every round. */
  lemma StillPollingIsShort(start: nat, interval: nat, lifetime: nat, rounds: seq<Round>, polls: seq<Poll>)
    requires IsRun(start, interval, lifetime, rounds, polls, StillPolling)
    ensures |rounds| * interval < lifetime
  {
    PollsTakeTime(start, interval, lifetime, rounds, polls, |polls|);
    assert SLOW_DOWN_STEP * SlowDownSum(rounds, |polls|) >= 0;
  }

  /** `n` immediate answers `authorization_pending`. */
  function Pending(n: nat): seq<Round> {
    seq(n, i => Round(0, false, 0, Refused("authorization_pending")))
  }

  lemma {:induction false} NoSlowDowns(n: nat, k: nat)
    requires k <= n
    ensures SlowDowns(Pending(n), k) == 0
  {
    if k > 0 { NoSlowDowns(n, k - 1); }
  }

  /** With an interval of zero a client can poll any number of times within one instant. */
  lemma ZeroIntervalNeverEnds(start: nat, lifetime: nat, n: nat)
    requires lifetime > 0
    ensures IsRun(start, 0, lifetime, Pending(n), seq(n, i => Poll(start, start)), StillPolling)
  {
    var polls := seq(n, i => Poll(start, start));
    forall k | 0 <= k <= n ensures Wait(0, Pending(n), k) == 0 && TopAt(start, polls, k) == start {
      NoSlowDowns(n, k);
    }
    forall k | 0 <= k < n ensures IsPoll(start, 0, lifetime, Pending(n), polls, k) {
      assert Wait(0, Pending(n), k) == 0 && TopAt(start, polls, k) == start;
    }
  }

  lemma AtLeast(n: nat, interval: nat, lifetime: nat)
    requires n >= lifetime && (interval > 0 || lifetime == 0)
    ensures n * interval >= lifetime
  {
  }

  lemma PositiveIntervalEnds(start: nat, interval: nat, lifetime: nat)
    requires interval > 0 || lifetime == 0
    ensures EndsWithin(start, interval, lifetime, lifetime)
  {
    forall rounds | |rounds| >= lifetime ensures !StaysPolling(start, interval, lifetime, rounds) {
      if StaysPolling(start, interval, lifetime, rounds) {
        var polls :| IsRun(start, interval, lifetime, rounds, polls, StillPolling);
        StillPollingIsShort(start, interval, lifetime, rounds, polls);
        AtLeast(|rounds|, interval, lifetime);
        assert false;
      }
    }
  }

  /** The loop is sure to end exactly when the interval is positive, or there is no lifetime. */
  lemma EndsExactly(start: nat, interval: nat, lifetime: nat)
    ensures (exists bound: nat :: EndsWithin(start, interval, lifetime, bound)) <==> interval > 0 || lifetime == 0
  {
    if interval > 0 || lifetime == 0 {
      PositiveIntervalEnds(start, interval, lifetime);
    } else {
      forall bound: nat ensures !EndsWithin(start, interval, lifetime, bound) {
        ZeroIntervalNeverEnds(start, lifetime, bound);
        assert StaysPolling(start, interval, lifetime, Pending(bound));
      }
    }
  }
}
