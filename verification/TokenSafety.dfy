/** What every interleaving of the token protocol keeps, and the theorems over whole runs. */
module TokenSafety {
  import opened Wrappers
  import opened TokenProtocol

  // ------------------------------------------------------------------ vocabulary

  /** The refresh token a grant leaves behind: the rotated one, or the one it presented. */
  function Carry(g: Grant): string {
    if g.answer.Some? && g.answer.value.Success? && g.answer.value.rotated.Some?
    then g.answer.value.rotated.value
    else g.presented
  }

  function NextPresented(w: World): string {
    if |w.grants| == 0 then w.signedIn else Carry(w.grants[|w.grants| - 1])
  }

  /** Each grant presents what the one before it left, and begins only once that one was answered. */
  ghost predicate Chained(signedIn: string, gs: seq<Grant>) {
    && (|gs| > 0 ==> gs[0].presented == signedIn)
    && (forall i, j :: 0 <= i && j == i + 1 && j < |gs| ==>
          gs[i].answer.Some? && gs[j].presented == Carry(gs[i]))
  }

  /** The call that holds the refresh lock. */
  function Holder(w: World): Option<Call> {
    if w.lock.Some? && w.lock.value in w.calls then Some(w.calls[w.lock.value]) else None
  }

  predicate InFlight(w: World) {
    Holder(w).Some? && Holder(w).value.pc.AwaitAnswer?
  }

  /** Past the second reading of the flag, and no grant begun yet. */
  predicate PastRecheck(pc: Pc) {
    pc.RecheckConsent? || pc.RecheckCache? || pc.ReadRefresh? || pc.SendGrant?
  }

  predicate PastCache(pc: Pc) {
    pc.ReadRefresh? || pc.SendGrant? || pc.AwaitAnswer? || pc.Rotate? || pc.StoreToken? || pc.Refuse?
  }

  predicate PastConsent(pc: Pc) {
    pc.RecheckCache? || PastCache(pc)
  }

  ghost predicate IssuedFor(gs: seq<Grant>, aud: Audience, token: string) {
    exists i :: 0 <= i < |gs| && gs[i].aud == aud && gs[i].stored.Some? && gs[i].stored.value.token == token
  }

  // ------------------------------------------------------------------ invariants

  /** Mutual exclusion: exactly the lock's holder stands inside the refresh section. */
  ghost predicate InvLock(w: World) {
    && (forall id :: id in w.calls ==> (Holding(w.calls[id].pc) <==> w.lock == Some(id)))
    && (w.lock.Some? ==> w.lock.value in w.calls)
  }

  ghost predicate LastGrantFits(w: World, c: Call) {
    match c.pc
    case SendGrant(p) => p == w.refresh
    case AwaitAnswer(p) =>
      && |w.grants| > 0
      && var g := w.grants[|w.grants| - 1]; g == Grant(c.aud, p, g.beganAt, None, None)
    case Rotate(a) =>
      && |w.grants| > 0
      && var g := w.grants[|w.grants| - 1]; g.aud == c.aud && g.answer == Some(a) && g.stored.None?
    case StoreToken(a) =>
      && |w.grants| > 0
      && var g := w.grants[|w.grants| - 1]; g.aud == c.aud && g.answer == Some(a) && g.stored.None?
    case Refuse(a) =>
      && |w.grants| > 0
      && var g := w.grants[|w.grants| - 1]; g.aud == c.aud && g.answer == Some(a) && g.stored.None?
    case _ => true
  }

  ghost predicate InvChain(w: World) {
    && Chained(w.signedIn, w.grants)
    && (forall i :: 0 <= i < |w.grants| && w.grants[i].answer.None? ==> i == |w.grants| - 1 && InFlight(w))
    && (Holder(w).Some? ==> LastGrantFits(w, Holder(w).value))
    && (if Holder(w).Some? && (Holder(w).value.pc.AwaitAnswer? || Holder(w).value.pc.Rotate?)
        then |w.grants| > 0 && w.refresh == w.grants[|w.grants| - 1].presented
        else w.refresh == NextPresented(w))
  }

  ghost predicate InvStored(w: World) {
    && (forall i :: 0 <= i < |w.grants| ==> w.grants[i].beganAt <= w.now)
    && (forall i :: 0 <= i < |w.grants| && w.grants[i].stored.Some? ==>
          && w.grants[i].answer.Some?
          && w.grants[i].answer.value.Success?
          && w.grants[i].stored.value.token == w.grants[i].answer.value.token)
    && (forall aud :: aud in w.cache ==>
          exists i :: 0 <= i < |w.grants| && w.grants[i].aud == aud && w.grants[i].stored == Some(w.cache[aud]))
  }

  ghost predicate SingleFlight(gs: seq<Grant>) {
    forall i, j :: 0 <= i < j < |gs| && gs[i].aud == gs[j].aud && gs[i].stored.Some? ==>
      !IsValid(gs[i].stored.value, gs[j].beganAt)
  }

  /** A stored token that is still valid is the cached one. */
  ghost predicate ValidAreCached(w: World) {
    forall i :: 0 <= i < |w.grants| && w.grants[i].stored.Some? ==>
      || (w.grants[i].aud in w.cache && w.cache[w.grants[i].aud] == w.grants[i].stored.value)
      || !IsValid(w.grants[i].stored.value, w.now)
  }

  /** Such a token is the cached one, and no later grant began while it was valid. */
  ghost predicate InvFresh(w: World) {
    && ValidAreCached(w)
    && SingleFlight(w.grants)
    && (forall id :: id in w.calls && PastCache(w.calls[id].pc) ==> !Fresh(w, w.calls[id].aud))
  }

  ghost predicate InvResults(w: World) {
    forall id :: id in w.calls && w.calls[id].pc.Done? && w.calls[id].pc.result.Ok? ==>
      IssuedFor(w.grants, w.calls[id].aud, w.calls[id].pc.result.value)
  }

  ghost predicate InvConsent(w: World) {
    forall id :: id in w.calls && PastConsent(w.calls[id].pc) ==> !Lost(w, w.calls[id].aud)
  }

  ghost predicate Inv(w: World) {
    InvLock(w) && InvChain(w) && InvStored(w) && InvFresh(w) && InvResults(w) && InvConsent(w)
  }

  // ------------------------------------------------------------------ one step keeps them

  /** What a step of call `id` leaves alone, and how it may touch the lock. */
  ghost predicate Shape(w: World, id: nat, w': World)
    requires id in w.calls
  {
    var pc := w.calls[id].pc;
    && id in w'.calls
    && w'.calls == w.calls[id := Call(w.calls[id].aud, w'.calls[id].pc)]
    && w'.lock == (if pc.WaitLock? then Some(id) else if Holding(pc) && w'.calls[id].pc.Done? then None else w.lock)
    && (Holding(w'.calls[id].pc) <==> pc.WaitLock? || (Holding(pc) && !w'.calls[id].pc.Done?))
    && w'.now == w.now && w'.mode == w.mode && w'.signedIn == w.signedIn
  }

  lemma EnterShape(w: World, id: nat)
    requires Enabled(w, Advance(id)) && !Holding(w.calls[id].pc)
    ensures Shape(w, id, Enter(w, id))
  {
  }

  lemma RecheckShape(w: World, id: nat)
    requires Enabled(w, Advance(id)) && Holding(w.calls[id].pc)
    requires var pc := w.calls[id].pc; pc.RecheckReauth? || pc.RecheckConsent? || pc.RecheckCache?
    ensures Shape(w, id, Recheck(w, id))
  {
  }

  lemma RenewShape(w: World, id: nat)
    requires Enabled(w, Advance(id)) && PastCache(w.calls[id].pc)
    ensures Shape(w, id, Renew(w, id))
  {
  }

  lemma MoveShape(w: World, id: nat)
    requires Enabled(w, Advance(id))
    ensures Shape(w, id, Move(w, id))
  {
    var pc := w.calls[id].pc;
    if !Holding(pc) { EnterShape(w, id); }
    else if PastCache(pc) { RenewShape(w, id); }
    else { RecheckShape(w, id); }
  }

  lemma LockKept(w: World, s: Step)
    requires Enabled(w, s) && InvLock(w)
    ensures InvLock(Apply(w, s))
  {
    match s
    case Tick(_) =>
    case Arrive(id, aud) =>
    case Challenge(_) =>
    case Advance(id) => MoveShape(w, id);
    case Reply(id, a) =>
  }

  ghost predicate SameShared(w: World, w': World) {
    && w'.grants == w.grants && w'.refresh == w.refresh && w'.cache == w.cache
    && w'.consent == w.consent && w'.reauth == w.reauth
  }

  /** A move that only reads, seen from outside. */
  ghost predicate Quiet(w: World, id: nat, w': World)
    requires id in w.calls
  {
    && SameShared(w, w') && Shape(w, id, w')
    && (PastConsent(w'.calls[id].pc) && !PastConsent(w.calls[id].pc) ==> !Lost(w, w.calls[id].aud))
    && (PastCache(w'.calls[id].pc) && !PastCache(w.calls[id].pc) ==> !Fresh(w, w.calls[id].aud))
    && (LastGrantFits(w, w.calls[id]) ==> LastGrantFits(w', w'.calls[id]))
    && !w'.calls[id].pc.AwaitAnswer? && !w'.calls[id].pc.Rotate?
  }

  /** Until a grant is sent, a call only reads. */
  lemma ReadsOnly(w: World, id: nat)
    requires Enabled(w, Advance(id))
    requires !Holding(w.calls[id].pc) || PastRecheck(w.calls[id].pc) || w.calls[id].pc.RecheckReauth?
    requires !w.calls[id].pc.SendGrant?
    ensures Quiet(w, id, Move(w, id))
  {
    MoveShape(w, id);
  }

  /** The steps that write: sending a grant, rotating, storing and recording a refusal. */
  predicate Writes(pc: Pc) {
    pc.SendGrant? || pc.Rotate? || pc.StoreToken? || pc.Refuse?
  }

  lemma SendKeepsChain(w: World, id: nat)
    requires Enabled(w, Advance(id)) && InvLock(w) && InvChain(w) && w.calls[id].pc.SendGrant?
    ensures InvChain(Move(w, id))
  {
    assert Holder(w) == Some(w.calls[id]);
  }

  lemma RotateKeepsChain(w: World, id: nat)
    requires Enabled(w, Advance(id)) && InvLock(w) && InvChain(w) && w.calls[id].pc.Rotate?
    ensures InvChain(Move(w, id))
  {
    assert Holder(w) == Some(w.calls[id]);
  }

  lemma StoreKeepsChain(w: World, id: nat)
    requires Enabled(w, Advance(id)) && InvLock(w) && InvChain(w) && w.calls[id].pc.StoreToken?
    ensures InvChain(Move(w, id))
  {
    assert Holder(w) == Some(w.calls[id]);
  }

  lemma WriteKeepsChain(w: World, id: nat)
    requires Enabled(w, Advance(id)) && InvLock(w) && InvChain(w) && Writes(w.calls[id].pc)
    ensures InvChain(Move(w, id))
  {
    if w.calls[id].pc.SendGrant? {
      SendKeepsChain(w, id);
    } else if w.calls[id].pc.Rotate? {
      RotateKeepsChain(w, id);
    } else if w.calls[id].pc.StoreToken? {
      StoreKeepsChain(w, id);
    } else {
      assert Holder(w) == Some(w.calls[id]);
      RenewShape(w, id);
    }
  }

  lemma ReplyKeepsChain(w: World, id: nat, a: Answer)
    requires Enabled(w, Reply(id, a)) && InvLock(w) && InvChain(w)
    ensures InvChain(Apply(w, Reply(id, a)))
  {
    assert Holder(w) == Some(w.calls[id]);
  }

  lemma ChainKept(w: World, s: Step)
    requires Enabled(w, s) && InvLock(w) && InvChain(w)
    ensures InvChain(Apply(w, s))
  {
    match s
    case Tick(_) =>
    case Arrive(id, aud) =>
    case Challenge(_) =>
    case Reply(id, a) => ReplyKeepsChain(w, id, a);
    case Advance(id) =>
      if Writes(w.calls[id].pc) { WriteKeepsChain(w, id); } else { ReadsOnly(w, id); }
  }

  /** Storing a token: the last grant carries it, and the cache holds it. */
  lemma StoreKeepsStored(w: World, id: nat)
    requires Enabled(w, Advance(id)) && InvLock(w) && InvChain(w) && InvStored(w) && w.calls[id].pc.StoreToken?
    ensures InvStored(Move(w, id))
    ensures IssuedFor(Move(w, id).grants, w.calls[id].aud, w.calls[id].pc.answer.token)
  {
    assert Holder(w) == Some(w.calls[id]);
    var Call(aud', pc) := w.calls[id];
    var w' := Stored(w, aud', pc.answer);
    var n := |w.grants| - 1;
    assert Move(w, id).grants == w'.grants && Move(w, id).cache == w'.cache && Move(w, id).now == w.now;
    assert w'.grants[n].aud == aud' && w'.grants[n].stored == Some(w'.cache[aud']);
    forall aud | aud in w'.cache && aud != aud'
      ensures exists i :: 0 <= i < |w'.grants| && w'.grants[i].aud == aud && w'.grants[i].stored == Some(w'.cache[aud])
    {
      var i :| 0 <= i < |w.grants| && w.grants[i].aud == aud && w.grants[i].stored == Some(w.cache[aud]);
      assert w'.grants[i] == w.grants[i];
    }
  }

  /** Rotating and recording a refusal touch neither the cache nor the grants. */
  lemma CacheUntouched(w: World, id: nat)
    requires Enabled(w, Advance(id)) && (w.calls[id].pc.Rotate? || w.calls[id].pc.Refuse?)
    ensures Move(w, id).grants == w.grants && Move(w, id).cache == w.cache && Shape(w, id, Move(w, id))
  {
    RenewShape(w, id);
  }

  lemma SendAppends(w: World, id: nat)
    requires Enabled(w, Advance(id)) && w.calls[id].pc.SendGrant?
    ensures Move(w, id).grants == w.grants + [Grant(w.calls[id].aud, w.calls[id].pc.presented, w.now, None, None)]
    ensures Move(w, id).cache == w.cache && Shape(w, id, Move(w, id))
  {
    RenewShape(w, id);
  }

  lemma SendKeepsStored(w: World, id: nat)
    requires Enabled(w, Advance(id)) && InvStored(w) && w.calls[id].pc.SendGrant?
    ensures InvStored(Move(w, id))
  {
    SendAppends(w, id);
    var gs := Move(w, id).grants;
    forall aud | aud in w.cache
      ensures exists i :: 0 <= i < |gs| && gs[i].aud == aud && gs[i].stored == Some(w.cache[aud])
    {
      var i :| 0 <= i < |w.grants| && w.grants[i].aud == aud && w.grants[i].stored == Some(w.cache[aud]);
      assert gs[i] == w.grants[i];
    }
  }

  lemma WriteKeepsStored(w: World, id: nat)
    requires Enabled(w, Advance(id)) && InvLock(w) && InvChain(w) && InvStored(w) && Writes(w.calls[id].pc)
    ensures InvStored(Move(w, id))
  {
    match w.calls[id].pc
    case StoreToken(_) => StoreKeepsStored(w, id);
    case SendGrant(_) => SendKeepsStored(w, id);
    case _ => CacheUntouched(w, id);
  }

  lemma StoredKept(w: World, s: Step)
    requires Enabled(w, s) && InvLock(w) && InvChain(w) && InvStored(w)
    ensures InvStored(Apply(w, s))
  {
    match s
    case Tick(_) =>
    case Arrive(id, aud) =>
    case Challenge(_) =>
    case Reply(id, a) =>
      assert Holder(w) == Some(w.calls[id]);
      var w' := Apply(w, s);
      assert forall i :: 0 <= i < |w.grants| ==>
          w'.grants[i].aud == w.grants[i].aud && w'.grants[i].stored == w.grants[i].stored;
    case Advance(id) =>
      if Writes(w.calls[id].pc) { WriteKeepsStored(w, id); } else { ReadsOnly(w, id); }
  }

  lemma StoringKeepsFlight(gs: seq<Grant>, gs': seq<Grant>)
    requires SingleFlight(gs) && |gs'| == |gs| > 0 && gs'[..|gs| - 1] == gs[..|gs| - 1]
    requires gs'[|gs| - 1].aud == gs[|gs| - 1].aud && gs'[|gs| - 1].beganAt == gs[|gs| - 1].beganAt
    ensures SingleFlight(gs')
  {
    assert forall i :: 0 <= i < |gs| - 1 ==> gs'[i] == gs'[..|gs| - 1][i] == gs[..|gs| - 1][i] == gs[i];
  }

  /** Only a stale entry is replaced, so no valid token is lost from the cache. */
  lemma StoredKeepsCached(w: World, aud: Audience, a: Issue)
    requires ValidAreCached(w) && SingleFlight(w.grants) && !Fresh(w, aud)
    requires |w.grants| > 0 && w.grants[|w.grants| - 1].aud == aud
    ensures ValidAreCached(Stored(w, aud, a)) && SingleFlight(Stored(w, aud, a).grants)
  {
    var w' := Stored(w, aud, a);
    assert w'.grants[..|w.grants| - 1] == w.grants[..|w.grants| - 1];
    StoringKeepsFlight(w.grants, w'.grants);
  }

  /** After the store nobody but the finished call has moved, and the entry is only fresher. */
  lemma StoreMoves(w: World, id: nat)
    requires Enabled(w, Advance(id)) && InvLock(w) && InvFresh(w) && w.calls[id].pc.StoreToken?
    ensures var w', s := Move(w, id), Stored(w, w.calls[id].aud, w.calls[id].pc.answer);
      && w'.grants == s.grants && w'.cache == s.cache && w'.now == s.now
      && forall other :: other in w'.calls && PastCache(w'.calls[other].pc) ==> !Fresh(w', w'.calls[other].aud)
  {
    RenewShape(w, id);
  }

  lemma StoreKeepsFresh(w: World, id: nat)
    requires Enabled(w, Advance(id)) && InvLock(w) && InvChain(w) && InvFresh(w) && w.calls[id].pc.StoreToken?
    ensures InvFresh(Move(w, id))
  {
    assert Holder(w) == Some(w.calls[id]);
    StoredKeepsCached(w, w.calls[id].aud, w.calls[id].pc.answer);
    StoreMoves(w, id);
  }

  lemma SendKeepsFresh(w: World, id: nat)
    requires Enabled(w, Advance(id)) && InvFresh(w) && w.calls[id].pc.SendGrant?
    ensures InvFresh(Move(w, id))
  {
    SendAppends(w, id);
    assert !Fresh(w, w.calls[id].aud);
  }

  lemma WriteKeepsFresh(w: World, id: nat)
    requires Enabled(w, Advance(id)) && InvLock(w) && InvChain(w) && InvStored(w) && InvFresh(w)
            && Writes(w.calls[id].pc)
    ensures InvFresh(Move(w, id))
  {
    match w.calls[id].pc
    case StoreToken(_) => StoreKeepsFresh(w, id);
    case SendGrant(_) => SendKeepsFresh(w, id);
    case _ => CacheUntouched(w, id);
  }

  lemma ReplyKeepsFresh(w: World, id: nat, a: Answer)
    requires Enabled(w, Reply(id, a)) && InvLock(w) && InvChain(w) && InvFresh(w)
    ensures InvFresh(Apply(w, Reply(id, a)))
  {
    assert Holder(w) == Some(w.calls[id]);
    var w' := Apply(w, Reply(id, a));
    assert forall i :: 0 <= i < |w.grants| ==> w'.grants[i] == w.grants[i].(answer := w'.grants[i].answer);
  }

  lemma QuietKeepsFresh(w: World, id: nat, w': World)
    requires id in w.calls && InvFresh(w) && Quiet(w, id, w')
    ensures InvFresh(w')
  {
  }

  lemma FreshKept(w: World, s: Step)
    requires Enabled(w, s) && InvLock(w) && InvChain(w) && InvStored(w) && InvFresh(w)
    ensures InvFresh(Apply(w, s))
  {
    match s
    case Tick(_) =>
    case Arrive(id, aud) =>
    case Challenge(_) =>
    case Reply(id, a) => ReplyKeepsFresh(w, id, a);
    case Advance(id) =>
      if Writes(w.calls[id].pc) {
        WriteKeepsFresh(w, id);
      } else {
        ReadsOnly(w, id);
        QuietKeepsFresh(w, id, Move(w, id));
      }
  }

  /** What a grant stored stays. */
  lemma StoredStays(w: World, s: Step, i: nat)
    requires Enabled(w, s) && InvLock(w) && InvChain(w) && i < |w.grants| && w.grants[i].stored.Some?
    ensures i < |Apply(w, s).grants|
    ensures Apply(w, s).grants[i].aud == w.grants[i].aud && Apply(w, s).grants[i].stored == w.grants[i].stored
  {
    if s.Advance? && !Writes(w.calls[s.id].pc) {
      ReadsOnly(w, s.id);
    } else if s.Advance? || s.Reply? {
      assert Holder(w) == Some(w.calls[s.id]);
    }
  }

  lemma IssuedStays(w: World, s: Step, aud: Audience, token: string)
    requires Enabled(w, s) && InvLock(w) && InvChain(w) && IssuedFor(w.grants, aud, token)
    ensures IssuedFor(Apply(w, s).grants, aud, token)
  {
    var i :| 0 <= i < |w.grants| && w.grants[i].aud == aud && w.grants[i].stored.Some?
        && w.grants[i].stored.value.token == token;
    StoredStays(w, s, i);
  }

  /** A call that has just returned a token returns the cached one or the one it stored. */
  lemma ReturnedToken(w: World, id: nat, token: string)
    requires Enabled(w, Advance(id)) && id in Move(w, id).calls && Move(w, id).calls[id].pc == Done(Ok(token))
    ensures var Call(aud, pc) := w.calls[id];
      || (pc.StoreToken? && token == pc.answer.token)
      || (!Writes(pc) && aud in w.cache && token == w.cache[aud].token)
  {
  }

  lemma CachedIsIssued(w: World, aud: Audience)
    requires InvStored(w) && aud in w.cache
    ensures IssuedFor(w.grants, aud, w.cache[aud].token)
  {
    var i :| 0 <= i < |w.grants| && w.grants[i].aud == aud && w.grants[i].stored == Some(w.cache[aud]);
  }

  lemma NewResultIssued(w: World, id: nat, token: string)
    requires Enabled(w, Advance(id)) && InvLock(w) && InvChain(w) && InvStored(w)
    requires id in Move(w, id).calls && Move(w, id).calls[id].pc == Done(Ok(token))
    ensures IssuedFor(Move(w, id).grants, w.calls[id].aud, token)
  {
    ReturnedToken(w, id, token);
    if w.calls[id].pc.StoreToken? {
      StoreKeepsStored(w, id);
    } else {
      CachedIsIssued(w, w.calls[id].aud);
      ReadsOnly(w, id);
    }
  }

  lemma ResultsKept(w: World, s: Step)
    requires Enabled(w, s) && InvLock(w) && InvChain(w) && InvStored(w) && InvResults(w)
    ensures InvResults(Apply(w, s))
  {
    if s.Advance? { MoveShape(w, s.id); }
    var w' := Apply(w, s);
    forall id | id in w'.calls && w'.calls[id].pc.Done? && w'.calls[id].pc.result.Ok?
      ensures IssuedFor(w'.grants, w'.calls[id].aud, w'.calls[id].pc.result.value)
    {
      if s == Advance(id) {
        NewResultIssued(w, id, w'.calls[id].pc.result.value);
      } else {
        assert w.calls[id] == w'.calls[id];
        IssuedStays(w, s, w.calls[id].aud, w.calls[id].pc.result.value);
      }
    }
  }

  lemma QuietKeepsConsent(w: World, id: nat, w': World)
    requires id in w.calls && InvConsent(w) && Quiet(w, id, w')
    ensures InvConsent(w')
  {
  }

  /** Only the lock's holder is past the second reading of the consent map, so a write is safe. */
  lemma WriteKeepsConsent(w: World, id: nat)
    requires Enabled(w, Advance(id)) && InvLock(w) && InvConsent(w) && Writes(w.calls[id].pc)
    ensures InvConsent(Move(w, id))
  {
    RenewShape(w, id);
  }

  lemma ConsentKept(w: World, s: Step)
    requires Enabled(w, s) && InvLock(w) && InvConsent(w)
    ensures InvConsent(Apply(w, s))
  {
    match s
    case Tick(_) =>
    case Arrive(id, aud) =>
    case Challenge(_) =>
    case Reply(id, a) =>
    case Advance(id) =>
      if Writes(w.calls[id].pc) {
        WriteKeepsConsent(w, id);
      } else {
        ReadsOnly(w, id);
        QuietKeepsConsent(w, id, Move(w, id));
      }
  }

  lemma InvKept(w: World, s: Step)
    requires Enabled(w, s) && Inv(w)
    ensures Inv(Apply(w, s))
  {
    LockKept(w, s);
    ChainKept(w, s);
    StoredKept(w, s);
    FreshKept(w, s);
    ResultsKept(w, s);
    ConsentKept(w, s);
  }

  /** The session changes only where a refused grant is recorded. */
  lemma WriteEffect(w: World, id: nat)
    requires Enabled(w, Advance(id)) && Writes(w.calls[id].pc)
    ensures var Call(aud, pc), w' := w.calls[id], Move(w, id);
      && Shape(w, id, w')
      && w'.consent ==
          (if pc.Refuse? && Verdict(w.mode, pc.refusal).ConsentMissing? then w.consent[aud := Missing] else w.consent)
      && w'.reauth ==
          (if pc.Refuse? && Verdict(w.mode, pc.refusal).Reauthenticate? && w.mode.Delegated? && w.reauth.None?
                       then Some(Verdict(w.mode, pc.refusal).reason) else w.reauth)
      && (pc.Refuse? ==> w'.cache == w.cache && w'.refresh == w.refresh && w'.grants == w.grants)
  {
    RenewShape(w, id);
  }
}
