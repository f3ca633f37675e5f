/**
 The lifecycle goroutine and any number of request handlers, interleaved. A step is one critical
 section or one call to Vault; timers and deadlines fire whenever they may. The state carries a
 history the program does not have: the login epoch, the epoch of the last passed canary, and the
 ledger of minted tokens and revoke attempts.
 */
module Protocol {
  import opened Results
  import opened Vault
  import opened Session

  /** Where the lifecycle goroutine is: Run, sessionLoop and runCanary. */
  datatype Pc =
    | AtLogin
    | LoginGranted(token: string, lease: int)
    | LoginRefused
    | Sleeping
    | Entering
    | CanaryMinting
    | CanaryRevoking(minted: string, sound: bool)
    | CanaryPassed
    | CanaryConfirming
    | CanaryFailing
    | Selecting
    | Renewing
    | RenewGranted(lease: int)
    | RenewRefused
    | Halted

  /** Where a call of Handle is. */
  datatype Handler =
    | Arrived
    | Gated
    | Working(token: string)
    | Revoking(token: string, status: int)
    | Finished(owned: Option<string>, status: int)

  /** What the select in callHandler has answered. */
  datatype Http = Pending | Delivered(status: int) | TimedOut

  datatype Call = Call(handler: Handler, http: Http)

  datatype Owner = Canary | Handle(r: nat)

  datatype State = State(session: Session, pc: Pc, armed: bool, lastFailed: bool,
                         epoch: nat, passEpoch: nat,
                         requests: map<nat, Call>,
                         owners: map<string, Owner>, revokes: multiset<string>)

  const INITIAL := State(FRESH, AtLogin, false, false, 0, 0, map[], map[], multiset{})

  datatype Action =
    // the lifecycle goroutine
    | LoginReply(granted: Option<(string, int)>)
    | LoginCommit
    | LoginMark
    | Wake
    | Cancel
    | Enter
    | CanaryMint(mint: Option<Mint>)
    | CanaryRevoke(token: string, revoked: bool)
    | CanaryPublish
    | CanaryConfirm
    | CanaryReject
    | RenewFires
    | RetryFires
    | RenewReply(renewed: Option<int>)
    | RenewCommit
    | RenewMark
    // request r
    | Arrive(r: nat)
    | Gate(r: nat)
    | RequestMint(r: nat, mint: Option<Mint>)
    | RequestRead(r: nat, token: string)
    | Conclude(r: nat, status: int)
    | RequestRevoke(r: nat, token: string, revoked: bool)
    | Deliver(r: nat)
    | Timeout(r: nat)

  // ---------- one handler ----------

  /** The steps of a handler itself; `gate` is what CanaryOK returns. A read or a revoke is a step
      only under the handler's own token. None: not possible here. */
  function HandlerStep(h: Handler, a: Action, gate: bool): Option<Handler> {
    match a
    case Gate(_) =>
      if h.Arrived? then Some(if gate then Gated else Finished(None, 502)) else None
    case RequestMint(_, mint) =>
      if h.Gated? then Some(if mint.Some? then Working(mint.value.token) else Finished(None, 502)) else None
    case RequestRead(_, token) =>
      if h.Working? && h.token == token then Some(h) else None
    case Conclude(_, status) =>
      if h.Working? && status in {200, 204, 502}
      then Some(if status == 200 then Finished(Some(h.token), 200) else Revoking(h.token, status)) else None
    case RequestRevoke(_, token, _) =>
      if h.Revoking? && h.token == token then Some(Finished(Some(h.token), h.status)) else None
    case _ => None
  }

  // ---------- the lifecycle goroutine ----------

  /** What the goroutine itself reads and writes: the session, where it is, whether its retry timer is
      armed, and whether the last canary of this session failed. */
  datatype Life = Life(session: Session, pc: Pc, armed: bool, lastFailed: bool)

  function LifeStep(l: Life, a: Action): Option<Life> {
    match a
    case LoginReply(granted) =>
      if !l.pc.AtLogin? then None else
        Some(l.(pc := if Grants(granted) then LoginGranted(granted.value.0, granted.value.1) else LoginRefused))
    case LoginCommit =>
      if !l.pc.LoginGranted? then None else
        Some(l.(session := LoggedIn(l.pc.token, l.pc.lease), pc := Entering))
    case LoginMark =>
      if !l.pc.LoginRefused? then None else
        Some(l.(session := l.session.(sessionOK := false), pc := Sleeping))
    case Wake => if !l.pc.Sleeping? then None else Some(l.(pc := AtLogin))
    case Cancel => if !l.pc.Sleeping? && !l.pc.Selecting? then None else Some(l.(pc := Halted))
    case Enter =>
      if !l.pc.Entering? then None else Some(l.(armed := false, lastFailed := false, pc := CanaryMinting))
    case CanaryMint(mint) =>
      if !l.pc.CanaryMinting? then None else
        Some(l.(pc := if mint.Some? then CanaryRevoking(mint.value.token, SoundMint(mint.value)) else CanaryFailing))
    case CanaryRevoke(token, revoked) =>
      if !l.pc.CanaryRevoking? || l.pc.minted != token then None else
        Some(l.(pc := if l.pc.sound && revoked then CanaryPassed else CanaryFailing))
    case CanaryPublish =>
      if !l.pc.CanaryPassed? then None else
        Some(l.(session := l.session.(canaryOK := true), pc := CanaryConfirming))
    case CanaryConfirm =>
      if !l.pc.CanaryConfirming? then None else
        Some(l.(session := l.session.(canaryOK := true), armed := false, lastFailed := false, pc := Selecting))
    case CanaryReject =>
      if !l.pc.CanaryFailing? then None else
        Some(l.(session := l.session.(canaryOK := false), armed := true, lastFailed := true, pc := Selecting))
    case RenewFires => if !l.pc.Selecting? then None else Some(l.(pc := Renewing))
    case RetryFires =>
      if !l.pc.Selecting? || !l.armed then None else Some(l.(armed := false, pc := CanaryMinting))
    case RenewReply(renewed) =>
      if !l.pc.Renewing? then None else
        Some(l.(pc := if renewed.Some? then RenewGranted(renewed.value) else RenewRefused))
    case RenewCommit =>
      if !l.pc.RenewGranted? then None else Some(l.(session := Renewed(l.session, l.pc.lease), pc := Selecting))
    case RenewMark =>
      if !l.pc.RenewRefused? then None else
        Some(l.(session := l.session.(sessionOK := false), armed := false, pc := AtLogin))
    case _ => None
  }

  /** The goroutine after a list of its own steps. */
  ghost function FollowLife(l: Life, acts: seq<Action>): Option<Life>
    decreases |acts|
  {
    if acts == [] then Some(l)
    else match LifeStep(l, acts[0])
      case None => None
      case Some(next) => FollowLife(next, acts[1..])
  }

  lemma {:induction false} FollowLifeAppend(l: Life, a: seq<Action>, b: seq<Action>)
    ensures FollowLife(l, a + b) ==
            match FollowLife(l, a) case None => None case Some(m) => FollowLife(m, b)
    decreases |a|
  {
    hide LifeStep;
    if a == [] {
      assert a + b == b;
    } else {
      assert (a + b)[1..] == a[1..] + b;
      if LifeStep(l, a[0]).Some? { FollowLifeAppend(LifeStep(l, a[0]).value, a[1..], b); }
    }
  }

  // ---------- the whole system ----------

  /** Vault does not issue a token twice. */
  predicate Fresh(s: State, mint: Option<Mint>) {
    mint.Some? ==> mint.value.token !in s.owners
  }

  function Own(s: State, mint: Option<Mint>, owner: Owner): map<string, Owner> {
    if mint.Some? then s.owners[mint.value.token := owner] else s.owners
  }

  function LifeOf(s: State): Life { Life(s.session, s.pc, s.armed, s.lastFailed) }

  /** The goroutine's step, with what it does to the epochs and the ledger. */
  function LifecycleStep(s: State, a: Action): Option<State> {
    match LifeStep(LifeOf(s), a)
    case None => None
    case Some(l) =>
      var moved := s.(session := l.session, pc := l.pc, armed := l.armed, lastFailed := l.lastFailed);
      if a.LoginCommit? then Some(moved.(epoch := s.epoch + 1))
      else if a.CanaryMint? then
        if Fresh(s, a.mint) then Some(moved.(owners := Own(s, a.mint, Canary))) else None
      else if a.CanaryRevoke? then
        Some(moved.(revokes := s.revokes + multiset{a.token},
                    passEpoch := if l.pc.CanaryPassed? then s.epoch else s.passEpoch))
      else Some(moved)
  }

  function RequestStep(s: State, r: nat, a: Action): Option<State>
    requires r in s.requests
  {
    var q := s.requests[r];
    if a.Deliver? then
      if q.handler.Finished? && q.http == Pending
      then Some(s.(requests := s.requests[r := q.(http := Delivered(q.handler.status))])) else None
    else if a.Timeout? then
      if q.http == Pending then Some(s.(requests := s.requests[r := q.(http := TimedOut)])) else None
    else
      match HandlerStep(q.handler, a, s.session.canaryOK)
      case None => None
      case Some(h) =>
        var moved := s.(requests := s.requests[r := q.(handler := h)]);
        if a.RequestMint? then
          if Fresh(s, a.mint) then Some(moved.(owners := Own(s, a.mint, Handle(r)))) else None
        else if a.RequestRevoke? then Some(moved.(revokes := s.revokes + multiset{a.token}))
        else Some(moved)
  }

  predicate OfRequest(a: Action) {
    a.Gate? || a.RequestMint? || a.RequestRead? || a.Conclude? || a.RequestRevoke? || a.Deliver? || a.Timeout?
  }

  function Step(s: State, a: Action): Option<State> {
    if a.Arrive? then
      if a.r in s.requests then None else Some(s.(requests := s.requests[a.r := Call(Arrived, Pending)]))
    else if OfRequest(a) then
      if a.r in s.requests then RequestStep(s, a.r, a) else None
    else LifecycleStep(s, a)
  }

  /** The system after a list of steps with nothing in between. */
  ghost function StepAll(s: State, acts: seq<Action>): Option<State>
    decreases |acts|
  {
    if acts == [] then Some(s)
    else match Step(s, acts[0])
      case None => None
      case Some(next) => StepAll(next, acts[1..])
  }

  lemma StepFirst(s: State, a: Action, acts: seq<Action>)
    ensures StepAll(s, [a] + acts) == match Step(s, a) case None => None case Some(next) => StepAll(next, acts)
  {
    hide Step;
    assert ([a] + acts)[1..] == acts;
  }

  /** A run: every interleaving is one. */
  ghost predicate IsRun(states: seq<State>, acts: seq<Action>) {
    && |states| == |acts| + 1
    && states[0] == INITIAL
    && forall i | 0 <= i < |acts| :: Step(states[i], acts[i]) == Some(states[i + 1])
  }

  // ---------- the invariant ----------

  function TokenOf(h: Handler): Option<string> {
    match h
    case Working(t) => Some(t)
    case Revoking(t, _) => Some(t)
    case Finished(owned, _) => owned
    case _ => None
  }

  /** How often a handler's token has been revoked, by where the handler is. */
  function Due(h: Handler): nat { if h.Finished? && h.status != 200 then 1 else 0 }

  ghost predicate OwnerInv(s: State, t: string)
    requires t in s.owners
  {
    match s.owners[t]
    case Canary => s.revokes[t] == if s.pc.CanaryRevoking? && s.pc.minted == t then 0 else 1
    case Handle(r) =>
      r in s.requests && TokenOf(s.requests[r].handler) == Some(t) && s.revokes[t] == Due(s.requests[r].handler)
  }

  ghost predicate RequestInv(s: State, r: nat)
    requires r in s.requests
  {
    var q := s.requests[r];
    && (TokenOf(q.handler).Some? ==>
          TokenOf(q.handler).value in s.owners && s.owners[TokenOf(q.handler).value] == Handle(r))
    && (q.handler.Finished? ==> q.handler.status in {200, 204, 502})
    && (q.handler.Finished? && q.handler.owned.None? ==> q.handler.status == 502)
    && (q.handler.Revoking? ==> q.handler.status in {204, 502})
    && (q.http.Delivered? ==> q.handler.Finished? && q.handler.status == q.http.status)
  }

  ghost predicate LedgerInv(s: State) {
    && (forall t | t in s.owners :: OwnerInv(s, t))
    && (forall t | t in s.revokes :: t in s.owners)
    && (forall r | r in s.requests :: RequestInv(s, r))
    && (s.pc.CanaryRevoking? ==> s.pc.minted in s.owners && s.owners[s.pc.minted] == Canary)
  }

  /** Between a committed login and the end of its session loop. */
  predicate InSession(pc: Pc) {
    pc.Entering? || pc.CanaryMinting? || pc.CanaryRevoking? || pc.CanaryPassed? || pc.CanaryConfirming?
    || pc.CanaryFailing? || pc.Selecting? || pc.Renewing? || pc.RenewGranted? || pc.RenewRefused?
  }

  predicate CanaryUnderWay(pc: Pc) {
    pc.Entering? || pc.CanaryMinting? || pc.CanaryRevoking? || pc.CanaryFailing?
  }

  predicate AtLoopHead(pc: Pc) { pc.Selecting? || pc.Renewing? || pc.RenewGranted? || pc.RenewRefused? }

  predicate FlagsInv(s: State) {
    && s.session.apiToken == s.session.token
    && (InSession(s.pc) ==> s.session.sessionOK && s.epoch > 0)
    && (!InSession(s.pc) && !s.pc.Halted? ==> !s.session.sessionOK)
  }

  predicate CanaryInv(s: State) {
    var canaryOK := s.session.canaryOK;
    && s.passEpoch <= s.epoch
    && (canaryOK ==> s.passEpoch == s.epoch > 0)
    && (CanaryUnderWay(s.pc) ==> !canaryOK && s.passEpoch < s.epoch)
    && (s.pc.CanaryPassed? || s.pc.CanaryConfirming? ==> s.passEpoch == s.epoch)
    && (s.pc.CanaryConfirming? ==> canaryOK)
    && (AtLoopHead(s.pc) ==>
          (s.armed <==> !canaryOK) && (s.lastFailed <==> !canaryOK) && (canaryOK <==> s.passEpoch == s.epoch))
  }

  predicate SessionInv(s: State) { FlagsInv(s) && CanaryInv(s) }

  lemma LifecycleKeepsFlags(s: State, a: Action)
    requires FlagsInv(s) && LifecycleStep(s, a).Some?
    ensures FlagsInv(LifecycleStep(s, a).value)
  {}

  lemma LifecycleKeepsCanary(s: State, a: Action)
    requires FlagsInv(s) && CanaryInv(s) && LifecycleStep(s, a).Some?
    ensures CanaryInv(LifecycleStep(s, a).value)
  {}

  lemma LifecycleKeepsSession(s: State, a: Action)
    requires SessionInv(s) && LifecycleStep(s, a).Some?
    ensures SessionInv(LifecycleStep(s, a).value)
  {
    hide LifecycleStep, FlagsInv, CanaryInv;
    LifecycleKeepsFlags(s, a);
    LifecycleKeepsCanary(s, a);
  }

  /** Requests read the session and never write it. */
  lemma HandlersLeaveSession(s: State, a: Action)
    requires (a.Arrive? || OfRequest(a)) && Step(s, a).Some?
    ensures var s' := Step(s, a).value;
            s' == s.(requests := s'.requests, owners := s'.owners, revokes := s'.revokes)
  {}

  lemma SessionInvKept(s: State, a: Action)
    requires SessionInv(s) && Step(s, a).Some?
    ensures SessionInv(Step(s, a).value)
  {
    hide RequestStep, LifecycleStep;
    if a.Arrive? || OfRequest(a) { HandlersLeaveSession(s, a); } else { LifecycleKeepsSession(s, a); }
  }

  lemma QuietStep(s: State, s': State)
    requires LedgerInv(s) && s'.owners == s.owners && s'.revokes == s.revokes && s'.requests == s.requests
    requires !s.pc.CanaryRevoking? && !s'.pc.CanaryRevoking?
    ensures LedgerInv(s')
  {
    forall r | r in s'.requests ensures RequestInv(s', r) { assert RequestInv(s, r); }
    forall t | t in s'.owners ensures OwnerInv(s', t) { assert OwnerInv(s, t); }
  }

  lemma CanaryMintKeepsLedger(s: State, a: Action)
    requires LedgerInv(s) && a.CanaryMint? && LifecycleStep(s, a).Some?
    ensures LedgerInv(LifecycleStep(s, a).value)
  {
    var s' := LifecycleStep(s, a).value;
    forall r | r in s'.requests ensures RequestInv(s', r) { assert RequestInv(s, r); }
    forall t | t in s'.owners ensures OwnerInv(s', t) {
      if t in s.owners { assert OwnerInv(s, t); } else { assert t !in s.revokes; }
    }
  }

  lemma CanaryRevokeKeepsLedger(s: State, a: Action)
    requires LedgerInv(s) && a.CanaryRevoke? && LifecycleStep(s, a).Some?
    ensures LedgerInv(LifecycleStep(s, a).value)
  {
    var s' := LifecycleStep(s, a).value;
    forall r | r in s'.requests ensures RequestInv(s', r) { assert RequestInv(s, r); }
    forall t | t in s'.owners ensures OwnerInv(s', t) { assert OwnerInv(s, t); }
  }

  lemma LifecycleKeepsLedger(s: State, a: Action)
    requires LedgerInv(s) && LifecycleStep(s, a).Some?
    ensures LedgerInv(LifecycleStep(s, a).value)
  {
    hide LedgerInv;
    if a.CanaryMint? {
      CanaryMintKeepsLedger(s, a);
    } else if a.CanaryRevoke? {
      CanaryRevokeKeepsLedger(s, a);
    } else {
      QuietStep(s, LifecycleStep(s, a).value);
    }
  }

  /** A request moves, and at most its own token changes hands or is revoked. */
  lemma OneRequestMoves(s: State, s': State, r: nat)
    requires LedgerInv(s) && s'.pc == s.pc && r in s'.requests
    requires s'.requests.Keys == s.requests.Keys + {r}
    requires forall q | q in s.requests && q != r :: s'.requests[q] == s.requests[q]
    requires forall t | t in s.owners :: t in s'.owners && s'.owners[t] == s.owners[t]
    requires forall t | t in s'.owners && (t !in s.owners || s.owners[t] == Handle(r)) :: OwnerInv(s', t)
    requires forall t | t in s.owners && s.owners[t] != Handle(r) :: s'.revokes[t] == s.revokes[t]
    requires forall t | t in s'.revokes :: t in s'.owners
    requires RequestInv(s', r)
    ensures LedgerInv(s')
  {
    forall q | q in s'.requests ensures RequestInv(s', q) {
      if q != r { assert RequestInv(s, q); }
    }
    forall t | t in s'.owners ensures OwnerInv(s', t) {
      if t in s.owners && s.owners[t] != Handle(r) { assert OwnerInv(s, t); }
    }
  }

  lemma RequestMintKeepsLedger(s: State, r: nat, a: Action)
    requires LedgerInv(s) && r in s.requests && a.RequestMint? && RequestStep(s, r, a).Some?
    ensures LedgerInv(RequestStep(s, r, a).value)
  {
    var s' := RequestStep(s, r, a).value;
    assert RequestInv(s, r);
    forall t | t in s.owners ensures s.owners[t] != Handle(r) { assert OwnerInv(s, t); }
    forall t | t in s'.owners && t !in s.owners ensures OwnerInv(s', t) { assert t !in s.revokes; }
    OneRequestMoves(s, s', r);
  }

  lemma RequestRevokeKeepsLedger(s: State, r: nat, a: Action)
    requires LedgerInv(s) && r in s.requests && a.RequestRevoke? && RequestStep(s, r, a).Some?
    ensures LedgerInv(RequestStep(s, r, a).value)
  {
    var s' := RequestStep(s, r, a).value;
    assert RequestInv(s, r);
    forall t | t in s'.owners && s.owners[t] == Handle(r) ensures OwnerInv(s', t) { assert OwnerInv(s, t); }
    OneRequestMoves(s, s', r);
  }

  lemma OtherStepsKeepLedger(s: State, r: nat, a: Action)
    requires LedgerInv(s) && r in s.requests && !a.RequestMint? && !a.RequestRevoke? && RequestStep(s, r, a).Some?
    ensures LedgerInv(RequestStep(s, r, a).value)
  {
    var s' := RequestStep(s, r, a).value;
    assert RequestInv(s, r);
    forall t | t in s'.owners && s.owners[t] == Handle(r) ensures OwnerInv(s', t) { assert OwnerInv(s, t); }
    OneRequestMoves(s, s', r);
  }

  lemma ArrivalKeepsLedger(s: State, r: nat)
    requires LedgerInv(s) && r !in s.requests
    ensures LedgerInv(s.(requests := s.requests[r := Call(Arrived, Pending)]))
  {
    var s' := s.(requests := s.requests[r := Call(Arrived, Pending)]);
    forall t | t in s'.owners ensures s.owners[t] != Handle(r) { assert OwnerInv(s, t); }
    OneRequestMoves(s, s', r);
  }

  lemma HandlersKeepLedger(s: State, a: Action)
    requires LedgerInv(s) && (a.Arrive? || OfRequest(a)) && Step(s, a).Some?
    ensures LedgerInv(Step(s, a).value)
  {
    hide LedgerInv, RequestStep;
    if a.Arrive? {
      ArrivalKeepsLedger(s, a.r);
    } else if a.RequestMint? {
      RequestMintKeepsLedger(s, a.r, a);
    } else if a.RequestRevoke? {
      RequestRevokeKeepsLedger(s, a.r, a);
    } else {
      OtherStepsKeepLedger(s, a.r, a);
    }
  }

  /** Both invariants hold in every state of every run. */
  lemma {:induction false} AlwaysInv(states: seq<State>, acts: seq<Action>, i: nat)
    requires IsRun(states, acts) && i < |states|
    ensures SessionInv(states[i]) && LedgerInv(states[i])
  {
    if i > 0 {
      AlwaysInv(states, acts, i - 1);
      var s, a := states[i - 1], acts[i - 1];
      assert Step(s, a) == Some(states[i - 1 + 1]);
      SessionInvKept(s, a);
      if a.Arrive? || OfRequest(a) { HandlersKeepLedger(s, a); } else { LifecycleKeepsLedger(s, a); }
    }
  }

  // ---------- the token ledger ----------

  /** The token's owner has done everything it will ever do with it. */
  ghost predicate Settled(s: State, t: string)
    requires t in s.owners && OwnerInv(s, t)
  {
    match s.owners[t]
    case Canary => !(s.pc.CanaryRevoking? && s.pc.minted == t)
    case Handle(r) => s.requests[r].handler.Finished?
  }

  /** The token of a Handle that ended in 200. */
  ghost predicate Kept(s: State, t: string)
    requires t in s.owners && OwnerInv(s, t)
  {
    s.owners[t].Handle? && s.requests[s.owners[t].r].handler == Finished(Some(t), 200)
  }

  /** The ledger over all runs: only minted tokens are ever revoked, none twice; and a token whose
      owner has finished was either kept by a 200 and never revoked, or revoked exactly once. */
  lemma TokenLedger(states: seq<State>, acts: seq<Action>, i: nat, t: string)
    requires IsRun(states, acts) && i < |states|
    ensures var s := states[i];
            && (t in s.revokes ==> t in s.owners)
            && s.revokes[t] <= 1
            && (t in s.owners ==>
                  && OwnerInv(s, t)
                  && (Kept(s, t) ==> s.revokes[t] == 0)
                  && (Settled(s, t) && !Kept(s, t) ==> s.revokes[t] == 1))
  {
    AlwaysInv(states, acts, i);
    var s := states[i];
    if t in s.owners {
      assert OwnerInv(s, t);
      if s.owners[t].Handle? { assert RequestInv(s, s.owners[t].r); }
    }
  }

  /** What any step does to any request: nothing, its arrival, or a step of its handler. */
  lemma StepHandler(s: State, a: Action, r: nat)
    requires Step(s, a).Some?
    ensures var s' := Step(s, a).value;
            && (r in s.requests ==> r in s'.requests)
            && (r in s'.requests ==>
                  || (r !in s.requests && s'.requests[r].handler == Arrived)
                  || (r in s.requests && s'.requests[r].handler == s.requests[r].handler)
                  || (r in s.requests && OfRequest(a) && a.r == r
                      && HandlerStep(s.requests[r].handler, a, s.session.canaryOK) == Some(s'.requests[r].handler)))
    ensures r in s.requests && OfRequest(a) && a.r == r && !a.Deliver? && !a.Timeout? ==>
              HandlerStep(s.requests[r].handler, a, s.session.canaryOK) == Some(Step(s, a).value.requests[r].handler)
    ensures OfRequest(a) ==> a.r in s.requests
  {
    hide LifecycleStep;
    if !a.Arrive? && !OfRequest(a) { LifecycleLeavesRequests(s, a); }
  }

  lemma LifecycleLeavesRequests(s: State, a: Action)
    requires LifecycleStep(s, a).Some?
    ensures LifecycleStep(s, a).value.requests == s.requests
  {}

  lemma {:induction false} FinishedForever(states: seq<State>, acts: seq<Action>, i: nat, j: nat, r: nat)
    requires IsRun(states, acts) && i <= j < |states|
    requires r in states[i].requests && states[i].requests[r].handler.Finished?
    ensures r in states[j].requests && states[j].requests[r].handler == states[i].requests[r].handler
  {
    hide Step;
    if i < j {
      FinishedForever(states, acts, i, j - 1, r);
      assert Step(states[j - 1], acts[j - 1]) == Some(states[j - 1 + 1]);
      StepHandler(states[j - 1], acts[j - 1], r);
    }
  }

  /** A client that was answered 200 holds a token that is not revoked at any later point of the run. */
  lemma DeliveredTokenLives(states: seq<State>, acts: seq<Action>, i: nat, j: nat, r: nat)
    requires IsRun(states, acts) && i <= j < |states|
    requires r in states[i].requests && states[i].requests[r].http == Delivered(200)
    ensures var h := states[i].requests[r].handler;
            h.Finished? && h.owned.Some? && states[j].revokes[h.owned.value] == 0
  {
    AlwaysInv(states, acts, i);
    assert RequestInv(states[i], r);
    FinishedForever(states, acts, i, j, r);
    AlwaysInv(states, acts, j);
    assert RequestInv(states[j], r);
    assert OwnerInv(states[j], states[i].requests[r].handler.owned.value);
  }

  /** The action was taken before state i. */
  ghost predicate Taken(acts: seq<Action>, i: nat, a: Action)
    requires i <= |acts|
  {
    a in acts[..i]
  }

  lemma TakenStep(acts: seq<Action>, i: nat, a: Action)
    requires 0 < i <= |acts|
    ensures Taken(acts, i, a) <==> Taken(acts, i - 1, a) || acts[i - 1] == a
  {
    assert acts[..i] == acts[..i - 1] + [acts[i - 1]];
  }

  /** What any step does to the answer of any request. */
  lemma StepHttp(s: State, a: Action, r: nat)
    requires Step(s, a).Some?
    ensures var s' := Step(s, a).value;
            && (r in s.requests ==> r in s'.requests)
            && (r in s'.requests ==>
                  || (r !in s.requests && s'.requests[r].http == Pending && a == Arrive(r))
                  || (r in s.requests && (a == Deliver(r) || a == Timeout(r)) && s.requests[r].http == Pending
                      && s'.requests[r].http == if a.Timeout? then TimedOut else Delivered(s.requests[r].handler.status))
                  || (r in s.requests && a != Deliver(r) && a != Timeout(r) && s'.requests[r].http == s.requests[r].http))
    ensures a == Timeout(r) || a == Deliver(r) ==> r in s.requests
  {
    hide LifecycleStep, HandlerStep;
    if !a.Arrive? && !OfRequest(a) { LifecycleLeavesRequests(s, a); }
  }

  lemma {:induction false} TimedOutExactly(states: seq<State>, acts: seq<Action>, i: nat, r: nat)
    requires IsRun(states, acts) && i < |states|
    ensures Taken(acts, i, Timeout(r)) <==> r in states[i].requests && states[i].requests[r].http.TimedOut?
  {
    hide Step;
    if i > 0 {
      TimedOutExactly(states, acts, i - 1, r);
      assert Step(states[i - 1], acts[i - 1]) == Some(states[i - 1 + 1]);
      StepHttp(states[i - 1], acts[i - 1], r);
      TakenStep(acts, i, Timeout(r));
    }
  }

  lemma {:induction false} DeliveredExactly(states: seq<State>, acts: seq<Action>, i: nat, r: nat)
    requires IsRun(states, acts) && i < |states|
    ensures Taken(acts, i, Deliver(r)) <==> r in states[i].requests && states[i].requests[r].http.Delivered?
  {
    hide Step;
    if i > 0 {
      DeliveredExactly(states, acts, i - 1, r);
      assert Step(states[i - 1], acts[i - 1]) == Some(states[i - 1 + 1]);
      StepHttp(states[i - 1], acts[i - 1], r);
      TakenStep(acts, i, Deliver(r));
    }
  }

  /** The steps that answer request r. */
  predicate IsAnswer(a: Action, r: nat) { a == Deliver(r) || a == Timeout(r) }

  /** The answer that a step gives to request r. */
  ghost predicate Answers(s: State, a: Action, r: nat, http: Http) {
    || (a == Timeout(r) && http == TimedOut)
    || (a == Deliver(r) && r in s.requests && s.requests[r].handler.Finished?
        && http == Delivered(s.requests[r].handler.status))
  }

  lemma {:induction false} AnswerStays(states: seq<State>, acts: seq<Action>, k: nat, i: nat, r: nat)
    requires IsRun(states, acts) && k < i < |states| && IsAnswer(acts[k], r)
    ensures r in states[i].requests && Answers(states[k], acts[k], r, states[i].requests[r].http)
    ensures forall j | k < j < i :: !IsAnswer(acts[j], r)
  {
    hide Step;
    var s, a := states[i - 1], acts[i - 1];
    assert Step(s, a) == Some(states[i - 1 + 1]);
    StepHttp(s, a, r);
    if k == i - 1 {
      AnswerEnabled(s, a, r);
    } else {
      AnswerStays(states, acts, k, i - 1, r);
    }
  }

  lemma AnswerEnabled(s: State, a: Action, r: nat)
    requires Step(s, a).Some? && IsAnswer(a, r)
    ensures r in s.requests && s.requests[r].http == Pending && (a.Deliver? ==> s.requests[r].handler.Finished?)
  {}

  lemma OneAnswer(states: seq<State>, acts: seq<Action>, j: nat, k: nat, r: nat)
    requires IsRun(states, acts) && j < |acts| && k < |acts| && IsAnswer(acts[j], r) && IsAnswer(acts[k], r)
    ensures j == k
  {
    if j < k { AnswerStays(states, acts, j, |acts|, r); }
    if k < j { AnswerStays(states, acts, k, |acts|, r); }
  }

  /** A request is answered at most once, and what it was answered stands: at every later state the
      answer is the one that step gave, and a request that reads as answered was answered by such a
      step. */
  lemma AnsweredOnce(states: seq<State>, acts: seq<Action>, i: nat, r: nat)
    requires IsRun(states, acts) && i < |states|
    ensures forall j, k | 0 <= j < |acts| && 0 <= k < |acts| && IsAnswer(acts[j], r) && IsAnswer(acts[k], r) :: j == k
    ensures r in states[i].requests && states[i].requests[r].http != Pending <==>
            exists k :: 0 <= k < i && IsAnswer(acts[k], r)
    ensures forall k | 0 <= k < i && IsAnswer(acts[k], r) ::
              r in states[i].requests && Answers(states[k], acts[k], r, states[i].requests[r].http)
  {
    hide Step, Answers;
    forall j, k | 0 <= j < |acts| && 0 <= k < |acts| && IsAnswer(acts[j], r) && IsAnswer(acts[k], r) ensures j == k {
      OneAnswer(states, acts, j, k, r);
    }
    forall k | 0 <= k < i && IsAnswer(acts[k], r)
      ensures r in states[i].requests && Answers(states[k], acts[k], r, states[i].requests[r].http)
    {
      AnswerStays(states, acts, k, i, r);
    }
    TimedOutExactly(states, acts, i, r);
    DeliveredExactly(states, acts, i, r);
    if Taken(acts, i, Deliver(r)) || Taken(acts, i, Timeout(r)) {
      var k :| 0 <= k < i && IsAnswer(acts[..i][k], r);
      assert acts[k] == acts[..i][k];
    }
    if k :| 0 <= k < i && IsAnswer(acts[k], r) {
      assert acts[..i][k] == acts[k];
    }
  }

  lemma {:induction false} ConcludedExactly(states: seq<State>, acts: seq<Action>, i: nat, r: nat)
    requires IsRun(states, acts) && i < |states|
    ensures Taken(acts, i, Conclude(r, 200)) <==>
            r in states[i].requests && states[i].requests[r].handler.Finished? && states[i].requests[r].handler.status == 200
  {
    hide Step, LedgerInv, SessionInv;
    if i > 0 {
      ConcludedExactly(states, acts, i - 1, r);
      var s, a := states[i - 1], acts[i - 1];
      assert Step(s, a) == Some(states[i - 1 + 1]);
      StepHandler(s, a, r);
      TakenStep(acts, i, Conclude(r, 200));
      AlwaysInv(states, acts, i - 1);
      RevokingIsNot200(s, r);
    }
  }

  lemma RevokingIsNot200(s: State, r: nat)
    requires LedgerInv(s)
    ensures r in s.requests && s.requests[r].handler.Revoking? ==> s.requests[r].handler.status != 200
  {
    if r in s.requests { assert RequestInv(s, r); }
  }

  /** The race, in terms of the schedule: once the handler is done and the client answered, the client
      got no 200 and yet the minted token was never revoked exactly when the deadline fired for a
      handler that concluded with 200. */
  lemma AbandonedExactly(states: seq<State>, acts: seq<Action>, i: nat, r: nat)
    requires IsRun(states, acts) && i < |states|
    requires r in states[i].requests && states[i].requests[r].http != Pending
    requires states[i].requests[r].handler.Finished? && states[i].requests[r].handler.owned.Some?
    ensures var q := states[i].requests[r];
            (q.http != Delivered(200) && states[i].revokes[q.handler.owned.value] == 0)
            <==> Taken(acts, i, Timeout(r)) && Taken(acts, i, Conclude(r, 200))
  {
    TimedOutExactly(states, acts, i, r);
    ConcludedExactly(states, acts, i, r);
    AlwaysInv(states, acts, i);
    assert RequestInv(states[i], r);
    assert OwnerInv(states[i], states[i].requests[r].handler.owned.value);
  }

  /** Without a deadline the outcome the client sees is the outcome the token had: a settled answer
      other than 200 means exactly one revoke, a 200 none. */
  lemma NoDeadlineNoAbandonment(states: seq<State>, acts: seq<Action>, i: nat, r: nat)
    requires IsRun(states, acts) && i < |states| && !Taken(acts, i, Timeout(r))
    requires r in states[i].requests && states[i].requests[r].http != Pending
    requires TokenOf(states[i].requests[r].handler).Some?
    ensures states[i].revokes[TokenOf(states[i].requests[r].handler).value]
            == if states[i].requests[r].http == Delivered(200) then 0 else 1
  {
    TimedOutExactly(states, acts, i, r);
    AlwaysInv(states, acts, i);
    assert RequestInv(states[i], r);
    assert OwnerInv(states[i], TokenOf(states[i].requests[r].handler).value);
  }

  // ---------- canary freshness ----------

  /** Step k is a canary that passed. */
  ghost predicate PassesAt(states: seq<State>, acts: seq<Action>, k: nat)
    requires k < |acts| && |states| == |acts| + 1
  {
    acts[k].CanaryRevoke? && acts[k].revoked && states[k].pc.CanaryRevoking? && states[k].pc.sound
  }

  /** Step j is the mint and step k the revoke of a canary that meets every demand: a service token, not
      renewable, not said to be a child, revoked. */
  ghost predicate PassedBy(acts: seq<Action>, j: nat, k: nat)
    requires j < |acts| && k < |acts|
  {
    && acts[j].CanaryMint? && acts[j].mint.Some?
    && var m := acts[j].mint.value;
       && m.tokenType == "service" && !m.renewable && (m.orphan.None? || m.orphan.value)
       && acts[k] == CanaryRevoke(m.token, true)
  }

  /** The token under the canary's revoke, and the verdict on it, are those of an earlier mint. */
  ghost predicate MintedBy(acts: seq<Action>, j: nat, pc: Pc)
    requires j < |acts| && pc.CanaryRevoking?
  {
    && acts[j].CanaryMint? && acts[j].mint.Some? && acts[j].mint.value.token == pc.minted
    && (SoundMint(acts[j].mint.value) <==> pc.sound)
  }

  lemma StepPc(s: State, a: Action)
    requires Step(s, a).Some? && Step(s, a).value.pc.CanaryRevoking?
    ensures s.pc == Step(s, a).value.pc || MintedBy([a], 0, Step(s, a).value.pc)
  {}

  lemma {:induction false} MintBehind(states: seq<State>, acts: seq<Action>, i: nat) returns (j: nat)
    requires IsRun(states, acts) && i < |states| && states[i].pc.CanaryRevoking?
    ensures j < i && MintedBy(acts, j, states[i].pc)
  {
    hide Step;
    assert Step(states[i - 1], acts[i - 1]) == Some(states[i - 1 + 1]);
    StepPc(states[i - 1], acts[i - 1]);
    if MintedBy([acts[i - 1]], 0, states[i].pc) { j := i - 1; } else { j := MintBehind(states, acts, i - 1); }
  }

  lemma StepOwners(s: State, a: Action)
    requires Step(s, a).Some?
    ensures forall t | t in s.owners :: t in Step(s, a).value.owners
    ensures a.CanaryMint? && a.mint.Some? ==> a.mint.value.token !in s.owners && a.mint.value.token in Step(s, a).value.owners
  {}

  lemma {:induction false} OwnedSince(states: seq<State>, acts: seq<Action>, j: nat, i: nat)
    requires IsRun(states, acts) && j < i < |states| && acts[j].CanaryMint? && acts[j].mint.Some?
    ensures acts[j].mint.value.token in states[i].owners
  {
    hide Step;
    assert Step(states[i - 1], acts[i - 1]) == Some(states[i - 1 + 1]);
    StepOwners(states[i - 1], acts[i - 1]);
    if j < i - 1 { OwnedSince(states, acts, j, i - 1); }
  }

  lemma MintedOnce(states: seq<State>, acts: seq<Action>, j: nat, k: nat)
    requires IsRun(states, acts) && j < k < |acts|
    requires acts[j].CanaryMint? && acts[j].mint.Some? && acts[k].CanaryMint? && acts[k].mint.Some?
    ensures acts[j].mint.value.token != acts[k].mint.value.token
  {
    hide Step;
    OwnedSince(states, acts, j, k);
    assert Step(states[k], acts[k]) == Some(states[k + 1]);
    StepOwners(states[k], acts[k]);
  }

  lemma RevokeEnabled(s: State, a: Action)
    requires Step(s, a).Some? && a.CanaryRevoke?
    ensures s.pc.CanaryRevoking? && s.pc.minted == a.token
  {}

  /** A canary passes at step k exactly when k is the revoke of a mint that meets every demand. */
  lemma PassesExactly(states: seq<State>, acts: seq<Action>, k: nat)
    requires IsRun(states, acts) && k < |acts|
    ensures PassesAt(states, acts, k) <==> exists j :: 0 <= j < k && PassedBy(acts, j, k)
  {
    hide Step;
    assert Step(states[k], acts[k]) == Some(states[k + 1]);
    if acts[k].CanaryRevoke? {
      RevokeEnabled(states[k], acts[k]);
      var j := MintBehind(states, acts, k);
      assert PassesAt(states, acts, k) ==> PassedBy(acts, j, k);
      forall i | 0 <= i < k && PassedBy(acts, i, k) ensures PassesAt(states, acts, k) {
        if i < j { MintedOnce(states, acts, i, j); }
        if j < i { MintedOnce(states, acts, j, i); }
      }
    }
  }

  /** Before state i a canary passed, and no login was committed since. */
  ghost predicate PassedSinceLogin(states: seq<State>, acts: seq<Action>, i: nat)
    requires i < |states| && |states| == |acts| + 1
  {
    exists k :: 0 <= k < i && PassesAt(states, acts, k) && forall j | k < j < i :: !acts[j].LoginCommit?
  }

  lemma StepEpochs(s: State, a: Action)
    requires Step(s, a).Some?
    ensures Step(s, a).value.epoch == s.epoch + if a.LoginCommit? then 1 else 0
    ensures Step(s, a).value.passEpoch ==
            if a.CanaryRevoke? && a.revoked && s.pc.CanaryRevoking? && s.pc.sound then s.epoch else s.passEpoch
  {}

  lemma {:induction false} EpochsTellHistory(states: seq<State>, acts: seq<Action>, i: nat)
    requires IsRun(states, acts) && i < |states|
    requires states[i].passEpoch == states[i].epoch > 0
    ensures PassedSinceLogin(states, acts, i)
  {
    hide Step, SessionInv, LedgerInv;
    var s, a := states[i - 1], acts[i - 1];
    assert Step(s, a) == Some(states[i - 1 + 1]);
    StepEpochs(s, a);
    if !PassesAt(states, acts, i - 1) {
      PassEpochBounded(states, acts, i - 1);
      EpochsTellHistory(states, acts, i - 1);
      var k :| 0 <= k < i - 1 && PassesAt(states, acts, k) && forall j | k < j < i - 1 :: !acts[j].LoginCommit?;
      assert forall j | k < j < i :: !acts[j].LoginCommit?;
    }
  }

  lemma PassEpochBounded(states: seq<State>, acts: seq<Action>, i: nat)
    requires IsRun(states, acts) && i < |states|
    ensures states[i].passEpoch <= states[i].epoch
  {
    AlwaysInv(states, acts, i);
  }

  /** Whoever reads canaryOK, in whatever state between two critical sections: if it is true, a
      canary passed since the latest committed login. And the API token is the recorded one. */
  lemma CanaryFreshness(states: seq<State>, acts: seq<Action>, i: nat)
    requires IsRun(states, acts) && i < |states|
    ensures states[i].session.canaryOK ==> PassedSinceLogin(states, acts, i)
    ensures HealthyIn(states[i].session) ==> PassedSinceLogin(states, acts, i)
    ensures states[i].session.apiToken == states[i].session.token
  {
    AlwaysInv(states, acts, i);
    if states[i].session.canaryOK { EpochsTellHistory(states, acts, i); }
  }

  /** While the goroutine runs, sessionOK tells exactly whether it is inside a session loop. */
  lemma SessionFlagExact(states: seq<State>, acts: seq<Action>, i: nat)
    requires IsRun(states, acts) && i < |states| && !states[i].pc.Halted?
    ensures states[i].session.sessionOK <==> InSession(states[i].pc)
  {
    AlwaysInv(states, acts, i);
  }

  /** canaryOK without a session. */
  predicate Stale(c: Session) { c.canaryOK && !c.sessionOK }

  lemma LifecycleFlags(s: State, a: Action)
    requires SessionInv(s) && LifecycleStep(s, a).Some?
    ensures a.LoginCommit? ==> !Stale(LifecycleStep(s, a).value.session)
    ensures a.RenewMark? ==> (Stale(LifecycleStep(s, a).value.session) <==> s.session.canaryOK)
    ensures !a.LoginCommit? && !a.RenewMark? ==> (Stale(LifecycleStep(s, a).value.session) <==> Stale(s.session))
    ensures a.RenewMark? ==> AtLoopHead(s.pc) && !Stale(s.session)
  {}

  lemma StepFlags(s: State, a: Action)
    requires SessionInv(s) && Step(s, a).Some?
    ensures a.LoginCommit? ==> !Stale(Step(s, a).value.session)
    ensures a.RenewMark? ==> (Stale(Step(s, a).value.session) <==> s.session.canaryOK)
    ensures !a.LoginCommit? && !a.RenewMark? ==> (Stale(Step(s, a).value.session) <==> Stale(s.session))
    ensures a.RenewMark? ==> AtLoopHead(s.pc) && !Stale(s.session)
  {
    hide RequestStep, LifecycleStep, SessionInv, Stale;
    if a.Arrive? || OfRequest(a) { HandlersLeaveSession(s, a); } else { LifecycleFlags(s, a); }
  }

  /** Step k is a failed renewal of a session whose canary had passed. */
  ghost predicate LosesPassedSession(states: seq<State>, acts: seq<Action>, k: nat)
    requires k < |acts| && |states| == |acts| + 1
  {
    acts[k].RenewMark? && PassedSinceLogin(states, acts, k)
  }

  ghost predicate StaleSince(states: seq<State>, acts: seq<Action>, i: nat, k: nat)
    requires k < i < |states| && |states| == |acts| + 1
  {
    LosesPassedSession(states, acts, k) && forall j | k < j < i :: !acts[j].LoginCommit?
  }

  lemma PassedAtLoopHead(states: seq<State>, acts: seq<Action>, i: nat)
    requires IsRun(states, acts) && i < |states| && AtLoopHead(states[i].pc)
    ensures states[i].session.canaryOK <==> PassedSinceLogin(states, acts, i)
  {
    AlwaysInv(states, acts, i);
    if states[i].session.canaryOK { EpochsTellHistory(states, acts, i); }
    if PassedSinceLogin(states, acts, i) { PassSticks(states, acts, i); }
  }

  /** A canaryOK without a live session is there exactly from the failed renewal of a session whose
      canary had passed to the next committed login. */
  lemma {:induction false} StaleCanaryExactly(states: seq<State>, acts: seq<Action>, i: nat)
    requires IsRun(states, acts) && i < |states|
    ensures Stale(states[i].session) <==> exists k :: 0 <= k < i && StaleSince(states, acts, i, k)
  {
    hide Step, SessionInv, LedgerInv, PassedSinceLogin;
    if i > 0 {
      StaleCanaryExactly(states, acts, i - 1);
      var s, a := states[i - 1], acts[i - 1];
      assert Step(s, a) == Some(states[i - 1 + 1]);
      AlwaysInv(states, acts, i - 1);
      StepFlags(s, a);
      forall k | 0 <= k < i - 1 { StaleShift(states, acts, i, k); }
      assert StaleSince(states, acts, i, i - 1) <==> LosesPassedSession(states, acts, i - 1);
      if a.RenewMark? { PassedAtLoopHead(states, acts, i - 1); }
      if Stale(states[i].session) && !a.RenewMark? {
        var k :| 0 <= k < i - 1 && StaleSince(states, acts, i - 1, k);
        assert StaleSince(states, acts, i, k);
      }
      forall k | 0 <= k < i && StaleSince(states, acts, i, k) ensures Stale(states[i].session) {
        if k < i - 1 { assert StaleSince(states, acts, i - 1, k); }
      }
    }
  }

  lemma StaleShift(states: seq<State>, acts: seq<Action>, i: nat, k: nat)
    requires k < i - 1 < i < |states| && |states| == |acts| + 1
    ensures StaleSince(states, acts, i, k) <==> StaleSince(states, acts, i - 1, k) && !acts[i - 1].LoginCommit?
  {}

  // ---------- gated minting ----------

  ghost predicate PassedGate(states: seq<State>, acts: seq<Action>, i: nat, r: nat)
    requires i <= |acts| && |states| == |acts| + 1
  {
    exists j :: 0 <= j < i && acts[j] == Gate(r) && states[j].session.canaryOK
  }

  lemma {:induction false} BeyondGate(states: seq<State>, acts: seq<Action>, i: nat, r: nat)
    requires IsRun(states, acts) && i < |states| && r in states[i].requests
    requires var h := states[i].requests[r].handler; h.Gated? || TokenOf(h).Some?
    ensures PassedGate(states, acts, i, r)
  {
    hide Step;
    var s, a := states[i - 1], acts[i - 1];
    assert Step(s, a) == Some(states[i - 1 + 1]);
    StepHandler(s, a, r);
    if a != Gate(r) {
      BeyondGate(states, acts, i - 1, r);
      var j :| 0 <= j < i - 1 && acts[j] == Gate(r) && states[j].session.canaryOK;
    }
  }

  /** Every mint of a request comes after a gate read of the same request at which a canary had
      passed in the then-current login epoch. */
  lemma MintsAreGated(states: seq<State>, acts: seq<Action>, i: nat)
    requires IsRun(states, acts) && i < |acts| && acts[i].RequestMint?
    ensures exists j :: 0 <= j < i && acts[j] == Gate(acts[i].r) && PassedSinceLogin(states, acts, j)
  {
    hide Step;
    var r := acts[i].r;
    assert Step(states[i], acts[i]) == Some(states[i + 1]);
    StepHandler(states[i], acts[i], r);
    BeyondGate(states, acts, i, r);
    var j :| 0 <= j < i && acts[j] == Gate(r) && states[j].session.canaryOK;
    CanaryFreshness(states, acts, j);
  }

  predicate CallsVault(a: Action, r: nat) {
    (a.RequestMint? || a.RequestRead? || a.RequestRevoke?) && a.r == r
  }

  lemma {:induction false} BeforeGate(states: seq<State>, acts: seq<Action>, i: nat, g: nat, r: nat)
    requires IsRun(states, acts) && i <= g < |acts| && acts[g] == Gate(r)
    ensures r in states[i].requests ==> states[i].requests[r].handler.Arrived?
    decreases g - i
  {
    hide Step;
    assert Step(states[i], acts[i]) == Some(states[i + 1]);
    StepHandler(states[i], acts[i], r);
    if i < g { BeforeGate(states, acts, i + 1, g, r); }
  }

  /** A gate that reads false ends the request: it makes no call to Vault, ever. */
  lemma ClosedGateIsSilent(states: seq<State>, acts: seq<Action>, g: nat, r: nat, k: nat)
    requires IsRun(states, acts) && g < |acts| && acts[g] == Gate(r) && !states[g].session.canaryOK
    requires k < |acts|
    ensures !CallsVault(acts[k], r)
  {
    hide Step;
    assert Step(states[k], acts[k]) == Some(states[k + 1]);
    assert Step(states[g], acts[g]) == Some(states[g + 1]);
    StepHandler(states[k], acts[k], r);
    StepHandler(states[g], acts[g], r);
    if k <= g {
      BeforeGate(states, acts, k, g, r);
    } else {
      FinishedForever(states, acts, g + 1, k, r);
    }
  }

  // ---------- the session loop ----------

  /** At each loop head: the retry timer is armed exactly when the session's last canary failed,
      which is exactly when canaryOK is false. */
  lemma RetryInvariant(states: seq<State>, acts: seq<Action>, i: nat)
    requires IsRun(states, acts) && i < |states| && AtLoopHead(states[i].pc)
    ensures states[i].armed <==> states[i].lastFailed
    ensures states[i].armed <==> !states[i].session.canaryOK
    ensures !states[i].armed <==> PassedSinceLogin(states, acts, i)
  {
    AlwaysInv(states, acts, i);
    if states[i].session.canaryOK { EpochsTellHistory(states, acts, i); }
    if PassedSinceLogin(states, acts, i) { PassSticks(states, acts, i); }
  }

  lemma {:induction false} PassSticks(states: seq<State>, acts: seq<Action>, i: nat)
    requires IsRun(states, acts) && i < |states| && PassedSinceLogin(states, acts, i)
    ensures states[i].passEpoch == states[i].epoch
  {
    var k :| 0 <= k < i && PassesAt(states, acts, k) && forall j | k < j < i :: !acts[j].LoginCommit?;
    hide Step;
    assert Step(states[i - 1], acts[i - 1]) == Some(states[i - 1 + 1]);
    StepEpochs(states[i - 1], acts[i - 1]);
    if k < i - 1 { PassSticks(states, acts, i - 1); }
  }

  /** A canary that passed is not run again before the next login. */
  lemma PassedCanaryNotRerun(states: seq<State>, acts: seq<Action>, i: nat)
    requires IsRun(states, acts) && i < |acts| && (acts[i].CanaryMint? || acts[i].RetryFires?)
    ensures !PassedSinceLogin(states, acts, i)
  {
    assert Step(states[i], acts[i]) == Some(states[i + 1]);
    AlwaysInv(states, acts, i);
    if PassedSinceLogin(states, acts, i) { PassSticks(states, acts, i); }
  }

  /** The session loop is left only by cancellation or by a failed renewal. */
  lemma LoopExits(s: State, a: Action)
    requires InSession(s.pc) && Step(s, a).Some? && !InSession(Step(s, a).value.pc)
    ensures (s.pc.Selecting? && a.Cancel?) || (s.pc.RenewRefused? && a.RenewMark?)
  {}

  // ---------- two runs that show the limits ----------

  /** One more step of a run. */
  lemma Extend(states: seq<State>, acts: seq<Action>, a: Action) returns (states': seq<State>, acts': seq<Action>)
    requires IsRun(states, acts) && Step(states[|acts|], a).Some?
    ensures IsRun(states', acts') && states'[|acts'|] == Step(states[|acts|], a).value && acts' == acts + [a]
  {
    hide Step;
    states', acts' := states + [Step(states[|acts|], a).value], acts + [a];
    forall i | 0 <= i < |acts'| ensures Step(states'[i], acts'[i]) == Some(states'[i + 1]) {
      if i < |acts| { assert Step(states[i], acts[i]) == Some(states[i + 1]); }
    }
  }

  lemma UpToCanary() returns (states: seq<State>, acts: seq<Action>)
    ensures IsRun(states, acts) && forall a | a in acts :: !OfRequest(a)
    ensures states[|acts|] == INITIAL.(session := Session("t", "t", 60, true, false), pc := CanaryMinting, epoch := 1)
  {
    states, acts := [INITIAL], [];
    states, acts := Extend(states, acts, LoginReply(Some(("t", 60))));
    states, acts := Extend(states, acts, LoginCommit);
    states, acts := Extend(states, acts, Enter);
  }

  /** A run up to the published pass of a canary with this token. */
  lemma UpToPass(c: string) returns (states: seq<State>, acts: seq<Action>)
    ensures IsRun(states, acts) && forall a | a in acts :: !OfRequest(a)
    ensures states[|acts|] == INITIAL.(session := Session("t", "t", 60, true, true), pc := CanaryConfirming,
                                       epoch := 1, passEpoch := 1, owners := map[c := Canary],
                                       revokes := multiset{c})
  {
    states, acts := UpToCanary();
    states, acts := Extend(states, acts, CanaryMint(Some(Mint(c, "", "service", 0, false, None, []))));
    states, acts := Extend(states, acts, CanaryRevoke(c, true));
    states, acts := Extend(states, acts, CanaryPublish);
  }

  /** ... and on to a failed renewal. */
  lemma UpToFailedRenewal() returns (states: seq<State>, acts: seq<Action>)
    ensures IsRun(states, acts)
    ensures states[|acts|] == INITIAL.(session := Session("t", "t", 60, false, true), epoch := 1, passEpoch := 1,
                                       owners := map["c" := Canary], revokes := multiset{"c"})
  {
    states, acts := UpToPass("c");
    states, acts := Extend(states, acts, CanaryConfirm);
    states, acts := Extend(states, acts, RenewFires);
    states, acts := Extend(states, acts, RenewReply(None));
    states, acts := Extend(states, acts, RenewMark);
  }

  /** `CanaryOK implies a live session` is false: a failed renewal clears only sessionOK, and the
      gate keeps letting mints through. */
  lemma StaleCanaryReachable() returns (states: seq<State>, acts: seq<Action>)
    ensures IsRun(states, acts)
    ensures states[|acts|].session.canaryOK && !states[|acts|].session.sessionOK
    ensures states[|acts|].requests == map[0 := Call(Working("p"), Pending)]
  {
    states, acts := UpToFailedRenewal();
    states, acts := Extend(states, acts, Arrive(0));
    states, acts := Extend(states, acts, Gate(0));
    states, acts := Extend(states, acts, RequestMint(0, Some(Mint("p", "", "service", 0, false, None, []))));
  }

  ghost function Reads(r: nat, token: string, k: nat): seq<Action> { seq(k, i => RequestRead(r, token)) }

  /** A run may go on with any number of reads of a working request. */
  lemma {:induction false} ReadOn(states: seq<State>, acts: seq<Action>, r: nat, token: string, k: nat)
    returns (states': seq<State>)
    requires IsRun(states, acts) && r in states[|acts|].requests
    requires states[|acts|].requests[r].handler == Working(token)
    ensures var acts' := acts + Reads(r, token, k);
            IsRun(states', acts') && states'[|acts'|] == states[|acts|]
  {
    if k == 0 {
      states' := states;
      assert acts + Reads(r, token, 0) == acts;
    } else {
      states' := ReadOn(states, acts, r, token, k - 1);
      var acts' := acts + Reads(r, token, k - 1);
      states', acts' := Extend(states', acts', RequestRead(r, token));
      assert acts' == acts + Reads(r, token, k);
    }
  }

  lemma UpToArrival(c: string) returns (states: seq<State>, acts: seq<Action>)
    ensures IsRun(states, acts) && forall a | a in acts :: !OfRequest(a)
    ensures states[|acts|] == INITIAL.(session := Session("t", "t", 60, true, true), pc := CanaryConfirming,
                                       epoch := 1, passEpoch := 1, requests := map[0 := Call(Arrived, Pending)],
                                       owners := map[c := Canary], revokes := multiset{c})
  {
    hide IsRun;
    states, acts := UpToPass(c);
    states, acts := Extend(states, acts, Arrive(0));
  }

  lemma UpToMint(m: Mint) returns (states: seq<State>, before: seq<Action>, acts: seq<Action>)
    ensures IsRun(states, acts) && forall a | a in before :: !OfRequest(a)
    ensures acts == before + [Gate(0), RequestMint(0, Some(m))]
    ensures states[|acts|].requests == map[0 := Call(Working(m.token), Pending)]
    ensures states[|acts|].revokes[m.token] == 0
  {
    hide IsRun;
    states, before := UpToArrival(m.token + "c");
    assert |m.token + "c"| != |m.token|;
    states, acts := Extend(states, before, Gate(0));
    states, acts := Extend(states, acts, RequestMint(0, Some(m)));
  }

  lemma Overtake(states: seq<State>, acts: seq<Action>, token: string) returns (states': seq<State>)
    requires IsRun(states, acts) && states[|acts|].requests == map[0 := Call(Working(token), Pending)]
    ensures var acts' := acts + [Timeout(0)] + [Conclude(0, 200)];
            && IsRun(states', acts') && states'[|acts'|].revokes == states[|acts|].revokes
            && states'[|acts'|].requests == map[0 := Call(Finished(Some(token), 200), TimedOut)]
  {
    hide IsRun;
    var acts';
    states', acts' := Extend(states, acts, Timeout(0));
    states', acts' := Extend(states', acts', Conclude(0, 200));
  }

  /** A request that makes all the steps of a delivery, with k reads, and is overtaken by its deadline
      just before the last. */
  lemma OvertakenRun(m: Mint, k: nat) returns (states: seq<State>, before: seq<Action>, acts: seq<Action>)
    ensures IsRun(states, acts) && forall a | a in before :: !OfRequest(a)
    ensures acts == before + ([Gate(0), RequestMint(0, Some(m))] + Reads(0, m.token, k)) + [Timeout(0)] + [Conclude(0, 200)]
    ensures states[|acts|].requests == map[0 := Call(Finished(Some(m.token), 200), TimedOut)]
    ensures states[|acts|].revokes[m.token] == 0
  {
    hide IsRun, Reads, Step;
    states, before, acts := UpToMint(m);
    states := ReadOn(states, acts, 0, m.token, k);
    states := Overtake(states, acts + Reads(0, m.token, k), m.token);
    acts := before + ([Gate(0), RequestMint(0, Some(m))] + Reads(0, m.token, k)) + [Timeout(0)] + [Conclude(0, 200)];
    assert before + [Gate(0), RequestMint(0, Some(m))] + Reads(0, m.token, k)
           == before + ([Gate(0), RequestMint(0, Some(m))] + Reads(0, m.token, k));
  }
}
