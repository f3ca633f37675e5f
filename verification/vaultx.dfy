/** The Vault client: internal/vaultx/client.go, canary.go, mint.go's two calls, and sweep.go. */
module Vaultx {
  import opened Results
  import opened Text
  import opened Json
  import opened Vault
  import opened Identity
  import opened Session
  import opened SweepSpec
  import P = Protocol

  datatype Config = Config(kvMount: string, kvPrefix: string)

  // ---------- directives ----------

  /** ErrMalformedDirective, or any other read failure. */
  datatype DirectiveError = MalformedDirective | ReadFailed

  /** `.identity`: not enforced, or a non-empty forge id. */
  function IdentityReading(reply: Reply): Result<Option<string>, DirectiveError> {
    match reply
    case Broken => Err(ReadFailed)
    case Denied => Ok(None)
    case Garbled => Err(MalformedDirective)
    case Body(body) =>
      match DecodeDirective(body)
      case None => Err(MalformedDirective)
      case Some(fields) =>
        match StringField(fields, "forge_remote_id")
        case None => Err(MalformedDirective)
        case Some(id) => if id == "" then Err(MalformedDirective) else Ok(Some(id))
  }

  /** `.config`: absent, or exactly the stored map of strings. */
  function ConfigReading(reply: Reply): Result<Option<map<string, string>>, DirectiveError> {
    match reply
    case Broken => Err(ReadFailed)
    case Denied => Ok(None)
    case Garbled => Err(MalformedDirective)
    case Body(body) =>
      match DecodeDirective(body)
      case None => Err(MalformedDirective)
      case Some(fields) =>
        if forall k | k in fields :: StringField(fields, k).Some?
        then Ok(Some(map k | k in fields :: StringField(fields, k).value))
        else Err(MalformedDirective)
  }

  function DirectiveRequest(mount: string, token: string, base: string, name: string): Request {
    Request(token, mount + "/data/" + base + "/" + name, false)
  }

  // ---------- mint replies ----------

  /** A mint response without a client token is a failed mint. */
  function MintReply(server: Server, n: nat, asked: MintRequest): Option<Mint> {
    match server.mint(n, asked)
    case Some(m) => if m.token == "" then None else Some(m)
    case None => None
  }

  // ---------- the accumulator ----------

  class Accumulator {
    var seen: map<string, bool>
    var secrets: seq<SweptSecret>
    var leasesCreated: bool

    ghost predicate Valid()
      reads this
    {
      forall n :: n in seen <==> Named(secrets, n)
    }

    constructor ()
      ensures Valid() && secrets == [] && !leasesCreated
    {
      seen, secrets, leasesCreated := map[], [], false;
    }

    method Add(name: string, value: string, pins: Pins)
      requires Valid()
      modifies this
      ensures Valid() && leasesCreated == old(leasesCreated)
      ensures secrets == if ValidName(name) && !Named(old(secrets), name)
                         then old(secrets) + [SweptSecret(name, value, pins.images, pins.events)]
                         else old(secrets)
    {
      if !ValidName(name) { return; }
      if name in seen { return; }
      seen := seen[name := true];
      ghost var before := secrets;
      secrets := secrets + [SweptSecret(name, value, pins.images, pins.events)];
      assert secrets[|before|].name == name;
      forall n ensures n in seen <==> Named(secrets, n) {
        if Named(before, n) {
          var s :| s in before && s.name == n;
          assert s in secrets;
        }
      }
    }
  }

  /** Everything a sweep changes. */
  datatype Progress = Progress(wire: seq<Event>, sweepReads: nat, derefReads: nat,
                               secrets: seq<SweptSecret>, leases: bool)

  ghost function Advance(p: Progress, run: Run): Progress {
    Progress(p.wire + run.log, p.sweepReads + Answered(run.log, EntryRead),
             p.derefReads + Answered(run.log, Deref), Keep(p.secrets, run.found), p.leases || LeaseIn(run.log))
  }

  lemma AdvanceThen(p: Progress, a: Run, b: Run)
    requires a.ok
    ensures Advance(Advance(p, a), b) == Advance(p, Then(a, b))
  {
    assert p.wire + (a.log + b.log) == (p.wire + a.log) + b.log;
    AnsweredAppend(a.log, b.log, EntryRead);
    AnsweredAppend(a.log, b.log, Deref);
    KeepAppend(p.secrets, a.found, b.found);
    assert LeaseIn(a.log + b.log) <==> LeaseIn(a.log) || LeaseIn(b.log) by {
      assert forall e :: e in a.log + b.log <==> e in a.log || e in b.log;
    }
  }

  lemma AdvanceNothing(p: Progress)
    ensures Advance(p, Run([], [], true)) == p
  {}

  /** Progress after one request that spawned nothing. */
  ghost function Leaf(p: Progress, e: Event, found: seq<Candidate>): Progress
    requires e.Read?
  {
    var answered := if e.reply.Body? || e.reply.Garbled? then 1 else 0;
    Progress(p.wire + [e],
             p.sweepReads + (if e.purpose == EntryRead then answered else 0),
             p.derefReads + (if e.purpose == Deref then answered else 0),
             Keep(p.secrets, found), p.leases || CarriesLease(e))
  }

  ghost function FoundIn(a: Answer): seq<Candidate> { if a.Yield? then a.found else [] }

  lemma LeafAdvance(site: Site, o: Reads, n: nat, t: Task, p: Progress)
    requires AnswerOf(site, o, n, t).Yield? ==> AnswerOf(site, o, n, t).next == []
    ensures Advance(p, Exec(site, o, n, [t])) == Leaf(p, EventOf(site, o, n, t), FoundIn(AnswerOf(site, o, n, t)))
    ensures Exec(site, o, n, [t]).ok <==> AnswerOf(site, o, n, t).Yield?
  {
    var e := EventOf(site, o, n, t);
    ExecLeaf(site, o, n, t);
    assert e in [e];
    assert Answered([e], EntryRead) == if e.purpose == EntryRead && (e.reply.Body? || e.reply.Garbled?) then 1 else 0;
    assert Answered([e], Deref) == if e.purpose == Deref && (e.reply.Body? || e.reply.Garbled?) then 1 else 0;
  }

  /** Progress of a task whose own request found nothing itself but spawned more. */
  lemma SpawnAdvance(site: Site, o: Reads, n: nat, t: Task, p: Progress)
    requires AnswerOf(site, o, n, t).Yield? && AnswerOf(site, o, n, t).found == []
    ensures var more := Exec(site, o, n + 1, AnswerOf(site, o, n, t).next);
            Advance(p, Exec(site, o, n, [t])) == Advance(Leaf(p, EventOf(site, o, n, t), []), more)
            && Exec(site, o, n, [t]).ok == more.ok
  {
    var e, next := EventOf(site, o, n, t), AnswerOf(site, o, n, t).next;
    ExecStep(site, o, n, t, []);
    assert [t] + [] == [t] && next + [] == next;
    AdvanceThen(p, Run([e], [], true), Exec(site, o, n + 1, next));
    assert e in [e];
    assert Answered([e], EntryRead) == if e.purpose == EntryRead && (e.reply.Body? || e.reply.Garbled?) then 1 else 0;
    assert Answered([e], Deref) == if e.purpose == Deref && (e.reply.Body? || e.reply.Garbled?) then 1 else 0;
  }

  /** Progress of a longer prefix of a task list. */
  lemma PrefixAdvance(site: Site, o: Reads, n: nat, tasks: seq<Task>, i: nat, p: Progress)
    requires i < |tasks| && |p.wire| == n && Exec(site, o, n, tasks[..i]).ok
    ensures var q := Advance(p, Exec(site, o, n, tasks[..i]));
            var step := Exec(site, o, |q.wire|, [tasks[i]]);
            && Advance(p, Exec(site, o, n, tasks[..i + 1])) == Advance(q, step)
            && (Exec(site, o, n, tasks[..i + 1]).ok <==> step.ok)
            && (!step.ok ==> Exec(site, o, n, tasks) == Exec(site, o, n, tasks[..i + 1]))
  {
    hide Exec, Keep, Answered, LeaseIn;
    var done := Exec(site, o, n, tasks[..i]);
    var step := Exec(site, o, n + |done.log|, [tasks[i]]);
    ExecAppend(site, o, n, tasks[..i], [tasks[i]]);
    assert tasks[..i + 1] == tasks[..i] + [tasks[i]];
    AdvanceThen(p, done, step);
    ExecAppend(site, o, n, tasks[..i + 1], tasks[i + 1..]);
    assert tasks == tasks[..i + 1] + tasks[i + 1..];
  }

  lemma KeepNothing(kept: seq<SweptSecret>)
    ensures Keep(kept, []) == kept
  {}

  lemma KeepOneMore(kept: seq<SweptSecret>, found: seq<Candidate>, c: Candidate)
    ensures Keep(kept, found + [c]) == var k := Keep(kept, found);
              if ValidName(c.secret.name) && !Named(k, c.secret.name) then k + [c.secret] else k
  {
    KeepAppend(kept, found, [c]);
  }

  lemma PerFieldNothing(t: Task, via: seq<Request>, d: Fields, pins: Pins)
    requires !t.ListTier?
    ensures PerField(t, via, d, [], pins) == []
  {}

  /** What one more field does to the kept secrets. */
  lemma PerFieldStep(kept: seq<SweptSecret>, t: Task, via: seq<Request>, d: Fields, names: seq<string>, i: nat, pins: Pins)
    requires !t.ListTier? && i < |names|
    ensures var k, k' := Keep(kept, PerField(t, via, d, names[..i], pins)), Keep(kept, PerField(t, via, d, names[..i + 1], pins));
            var name := NormalizeName(t.key) + "_" + NormalizeName(names[i]);
            && (StringField(d, names[i]).None? ==> k' == k)
            && (StringField(d, names[i]).Some? ==>
                  k' == if ValidName(name) && !Named(k, name)
                        then k + [SweptSecret(name, StringField(d, names[i]).value, pins.images, pins.events)] else k)
  {
    hide Keep, Named, ValidName;
    assert names[..i + 1][..i] == names[..i];
    if StringField(d, names[i]).Some? {
      KeepOneMore(kept, PerField(t, via, d, names[..i], pins), PerField(t, via, d, names[..i + 1], pins)[|PerField(t, via, d, names[..i], pins)|]);
    }
  }

  lemma KeepOne(kept: seq<SweptSecret>, c: Candidate)
    ensures Keep(kept, [c]) == if ValidName(c.secret.name) && !Named(kept, c.secret.name) then kept + [c.secret] else kept
  {
    KeepOneMore(kept, [], c);
    assert [] + [c] == [c];
  }

  // ---------- the session loop ----------

  /** What the select of the session loop wakes up for. */
  datatype Wake = Cancelled | RenewDue | RetryDue

  /** A turn of Run: whether a sleep after a refused login is cancelled, and the session's wake-ups. */
  datatype Round = Round(cancelled: bool, wakes: seq<Wake>)

  datatype LoopExit = Waiting | Stopped | RenewalFailed

  /** The calls a piece of the lifecycle makes, and its steps in the terms of module Protocol. */
  datatype Trace = Trace(log: seq<Event>, acts: seq<P.Action>)

  function Joined(a: Trace, b: Trace): Trace { Trace(a.log + b.log, a.acts + b.acts) }

  ghost function LoginSteps(reply: Option<(string, int)>): seq<P.Action> {
    [P.LoginReply(reply), if Grants(reply) then P.LoginCommit else P.LoginMark]
  }

  ghost function RenewSteps(reply: Option<int>): seq<P.Action> {
    [P.RenewFires, P.RenewReply(reply), if reply.Some? then P.RenewCommit else P.RenewMark]
  }

  /** One canary: a mint, and exactly one revoke of what it minted, whatever the assertions say; then
      what becomes of the flag and the retry timer. */
  ghost function CanaryTrace(server: Server, n: nat, auth: string, policyPrefix: string): (t: Trace)
    ensures 0 < |t.log| <= 2
  {
    var minted := MintReply(server, n, Client.SelftestRequest(policyPrefix));
    var verdict := if CanaryPasses(server, n, policyPrefix) then [P.CanaryPublish, P.CanaryConfirm] else [P.CanaryReject];
    match minted
    case None => Trace([MintCall(auth, Client.SelftestRequest(policyPrefix), None)], [P.CanaryMint(None)] + verdict)
    case Some(m) =>
      var ok := server.revoke(n + 1, m.token);
      Trace([MintCall(auth, Client.SelftestRequest(policyPrefix), minted), RevokeCall(m.token, ok)],
            [P.CanaryMint(minted), P.CanaryRevoke(m.token, ok)] + verdict)
  }

  ghost predicate CanaryPasses(server: Server, n: nat, policyPrefix: string) {
    match MintReply(server, n, Client.SelftestRequest(policyPrefix))
    case None => false
    case Some(m) => SoundMint(m) && server.revoke(n + 1, m.token)
  }

  /** What the canary demands, field by field: a mint of the self-test policy that comes back as a
      service token, not renewable, not said to be a child, and a revoke of it that succeeds. */
  lemma CanaryPassesExactly(server: Server, n: nat, policyPrefix: string)
    ensures CanaryPasses(server, n, policyPrefix) <==>
            var minted := server.mint(n, MintRequest([policyPrefix + "/ironbark-selftest"], map[], "ironbark-canary"));
            && minted.Some? && minted.value.token != ""
            && minted.value.tokenType == "service" && !minted.value.renewable
            && (minted.value.orphan.None? || minted.value.orphan.value)
            && server.revoke(n + 1, minted.value.token)
  {}

  /** What the select's wake-ups lead to: cancellation ends the loop; a renewal is one call, and ends
      the loop if it fails; a retry runs the canary if it is armed, and otherwise never fires. */
  ghost function Woken(server: Server, n: nat, auth: string, policyPrefix: string, armed: bool, wakes: seq<Wake>): Trace
    decreases |wakes|
  {
    if wakes == [] then Trace([], []) else
      match wakes[0]
      case Cancelled => Trace([], [P.Cancel])
      case RenewDue =>
        var reply := server.renew(n);
        var renewal := Trace([RenewCall(auth, reply)], RenewSteps(reply));
        if reply.None? then renewal
        else Joined(renewal, Woken(server, n + 1, auth, policyPrefix, armed, wakes[1..]))
      case RetryDue =>
        if !armed then Woken(server, n, auth, policyPrefix, armed, wakes[1..]) else
          var canary := CanaryTrace(server, n, auth, policyPrefix);
          Joined(Joined(Trace([], [P.RetryFires]), canary),
                 Woken(server, n + |canary.log|, auth, policyPrefix, !CanaryPasses(server, n, policyPrefix), wakes[1..]))
  }

  /** A whole session loop: a first canary, then the wake-ups. */
  ghost function SessionTrace(server: Server, n: nat, auth: string, policyPrefix: string, wakes: seq<Wake>): Trace {
    var canary := CanaryTrace(server, n, auth, policyPrefix);
    Joined(Joined(Trace([], [P.Enter]), canary),
           Woken(server, n + |canary.log|, auth, policyPrefix, !CanaryPasses(server, n, policyPrefix), wakes))
  }

  function ExitPc(exit: LoopExit): P.Pc {
    match exit
    case Waiting => P.Selecting
    case Stopped => P.Halted
    case RenewalFailed => P.AtLogin
  }

  lemma FollowOne(l: P.Life, a: P.Action)
    ensures P.FollowLife(l, [a]) == P.LifeStep(l, a)
  {
    hide P.LifeStep;
    assert [a][1..] == [];
  }

  lemma FollowTwo(l: P.Life, a: P.Action, b: P.Action)
    ensures P.FollowLife(l, [a, b]) == match P.LifeStep(l, a) case None => None case Some(m) => P.LifeStep(m, b)
  {
    hide P.LifeStep;
    assert [a, b][1..] == [b];
    if P.LifeStep(l, a).Some? { FollowOne(P.LifeStep(l, a).value, b); }
  }

  lemma LoginFollows(l: P.Life, reply: Option<(string, int)>)
    requires l.pc.AtLogin?
    ensures P.FollowLife(l, LoginSteps(reply)) ==
            Some(if Grants(reply) then l.(session := LoggedIn(reply.value.0, reply.value.1), pc := P.Entering)
                 else l.(session := l.session.(sessionOK := false), pc := P.Sleeping))
  {
    hide P.FollowLife;
    FollowTwo(l, P.LoginReply(reply), if Grants(reply) then P.LoginCommit else P.LoginMark);
  }

  lemma RenewFollows(l: P.Life, reply: Option<int>)
    requires l.pc.Selecting?
    ensures P.FollowLife(l, RenewSteps(reply)) ==
            Some(if reply.Some? then l.(session := Renewed(l.session, reply.value))
                 else l.(session := l.session.(sessionOK := false), armed := false, pc := P.AtLogin))
  {
    hide P.FollowLife;
    var last := if reply.Some? then P.RenewCommit else P.RenewMark;
    assert RenewSteps(reply) == [P.RenewFires] + [P.RenewReply(reply), last];
    P.FollowLifeAppend(l, [P.RenewFires], [P.RenewReply(reply), last]);
    FollowOne(l, P.RenewFires);
    FollowTwo(l.(pc := P.Renewing), P.RenewReply(reply), last);
  }

  /** The canary's steps take the goroutine from its mint to the loop head, with the flag up exactly
      if it passed and the timer armed exactly if not. */
  lemma CanaryFollows(l: P.Life, server: Server, n: nat, auth: string, policyPrefix: string)
    requires l.pc.CanaryMinting? && !l.armed
    ensures var ok := CanaryPasses(server, n, policyPrefix);
            P.FollowLife(l, CanaryTrace(server, n, auth, policyPrefix).acts)
            == Some(l.(session := l.session.(canaryOK := ok), pc := P.Selecting, armed := !ok, lastFailed := !ok))
  {
    var minted := MintReply(server, n, Client.SelftestRequest(policyPrefix));
    var verdict := if CanaryPasses(server, n, policyPrefix) then [P.CanaryPublish, P.CanaryConfirm] else [P.CanaryReject];
    var calls := if minted.None? then [P.CanaryMint(None)]
                 else [P.CanaryMint(minted), P.CanaryRevoke(minted.value.token, server.revoke(n + 1, minted.value.token))];
    hide MintReply, P.FollowLife;
    P.FollowLifeAppend(l, calls, verdict);
    if minted.None? { FollowOne(l, calls[0]); } else { FollowTwo(l, calls[0], calls[1]); }
    var m := P.FollowLife(l, calls).value;
    if |verdict| == 1 { FollowOne(m, verdict[0]); } else { FollowTwo(m, verdict[0], verdict[1]); }
  }

  /** From a committed login with this session, the steps lead there. */
  ghost predicate Reaches(s0: Session, acts: seq<P.Action>, there: P.Life) {
    forall l: P.Life | l.session == s0 && l.pc == P.Entering :: P.FollowLife(l, acts) == Some(there)
  }

  lemma ReachesOn(s0: Session, a: seq<P.Action>, there: P.Life, b: seq<P.Action>, further: P.Life)
    requires Reaches(s0, a, there) && P.FollowLife(there, b) == Some(further)
    ensures Reaches(s0, a + b, further)
  {
    hide P.FollowLife;
    forall l: P.Life | l.session == s0 && l.pc == P.Entering ensures P.FollowLife(l, a + b) == Some(further) {
      P.FollowLifeAppend(l, a, b);
    }
  }

  lemma FirstCanary(s0: Session, server: Server, n: nat, auth: string, policyPrefix: string)
    ensures var ok := CanaryPasses(server, n, policyPrefix);
            Reaches(s0, [P.Enter] + CanaryTrace(server, n, auth, policyPrefix).acts,
                    P.Life(s0.(canaryOK := ok), P.Selecting, !ok, !ok))
  {
    hide P.FollowLife, CanaryTrace, CanaryPasses;
    forall l: P.Life | l.session == s0 && l.pc == P.Entering
      ensures P.FollowLife(l, [P.Enter]) == Some(P.Life(s0, P.CanaryMinting, false, false))
    {
      FollowOne(l, P.Enter);
    }
    CanaryFollows(P.Life(s0, P.CanaryMinting, false, false), server, n, auth, policyPrefix);
    ReachesOn(s0, [P.Enter], P.Life(s0, P.CanaryMinting, false, false), CanaryTrace(server, n, auth, policyPrefix).acts,
              P.Life(s0.(canaryOK := CanaryPasses(server, n, policyPrefix)), P.Selecting,
                     !CanaryPasses(server, n, policyPrefix), !CanaryPasses(server, n, policyPrefix)));
  }

  lemma RetriedCanary(l: P.Life, server: Server, n: nat, auth: string, policyPrefix: string)
    requires l.pc.Selecting? && l.armed
    ensures var ok := CanaryPasses(server, n, policyPrefix);
            P.FollowLife(l, [P.RetryFires] + CanaryTrace(server, n, auth, policyPrefix).acts)
            == Some(P.Life(l.session.(canaryOK := ok), P.Selecting, !ok, !ok))
  {
    hide P.FollowLife, CanaryTrace, CanaryPasses;
    P.FollowLifeAppend(l, [P.RetryFires], CanaryTrace(server, n, auth, policyPrefix).acts);
    FollowOne(l, P.RetryFires);
    CanaryFollows(l.(armed := false, pc := P.CanaryMinting), server, n, auth, policyPrefix);
  }

  /** Of the whole trace this much is done and that is left; what is done leads here. */
  ghost predicate Doing(total: Trace, s0: Session, done: Trace, here: P.Life, left: Trace) {
    total == Joined(done, left) && Reaches(s0, done.acts, here)
  }

  lemma DoMore(total: Trace, s0: Session, done: Trace, here: P.Life, head: Trace, left: Trace, further: P.Life)
    requires Doing(total, s0, done, here, Joined(head, left)) && P.FollowLife(here, head.acts) == Some(further)
    ensures Doing(total, s0, Joined(done, head), further, left)
  {
    hide P.FollowLife, Reaches;
    assert done.log + (head.log + left.log) == (done.log + head.log) + left.log;
    assert done.acts + (head.acts + left.acts) == (done.acts + head.acts) + left.acts;
    ReachesOn(s0, done.acts, here, head.acts, further);
  }

  lemma DoLast(total: Trace, s0: Session, done: Trace, here: P.Life, head: Trace, further: P.Life)
    requires Doing(total, s0, done, here, head) && P.FollowLife(here, head.acts) == Some(further)
    ensures total == Joined(done, head) && Reaches(s0, total.acts, further)
  {
    hide P.FollowLife, Reaches;
    ReachesOn(s0, done.acts, here, head.acts, further);
  }

  lemma Begin(server: Server, s0: Session, n: nat, auth: string, policyPrefix: string, wakes: seq<Wake>)
    ensures var canary, ok := CanaryTrace(server, n, auth, policyPrefix), CanaryPasses(server, n, policyPrefix);
            Doing(SessionTrace(server, n, auth, policyPrefix, wakes), s0, Joined(Trace([], [P.Enter]), canary),
                  P.Life(s0.(canaryOK := ok), P.Selecting, !ok, !ok),
                  Woken(server, n + |canary.log|, auth, policyPrefix, !ok, wakes))
  {
    hide P.FollowLife, CanaryPasses, CanaryTrace, Reaches, Woken;
    FirstCanary(s0, server, n, auth, policyPrefix);
  }

  /** The select waits on. */
  lemma OnNothing(total: Trace, s0: Session, done: Trace, here: P.Life)
    requires Doing(total, s0, done, here, Trace([], []))
    ensures total.log == done.log && Reaches(s0, total.acts, here)
  {
    hide Reaches;
    assert Joined(done, Trace([], [])) == done;
  }

  lemma OnCancel(total: Trace, s0: Session, done: Trace, here: P.Life, left: Trace)
    requires Doing(total, s0, done, here, left) && left == Trace([], [P.Cancel]) && here.pc.Selecting?
    ensures total.log == done.log && Reaches(s0, total.acts, here.(pc := P.Halted))
  {
    hide Reaches, P.FollowLife;
    FollowOne(here, P.Cancel);
    DoLast(total, s0, done, here, left, here.(pc := P.Halted));
  }

  lemma OnRenewal(total: Trace, s0: Session, done: Trace, here: P.Life, server: Server, n: nat, auth: string,
                  policyPrefix: string, wakes: seq<Wake>)
    requires wakes != [] && wakes[0] == RenewDue && here.pc.Selecting?
    requires Doing(total, s0, done, here, Woken(server, n, auth, policyPrefix, here.armed, wakes))
    ensures var reply := server.renew(n);
            var renewal := Trace([RenewCall(auth, reply)], RenewSteps(reply));
            && (reply.Some? ==>
                  Doing(total, s0, Joined(done, renewal), here.(session := Renewed(here.session, reply.value)),
                        Woken(server, n + 1, auth, policyPrefix, here.armed, wakes[1..])))
            && (reply.None? ==>
                  total.log == done.log + renewal.log
                  && Reaches(s0, total.acts,
                             here.(session := here.session.(sessionOK := false), armed := false, pc := P.AtLogin)))
  {
    hide Reaches, P.FollowLife, Doing, RenewSteps;
    var reply := server.renew(n);
    var renewal := Trace([RenewCall(auth, reply)], RenewSteps(reply));
    RenewFollows(here, reply);
    if reply.Some? {
      DoMore(total, s0, done, here, renewal, Woken(server, n + 1, auth, policyPrefix, here.armed, wakes[1..]),
             here.(session := Renewed(here.session, reply.value)));
    } else {
      DoLast(total, s0, done, here, renewal,
             here.(session := here.session.(sessionOK := false), armed := false, pc := P.AtLogin));
    }
  }

  lemma OnRetry(total: Trace, s0: Session, done: Trace, here: P.Life, server: Server, n: nat, auth: string,
                policyPrefix: string, wakes: seq<Wake>)
    requires wakes != [] && wakes[0] == RetryDue && here.pc.Selecting?
    requires Doing(total, s0, done, here, Woken(server, n, auth, policyPrefix, here.armed, wakes))
    ensures var canary, ok := CanaryTrace(server, n, auth, policyPrefix), CanaryPasses(server, n, policyPrefix);
            && (here.armed ==>
                  Doing(total, s0, Joined(done, Joined(Trace([], [P.RetryFires]), canary)),
                        P.Life(here.session.(canaryOK := ok), P.Selecting, !ok, !ok),
                        Woken(server, n + |canary.log|, auth, policyPrefix, !ok, wakes[1..])))
            && (!here.armed ==> Doing(total, s0, done, here, Woken(server, n, auth, policyPrefix, false, wakes[1..])))
  {
    hide Reaches, P.FollowLife, Doing, CanaryTrace, CanaryPasses;
    if here.armed {
      var canary, ok := CanaryTrace(server, n, auth, policyPrefix), CanaryPasses(server, n, policyPrefix);
      RetriedCanary(here, server, n, auth, policyPrefix);
      DoMore(total, s0, done, here, Joined(Trace([], [P.RetryFires]), canary),
             Woken(server, n + |canary.log|, auth, policyPrefix, !ok, wakes[1..]),
             P.Life(here.session.(canaryOK := ok), P.Selecting, !ok, !ok));
    }
  }

  /** A canary passed at this position of the record, and only renewals follow. */
  ghost predicate PassedAt(server: Server, policyPrefix: string, wire: seq<Event>, i: nat) {
    CanaryPasses(server, i, policyPrefix) && forall j | i + 2 <= j < |wire| :: wire[j].RenewCall?
  }

  lemma PassAndRenew(server: Server, policyPrefix: string, wire: seq<Event>, i: nat, auth: string, reply: Option<int>)
    requires PassedAt(server, policyPrefix, wire, i)
    ensures PassedAt(server, policyPrefix, wire + [RenewCall(auth, reply)], i)
  {}

  lemma PassNow(server: Server, policyPrefix: string, wire: seq<Event>, auth: string)
    requires CanaryPasses(server, |wire|, policyPrefix)
    ensures PassedAt(server, policyPrefix, wire + CanaryTrace(server, |wire|, auth, policyPrefix).log, |wire|)
  {}

  // ---------- the calls behind the steps ----------

  /** The call a step of the lifecycle makes, if it makes one; `auth` is the API client's own token. */
  ghost function CallOf(policyPrefix: string, auth: string, a: P.Action): seq<Event> {
    match a
    case LoginReply(granted) => [LoginCall(granted)]
    case RenewReply(renewed) => [RenewCall(auth, renewed)]
    case CanaryMint(mint) =>
      [MintCall(auth, MintRequest([policyPrefix + "/ironbark-selftest"], map[], "ironbark-canary"), mint)]
    case CanaryRevoke(token, revoked) => [RevokeCall(token, revoked)]
    case _ => []
  }

  /** The calls of a list of steps, each under the API token of its moment. */
  ghost function CallsOf(policyPrefix: string, l: P.Life, acts: seq<P.Action>): seq<Event>
    decreases |acts|
  {
    if acts == [] then [] else
      match P.LifeStep(l, acts[0])
      case None => []
      case Some(next) => CallOf(policyPrefix, l.session.apiToken, acts[0]) + CallsOf(policyPrefix, next, acts[1..])
  }

  lemma {:induction false} CallsAppend(policyPrefix: string, l: P.Life, a: seq<P.Action>, b: seq<P.Action>, m: P.Life)
    requires P.FollowLife(l, a) == Some(m)
    ensures CallsOf(policyPrefix, l, a + b) == CallsOf(policyPrefix, l, a) + CallsOf(policyPrefix, m, b)
    decreases |a|
  {
    hide P.LifeStep, CallOf;
    if a == [] {
      assert a + b == b;
    } else {
      assert (a + b)[1..] == a[1..] + b;
      CallsAppend(policyPrefix, P.LifeStep(l, a[0]).value, a[1..], b, m);
    }
  }

  lemma CallsOfOne(policyPrefix: string, l: P.Life, a: P.Action)
    requires P.LifeStep(l, a).Some?
    ensures CallsOf(policyPrefix, l, [a]) == CallOf(policyPrefix, l.session.apiToken, a)
  {
    hide P.LifeStep, CallOf;
    assert [a][1..] == [] && CallsOf(policyPrefix, P.LifeStep(l, a).value, []) == [];
  }

  lemma CallsOfTwo(policyPrefix: string, l: P.Life, a: P.Action, b: P.Action, m: P.Life)
    requires P.LifeStep(l, a) == Some(m) && P.LifeStep(m, b).Some?
    ensures CallsOf(policyPrefix, l, [a, b])
            == CallOf(policyPrefix, l.session.apiToken, a) + CallOf(policyPrefix, m.session.apiToken, b)
  {
    hide P.LifeStep, CallOf;
    CallsOfOne(policyPrefix, m, b);
    assert [a, b][1..] == [b];
  }

  lemma LoginCalls(policyPrefix: string, l: P.Life, reply: Option<(string, int)>)
    requires l.pc.AtLogin?
    ensures CallsOf(policyPrefix, l, LoginSteps(reply)) == [LoginCall(reply)]
  {
    hide CallsOf;
    var m := P.LifeStep(l, P.LoginReply(reply)).value;
    CallsOfTwo(policyPrefix, l, P.LoginReply(reply), if Grants(reply) then P.LoginCommit else P.LoginMark, m);
  }

  lemma RenewCalls(policyPrefix: string, l: P.Life, reply: Option<int>)
    requires l.pc.Selecting?
    ensures CallsOf(policyPrefix, l, RenewSteps(reply)) == [RenewCall(l.session.apiToken, reply)]
  {
    hide CallsOf, P.FollowLife;
    var last := if reply.Some? then P.RenewCommit else P.RenewMark;
    var l1 := l.(pc := P.Renewing);
    assert RenewSteps(reply) == [P.RenewFires] + [P.RenewReply(reply), last];
    FollowOne(l, P.RenewFires);
    CallsAppend(policyPrefix, l, [P.RenewFires], [P.RenewReply(reply), last], l1);
    CallsOfOne(policyPrefix, l, P.RenewFires);
    CallsOfTwo(policyPrefix, l1, P.RenewReply(reply), last, P.LifeStep(l1, P.RenewReply(reply)).value);
  }

  lemma VerdictCalls(policyPrefix: string, l: P.Life)
    ensures l.pc.CanaryPassed? ==> CallsOf(policyPrefix, l, [P.CanaryPublish, P.CanaryConfirm]) == []
    ensures l.pc.CanaryFailing? ==> CallsOf(policyPrefix, l, [P.CanaryReject]) == []
  {
    hide CallsOf;
    if l.pc.CanaryPassed? {
      CallsOfTwo(policyPrefix, l, P.CanaryPublish, P.CanaryConfirm, P.LifeStep(l, P.CanaryPublish).value);
    }
    if l.pc.CanaryFailing? { CallsOfOne(policyPrefix, l, P.CanaryReject); }
  }

  lemma CanaryCalls(server: Server, n: nat, policyPrefix: string, l: P.Life)
    requires l.pc.CanaryMinting? && !l.armed
    ensures var t := CanaryTrace(server, n, l.session.apiToken, policyPrefix); CallsOf(policyPrefix, l, t.acts) == t.log
  {
    var minted := MintReply(server, n, Client.SelftestRequest(policyPrefix));
    var verdict := if CanaryPasses(server, n, policyPrefix) then [P.CanaryPublish, P.CanaryConfirm] else [P.CanaryReject];
    hide MintReply, CallsOf, P.FollowLife;
    var l1 := P.LifeStep(l, P.CanaryMint(minted)).value;
    FollowOne(l, P.CanaryMint(minted));
    if minted.None? {
      CallsAppend(policyPrefix, l, [P.CanaryMint(minted)], verdict, l1);
      CallsOfOne(policyPrefix, l, P.CanaryMint(minted));
      VerdictCalls(policyPrefix, l1);
    } else {
      var revoke := P.CanaryRevoke(minted.value.token, server.revoke(n + 1, minted.value.token));
      var l2 := P.LifeStep(l1, revoke).value;
      FollowTwo(l, P.CanaryMint(minted), revoke);
      CallsAppend(policyPrefix, l, [P.CanaryMint(minted), revoke], verdict, l2);
      CallsOfTwo(policyPrefix, l, P.CanaryMint(minted), revoke, l1);
      VerdictCalls(policyPrefix, l2);
    }
  }

  lemma {:induction false} WokenCalls(server: Server, n: nat, policyPrefix: string, here: P.Life, wakes: seq<Wake>)
    requires here.pc.Selecting?
    ensures var t := Woken(server, n, here.session.apiToken, policyPrefix, here.armed, wakes);
            CallsOf(policyPrefix, here, t.acts) == t.log
    decreases |wakes|
  {
    hide CallsOf, P.FollowLife, CanaryTrace, CanaryPasses, RenewSteps;
    var auth := here.session.apiToken;
    if wakes == [] {
      NoCalls(policyPrefix, here);
    } else if wakes[0].Cancelled? {
      CallsOfOne(policyPrefix, here, P.Cancel);
    } else if wakes[0].RenewDue? {
      var reply := server.renew(n);
      RenewCalls(policyPrefix, here, reply);
      RenewFollows(here, reply);
      if reply.Some? {
        var there := here.(session := Renewed(here.session, reply.value));
        CallsAppend(policyPrefix, here, RenewSteps(reply),
                    Woken(server, n + 1, auth, policyPrefix, here.armed, wakes[1..]).acts, there);
        WokenCalls(server, n + 1, policyPrefix, there, wakes[1..]);
      }
    } else if here.armed {
      var canary, ok := CanaryTrace(server, n, auth, policyPrefix), CanaryPasses(server, n, policyPrefix);
      var running := here.(armed := false, pc := P.CanaryMinting);
      var there := P.Life(here.session.(canaryOK := ok), P.Selecting, !ok, !ok);
      RetriedCanary(here, server, n, auth, policyPrefix);
      FollowOne(here, P.RetryFires);
      CallsOfOne(policyPrefix, here, P.RetryFires);
      CallsAppend(policyPrefix, here, [P.RetryFires], canary.acts, running);
      CanaryCalls(server, n, policyPrefix, running);
      CallsAppend(policyPrefix, here, [P.RetryFires] + canary.acts,
                  Woken(server, n + |canary.log|, auth, policyPrefix, !ok, wakes[1..]).acts, there);
      WokenCalls(server, n + |canary.log|, policyPrefix, there, wakes[1..]);
    } else {
      WokenCalls(server, n, policyPrefix, here, wakes[1..]);
    }
  }

  lemma NoCalls(policyPrefix: string, l: P.Life)
    ensures CallsOf(policyPrefix, l, []) == []
  {}

  /** The calls of a session loop are exactly those its steps stand for: the self-test policy minted
      under the session's token, the minted token revoked, and renewals under the session's token. */
  lemma SessionCalls(server: Server, n: nat, policyPrefix: string, l: P.Life, wakes: seq<Wake>)
    requires l.pc.Entering?
    ensures var t := SessionTrace(server, n, l.session.apiToken, policyPrefix, wakes); CallsOf(policyPrefix, l, t.acts) == t.log
  {
    hide CallsOf, P.FollowLife, CanaryTrace, CanaryPasses, Woken;
    var auth := l.session.apiToken;
    var canary, ok := CanaryTrace(server, n, auth, policyPrefix), CanaryPasses(server, n, policyPrefix);
    var running := P.Life(l.session, P.CanaryMinting, false, false);
    var there := P.Life(l.session.(canaryOK := ok), P.Selecting, !ok, !ok);
    FollowOne(l, P.Enter);
    CallsOfOne(policyPrefix, l, P.Enter);
    CallsAppend(policyPrefix, l, [P.Enter], canary.acts, running);
    CanaryCalls(server, n, policyPrefix, running);
    CanaryFollows(running, server, n, auth, policyPrefix);
    P.FollowLifeAppend(l, [P.Enter], canary.acts);
    CallsAppend(policyPrefix, l, [P.Enter] + canary.acts, Woken(server, n + |canary.log|, auth, policyPrefix, !ok, wakes).acts, there);
    WokenCalls(server, n + |canary.log|, policyPrefix, there, wakes);
  }

  // ---------- retries ----------

  ghost function CanaryRuns(acts: seq<P.Action>): nat {
    if acts == [] then 0 else (if acts[0].CanaryMint? then 1 else 0) + CanaryRuns(acts[1..])
  }

  ghost function RetriesIn(wakes: seq<Wake>): nat {
    if wakes == [] then 0 else (if wakes[0].RetryDue? then 1 else 0) + RetriesIn(wakes[1..])
  }

  lemma {:induction false} CanaryRunsAppend(a: seq<P.Action>, b: seq<P.Action>)
    ensures CanaryRuns(a + b) == CanaryRuns(a) + CanaryRuns(b)
  {
    if a == [] {
      assert a + b == b;
    } else {
      assert (a + b)[1..] == a[1..] + b;
      CanaryRunsAppend(a[1..], b);
    }
  }

  lemma {:induction false} NoRuns(acts: seq<P.Action>)
    requires forall a | a in acts :: !a.CanaryMint?
    ensures CanaryRuns(acts) == 0
  {
    if acts != [] { NoRuns(acts[1..]); }
  }

  /** Steps after which the retry timer is not heeded any more: the loop is over, or a canary passed. */
  ghost predicate Ends(acts: seq<P.Action>) { P.Cancel in acts || P.RenewMark in acts || P.CanaryPublish in acts }

  lemma EndsEither(a: seq<P.Action>, b: seq<P.Action>)
    ensures Ends(a + b) <==> Ends(a) || Ends(b)
  {}

  /** One canary run, which ends the waiting exactly if it passes. */
  lemma OneRun(server: Server, n: nat, auth: string, policyPrefix: string)
    ensures var acts := [P.RetryFires] + CanaryTrace(server, n, auth, policyPrefix).acts;
            CanaryRuns(acts) == 1 && (Ends(acts) <==> CanaryPasses(server, n, policyPrefix))
  {
    var canary := CanaryTrace(server, n, auth, policyPrefix).acts;
    assert CanaryPasses(server, n, policyPrefix) ==> P.CanaryPublish in canary;
    assert !CanaryPasses(server, n, policyPrefix) ==> !Ends(canary);
    assert canary[0].CanaryMint? && forall a | a in canary[1..] :: !a.CanaryMint?;
    hide CanaryTrace, CanaryPasses;
    NoRuns(canary[1..]);
    NoRuns([P.RetryFires]);
    CanaryRunsAppend([P.RetryFires], canary);
  }

  /** A renewal runs no canary, and ends the loop exactly if it fails. */
  lemma OneRenewal(reply: Option<int>)
    ensures CanaryRuns(RenewSteps(reply)) == 0 && (Ends(RenewSteps(reply)) <==> reply.None?)
  {
    var acts := RenewSteps(reply);
    assert acts[2] in acts;
    NoRuns(acts);
  }

  /** The first h wake-ups are the ones the loop heeds for retries: none of their proper prefixes ends
      the waiting, and if there are more wake-ups these end it. */
  ghost predicate Heeds(server: Server, n: nat, auth: string, policyPrefix: string, armed: bool, wakes: seq<Wake>, h: nat) {
    && h <= |wakes|
    && (h < |wakes| ==> Ends(Woken(server, n, auth, policyPrefix, armed, wakes[..h]).acts))
    && forall k | 0 <= k < h :: !Ends(Woken(server, n, auth, policyPrefix, armed, wakes[..k]).acts)
  }

  /** A first wake-up that ends the waiting is the only one heeded. */
  lemma HeedsOne(server: Server, n: nat, auth: string, policyPrefix: string, armed: bool, wakes: seq<Wake>)
    requires wakes != [] && Ends(Woken(server, n, auth, policyPrefix, armed, wakes[..1]).acts)
    ensures Heeds(server, n, auth, policyPrefix, armed, wakes, 1)
  {
    assert wakes[..0] == [];
  }

  /** One that does not is heeded along with those heeded after it. */
  lemma HeedsMore(server: Server, n: nat, auth: string, policyPrefix: string, armed: bool, wakes: seq<Wake>, h: nat,
                  head: seq<P.Action>, n': nat)
    requires wakes != [] && Heeds(server, n', auth, policyPrefix, armed, wakes[1..], h) && !Ends(head)
    requires forall k | 0 <= k < |wakes| ::
               Woken(server, n, auth, policyPrefix, armed, wakes[..k + 1]).acts
               == head + Woken(server, n', auth, policyPrefix, armed, wakes[1..][..k]).acts
    ensures Heeds(server, n, auth, policyPrefix, armed, wakes, h + 1)
  {
    hide Ends;
    forall k | 0 <= k < |wakes|
      ensures Ends(Woken(server, n, auth, policyPrefix, armed, wakes[..k + 1]).acts)
              <==> Ends(Woken(server, n', auth, policyPrefix, armed, wakes[1..][..k]).acts)
    {
      EndsEither(head, Woken(server, n', auth, policyPrefix, armed, wakes[1..][..k]).acts);
    }
    forall k | 0 <= k < h + 1 ensures !Ends(Woken(server, n, auth, policyPrefix, armed, wakes[..k]).acts) {
      if k == 0 {
        assert wakes[..0] == [] && Woken(server, n, auth, policyPrefix, armed, []).acts == [];
        EndsNot();
      } else {
        assert wakes[..k] == wakes[..(k - 1) + 1];
        assert !Ends(Woken(server, n', auth, policyPrefix, armed, wakes[1..][..k - 1]).acts);
      }
    }
  }

  lemma EndsNot()
    ensures !Ends([])
  {}

  /** While the canary keeps failing every retry runs it again, once; once the loop has ended or a
      canary passed, none does. */
  lemma {:induction false} EveryRetryReruns(server: Server, n: nat, auth: string, policyPrefix: string, armed: bool,
                                            wakes: seq<Wake>)
    returns (h: nat)
    ensures Heeds(server, n, auth, policyPrefix, armed, wakes, h)
    ensures CanaryRuns(Woken(server, n, auth, policyPrefix, armed, wakes).acts) == if armed then RetriesIn(wakes[..h]) else 0
    decreases |wakes|
  {
    hide CanaryTrace, CanaryPasses, CanaryRuns, RetriesIn, Ends, Heeds, RenewSteps;
    if wakes == [] {
      h := 0;
      HeedsNothing(server, n, auth, policyPrefix, armed);
      NoRuns([]);
      NoRetries(wakes[..0]);
    } else if wakes[0].Cancelled? {
      h := 1;
      NoRuns([P.Cancel]);
      EndsNow();
      HeedsOne(server, n, auth, policyPrefix, armed, wakes);
      HeedOneMore(wakes, 0);
      NoRetries(wakes[1..][..0]);
    } else if wakes[0].RenewDue? {
      var reply := server.renew(n);
      OneRenewal(reply);
      if reply.Some? {
        h := EveryRetryReruns(server, n + 1, auth, policyPrefix, armed, wakes[1..]);
        CanaryRunsAppend(RenewSteps(reply), Woken(server, n + 1, auth, policyPrefix, armed, wakes[1..]).acts);
        forall k | 0 <= k < |wakes|
          ensures Woken(server, n, auth, policyPrefix, armed, wakes[..k + 1]).acts
                  == RenewSteps(reply) + Woken(server, n + 1, auth, policyPrefix, armed, wakes[1..][..k]).acts
        {
          assert wakes[..k + 1][1..] == wakes[1..][..k];
        }
        HeedsMore(server, n, auth, policyPrefix, armed, wakes, h, RenewSteps(reply), n + 1);
        HeedsWithin(server, n + 1, auth, policyPrefix, armed, wakes[1..], h);
        HeedOneMore(wakes, h);
        h := h + 1;
      } else {
        h := 1;
        HeedsOne(server, n, auth, policyPrefix, armed, wakes);
        HeedOneMore(wakes, 0);
        NoRetries(wakes[1..][..0]);
      }
    } else if armed {
      h := RetryReruns(server, n, auth, policyPrefix, wakes);
    } else {
      h := EveryRetryReruns(server, n, auth, policyPrefix, armed, wakes[1..]);
      forall k | 0 <= k < |wakes|
        ensures Woken(server, n, auth, policyPrefix, armed, wakes[..k + 1]).acts
                == [] + Woken(server, n, auth, policyPrefix, armed, wakes[1..][..k]).acts
      {
        assert wakes[..k + 1][1..] == wakes[1..][..k];
      }
      EndsNot();
      HeedsMore(server, n, auth, policyPrefix, armed, wakes, h, [], n);
      h := h + 1;
    }
  }

  /** The armed retry in front. */
  lemma {:induction false} RetryReruns(server: Server, n: nat, auth: string, policyPrefix: string, wakes: seq<Wake>)
    returns (h: nat)
    requires wakes != [] && wakes[0].RetryDue?
    ensures Heeds(server, n, auth, policyPrefix, true, wakes, h)
    ensures CanaryRuns(Woken(server, n, auth, policyPrefix, true, wakes).acts) == RetriesIn(wakes[..h])
    decreases |wakes|, 0
  {
    hide CanaryTrace, CanaryPasses, CanaryRuns, RetriesIn, Ends, Heeds;
    var canary, ok := CanaryTrace(server, n, auth, policyPrefix), CanaryPasses(server, n, policyPrefix);
    var n', head := n + |canary.log|, [P.RetryFires] + canary.acts;
    OneRun(server, n, auth, policyPrefix);
    h := EveryRetryReruns(server, n', auth, policyPrefix, !ok, wakes[1..]);
    CanaryRunsAppend(head, Woken(server, n', auth, policyPrefix, !ok, wakes[1..]).acts);
    forall k | 0 <= k < |wakes|
      ensures Woken(server, n, auth, policyPrefix, true, wakes[..k + 1]).acts
              == head + Woken(server, n', auth, policyPrefix, !ok, wakes[1..][..k]).acts
    {
      assert wakes[..k + 1][1..] == wakes[1..][..k];
    }
    if ok {
      EndsEither(head, Woken(server, n', auth, policyPrefix, !ok, wakes[1..][..0]).acts);
      assert wakes[..1] == wakes[..0 + 1];
      HeedsOne(server, n, auth, policyPrefix, true, wakes);
      NoRetries(wakes[1..][..0]);
      h := 0;
    } else {
      HeedsMore(server, n, auth, policyPrefix, true, wakes, h, head, n');
      HeedsWithin(server, n', auth, policyPrefix, true, wakes[1..], h);
    }
    HeedOneMore(wakes, h);
    h := h + 1;
  }

  lemma HeedsNothing(server: Server, n: nat, auth: string, policyPrefix: string, armed: bool)
    ensures Heeds(server, n, auth, policyPrefix, armed, [], 0)
  {}

  lemma HeedsWithin(server: Server, n: nat, auth: string, policyPrefix: string, armed: bool, wakes: seq<Wake>, h: nat)
    requires Heeds(server, n, auth, policyPrefix, armed, wakes, h)
    ensures h <= |wakes|
  {}

  lemma NoRetries(wakes: seq<Wake>)
    ensures wakes == [] ==> RetriesIn(wakes) == 0
  {}

  lemma EndsNow()
    ensures Ends([P.Cancel])
  {}

  lemma HeedOneMore(wakes: seq<Wake>, h: nat)
    requires h < |wakes|
    ensures RetriesIn(wakes[..h + 1]) == (if wakes[0].RetryDue? then 1 else 0) + RetriesIn(wakes[1..][..h])
  {
    assert wakes[..h + 1][1..] == wakes[1..][..h];
  }

  /** What a session loop starts from. */
  datatype Outset = Outset(server: Server, auth: string, policyPrefix: string, wire: seq<Event>, session: Session, wakes: seq<Wake>)

  ghost function WholeTrace(c: Outset): Trace { SessionTrace(c.server, |c.wire|, c.auth, c.policyPrefix, c.wakes) }

  /** The loop after k wake-ups: the record so far and the session are those of the steps done. */
  ghost predicate Along(c: Outset, k: nat, done: Trace, wire: seq<Event>, s: Session, last: nat)
    requires k <= |c.wakes|
  {
    && Doing(WholeTrace(c), c.session, done, P.Life(s, P.Selecting, !s.canaryOK, !s.canaryOK),
             Woken(c.server, |wire|, c.auth, c.policyPrefix, !s.canaryOK, c.wakes[k..]))
    && wire == c.wire + done.log && |c.wire| <= last < |wire|
    && (s.canaryOK ==> PassedAt(c.server, c.policyPrefix, wire, last))
  }

  /** The loop's end: its calls are the trace's, its steps lead here, and if the canary is passed only
      renewals came after the pass. */
  ghost predicate Over(c: Outset, wire: seq<Event>, there: P.Life) {
    && wire == c.wire + WholeTrace(c).log && Reaches(c.session, WholeTrace(c).acts, there)
    && (there.session.canaryOK ==>
          exists i :: |c.wire| <= i < |wire| && PassedAt(c.server, c.policyPrefix, wire, i))
  }

  lemma AlongFirst(c: Outset)
    ensures var canary := CanaryTrace(c.server, |c.wire|, c.auth, c.policyPrefix);
            var ok := CanaryPasses(c.server, |c.wire|, c.policyPrefix);
            Along(c, 0, Joined(Trace([], [P.Enter]), canary), c.wire + canary.log, c.session.(canaryOK := ok), |c.wire|)
  {
    hide Doing, Woken, SessionTrace, PassedAt, CanaryTrace, CanaryPasses;
    Begin(c.server, c.session, |c.wire|, c.auth, c.policyPrefix, c.wakes);
    assert c.wakes[0..] == c.wakes;
    if CanaryPasses(c.server, |c.wire|, c.policyPrefix) { PassNow(c.server, c.policyPrefix, c.wire, c.auth); }
  }

  lemma AlongEnd(c: Outset, done: Trace, wire: seq<Event>, s: Session, last: nat)
    requires Along(c, |c.wakes|, done, wire, s, last)
    ensures Over(c, wire, P.Life(s, P.Selecting, !s.canaryOK, !s.canaryOK))
  {
    hide Doing, Reaches, SessionTrace, PassedAt;
    OnNothing(WholeTrace(c), c.session, done, P.Life(s, P.Selecting, !s.canaryOK, !s.canaryOK));
  }

  lemma AlongCancel(c: Outset, k: nat, done: Trace, wire: seq<Event>, s: Session, last: nat)
    requires k < |c.wakes| && c.wakes[k] == Cancelled && Along(c, k, done, wire, s, last)
    ensures Over(c, wire, P.Life(s, P.Halted, !s.canaryOK, !s.canaryOK))
  {
    hide Doing, Reaches, SessionTrace, PassedAt;
    OnCancel(WholeTrace(c), c.session, done, P.Life(s, P.Selecting, !s.canaryOK, !s.canaryOK),
             Woken(c.server, |wire|, c.auth, c.policyPrefix, !s.canaryOK, c.wakes[k..]));
  }

  lemma AlongRenewal(c: Outset, k: nat, done: Trace, wire: seq<Event>, s: Session, last: nat)
    requires k < |c.wakes| && c.wakes[k] == RenewDue && Along(c, k, done, wire, s, last)
    ensures var reply := c.server.renew(|wire|);
            var call := RenewCall(c.auth, reply);
            && (reply.Some? ==>
                  Along(c, k + 1, Joined(done, Trace([call], RenewSteps(reply))), wire + [call], Renewed(s, reply.value), last))
            && (reply.None? ==> Over(c, wire + [call], P.Life(s.(sessionOK := false), P.AtLogin, false, !s.canaryOK)))
  {
    hide Doing, Reaches, SessionTrace, PassedAt, Woken, RenewSteps;
    var reply := c.server.renew(|wire|);
    assert c.wakes[k..][1..] == c.wakes[k + 1..];
    OnRenewal(WholeTrace(c), c.session, done, P.Life(s, P.Selecting, !s.canaryOK, !s.canaryOK), c.server, |wire|, c.auth,
              c.policyPrefix, c.wakes[k..]);
    if s.canaryOK { PassAndRenew(c.server, c.policyPrefix, wire, last, c.auth, reply); }
    if reply.None? { assert wire + [RenewCall(c.auth, reply)] == c.wire + (done.log + [RenewCall(c.auth, reply)]); }
  }

  lemma AlongRetry(c: Outset, k: nat, done: Trace, wire: seq<Event>, s: Session, last: nat)
    requires k < |c.wakes| && c.wakes[k] == RetryDue && Along(c, k, done, wire, s, last)
    ensures var canary := CanaryTrace(c.server, |wire|, c.auth, c.policyPrefix);
            var ok := CanaryPasses(c.server, |wire|, c.policyPrefix);
            && (!s.canaryOK ==>
                  Along(c, k + 1, Joined(done, Joined(Trace([], [P.RetryFires]), canary)), wire + canary.log,
                        s.(canaryOK := ok), |wire|))
            && (s.canaryOK ==> Along(c, k + 1, done, wire, s, last))
  {
    hide Doing, Reaches, SessionTrace, PassedAt, Woken, CanaryTrace, CanaryPasses;
    assert c.wakes[k..][1..] == c.wakes[k + 1..];
    OnRetry(WholeTrace(c), c.session, done, P.Life(s, P.Selecting, !s.canaryOK, !s.canaryOK), c.server, |wire|, c.auth,
            c.policyPrefix, c.wakes[k..]);
    if CanaryPasses(c.server, |wire|, c.policyPrefix) { PassNow(c.server, c.policyPrefix, wire, c.auth); }
  }

  lemma GoOn(policyPrefix: string, start: P.Life, acts: seq<P.Action>, here: P.Life, more: seq<P.Action>, there: P.Life)
    requires P.FollowLife(start, acts) == Some(here) && P.FollowLife(here, more) == Some(there)
    ensures P.FollowLife(start, acts + more) == Some(there)
    ensures CallsOf(policyPrefix, start, acts + more) == CallsOf(policyPrefix, start, acts) + CallsOf(policyPrefix, here, more)
  {
    hide P.FollowLife, CallsOf;
    P.FollowLifeAppend(start, acts, more);
    CallsAppend(policyPrefix, start, acts, more, here);
  }

  lemma DoesNothing(l: P.Life)
    ensures P.FollowLife(l, []) == Some(l)
  {}

  class Client {
    const server: Server
    const cfg: Config

    // mutex-guarded
    var apiToken: string
    var token: string
    var leaseSeconds: int
    var sessionOK: bool
    var canaryOK: bool

    // the two sweep counters
    var sweepReads: nat
    var derefReads: nat

    /** Every call made to Vault, in order, with its reply. */
    var wire: seq<Event>

    constructor (server: Server, cfg: Config)
      ensures this.server == server && this.cfg == cfg
      ensures State() == FRESH && wire == [] && sweepReads == 0 && derefReads == 0
    {
      this.server, this.cfg := server, cfg;
      apiToken, token, leaseSeconds, sessionOK, canaryOK := "", "", 0, false, false;
      sweepReads, derefReads, wire := 0, 0, [];
    }

    function State(): Session
      reads this
    {
      Session(apiToken, token, leaseSeconds, sessionOK, canaryOK)
    }

    // ---------- session ----------

    method SetSessionOK(v: bool)
      modifies `sessionOK
      ensures sessionOK == v
    {
      sessionOK := v;
    }

    method SetCanaryOK(v: bool)
      modifies `canaryOK
      ensures canaryOK == v
    {
      canaryOK := v;
    }

    method Healthy() returns (ok: bool)
      ensures ok <==> sessionOK && canaryOK
    {
      return sessionOK && canaryOK;
    }

    method CanaryOK() returns (ok: bool)
      ensures ok <==> canaryOK
    {
      return canaryOK;
    }

    method Login() returns (ok: bool)
      modifies `apiToken, `token, `leaseSeconds, `sessionOK, `canaryOK, `wire
      ensures var reply := server.login(|old(wire)|);
              && wire == old(wire) + [LoginCall(reply)]
              && (ok <==> reply.Some? && reply.value.0 != "")
              && State() == if ok then Session(reply.value.0, reply.value.0, reply.value.1, true, false)
                            else old(State()).(sessionOK := false)
      ensures forall l: P.Life | l.session == old(State()) && l.pc == P.AtLogin ::
                P.FollowLife(l, LoginSteps(server.login(|old(wire)|)))
                == Some(l.(session := State(), pc := if ok then P.Entering else P.Sleeping))
    {
      hide P.FollowLife;
      forall l: P.Life | l.pc == P.AtLogin { LoginFollows(l, server.login(|wire|)); }
      var reply := server.login(|wire|);
      wire := wire + [LoginCall(reply)];
      if reply.None? || reply.value.0 == "" {
        SetSessionOK(false);
        return false;
      }
      apiToken := reply.value.0;
      token := reply.value.0;
      leaseSeconds := reply.value.1;
      sessionOK := true;
      canaryOK := false;
      return true;
    }

    method RenewSelf() returns (ok: bool)
      modifies `leaseSeconds, `sessionOK, `wire
      ensures var reply := server.renew(|old(wire)|);
              && wire == old(wire) + [RenewCall(apiToken, reply)]
              && (ok <==> reply.Some?)
              && State() == if ok then old(State()).(leaseSeconds := reply.value, sessionOK := true)
                            else old(State()).(sessionOK := false)
      ensures forall l: P.Life | l.session == old(State()) && l.pc == P.Selecting ::
                P.FollowLife(l, RenewSteps(server.renew(|old(wire)|)))
                == Some(if ok then l.(session := State()) else l.(session := State(), armed := false, pc := P.AtLogin))
    {
      hide P.FollowLife;
      forall l: P.Life | l.pc == P.Selecting { RenewFollows(l, server.renew(|wire|)); }
      var reply := server.renew(|wire|);
      wire := wire + [RenewCall(apiToken, reply)];
      if reply.None? {
        SetSessionOK(false);
        return false;
      }
      leaseSeconds := reply.value;
      sessionOK := true;
      return true;
    }

    // ---------- mint and revoke ----------

    method MintToken(asked: MintRequest) returns (minted: Option<Mint>)
      modifies `wire
      ensures minted == MintReply(server, |old(wire)|, asked)
      ensures wire == old(wire) + [MintCall(apiToken, asked, minted)]
    {
      minted := MintReply(server, |wire|, asked);
      wire := wire + [MintCall(apiToken, asked, minted)];
    }

    method RevokeSelf(token: string) returns (ok: bool)
      modifies `wire
      ensures ok == server.revoke(|old(wire)|, token)
      ensures wire == old(wire) + [RevokeCall(token, ok)]
    {
      ok := server.revoke(|wire|, token);
      wire := wire + [RevokeCall(token, ok)];
    }

    // ---------- canary ----------

    static function SelftestRequest(policyPrefix: string): MintRequest {
      MintRequest([policyPrefix + "/ironbark-selftest"], map[], "ironbark-canary")
    }

    method RunCanary(policyPrefix: string) returns (ok: bool)
      modifies `canaryOK, `wire
      ensures wire == old(wire) + CanaryTrace(server, |old(wire)|, apiToken, policyPrefix).log
      ensures ok <==> CanaryPasses(server, |old(wire)|, policyPrefix)
      ensures canaryOK == (ok || old(canaryOK))
    {
      var minted := MintToken(SelftestRequest(policyPrefix));
      if minted.None? { return false; }
      if !SoundMint(minted.value) {
        var revoked := RevokeSelf(minted.value.token);
        return false;
      }
      ok := RevokeSelf(minted.value.token);
      if !ok { return false; }
      SetCanaryOK(true);
    }

    /** sessionLoop's inner runCanary: the canary, then the flag and the retry timer. */
    method Attempt(policyPrefix: string) returns (armed: bool)
      modifies `canaryOK, `wire
      ensures wire == old(wire) + CanaryTrace(server, |old(wire)|, apiToken, policyPrefix).log
      ensures canaryOK <==> CanaryPasses(server, |old(wire)|, policyPrefix)
      ensures armed <==> !canaryOK
      ensures forall l: P.Life | l.session == old(State()) && l.pc == P.CanaryMinting && !l.armed ::
                P.FollowLife(l, CanaryTrace(server, |old(wire)|, apiToken, policyPrefix).acts)
                == Some(l.(session := State(), pc := P.Selecting, armed := armed, lastFailed := armed))
    {
      hide P.FollowLife, CanaryTrace, CanaryPasses;
      forall l: P.Life | l.pc == P.CanaryMinting && !l.armed {
        CanaryFollows(l, server, |wire|, apiToken, policyPrefix);
      }
      var ok := RunCanary(policyPrefix);
      if !ok {
        SetCanaryOK(false);
        return true;
      }
      SetCanaryOK(true);
      return false;
    }

    /** sessionLoop, for the first |wakes| times its select returns: the calls are those of the trace,
        and what happens to the session, the timer and the goroutine is what the trace's steps do in
        module Protocol. An unarmed retry channel is nil and never fires. The retry timer is armed
        exactly while the canary is not passed, and a passed canary is never run again: from then on
        the loop only renews. */
    method SessionLoop(policyPrefix: string, wakes: seq<Wake>) returns (exit: LoopExit, armed: bool)
      modifies `canaryOK, `wire, `leaseSeconds, `sessionOK
      ensures Over(Outset(server, apiToken, policyPrefix, old(wire), old(State()), wakes), wire,
                   P.Life(State(), ExitPc(exit), armed && !exit.RenewalFailed?, armed))
      ensures exit == Waiting ==> Cancelled !in wakes
      ensures exit == Stopped ==> Cancelled in wakes
      ensures exit == RenewalFailed ==> !sessionOK && |wire| > 0 && wire[|wire| - 1] == RenewCall(apiToken, None)
      ensures armed <==> !canaryOK
    {
      hide Along, Over, CanaryPasses, CanaryTrace, P.FollowLife, RenewSteps;
      ghost var c := Outset(server, apiToken, policyPrefix, wire, State(), wakes);
      ghost var last: nat := |wire|;
      ghost var done := Joined(Trace([], [P.Enter]), CanaryTrace(server, |wire|, apiToken, policyPrefix));
      AlongFirst(c);
      armed := Attempt(policyPrefix);
      var k := 0;
      while k < |wakes|
        invariant 0 <= k <= |wakes|
        invariant forall i | 0 <= i < k :: wakes[i] != Cancelled
        invariant armed <==> !canaryOK
        invariant Along(c, k, done, wire, State(), last)
      {
        ghost var n := |wire|;
        match wakes[k] {
          case Cancelled =>
            AlongCancel(c, k, done, wire, State(), last);
            return Stopped, armed;
          case RenewDue =>
            AlongRenewal(c, k, done, wire, State(), last);
            var ok := RenewSelf();
            if !ok { return RenewalFailed, armed; }
            done := Joined(done, Trace([RenewCall(apiToken, server.renew(n))], RenewSteps(server.renew(n))));
          case RetryDue =>
            AlongRetry(c, k, done, wire, State(), last);
            if armed {
              armed := Attempt(policyPrefix);
              done := Joined(done, Joined(Trace([], [P.RetryFires]), CanaryTrace(server, n, apiToken, policyPrefix)));
              last := n;
            }
        }
        k := k + 1;
      }
      AlongEnd(c, done, wire, State(), last);
      return Waiting, armed;
    }

    /** Run, for the first |rounds| turns of its endless loop: log in; after a refusal sleep, unless
        cancelled; after a grant run the session loop, which a failed renewal leads back to the login.
        Whatever it does is a list of the lifecycle's steps, and its calls are theirs. */
    method Run(policyPrefix: string, rounds: seq<Round>) returns (stopped: bool, ghost acts: seq<P.Action>, ghost there: P.Life)
      modifies `apiToken, `token, `leaseSeconds, `sessionOK, `canaryOK, `wire
      ensures var start := P.Life(old(State()), P.AtLogin, false, false);
              P.FollowLife(start, acts) == Some(there) && wire == old(wire) + CallsOf(policyPrefix, start, acts)
      ensures there.session == State()
      ensures if stopped then there.pc == P.Halted else there.pc == P.Selecting || there.pc == P.AtLogin
    {
      hide P.FollowLife, CallsOf, SessionTrace, LoginSteps;
      ghost var start := P.Life(State(), P.AtLogin, false, false);
      acts, there, stopped := [], start, false;
      NoCalls(policyPrefix, start);
      DoesNothing(start);
      for i := 0 to |rounds|
        invariant P.FollowLife(start, acts) == Some(there) && wire == old(wire) + CallsOf(policyPrefix, start, acts)
        invariant there.session == State() && there.pc == P.AtLogin && !stopped
      {
        ghost var n := |wire|;
        LoginCalls(policyPrefix, there, server.login(n));
        var ok := Login();
        ghost var granted := there.(session := State(), pc := if ok then P.Entering else P.Sleeping);
        GoOn(policyPrefix, start, acts, there, LoginSteps(server.login(n)), granted);
        acts, there := acts + LoginSteps(server.login(n)), granted;
        if !ok {
          ghost var a := if rounds[i].cancelled then P.Cancel else P.Wake;
          ghost var next := there.(pc := if rounds[i].cancelled then P.Halted else P.AtLogin);
          FollowOne(there, a);
          CallsOfOne(policyPrefix, there, a);
          GoOn(policyPrefix, start, acts, there, [a], next);
          acts, there := acts + [a], next;
          if rounds[i].cancelled { return true, acts, there; }
        } else {
          n := |wire|;
          ghost var session := SessionTrace(server, n, apiToken, policyPrefix, rounds[i].wakes);
          SessionCalls(server, n, policyPrefix, there, rounds[i].wakes);
          var exit, armed := SessionLoop(policyPrefix, rounds[i].wakes);
          ghost var next := P.Life(State(), ExitPc(exit), armed && !exit.RenewalFailed?, armed);
          GoOn(policyPrefix, start, acts, there, session.acts, next);
          acts, there := acts + session.acts, next;
          if !exit.RenewalFailed? { return exit.Stopped?, acts, there; }
        }
      }
    }

    // ---------- reads ----------

    method VaultGet(purpose: Purpose, token: string, path: string, list: bool) returns (reply: Reply)
      modifies `wire
      ensures reply == server.read(|old(wire)|, Request(token, path, list))
      ensures wire == old(wire) + [Read(purpose, Request(token, path, list), reply)]
    {
      reply := server.read(|wire|, Request(token, path, list));
      wire := wire + [Read(purpose, Request(token, path, list), reply)];
    }

    method ReadIdentity(token: string, base: string) returns (r: Result<Option<string>, DirectiveError>)
      modifies `wire
      ensures var req := Request(token, cfg.kvMount + "/data/" + base + "/.identity", false);
              var reply := server.read(|old(wire)|, req);
              wire == old(wire) + [Read(Directive, req, reply)] && r == IdentityReading(reply)
    {
      var path := cfg.kvMount + "/data/" + base + "/.identity";
      var reply := VaultGet(Directive, token, path, false);
      if reply.Broken? { return Err(ReadFailed); }
      if reply.Denied? { return Ok(None); }
      if reply.Garbled? || DecodeDirective(reply.body).None? { return Err(MalformedDirective); }
      var id := StringField(DecodeDirective(reply.body).value, "forge_remote_id");
      if id.None? || id.value == "" { return Err(MalformedDirective); }
      return Ok(id);
    }

    /** The map's iteration order is arbitrary, the reading is not. */
    method ReadConfig(token: string, base: string) returns (r: Result<Option<map<string, string>>, DirectiveError>)
      modifies `wire
      ensures var req := Request(token, cfg.kvMount + "/data/" + base + "/.config", false);
              var reply := server.read(|old(wire)|, req);
              wire == old(wire) + [Read(Directive, req, reply)] && r == ConfigReading(reply)
    {
      var path := cfg.kvMount + "/data/" + base + "/.config";
      var reply := VaultGet(Directive, token, path, false);
      if reply.Broken? { return Err(ReadFailed); }
      if reply.Denied? { return Ok(None); }
      if reply.Garbled? || DecodeDirective(reply.body).None? { return Err(MalformedDirective); }
      var fields := DecodeDirective(reply.body).value;
      var out: map<string, string> := map[];
      var left := fields.Keys;
      while left != {}
        invariant left <= fields.Keys && out.Keys == fields.Keys - left
        invariant forall k | k in out :: StringField(fields, k) == Some(out[k])
        decreases left
      {
        var k :| k in left;
        var v := StringField(fields, k);
        if v.None? { return Err(MalformedDirective); }
        out := out[k := v.value];
        left := left - {k};
      }
      assert out == map k | k in fields :: StringField(fields, k).value;
      return Ok(Some(out));
    }

    // ---------- sweep ----------

    ghost function Site(token: string): Site { SweepSpec.Site(cfg.kvMount, token) }

    ghost function ProgressOf(sw: Accumulator): Progress
      reads this, sw
    {
      Progress(wire, sweepReads, derefReads, sw.secrets, sw.leasesCreated)
    }

    method SplitTrimCommaList(v: string) returns (out: seq<string>)
      ensures out == CommaList(v)
    {
      var parts := Split(v, ',');
      out := [];
      for i := 0 to |parts|
        invariant out == Trimmed(parts[..i])
      {
        out := out + [TrimSpace(parts[i])];
      }
      assert parts[..|parts|] == parts;
    }

    method PinsOf(custom: map<string, string>) returns (pins: Pins)
      ensures pins == EntryPins(custom)
    {
      var images, events := [], [];
      if "ironbark_images" in custom { images := SplitTrimCommaList(custom["ironbark_images"]); }
      if "ironbark_events" in custom { events := SplitTrimCommaList(custom["ironbark_events"]); }
      pins := Pins(images, events);
    }

    method SortedFieldNames(d: Fields) returns (names: seq<string>)
      ensures names == SortedKeys(d.Keys)
    {
      names := [];
      var left := d.Keys;
      while left != {}
        invariant multiset(names) + multiset(left) == multiset(d.Keys)
        decreases left
      {
        var f :| f in left;
        names := names + [f];
        left := left - {f};
      }
      SortedKeysUnique(d.Keys, names);
      names := Sort(names);
    }

    /** The general form, shared by plain entries and dereferences. */
    method AddFields(key: string, d: Fields, pins: Pins, sw: Accumulator, ghost t: Task, ghost via: seq<Request>)
      requires sw.Valid() && !t.ListTier? && t.key == key
      modifies sw
      ensures sw.Valid() && sw.leasesCreated == old(sw.leasesCreated)
      ensures sw.secrets == Keep(old(sw.secrets), PerField(t, via, d, SortedKeys(d.Keys), pins))
    {
      hide Keep, StringField, NormalizeName, PerField;
      KeepNothing(sw.secrets);
      PerFieldNothing(t, via, d, pins);
      var fields := SortedFieldNames(d);
      ghost var kept := sw.secrets;
      assert fields[..0] == [];
      for i := 0 to |fields|
        invariant sw.Valid() && sw.leasesCreated == old(sw.leasesCreated)
        invariant sw.secrets == Keep(kept, PerField(t, via, d, fields[..i], pins))
      {
        var f := fields[i];
        PerFieldStep(kept, t, via, d, fields, i, pins);
        var v := StringField(d, f);
        if v.Some? { sw.Add(NormalizeName(key) + "_" + NormalizeName(f), v.value, pins); }
      }
      assert fields[..|fields|] == fields;
    }

    method SweepDeref(token: string, key: string, refPath: string, pins: Pins, sw: Accumulator, ghost t: Task)
      returns (failed: bool)
      requires sw.Valid() && t.FollowRef? && t.key == key && t.ref == refPath && t.pins == pins
      modifies `wire, `derefReads, sw
      ensures sw.Valid()
      ensures var answer := AnswerOf(Site(token), server.read, |old(wire)|, t);
              && ProgressOf(sw) == Leaf(old(ProgressOf(sw)), EventOf(Site(token), server.read, |old(wire)|, t), FoundIn(answer))
              && (failed <==> answer.Abort?)
    {
      ghost var via := t.via + [RequestOf(Site(token), t)];
      var reply := VaultGet(Deref, token, refPath, false);
      if reply.Broken? { return true; }
      if reply.Denied? { return false; }
      derefReads := derefReads + 1;
      if reply.Garbled? || DecodeDeref(reply.body).None? { return true; }
      var parsed := DecodeDeref(reply.body).value;
      if parsed.lease != "" { sw.leasesCreated := true; }
      var fields := parsed.fields;
      var inner := Kv2Inner(fields);
      if inner.Some? {
        var v := StringField(inner.value, "value");
        if v.Some? {
          KeepOne(sw.secrets, Single(t, via, "value", v.value, pins));
          sw.Add(NormalizeName(key), v.value, pins);
          return false;
        }
        fields := inner.value;
      }
      AddFields(key, fields, pins, sw, t, via);
      return false;
    }

    method SweepEntry(token: string, tierPath: string, key: string, sw: Accumulator, ghost t: Task)
      returns (failed: bool)
      requires sw.Valid() && t.ReadEntry? && t.tier == tierPath && t.key == key
      modifies `wire, `sweepReads, `derefReads, sw
      ensures sw.Valid()
      ensures var run := Exec(Site(token), server.read, |old(wire)|, [t]);
              ProgressOf(sw) == Advance(old(ProgressOf(sw)), run) && (failed <==> !run.ok)
    {
      hide Exec, Advance, ExpandEntry, EntryPins, Answered, LeaseIn;
      ghost var site, o, n, p0 := Site(token), server.read, |wire|, ProgressOf(sw);
      ghost var via := t.via + [RequestOf(site, t)];
      var dataPath := cfg.kvMount + "/data/" + tierPath + "/" + key;
      var reply := VaultGet(EntryRead, token, dataPath, false);
      if reply.Broken? {
        LeafAdvance(site, o, n, t, p0);
        return true;
      }
      if reply.Denied? {
        LeafAdvance(site, o, n, t, p0);
        return false;
      }
      sweepReads := sweepReads + 1;
      if reply.Garbled? || DecodeEntry(reply.body).None? {
        LeafAdvance(site, o, n, t, p0);
        return true;
      }
      var parsed := DecodeEntry(reply.body).value;
      var pins := PinsOf(parsed.custom);
      assert AnswerOf(site, o, n, t) == ExpandEntry(t, via, parsed);
      failed := SweepForm(token, key, parsed.fields, pins, sw, t, via, parsed);
      if AnswerOf(site, o, n, t).next == [] {
        ExecNothing(site, o, n + 1);
        LeafAdvance(site, o, n, t, p0);
      } else {
        SpawnAdvance(site, o, n, t, p0);
      }
    }

    /** sweepEntry's switch on the entry's form. */
    method SweepForm(token: string, key: string, d: Fields, pins: Pins, sw: Accumulator,
                     ghost t: Task, ghost via: seq<Request>, ghost e: KvEntry) returns (failed: bool)
      requires sw.Valid() && t.ReadEntry? && t.key == key && e.fields == d && EntryPins(e.custom) == pins
      modifies `wire, `derefReads, sw
      ensures sw.Valid()
      ensures var answer := ExpandEntry(t, via, e);
              var more := Exec(Site(token), server.read, |old(wire)|, answer.next);
              && answer.Yield?
              && (failed <==> !more.ok)
              && (answer.next == [] ==> ProgressOf(sw) == old(ProgressOf(sw)).(secrets := Keep(old(sw.secrets), answer.found)))
              && (answer.next != [] ==> answer.found == [] && ProgressOf(sw) == Advance(old(ProgressOf(sw)), more))
    {
      hide Exec;
      ExecNothing(Site(token), server.read, |wire|);
      if IsPointerForm(d) {
        var ref := StringField(d, "$ref");
        if ref.None? { return false; }
        ghost var f := FollowRef(t.rank, t.key, ref.value, pins, via);
        ghost var n, p := |wire|, ProgressOf(sw);
        failed := SweepDeref(token, key, ref.value, pins, sw, f);
        LeafAdvance(Site(token), server.read, n, f, p);
        return;
      }
      if IsShorthandForm(d) {
        var v := StringField(d, "value");
        if v.None? { return false; }
        KeepOne(sw.secrets, Single(t, via, "value", v.value, pins));
        sw.Add(NormalizeName(key), v.value, pins);
        return false;
      }
      AddFields(key, d, pins, sw, t, via);
      return false;
    }

    /** None on a failed LIST; no keys on a denied one. */
    method ListTierKeys(token: string, tierPath: string) returns (keys: Option<seq<string>>)
      modifies `wire
      ensures var req := Request(token, cfg.kvMount + "/metadata/" + tierPath, true);
              var reply := server.read(|old(wire)|, req);
              && wire == old(wire) + [Read(Listing, req, reply)]
              && keys == (if reply.Denied? then Some([])
                          else if reply.Body? && DecodeKeys(reply.body).Some?
                          then Some(PlainKeys(DecodeKeys(reply.body).value)) else None)
    {
      var path := cfg.kvMount + "/metadata/" + tierPath;
      var reply := VaultGet(Listing, token, path, true);
      if reply.Broken? { return None; }
      if reply.Denied? { return Some([]); }
      if reply.Garbled? || DecodeKeys(reply.body).None? { return None; }
      var all := DecodeKeys(reply.body).value;
      var plain := [];
      for i := 0 to |all|
        invariant plain == PlainKeys(all[..i])
      {
        assert all[..i + 1][..i] == all[..i];
        if (all[i] != "" && all[i][|all[i]| - 1] == '/') || (all[i] != "" && all[i][0] == '.') { continue; }
        plain := plain + [all[i]];
      }
      assert all[..|all|] == all;
      return Some(plain);
    }

    method SweepTier(token: string, tierPath: string, sw: Accumulator, ghost t: Task) returns (failed: bool)
      requires sw.Valid() && t.ListTier? && t.tier == tierPath
      modifies `wire, `sweepReads, `derefReads, sw
      ensures sw.Valid()
      ensures var run := Exec(Site(token), server.read, |old(wire)|, [t]);
              ProgressOf(sw) == Advance(old(ProgressOf(sw)), run) && (failed <==> !run.ok)
    {
      hide Exec, Advance, Answered, LeaseIn;
      ghost var site, o, n, p0 := Site(token), server.read, |wire|, ProgressOf(sw);
      var listed := ListTierKeys(token, tierPath);
      if listed.None? {
        LeafAdvance(site, o, n, t, p0);
        return true;
      }
      var keys := Sort(listed.value);
      ghost var tasks := EntryTasks(t.rank, tierPath, keys, [RequestOf(site, t)]);
      ghost var p1 := ProgressOf(sw);
      assert ViaOf(t) + [RequestOf(site, t)] == [RequestOf(site, t)];
      assert AnswerOf(site, o, n, t) == Yield(tasks, []);
      assert p1 == Leaf(p0, EventOf(site, o, n, t), []);
      SpawnAdvance(site, o, n, t, p0);
      ExecNothing(site, o, n + 1);
      AdvanceNothing(p1);
      assert tasks[..0] == [];
      for i := 0 to |keys|
        invariant sw.Valid()
        invariant Exec(site, o, n + 1, tasks[..i]).ok
        invariant ProgressOf(sw) == Advance(p1, Exec(site, o, n + 1, tasks[..i]))
      {
        PrefixAdvance(site, o, n + 1, tasks, i, p1);
        failed := SweepEntry(token, tierPath, keys[i], sw, tasks[i]);
        if failed { return true; }
      }
      assert tasks[..|keys|] == tasks;
      return false;
    }

    method Base(id: Identity) returns (base: string)
      ensures base == SweepSpec.Base(cfg.kvPrefix, id)
    {
      base := cfg.kvPrefix + "/" + id.org + "/" + id.repo;
    }

    method Sweep(token: string, id: Identity, branchful: bool) returns (r: Option<SweepResult>)
      modifies `wire, `sweepReads, `derefReads
      ensures var run := SweepRun(Site(token), cfg.kvPrefix, server.read, |old(wire)|, id, branchful);
              && r == Outcome(run)
              && wire == old(wire) + run.log
              && sweepReads == old(sweepReads) + Answered(run.log, EntryRead)
              && derefReads == old(derefReads) + Answered(run.log, Deref)
    {
      var base := Base(id);
      var tiers := [];
      if branchful && id.branch != [] {
        var escaped := Esc(id.branch);
        tiers := tiers + [base + "/" + id.event + "/" + escaped];
      }
      tiers := tiers + [base + "/" + id.event, base];
      assert tiers == Tiers(base, id, branchful);

      var sw := new Accumulator();
      hide Exec, Answered, LeaseIn;
      ghost var site, o, n, p0 := Site(token), server.read, |wire|, ProgressOf(sw);
      ghost var tasks := TierTasks(tiers);
      ExecNothing(site, o, n);
      AdvanceNothing(p0);
      assert tasks[..0] == [];
      for i := 0 to |tiers|
        invariant fresh(sw) && sw.Valid()
        invariant Exec(site, o, n, tasks[..i]).ok
        invariant ProgressOf(sw) == Advance(p0, Exec(site, o, n, tasks[..i]))
      {
        PrefixAdvance(site, o, n, tasks, i, p0);
        var failed := SweepTier(token, tiers[i], sw, tasks[i]);
        if failed { return None; }
      }
      assert tasks[..|tiers|] == tasks;
      return Some(SweepResult(sw.secrets, sw.leasesCreated));
    }
  }
}
