/** What a Handle asks of Vault, call by call, and what it answers in each case: spelled out in paths,
    fields and replies. */
module RecordLaws {
  import opened Results
  import opened Text
  import opened Json
  import opened Vault
  import opened Identity
  import opened Policy
  import opened Warnings
  import opened SweepSpec
  import opened SweepLaws
  import opened Vaultx
  import opened Broker
  import opened BrokerLaws

  // ---------- the mint ----------

  function DigitsValue(s: string): int {
    if s == "" then 0 else 10 * DigitsValue(s[..|s| - 1]) + (s[|s| - 1] as int - '0' as int)
  }

  /** The decimal notation of a natural number, without leading zeros. */
  ghost predicate Natural(s: string, n: nat) {
    && s != "" && (forall i | 0 <= i < |s| :: '0' <= s[i] <= '9')
    && DigitsValue(s) == n && (|s| > 1 ==> s[0] != '0')
  }

  ghost predicate Decimal(s: string, n: int) {
    if n < 0 then s != "" && s[0] == '-' && Natural(s[1..], -n) else Natural(s, n)
  }

  lemma {:induction false} FormatNatReads(n: nat)
    ensures Natural(FormatNat(n), n) && (n > 0 ==> FormatNat(n)[0] != '0')
  {
    var s := FormatNat(n);
    if n < 10 {
      assert s[..0] == "";
    } else {
      FormatNatReads(n / 10);
      assert s[..|s| - 1] == FormatNat(n / 10);
    }
  }

  lemma FormatIntReads(n: int)
    ensures Decimal(FormatInt(n), n)
  {
    FormatNatReads(if n < 0 then -n else n);
    if n < 0 { assert FormatInt(n)[1..] == FormatNat(-n); }
  }

  /** The first call of a Handle whose gate is open: a mint under ironbark's own token, for exactly the
      derived policies, with the identity as metadata. It counts as made if it returns a token. */
  lemma MintAsksExactly(env: Env, n: nat, id: Identity)
    ensures var log := HandleRun(env, n, true, id).log;
            && log != [] && log[0].MintCall? && log[0].auth == env.auth
            && var asked := log[0].asked;
               && asked.policies == Derive(id, env.policyPrefix)
               && asked.displayName == "ironbark-" + id.org + "-" + id.repo
               && asked.meta.Keys == {"org", "repo", "event", "branch", "pipeline_number", "commit"}
               && asked.meta["org"] == id.org && asked.meta["repo"] == id.repo && asked.meta["event"] == id.event
               && asked.meta["commit"] == id.commit && Decimal(asked.meta["pipeline_number"], id.pipelineNumber)
               && |asked.meta["branch"]| == |id.branch|
               && (forall i | 0 <= i < |id.branch| :: asked.meta["branch"][i] as int == id.branch[i] as int)
               && var reply := env.server.mint(n, asked);
                  && log[0].minted == (if reply.Some? && reply.value.token != "" then reply else None)
                  && log[0].minted == Minted(env, n, id)
  {
    hide AfterMint, FormatInt, Derive;
    FormatIntReads(id.pipelineNumber);
    MetaKeys(id);
  }

  lemma MetaKeys(id: Identity)
    ensures Meta(id).Keys == {"org", "repo", "event", "branch", "pipeline_number", "commit"}
    ensures Meta(id)["org"] == id.org && Meta(id)["repo"] == id.repo && Meta(id)["event"] == id.event
    ensures Meta(id)["commit"] == id.commit && Meta(id)["pipeline_number"] == FormatInt(id.pipelineNumber)
    ensures |Meta(id)["branch"]| == |id.branch|
    ensures forall i | 0 <= i < |id.branch| :: Meta(id)["branch"][i] as int == id.branch[i] as int
  {
    hide FormatInt;
  }

  // ---------- the calls after it ----------

  /** The binding lets the request through: there is none, or it is the payload's. */
  ghost predicate BindingHolds(env: Env, n: nat, id: Identity, m: Mint) {
    var bound := env.server.read(n + 1, Stored(env, id, m, "/.identity"));
    bound.Denied? || BoundTo(bound, id.forgeRemoteID)
  }

  ghost predicate ConfigHolds(env: Env, n: nat, id: Identity, m: Mint) {
    SoundConfig(env.server.read(n + 2, Stored(env, id, m, "/.config")))
  }

  /** Handle gets as far as the sweep. */
  ghost predicate Sweeps(env: Env, n: nat, id: Identity, m: Mint) {
    m.tokenType == "service" && SomePolicyExists(env, id, m) && BindingHolds(env, n, id, m) && ConfigHolds(env, n, id, m)
  }

  /** A read of a directive at position k of the record. */
  ghost function DirectiveRead(env: Env, k: nat, id: Identity, m: Mint, name: string): Event {
    Read(Directive, Stored(env, id, m, name), env.server.read(k, Stored(env, id, m, name)))
  }

  /** The reads of a Handle, each only if the one before let it through: the binding, the config, and
      the sweep of the tiers. */
  ghost function Reading(env: Env, n: nat, id: Identity, m: Mint): seq<Event> {
    if m.tokenType != "service" || !SomePolicyExists(env, id, m) then []
    else if !BindingHolds(env, n, id, m) then [DirectiveRead(env, n + 1, id, m, "/.identity")]
    else if !ConfigHolds(env, n, id, m)
    then [DirectiveRead(env, n + 1, id, m, "/.identity"), DirectiveRead(env, n + 2, id, m, "/.config")]
    else [DirectiveRead(env, n + 1, id, m, "/.identity"), DirectiveRead(env, n + 2, id, m, "/.config")]
         + TierSweep(env, n + 3, id, m).log
  }

  lemma ReadsAre(env: Env, n: nat, id: Identity, m: Mint)
    ensures AfterMint(env, n + 1, id, m).log == Reading(env, n, id, m)
  {
    hide TierSweep, SweepOf, Stored, SoundConfig, Withholds, EveryPolicyWarned, SomePolicyExists, IdentityReading, ConfigReading,
      Suppressed, Keep, ResponseBody, IdentityRequest, ConfigRequest, Finish, DecodeDirective;
    DirectivesAtRoot(env, id, m);
    SweepsTheTiers(env, n + 3, id, m);
    PolicyUnwarned(env, id, m);
    BindingRead(env.server.read(n + 1, Stored(env, id, m, "/.identity")), id);
    ConfigAccepted(env.server.read(n + 2, Stored(env, id, m, "/.config")));
  }

  /** Every call of every Handle, in order: nothing behind a closed gate; else the mint; then, with a
      token, the reads above; and the revoke of that token unless the status is 200. */
  lemma CallsInOrder(env: Env, n: nat, gate: bool, id: Identity)
    ensures var h, minted := HandleRun(env, n, gate, id), Minted(env, n, id);
            h.log ==
            if !gate then []
            else if minted.None? then [MintCall(env.auth, Asked(env, id), None)]
            else
              var calls := [MintCall(env.auth, Asked(env, id), minted)] + Reading(env, n, id, minted.value);
              var token := minted.value.token;
              calls + if h.result.status == 200 then [] else [RevokeCall(token, env.server.revoke(n + |calls|, token))]
  {
    hide AfterMint, Reading, Asked, Minted;
    if gate && Minted(env, n, id).Some? { ReadsAre(env, n, id, Minted(env, n, id).value); }
  }

  /** Every LIST of a Handle is one of its tiers', in their order; a 200 has listed all of them. */
  lemma HandleListsTheTiers(env: Env, n: nat, gate: bool, id: Identity)
    ensures var h := HandleRun(env, n, gate, id);
            var paths := MetadataPaths(env.site.kvMount, Reversed(Derive(id, env.site.kvPrefix)) + [Root(env, id)]);
            ListPaths(h.log) <= paths && (h.result.status == 200 ==> ListPaths(h.log) == paths)
  {
    hide HandleRun, Minted, Asked, Stored, MetadataPaths, Derive, Exec, SomePolicyExists, BindingHolds, ConfigHolds;
    CallsInOrder(env, n, gate, id);
    if HandleRun(env, n, gate, id).result.status == 200 { DeliversInSteps(env, n, gate, id); }
    var h, minted := HandleRun(env, n, gate, id), Minted(env, n, id);
    if gate && minted.Some? {
      var m := minted.value;
      var mint := [MintCall(env.auth, Asked(env, id), minted)];
      var tail := if h.result.status == 200 then [] else h.log[|h.log| - 1..];
      assert h.log == mint + Reading(env, n, id, m) + tail;
      ListPathsAppend(mint + Reading(env, n, id, m), tail);
      ListPathsAppend(mint, Reading(env, n, id, m));
      NotListing(mint);
      NotListing(tail);
      ReadingLists(env, n, id, m);
    } else {
      NotListing(h.log);
    }
  }

  lemma {:induction false} NotListing(log: seq<Event>)
    requires forall e | e in log :: !e.Read? || !e.req.list
    ensures ListPaths(log) == []
  {
    if log != [] { NotListing(log[1..]); }
  }

  lemma ReadingLists(env: Env, n: nat, id: Identity, m: Mint)
    ensures var paths := MetadataPaths(env.site.kvMount, TierPaths(env, id));
            && ListPaths(Reading(env, n, id, m)) <= paths
            && (Sweeps(env, n, id, m) && TierSweep(env, n + 3, id, m).ok ==> ListPaths(Reading(env, n, id, m)) == paths)
  {
    hide MetadataPaths, TierPaths, SomePolicyExists, BindingHolds, ConfigHolds, Exec;
    var a, b := DirectiveRead(env, n + 1, id, m, "/.identity"), DirectiveRead(env, n + 2, id, m, "/.config");
    NotListing([]);
    NotListing([a]);
    NotListing([a, b]);
    ListPathsAppend([a, b], TierSweep(env, n + 3, id, m).log);
    ListsTheTiers(Site(env.site.kvMount, m.token), env.server.read, n + 3, TierPaths(env, id));
  }

  /** A 200 has come through every step. */
  lemma DeliversInSteps(env: Env, n: nat, gate: bool, id: Identity)
    requires HandleRun(env, n, gate, id).result.status == 200
    ensures gate && Minted(env, n, id).Some?
    ensures var m := Minted(env, n, id).value;
            Sweeps(env, n, id, m) && TierSweep(env, n + 3, id, m).ok
  {
    hide HandleRun, Exec, Fatal, SomePolicyExists, BoundTo, SoundConfig, Withholds, Stored, TierPaths;
    DeliversExactly(env, n, gate, id);
    var m := Minted(env, n, id).value;
    FailsPromptly(Site(env.site.kvMount, m.token), env.server.read, n + 3, TierTasks(TierPaths(env, id)));
  }

  // ---------- the answers ----------

  /** Status and outcome, case by case, from what Vault answered. */
  ghost function Verdict(env: Env, n: nat, gate: bool, id: Identity): (int, Outcome) {
    if !gate || Minted(env, n, id).None? then (502, OutcomeError) else
      var m := Minted(env, n, id).value;
      var bound, stored := env.server.read(n + 1, Stored(env, id, m, "/.identity")), env.server.read(n + 2, Stored(env, id, m, "/.config"));
      var sweep := TierSweep(env, n + 3, id, m);
      if m.tokenType != "service" then (502, OutcomeError)
      else if !SomePolicyExists(env, id, m) then (204, OutcomeUnonboarded)
      else if bound.Broken? then (502, OutcomeError)
      else if !bound.Denied? && !BoundTo(bound, id.forgeRemoteID) then (204, OutcomeIdentityMismatch)
      else if !SoundConfig(stored) then (502, OutcomeError)
      else if exists e :: e in sweep.log && Fatal(e) then (502, OutcomeError)
      else if Withholds(stored) && forall c | c in sweep.found :: !ValidName(c.secret.name) then (204, OutcomeUnonboarded)
      else (200, OutcomeOK)
  }

  /** Every answer of every Handle. */
  lemma OutcomeTable(env: Env, n: nat, gate: bool, id: Identity)
    ensures var result := HandleRun(env, n, gate, id).result; (result.status, result.outcome) == Verdict(env, n, gate, id)
  {
    hide TierSweep, SweepOf, Stored, SoundConfig, Withholds, EveryPolicyWarned, SomePolicyExists, IdentityReading, ConfigReading,
      Suppressed, Keep, ResponseBody, IdentityRequest, ConfigRequest, DecodeDirective, Fatal, ValidName, Minted, Asked;
    if gate && Minted(env, n, id).Some? {
      var m := Minted(env, n, id).value;
      DirectivesAtRoot(env, id, m);
      SweepsTheTiers(env, n + 3, id, m);
      PolicyUnwarned(env, id, m);
      BindingRead(env.server.read(n + 1, Stored(env, id, m, "/.identity")), id);
      ConfigAccepted(env.server.read(n + 2, Stored(env, id, m, "/.config")));
      TierSweepFails(env, n + 3, id, m);
      SomethingKept(TierSweep(env, n + 3, id, m).found);
    }
  }

  lemma TierSweepFails(env: Env, n: nat, id: Identity, m: Mint)
    ensures TierSweep(env, n, id, m).ok <==> forall e | e in TierSweep(env, n, id, m).log :: !Fatal(e)
  {
    hide Exec, Fatal;
    FailsPromptly(Site(env.site.kvMount, m.token), env.server.read, n, TierTasks(TierPaths(env, id)));
  }

  /** What a delivery from a steady store consists of, with nothing of the sweep's run in it: the first
      valid candidate of each name, over the tiers in order, as the store holds them; then the token, if
      it is not withheld; then the address, if one is advertised. */
  lemma SteadyDelivery(env: Env, v: Request -> Reply, n: nat, gate: bool, id: Identity)
    requires env.server.read == Snapshot(v) && HandleRun(env, n, gate, id).result.status == 200
    ensures var secrets, m := HandleRun(env, n, gate, id).result.secrets, Minted(env, n, id).value;
            var site, tiers := Site(env.site.kvMount, m.token), Reversed(Derive(id, env.site.kvPrefix)) + [Root(env, id)];
            var stored := v(Stored(env, id, m, "/.config"));
            var images := StoredText(stored, "vault_token_images");
            secrets == Delivered(Firsts(TiersCandidates(site, v, tiers)), id.event)
                       + (if Withholds(stored) then []
                          else [Secret("vault_token", m.token, [id.event], if images == "" then [] else CommaList(images))])
                       + (if env.advertise == "" then [] else [Secret("vault_addr", env.advertise, [id.event], [])])
  {
    hide HandleRun, Exec, Keep, StoredText, Withholds, SoundConfig, Setting, Suppressed, ConfigReading, CommaList, Delivered,
      TiersCandidates, Firsts, Derive, Reversed, TierTasks;
    DeliversInSteps(env, n, gate, id);
    PassesDelivers(env, n, gate, id);
    var m := Minted(env, n, id).value;
    var site := Site(env.site.kvMount, m.token);
    ConfigAccepted(v(Stored(env, id, m, "/.config")));
    SettingIsStored(v(Stored(env, id, m, "/.config")), "vault_token_images");
    RunsTiers(site, v, n + 3, TierPaths(env, id));
    KeepIsFirsts(TiersCandidates(site, v, TierPaths(env, id)));
  }

  /** The audit record: the policies asked for; once minted, the token's accessor and lifetime and, for
      a service token, exactly the policies that warnings name; and the names delivered. */
  lemma AuditExactly(env: Env, n: nat, gate: bool, id: Identity)
    ensures var result, minted := HandleRun(env, n, gate, id).result, Minted(env, n, id);
            var audit := result.audit;
            && audit.policiesRequested == Derive(id, env.policyPrefix)
            && audit.secretNames == Names(result.secrets)
            && (!gate || minted.None? ==> audit.tokenAccessor == "" && audit.tokenTTL == 0 && audit.policyWarnings == [])
            && (gate && minted.Some? ==>
                  && audit.tokenAccessor == minted.value.accessor && audit.tokenTTL == minted.value.ttl
                  && forall p :: p in audit.policyWarnings <==>
                       minted.value.tokenType == "service" && exists w :: w in minted.value.warnings && Matches(w, p))
  {
    hide SweepOf, IdentityReading, ConfigReading, ResponseBody, EveryPolicyWarned, IdentityAccepted, Keep, Suppressed, Derive,
      Minted, Asked, MatchWarning, Matches, Warned;
    if gate && Minted(env, n, id).Some? {
      var warnings := Minted(env, n, id).value.warnings;
      forall p ensures p in Warned(warnings) <==> exists w :: w in warnings && Matches(w, p) {
        WarnedMember(warnings, p);
        forall w ensures MatchWarning(w) == Some(p) <==> Matches(w, p) { MatchWarningExact(w, p); }
      }
    }
  }
}
