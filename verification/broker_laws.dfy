/** What holds of every Handle. */
module BrokerLaws {
  import opened Results
  import opened Text
  import opened Json
  import opened Vault
  import opened Identity
  import opened Policy
  import opened Warnings
  import opened SweepSpec
  import opened SweepLaws
  import opened Vaultx
  import opened Broker
  import P = Protocol

  // ---------- revocation by outcome ----------

  /** The tokens a record tries to revoke, in order. */
  ghost function RevokedTokens(log: seq<Event>): seq<string> {
    if log == [] then [] else (if log[0].RevokeCall? then [log[0].token] else []) + RevokedTokens(log[1..])
  }

  ghost predicate ReadAs(token: string, e: Event) { e.Read? && e.req.token == token }

  lemma {:induction false} ReadsRevokeNothing(token: string, log: seq<Event>, tail: seq<Event>)
    requires forall e | e in log :: ReadAs(token, e)
    ensures RevokedTokens(log + tail) == RevokedTokens(tail)
  {
    if log == [] {
      assert log + tail == tail;
    } else {
      assert (log + tail)[1..] == log[1..] + tail && log[0] in log;
      ReadsRevokeNothing(token, log[1..], tail);
    }
  }

  lemma SweepReadsAsToken(env: Env, n: nat, id: Identity, m: Mint)
    ensures forall e | e in SweepOf(env, n, id, m).log :: ReadAs(m.token, e)
  {
    hide Exec, Recorded;
    var site, tasks := Site(env.site.kvMount, m.token), TierTasks(Tiers(Base(env.site.kvPrefix, id), id, Branchful(id.event)));
    var log := SweepOf(env, n, id, m).log;
    forall e | e in log ensures ReadAs(m.token, e) {
      var i :| 0 <= i < |log| && log[i] == e;
      Traffic(site, env.server.read, n, tasks, i);
      RecordedIsRead(site, env.server.read, n + i, e);
    }
  }

  lemma RecordedIsRead(site: Site, o: Reads, k: nat, e: Event)
    ensures Recorded(site, o, k, e) ==> ReadAs(site.token, e)
  {}

  /** What Handle does between the mint and the deferred check: reads under the minted token, and a
      result whose status, outcome and secrets agree. */
  lemma AfterMintShape(env: Env, n: nat, id: Identity, m: Mint)
    ensures var h := AfterMint(env, n, id, m);
            && (forall e | e in h.log :: ReadAs(m.token, e))
            && !h.result.revokeFailed
            && StatusAgrees(h.result)
            && h.result.audit.tokenAccessor == m.accessor
  {
    hide SweepOf, IdentityReading, ConfigReading, ResponseBody, EveryPolicyWarned, IdentityAccepted, Keep, Suppressed;
    SweepReadsAsToken(env, n + 2, id, m);
  }

  /** 200 with ok, 502 with error, 204 with the other two; secrets and their names only on 200. */
  ghost predicate StatusAgrees(r: HandleResult) {
    && r.status in {200, 204, 502}
    && (r.status == 200 <==> r.outcome == OutcomeOK)
    && (r.status == 502 <==> r.outcome == OutcomeError)
    && (r.status == 204 <==> r.outcome == OutcomeUnonboarded || r.outcome == OutcomeIdentityMismatch)
    && (r.status != 200 ==> r.secrets == [] && r.audit.secretNames == [])
    && (r.status == 200 ==> r.audit.secretNames == Names(r.secrets))
  }

  lemma StatusesAgree(env: Env, n: nat, gate: bool, id: Identity)
    ensures StatusAgrees(HandleRun(env, n, gate, id).result)
  {
    hide AfterMint;
    if gate && Minted(env, n, id).Some? { AfterMintShape(env, n + 1, id, Minted(env, n, id).value); }
  }

  /** Revocation by outcome, for every Handle: a closed gate makes no call at all; otherwise there is
      one mint, first, and nothing else if it fails; then only reads under the minted token; and the
      minted token is revoked exactly once if the status is not 200, and no token is otherwise. */
  lemma RevokesByOutcome(env: Env, n: nat, gate: bool, id: Identity)
    ensures var h, minted := HandleRun(env, n, gate, id), Minted(env, n, id);
            && (!gate ==> h.log == [])
            && (gate ==> h.log != [] && h.log[0] == MintCall(env.auth, Asked(env, id), minted))
            && (RevokedTokens(h.log) == if gate && minted.Some? && h.result.status != 200 then [minted.value.token] else [])
            && (h.result.revokeFailed <==> h.log != [] && h.log[|h.log| - 1].RevokeCall? && !h.log[|h.log| - 1].revoked)
            && (gate && minted.None? ==> |h.log| == 1)
            && (gate && minted.Some? ==> forall i | 1 <= i < |h.log| ::
                  ReadAs(minted.value.token, h.log[i]) || (i == |h.log| - 1 && h.log[i].RevokeCall?))
  {
    hide AfterMint, Asked, Minted, ReadAs, StatusAgrees;
    var minted := Minted(env, n, id);
    if gate && minted.Some? {
      var m := minted.value;
      var a := AfterMint(env, n + 1, id, m);
      AfterMintShape(env, n + 1, id, m);
      var h := HandleRun(env, n, gate, id);
      var tail := if a.result.status == 200 then [] else [RevokeCall(m.token, env.server.revoke(n + 1 + |a.log|, m.token))];
      var mint := MintCall(env.auth, Asked(env, id), minted);
      assert h.log == [mint] + (a.log + tail);
      LogShape(m.token, mint, a.log, tail);
    } else if gate {
      var h := HandleRun(env, n, gate, id);
      assert h.log == [MintCall(env.auth, Asked(env, id), minted)] && h.log[1..] == [];
    }
  }

  lemma LogShape(token: string, mint: Event, middle: seq<Event>, tail: seq<Event>)
    requires mint.MintCall?
    requires forall e | e in middle :: ReadAs(token, e)
    requires |tail| <= 1 && forall i | 0 <= i < |tail| :: tail[i].RevokeCall?
    ensures var log := [mint] + (middle + tail);
            && RevokedTokens(log) == (if tail == [] then [] else [tail[0].token])
            && (log[|log| - 1].RevokeCall? <==> tail != [])
            && (tail != [] ==> log[|log| - 1] == tail[0])
            && (forall i | 1 <= i < |log| - |tail| :: ReadAs(token, log[i]))
  {
    var log := [mint] + (middle + tail);
    RevokedOf(token, mint, middle, tail);
    hide ReadAs, RevokedTokens;
    forall i | 1 <= i < |log| - |tail| ensures ReadAs(token, log[i]) {
      assert log[i] == middle[i - 1] && middle[i - 1] in middle;
    }
    if tail == [] && middle != [] { ReadIsNoRevoke(token, log[|log| - 1]); }
  }

  lemma RevokedOf(token: string, mint: Event, middle: seq<Event>, tail: seq<Event>)
    requires mint.MintCall? && forall e | e in middle :: ReadAs(token, e)
    requires |tail| <= 1 && forall i | 0 <= i < |tail| :: tail[i].RevokeCall?
    ensures RevokedTokens([mint] + (middle + tail)) == if tail == [] then [] else [tail[0].token]
  {
    ReadsRevokeNothing(token, middle, tail);
    assert ([mint] + (middle + tail))[1..] == middle + tail;
    assert tail != [] ==> tail[1..] == [];
  }

  lemma ReadIsNoRevoke(token: string, e: Event)
    ensures ReadAs(token, e) ==> !e.RevokeCall?
  {}

  // ---------- where a Handle reads ----------

  /** The repository's own path under the prefix. */
  ghost function Root(env: Env, id: Identity): string { env.site.kvPrefix + "/" + id.org + "/" + id.repo }

  /** A directive of the repository. */
  ghost function Stored(env: Env, id: Identity, m: Mint, name: string): Request {
    Request(m.token, env.site.kvMount + "/data/" + Root(env, id) + name, false)
  }

  /** The tiers: what the derived policies would be called under the KV prefix, the branch's before the
      event's, and then the repository's root. */
  ghost function TierPaths(env: Env, id: Identity): seq<string> {
    Reversed(Derive(id, env.site.kvPrefix)) + [Root(env, id)]
  }

  /** A sweep of these tiers under the minted token. */
  ghost function TierSweep(env: Env, n: nat, id: Identity, m: Mint): Run {
    Exec(Site(env.site.kvMount, m.token), env.server.read, n, TierTasks(TierPaths(env, id)))
  }

  lemma SweepsTheTiers(env: Env, n: nat, id: Identity, m: Mint)
    ensures SweepOf(env, n, id, m) == TierSweep(env, n, id, m)
  {
    hide Exec;
    TiersMirrorPolicies(id, env.site.kvPrefix);
  }

  lemma DirectivesAtRoot(env: Env, id: Identity, m: Mint)
    ensures IdentityRequest(env, id, m) == Stored(env, id, m, "/.identity")
    ensures ConfigRequest(env, id, m) == Stored(env, id, m, "/.config")
  {
    var root := env.site.kvMount + "/data/" + Root(env, id);
    assert root + "/" + ".identity" == root + "/.identity" && root + "/" + ".config" == root + "/.config";
  }

  // ---------- when a Handle delivers ----------

  /** The checks on Handle's way to a 200, in its own order. */
  ghost predicate Passes(env: Env, n: nat, gate: bool, id: Identity) {
    && gate && Minted(env, n, id).Some?
    && var m := Minted(env, n, id).value;
       && m.tokenType == "service"
       && !EveryPolicyWarned(env, id, m)
       && IdentityAccepted(IdentityReading(env.server.read(n + 1, Stored(env, id, m, "/.identity"))), id)
       && var config := ConfigReading(env.server.read(n + 2, Stored(env, id, m, "/.config")));
          && config.Ok?
          && TierSweep(env, n + 3, id, m).ok
          && (Keep([], TierSweep(env, n + 3, id, m).found) != [] || !Suppressed(config.value))
  }

  /** The config, where one was read. */
  ghost function ConfigOf(env: Env, n: nat, id: Identity, m: Mint): Option<map<string, string>> {
    var reading := ConfigReading(env.server.read(n + 2, Stored(env, id, m, "/.config")));
    if reading.Ok? then reading.value else None
  }

  ghost function Swept(env: Env, n: nat, id: Identity, m: Mint): seq<SweptSecret> {
    Keep([], TierSweep(env, n + 3, id, m).found)
  }

  lemma PassesDelivers(env: Env, n: nat, gate: bool, id: Identity)
    ensures HandleRun(env, n, gate, id).result.status == 200 <==> Passes(env, n, gate, id)
    ensures Passes(env, n, gate, id) ==>
              var m := Minted(env, n, id).value;
              HandleRun(env, n, gate, id).result.secrets
              == ResponseBody(env, id, m, ConfigOf(env, n, id, m), Swept(env, n, id, m))
  {
    hide SweepOf, IdentityReading, ConfigReading, ResponseBody, Keep, EveryPolicyWarned, TierSweep, Stored;
    if Minted(env, n, id).Some? {
      SweepsTheTiers(env, n + 3, id, Minted(env, n, id).value);
      DirectivesAtRoot(env, id, Minted(env, n, id).value);
    }
  }

  /** A readable binding that is the payload's forge id, as a non-empty string. */
  ghost predicate BoundTo(bound: Reply, forge: string) {
    && bound.Body? && DecodeDirective(bound.body).Some? && forge != ""
    && StringField(DecodeDirective(bound.body).value, "forge_remote_id") == Some(forge)
  }

  /** A config that is absent or unreadable, or whose fields all pass as strings. */
  ghost predicate SoundConfig(stored: Reply) {
    stored.Denied? ||
    (stored.Body? && DecodeDirective(stored.body).Some?
     && forall k | k in DecodeDirective(stored.body).value :: StringField(DecodeDirective(stored.body).value, k).Some?)
  }

  /** A readable config that stores `vault_token` as "false". */
  ghost predicate Withholds(stored: Reply) {
    && stored.Body? && DecodeDirective(stored.body).Some?
    && "vault_token" in DecodeDirective(stored.body).value
    && DecodeDirective(stored.body).value["vault_token"] == Str("false")
  }

  /** A text stored in a readable config; empty where there is none. */
  ghost function StoredText(stored: Reply, key: string): string {
    if stored.Body? && DecodeDirective(stored.body).Some? && StringField(DecodeDirective(stored.body).value, key).Some?
    then StringField(DecodeDirective(stored.body).value, key).value else ""
  }

  /** Some requested policy is not named by any warning. */
  ghost predicate SomePolicyExists(env: Env, id: Identity, m: Mint) {
    exists p :: p in Derive(id, env.policyPrefix) && forall w | w in m.warnings :: !Matches(w, p)
  }

  /** What a delivery takes, in terms of what Vault answered: the canary's gate open; a service token;
      some derived policy that no warning names; the binding absent, or the payload's own; the config
      absent or sound; no fatal reply in the sweep; and either a candidate with a valid name or a
      token that is not withheld. */
  ghost predicate Deliverable(env: Env, n: nat, gate: bool, id: Identity) {
    && gate && Minted(env, n, id).Some?
    && var m := Minted(env, n, id).value;
       var bound := env.server.read(n + 1, Stored(env, id, m, "/.identity"));
       var stored := env.server.read(n + 2, Stored(env, id, m, "/.config"));
       && m.tokenType == "service"
       && SomePolicyExists(env, id, m)
       && (bound.Denied? || BoundTo(bound, id.forgeRemoteID))
       && SoundConfig(stored)
       && (forall e | e in TierSweep(env, n + 3, id, m).log :: !Fatal(e))
       && ((exists c :: c in TierSweep(env, n + 3, id, m).found && ValidName(c.secret.name)) || !Withholds(stored))
  }

  lemma PolicyUnwarned(env: Env, id: Identity, m: Mint)
    ensures !EveryPolicyWarned(env, id, m) <==> SomePolicyExists(env, id, m)
  {
    hide Derive, Matches, MatchWarning;
    forall p ensures p in Warned(m.warnings) <==> exists w :: w in m.warnings && Matches(w, p) {
      WarnedMember(m.warnings, p);
      forall w ensures MatchWarning(w) == Some(p) <==> Matches(w, p) { MatchWarningExact(w, p); }
    }
  }

  lemma BindingRead(bound: Reply, id: Identity)
    ensures IdentityReading(bound) == Err(ReadFailed) <==> bound.Broken?
    ensures IdentityAccepted(IdentityReading(bound), id) <==> bound.Denied? || BoundTo(bound, id.forgeRemoteID)
  {
    hide DecodeDirective;
  }

  lemma ConfigAccepted(stored: Reply)
    ensures ConfigReading(stored).Ok? <==> SoundConfig(stored)
    ensures SoundConfig(stored) ==> (Suppressed(ConfigReading(stored).value) <==> Withholds(stored))
  {
    hide DecodeDirective;
  }

  lemma SettingIsStored(stored: Reply, key: string)
    requires SoundConfig(stored)
    ensures Setting(ConfigReading(stored).value, key) == StoredText(stored, key)
  {
    hide DecodeDirective;
  }

  lemma SomethingKept(found: seq<Candidate>)
    ensures Keep([], found) != [] <==> exists c :: c in found && ValidName(c.secret.name)
  {
    KeepIsFirsts(found);
    if Firsts(found) != [] {
      var i := FirstsSound(found, Firsts(found)[0]);
      assert found[i] in found;
    }
    if c :| c in found && ValidName(c.secret.name) { FirstsNamed(found, c.secret.name); }
  }

  /** Handle delivers exactly when Vault's answers make the request deliverable. */
  lemma DeliversExactly(env: Env, n: nat, gate: bool, id: Identity)
    ensures HandleRun(env, n, gate, id).result.status == 200 <==> Deliverable(env, n, gate, id)
  {
    hide HandleRun, Exec, Derive, Matches, Fatal, Keep, IdentityReading, ConfigReading, SoundConfig, Withholds,
      BoundTo, EveryPolicyWarned, IdentityAccepted, Suppressed, ValidName, Stored, TierPaths, SweepOf, SomePolicyExists;
    PassesDelivers(env, n, gate, id);
    if gate && Minted(env, n, id).Some? {
      var m := Minted(env, n, id).value;
      PolicyUnwarned(env, id, m);
      DirectivesAtRoot(env, id, m);
      SweepsTheTiers(env, n + 3, id, m);
      BindingRead(env.server.read(n + 1, Stored(env, id, m, "/.identity")), id);
      ConfigAccepted(env.server.read(n + 2, Stored(env, id, m, "/.config")));
      FailsPromptly(Site(env.site.kvMount, m.token), env.server.read, n + 3, TierTasks(TierPaths(env, id)));
      SomethingKept(TierSweep(env, n + 3, id, m).found);
    }
  }

  /** A failed sweep: 502, and the record ends with the fatal read and the one revoke. */
  lemma SweepFailureRevokes(env: Env, n: nat, id: Identity)
    requires Minted(env, n, id).Some?
    requires var m := Minted(env, n, id).value;
             && m.tokenType == "service" && !EveryPolicyWarned(env, id, m)
             && IdentityAccepted(IdentityReading(env.server.read(n + 1, Stored(env, id, m, "/.identity"))), id)
             && ConfigReading(env.server.read(n + 2, Stored(env, id, m, "/.config"))).Ok?
             && !TierSweep(env, n + 3, id, m).ok
    ensures var h, m := HandleRun(env, n, true, id), Minted(env, n, id).value;
            && h.result.status == 502 && h.result.secrets == []
            && |h.log| >= 2 && h.log[|h.log| - 1].RevokeCall? && h.log[|h.log| - 1].token == m.token
            && Fatal(h.log[|h.log| - 2])
  {
    hide IdentityReading, ConfigReading, ResponseBody, Keep, EveryPolicyWarned, Exec, Fatal;
    var m := Minted(env, n, id).value;
    DirectivesAtRoot(env, id, m);
    SweepsTheTiers(env, n + 3, id, m);
    var run := TierSweep(env, n + 3, id, m);
    FailsPromptly(Site(env.site.kvMount, m.token), env.server.read, n + 3, TierTasks(TierPaths(env, id)));
    var h, a := HandleRun(env, n, true, id), AfterMint(env, n + 1, id, m);
    assert a.log[|a.log| - 1] == run.log[|run.log| - 1];
    assert h.log == [h.log[0]] + a.log + [h.log[|h.log| - 1]];
    assert h.log[|h.log| - 2] == a.log[|a.log| - 1];
  }

  // ---------- response conservation ----------

  /** On 200 the body is the swept secrets in order, then the minted token, under its configured image
      pins, unless suppressed, then the address if one is advertised; something other than the address is there, and no events list is
      empty. */
  lemma ResponseConservation(env: Env, n: nat, gate: bool, id: Identity)
    requires HandleRun(env, n, gate, id).result.status == 200
    ensures var secrets, m := HandleRun(env, n, gate, id).result.secrets, Minted(env, n, id).value;
            var swept, stored := Swept(env, n, id, m), env.server.read(n + 2, Stored(env, id, m, "/.config"));
            var tokens := if Withholds(stored) then 0 else 1;
            var images := StoredText(stored, "vault_token_images");
            && |secrets| == |swept| + tokens + (if env.advertise == "" then 0 else 1)
            && |swept| + tokens > 0
            && (forall i | 0 <= i < |swept| ::
                  && secrets[i].name == swept[i].name && secrets[i].value == swept[i].value
                  && secrets[i].images == swept[i].images
                  && secrets[i].events == if swept[i].events == [] then [id.event] else swept[i].events)
            && (tokens == 1 ==> secrets[|swept|].name == "vault_token" && secrets[|swept|].value == m.token
                                && secrets[|swept|].events == [id.event]
                                && secrets[|swept|].images == if images == "" then [] else CommaList(images))
            && (env.advertise != "" ==>
                  secrets[|secrets| - 1] == Secret("vault_addr", env.advertise, [id.event], []))
            && forall s | s in secrets :: s.events != []
  {
    hide HandleRun, SweepOf, Keep, StoredText, Withholds, SoundConfig, Setting, Suppressed, ConfigReading, CommaList;
    PassesDelivers(env, n, gate, id);
    var stored := env.server.read(n + 2, Stored(env, id, Minted(env, n, id).value, "/.config"));
    ConfigAccepted(stored);
    SettingIsStored(stored, "vault_token_images");
  }

  ghost predicate Distinct(names: seq<string>) {
    forall i, j | 0 <= i < j < |names| :: names[i] != names[j]
  }

  lemma BodyNames(env: Env, id: Identity, m: Mint, config: Option<map<string, string>>, swept: seq<SweptSecret>)
    ensures var names := Names(ResponseBody(env, id, m, config, swept));
            names == seq(|swept|, i requires 0 <= i < |swept| => swept[i].name)
                     + (if Suppressed(config) then [] else ["vault_token"])
                     + (if env.advertise == "" then [] else ["vault_addr"])
  {}

  ghost predicate Clashes(swept: seq<SweptSecret>, added: bool, name: string) { added && Named(swept, name) }

  lemma {:induction false} AddedNames(names: seq<string>, swept: seq<SweptSecret>, token: bool, addr: bool)
    requires names == seq(|swept|, i requires 0 <= i < |swept| => swept[i].name)
                      + (if token then ["vault_token"] else []) + (if addr then ["vault_addr"] else [])
    requires forall i, j | 0 <= i < j < |swept| :: swept[i].name != swept[j].name
    ensures Distinct(names) <==> !Clashes(swept, token, "vault_token") && !Clashes(swept, addr, "vault_addr")
  {
    assert forall i | 0 <= i < |swept| :: names[i] == swept[i].name && swept[i] in swept;
    if Clashes(swept, token, "vault_token") {
      var i :| 0 <= i < |swept| && swept[i].name == "vault_token";
      assert names[i] == names[|swept|];
    }
    if Clashes(swept, addr, "vault_addr") {
      var i :| 0 <= i < |swept| && swept[i].name == "vault_addr";
      assert names[i] == names[|names| - 1];
    }
  }

  /** The broker does not check the two names it adds: the response's names are distinct exactly when
      no swept secret already has an added name. */
  lemma ResponseNamesDistinct(env: Env, n: nat, gate: bool, id: Identity)
    requires HandleRun(env, n, gate, id).result.status == 200
    ensures var r, m := HandleRun(env, n, gate, id).result, Minted(env, n, id).value;
            var swept, stored := Swept(env, n, id, m), env.server.read(n + 2, Stored(env, id, m, "/.config"));
            Distinct(Names(r.secrets)) <==>
              !Clashes(swept, !Withholds(stored), "vault_token") && !Clashes(swept, env.advertise != "", "vault_addr")
  {
    hide HandleRun, SweepOf, Keep, ResponseBody, Names, Clashes, Distinct, Withholds, SoundConfig, Suppressed;
    PassesDelivers(env, n, gate, id);
    var m := Minted(env, n, id).value;
    ConfigAccepted(env.server.read(n + 2, Stored(env, id, m, "/.config")));
    var swept, config := Swept(env, n, id, m), ConfigOf(env, n, id, m);
    BodyNames(env, id, m, config, swept);
    SweptDistinct(env, n, id, m);
    AddedNames(Names(ResponseBody(env, id, m, config, swept)), swept, !Suppressed(config), env.advertise != "");
  }

  lemma SweptDistinct(env: Env, n: nat, id: Identity, m: Mint)
    ensures var swept := Swept(env, n, id, m); forall i, j | 0 <= i < j < |swept| :: swept[i].name != swept[j].name
  {
    hide SweepOf;
    KeepIsFirsts(TierSweep(env, n + 3, id, m).found);
    NamesUnique(TierSweep(env, n + 3, id, m).found);
  }

  // ---------- a response with a name twice ----------

  const CLASH_ID := Identity("acme", "app", "tag", [], "7", "", 0)
  const CLASH_BASE := SweepSpec.Base("ci", CLASH_ID)
  const CLASH_LIST := RequestOf(Site("kv", "p"), ListTier(1, CLASH_BASE))
  const CLASH_ENTRY := RequestOf(Site("kv", "p"), ReadEntry(1, CLASH_BASE, "vault_token", [CLASH_LIST]))

  /** A store whose only entry, at the base, is called `vault_token`. */
  function ClashStore(r: Request): Reply {
    if r == CLASH_LIST then Body(Obj(map["data" := Obj(map["keys" := Arr([Str("vault_token")])])]))
    else if r == CLASH_ENTRY then Body(Obj(map["data" := Obj(map["data" := Obj(map["value" := Str("x")])])]))
    else Denied
  }

  const CLASH_ENV := Env(Server(Snapshot(ClashStore),
                                (n: nat, asked: MintRequest) => Some(CLASH_MINT),
                                (n: nat, token: string) => true, (n: nat) => None, (n: nat) => None),
                         Config("kv", "ci"), "ci", "", "t")
  const CLASH_MINT := Mint("p", "", "service", 60, false, None, [])

  lemma ClashReplies()
    ensures DecodeKeys(ClashStore(CLASH_LIST).body) == Some(["vault_token"])
    ensures DecodeEntry(ClashStore(CLASH_ENTRY).body) == Some(KvEntry(map["value" := Str("x")], map[]))
    ensures DecodeDeref(ClashStore(CLASH_ENTRY).body).Some?
  {
    assert ItemTexts([Str("vault_token")][1..]) == Some([]);
    assert ["vault_token"] + [] == ["vault_token"];
  }

  lemma ClashNotFatal(k: nat, e: Event)
    requires Recorded(Site("kv", "p"), Snapshot(ClashStore), k, e)
    ensures !Fatal(e)
  {
    ClashReplies();
    hide DecodeKeys, DecodeEntry, DecodeDeref;
    assert e.reply == ClashStore(e.req);
    if e.req == CLASH_LIST {
      assert e.purpose == Listing;
    } else if e.req == CLASH_ENTRY {
      assert e.purpose == EntryRead || e.purpose == Deref;
    } else {
      assert e.reply == Denied;
    }
  }

  lemma ClashSweepSucceeds(n: nat)
    ensures TierSweep(CLASH_ENV, n, CLASH_ID, CLASH_MINT).ok
  {
    hide Exec, Fatal, Recorded;
    var site, tasks := Site("kv", "p"), TierTasks(TierPaths(CLASH_ENV, CLASH_ID));
    var run := TierSweep(CLASH_ENV, n, CLASH_ID, CLASH_MINT);
    FailsPromptly(site, Snapshot(ClashStore), n, tasks);
    forall e | e in run.log ensures !Fatal(e) {
      var i :| 0 <= i < |run.log| && run.log[i] == e;
      Traffic(site, Snapshot(ClashStore), n, tasks, i);
      ClashNotFatal(n + i, e);
    }
  }

  lemma ShorthandEntry(site: Site, v: Request -> Reply, t: Task, value: string)
    requires t.ReadEntry? && v(RequestOf(site, t)).Body?
    requires DecodeEntry(v(RequestOf(site, t)).body) == Some(KvEntry(map["value" := Str(value)], map[]))
    ensures EntryCandidates(site, v, t) == [Single(t, t.via + [RequestOf(site, t)], "value", value, Pins([], []))]
  {
    hide DecodeEntry, PerField, NormalizeName, RequestOf, RefCandidates;
    var fields: Fields := map["value" := Str(value)];
    assert fields.Keys == {"value"} && "$ref" !in fields;
  }

  lemma PlainName(s: string)
    ensures ValidName(s) ==> NormalizeName(s) == s
  {}

  lemma ClashName()
    ensures ValidName("vault_token") && NormalizeName("vault_token") == "vault_token"
  {
    PlainName("vault_token");
    hide NormalizeName;
  }

  lemma ClashEntry()
    ensures EntryCandidates(Site("kv", "p"), ClashStore, ReadEntry(1, CLASH_BASE, "vault_token", [CLASH_LIST])) ==
            [Candidate(1, "vault_token", "value", [CLASH_LIST, CLASH_ENTRY], SweptSecret("vault_token", "x", [], []))]
  {
    hide DecodeEntry, DecodeDeref, DecodeKeys, NormalizeName, ValidName, EntryCandidates, RequestOf;
    var t := ReadEntry(1, CLASH_BASE, "vault_token", [CLASH_LIST]);
    ClashReplies();
    ClashName();
    ShorthandEntry(Site("kv", "p"), ClashStore, t, "x");
    assert t.via + [CLASH_ENTRY] == [CLASH_LIST, CLASH_ENTRY];
  }

  lemma OneKeyTier(site: Site, v: Request -> Reply, rank: nat, tier: string, key: string, list: Request)
    requires list == Request(site.token, site.mount + "/metadata/" + tier, true) && v(list).Body?
    requires DecodeKeys(v(list).body) == Some([key]) && PlainKey(key)
    ensures TierCandidates(site, v, rank, tier) == EntryCandidates(site, v, ReadEntry(rank, tier, key, [list]))
  {
    hide DecodeKeys, EntryCandidates, PlainKey, Insert;
    var t := ReadEntry(rank, tier, key, [list]);
    assert [key][..0] == [] && PlainKeys([key]) == [key];
    assert [key][1..] == [] && Insert(key, []) == [key] by { InsertFirst(key); }
    assert Sort([key]) == [key];
    assert EntryTasks(rank, tier, [key], [list]) == [t];
    assert [t][..0] == [] && EntriesCandidates(site, v, [t]) == EntryCandidates(site, v, t);
  }

  lemma InsertFirst(x: string)
    ensures Insert(x, []) == [x]
  {}

  lemma ClashTier()
    ensures TierCandidates(Site("kv", "p"), ClashStore, 1, CLASH_BASE) ==
            [Candidate(1, "vault_token", "value", [CLASH_LIST, CLASH_ENTRY], SweptSecret("vault_token", "x", [], []))]
  {
    ClashReplies();
    hide DecodeKeys, DecodeEntry, DecodeDeref, EntryCandidates, TierCandidates;
    ClashEntry();
    OneKeyTier(Site("kv", "p"), ClashStore, 1, CLASH_BASE, "vault_token", CLASH_LIST);
  }

  lemma ClashPasses(n: nat)
    ensures Passes(CLASH_ENV, n, true, CLASH_ID) && Minted(CLASH_ENV, n, CLASH_ID) == Some(CLASH_MINT)
    ensures ConfigOf(CLASH_ENV, n, CLASH_ID, CLASH_MINT) == None
  {
    hide TierSweep, Derive, Warned;
    var identity := Stored(CLASH_ENV, CLASH_ID, CLASH_MINT, "/.identity");
    var config := Stored(CLASH_ENV, CLASH_ID, CLASH_MINT, "/.config");
    assert |identity.path| < |CLASH_ENTRY.path| && |config.path| < |CLASH_ENTRY.path|;
    assert ClashStore(identity) == Denied && ClashStore(config) == Denied;
    DeriveNeverEmpty(CLASH_ID, "ci");
    ClashSweepSucceeds(n + 3);
  }

  /** The names of a delivered response need not be distinct. */
  lemma ClashReachable(n: nat)
    ensures var result := HandleRun(CLASH_ENV, n, true, CLASH_ID).result;
            && result.status == 200 && !Distinct(Names(result.secrets))
            && Named(Swept(CLASH_ENV, n, CLASH_ID, CLASH_MINT), "vault_token")
  {
    hide Exec, HandleRun, Passes, ConfigOf, Keep, Distinct, TierCandidates, Minted;
    ClashPasses(n);
    PassesDelivers(CLASH_ENV, n, true, CLASH_ID);
    ClashSweepSucceeds(n + 3);
    SweepsTheTiers(CLASH_ENV, n + 3, CLASH_ID, CLASH_MINT);
    SweepSpecified(Site("kv", "p"), "ci", ClashStore, n + 3, CLASH_ID, false);
    ClashTier();
    var tiers := Tiers(Base("ci", CLASH_ID), CLASH_ID, false);
    var found := TiersCandidates(Site("kv", "p"), ClashStore, tiers);
    assert tiers == [CLASH_BASE + "/" + "tag", CLASH_BASE];
    var c := TierCandidates(Site("kv", "p"), ClashStore, 1, CLASH_BASE)[0];
    assert c in found;
    FirstsNamed(found, "vault_token");
    ResponseNamesDistinct(CLASH_ENV, n, true, CLASH_ID);
  }

  // ---------- directives ----------

  /** A config is read exactly when it is absent or unreadable, or every stored field passes as a
      string; and then it is the stored map, field by field. */
  lemma ConfigReadExactly(reply: Reply, config: Option<map<string, string>>)
    ensures ConfigReading(reply) == Ok(config) <==>
            || (reply.Denied? && config.None?)
            || (reply.Body? && DecodeDirective(reply.body).Some? && config.Some?
                && var stored := DecodeDirective(reply.body).value;
                   config.value.Keys == stored.Keys
                   && forall k | k in stored :: StringField(stored, k) == Some(config.value[k]))
  {
    if reply.Body? && DecodeDirective(reply.body).Some? {
      var stored := DecodeDirective(reply.body).value;
      if config.Some? && config.value.Keys == stored.Keys
         && forall k | k in stored :: StringField(stored, k) == Some(config.value[k]) {
        assert forall k | k in stored :: StringField(stored, k).Some?;
        assert config.value == map k | k in stored :: StringField(stored, k).value;
      }
    }
  }

  /** A stored `vault_token: "false"` is never overlooked: whatever else is stored, a 200 then carries
      the swept secrets and the address only. */
  lemma SuppressionHonoured(env: Env, n: nat, gate: bool, id: Identity, stored: Fields)
    requires HandleRun(env, n, gate, id).result.status == 200
    requires var reply := env.server.read(n + 2, Stored(env, id, Minted(env, n, id).value, "/.config"));
             reply.Body? && DecodeDirective(reply.body) == Some(stored)
    requires "vault_token" in stored && stored["vault_token"] == Str("false")
    ensures var m := Minted(env, n, id).value;
            HandleRun(env, n, gate, id).result.secrets
            == Delivered(Swept(env, n, id, m), id.event)
               + if env.advertise == "" then [] else [Secret("vault_addr", env.advertise, [id.event], [])]
  {
    hide HandleRun, SweepOf, Keep;
    PassesDelivers(env, n, gate, id);
    var m := Minted(env, n, id).value;
    var config := ConfigOf(env, n, id, m);
    ConfigReadExactly(env.server.read(n + 2, Stored(env, id, m, "/.config")), config);
    assert StringField(stored, "vault_token") == Some(config.value["vault_token"]);
  }

  /** A 200 means that the directives were absent or sound: the identity binding, if readable, is a
      string equal to the payload's forge id, and the config, if readable, is all strings. */
  lemma DirectivesNeverDegrade(env: Env, n: nat, gate: bool, id: Identity)
    requires HandleRun(env, n, gate, id).result.status == 200
    ensures var m := Minted(env, n, id).value;
            var bound := env.server.read(n + 1, Stored(env, id, m, "/.identity"));
            var stored := env.server.read(n + 2, Stored(env, id, m, "/.config"));
            (bound.Denied? || BoundTo(bound, id.forgeRemoteID)) && SoundConfig(stored)
  {
    hide HandleRun, SweepOf, Keep, ResponseBody;
    PassesDelivers(env, n, gate, id);
  }

  /** Handle gets as far as the identity binding. */
  ghost predicate ReachesBinding(env: Env, n: nat, gate: bool, id: Identity) {
    gate && Minted(env, n, id).Some? && Minted(env, n, id).value.tokenType == "service"
    && SomePolicyExists(env, id, Minted(env, n, id).value)
  }

  /** identity_mismatch is said exactly when the binding is readable but is not the payload's forge id
      as a non-empty string: malformed counts as a mismatch, absent and unreadable do not. */
  lemma MismatchExactly(env: Env, n: nat, gate: bool, id: Identity)
    ensures HandleRun(env, n, gate, id).result.outcome == OutcomeIdentityMismatch <==>
            ReachesBinding(env, n, gate, id)
            && var bound := env.server.read(n + 1, Stored(env, id, Minted(env, n, id).value, "/.identity"));
               !bound.Denied? && !bound.Broken? && !BoundTo(bound, id.forgeRemoteID)
  {
    hide SweepOf, IdentityReading, ConfigReading, ResponseBody, Keep, EveryPolicyWarned, SomePolicyExists, Derive, Stored, BoundTo,
      Minted;
    if Minted(env, n, id).Some? {
      var m := Minted(env, n, id).value;
      DirectivesAtRoot(env, id, m);
      PolicyUnwarned(env, id, m);
      BindingRead(env.server.read(n + 1, Stored(env, id, m, "/.identity")), id);
    }
  }

  // ---------- un-onboarded detection ----------

  /** Given a service token and Vault's warnings for the missing policies among any others, Handle
      stops as un-onboarded before any read exactly when every derived policy is missing (and the
      event policy's name is one that Vault prints unchanged). */
  lemma UnonboardedDetection(u: Unicode, env: Env, n: nat, id: Identity, missing: set<string>)
    requires Standard(u)
    requires Minted(env, n, id).Some? && Minted(env, n, id).value.tokenType == "service"
    requires MintWarnings(u, Minted(env, n, id).value.warnings, missing)
    requires forall p | p in missing :: p in Derive(id, env.policyPrefix)
    ensures var h := HandleRun(env, n, true, id);
            (h.result.outcome == OutcomeUnonboarded && forall e | e in h.log :: !e.Read?) <==>
            (Plain(u, EventPolicy(id, env.policyPrefix)) && forall p | p in Derive(id, env.policyPrefix) :: p in missing)
  {
    hide Respond, Derive, IdentityReading, ConfigReading, MintWarnings, Standard, Plain;
    var m := Minted(env, n, id).value;
    UnonboardedExact(u, id, env.policyPrefix, missing, m.warnings);
    var h, a := HandleRun(env, n, true, id), AfterMint(env, n + 1, id, m);
    if !EveryPolicyWarned(env, id, m) {
      assert a.log[0].Read? && h.log[1] == a.log[0] && h.log[1] in h.log;
    }
  }

  // ---------- a Handle is a run of the protocol's handler ----------

  /** The handler after a list of its own steps. */
  ghost function Follow(h: P.Handler, acts: seq<P.Action>, gate: bool): Option<P.Handler>
    decreases |acts|
  {
    if acts == [] then Some(h)
    else match P.HandlerStep(h, acts[0], gate)
      case None => None
      case Some(next) => Follow(next, acts[1..], gate)
  }

  /** The steps request r takes, read off its record and status: the gate, one step a call, and the
      conclusion before the deferred check. */
  ghost function Steps(r: nat, log: seq<Event>, status: int): seq<P.Action> {
    if log == [] then [] else
      match log[0]
      case MintCall(_, _, minted) => [P.RequestMint(r, minted)] + Steps(r, log[1..], status)
      case Read(_, req, _) => [P.RequestRead(r, req.token)] + Steps(r, log[1..], status)
      case RevokeCall(token, ok) => [P.Conclude(r, status), P.RequestRevoke(r, token, ok)] + Steps(r, log[1..], status)
      case _ => Steps(r, log[1..], status)
  }

  ghost function HandleSteps(r: nat, h: Handled, minted: bool): seq<P.Action> {
    [P.Gate(r)] + Steps(r, h.log, h.result.status)
    + if minted && h.result.status == 200 then [P.Conclude(r, 200)] else []
  }

  lemma {:induction false} FollowReads(r: nat, token: string, log: seq<Event>, tail: seq<Event>, status: int,
                                       more: seq<P.Action>, gate: bool)
    requires forall e | e in log :: ReadAs(token, e)
    ensures Follow(P.Working(token), Steps(r, log + tail, status) + more, gate)
            == Follow(P.Working(token), Steps(r, tail, status) + more, gate)
  {
    if log == [] {
      assert log + tail == tail;
    } else {
      assert log[0] in log && (log + tail)[1..] == log[1..] + tail;
      var rest := Steps(r, log[1..] + tail, status);
      assert Steps(r, log + tail, status) + more == [P.RequestRead(r, token)] + (rest + more);
      FollowReads(r, token, log[1..], tail, status, more, gate);
    }
  }

  lemma FollowConclusion(r: nat, token: string, status: int, tail: seq<Event>, more: seq<P.Action>, gate: bool)
    requires status in {200, 204, 502}
    requires status == 200 ==> tail == [] && more == [P.Conclude(r, 200)]
    requires status != 200 ==> |tail| == 1 && tail[0].RevokeCall? && tail[0].token == token && more == []
    ensures Follow(P.Working(token), Steps(r, tail, status) + more, gate) == Some(P.Finished(Some(token), status))
  {
    if status == 200 {
      assert Steps(r, tail, status) + more == more;
      assert more[1..] == [];
    } else {
      var a, b := P.Conclude(r, status), P.RequestRevoke(r, token, tail[0].revoked);
      assert Steps(r, tail[1..], status) == [];
      assert Steps(r, tail, status) + more == [a, b];
      assert [a, b][1..] == [b] && [b][1..] == [];
      assert Follow(P.Revoking(token, status), [b], gate) == Some(P.Finished(Some(token), status));
    }
  }

  /** Every Handle is a run of the handler that module Protocol interleaves, and ends it with its own
      status and token: what is proved there of all interleavings holds of Handle. */
  lemma HandleFollowsProtocol(env: Env, n: nat, gate: bool, id: Identity, r: nat)
    ensures var h, minted := HandleRun(env, n, gate, id), Minted(env, n, id);
            Follow(P.Arrived, HandleSteps(r, h, gate && minted.Some?), gate)
            == Some(P.Finished(if gate && minted.Some? then Some(minted.value.token) else None, h.result.status))
  {
    hide AfterMint, Asked;
    var h, minted := HandleRun(env, n, gate, id), Minted(env, n, id);
    var steps := HandleSteps(r, h, gate && minted.Some?);
    assert steps[0] == P.Gate(r);
    if !gate {
      assert steps[1..] == [];
    } else if minted.None? {
      assert Steps(r, h.log[1..], 502) == [] && h.log[0].minted == None;
      assert Steps(r, h.log, 502) == [P.RequestMint(r, None)];
      assert steps[1..] == [P.RequestMint(r, None)];
      assert steps[1..][1..] == [];
      assert Follow(P.Gated, steps[1..], gate) == Some(P.Finished(None, 502));
    } else {
      var m, a := minted.value, AfterMint(env, n + 1, id, minted.value);
      AfterMintShape(env, n + 1, id, m);
      var status := h.result.status;
      var tail := if status == 200 then [] else [h.log[|h.log| - 1]];
      var more := if status == 200 then [P.Conclude(r, 200)] else [];
      assert h.log[1..] == a.log + tail;
      assert steps[1..] == [P.RequestMint(r, minted)] + (Steps(r, a.log + tail, status) + more);
      assert steps[1..][1..] == Steps(r, a.log + tail, status) + more;
      FollowReads(r, m.token, a.log, tail, status, more, gate);
      FollowConclusion(r, m.token, status, tail, more, gate);
    }
  }

  lemma {:induction false} StepsOfReads(r: nat, token: string, log: seq<Event>, status: int)
    requires forall e | e in log :: ReadAs(token, e)
    ensures Steps(r, log, status) == P.Reads(r, token, |log|)
  {
    if log != [] {
      assert log[0] in log;
      StepsOfReads(r, token, log[1..], status);
    }
  }

  /** Whatever the server: a Handle that ends in 200 can be overtaken by its deadline at the last
      moment. The request makes all of its own steps, the client is answered 502, and the token it
      minted is never revoked. */
  lemma AnyDeliveryCanBeAbandoned(env: Env, n: nat, id: Identity)
    returns (states: seq<P.State>, before: seq<P.Action>, acts: seq<P.Action>)
    requires HandleRun(env, n, true, id).result.status == 200
    ensures var steps := HandleSteps(0, HandleRun(env, n, true, id), true);
            && steps[|steps| - 1] == P.Conclude(0, 200)
            && acts == before + steps[..|steps| - 1] + [P.Timeout(0)] + [P.Conclude(0, 200)]
            && forall a | a in before :: !P.OfRequest(a)
    ensures P.IsRun(states, acts) && Minted(env, n, id).Some?
    ensures var s, token := states[|acts|], Minted(env, n, id).value.token;
            s.requests == map[0 := P.Call(P.Finished(Some(token), 200), P.TimedOut)] && s.revokes[token] == 0
  {
    hide HandleRun, HandleSteps, P.IsRun;
    var k := DeliverySteps(env, n, id);
    var m := Minted(env, n, id).value;
    var steps := HandleSteps(0, HandleRun(env, n, true, id), true);
    states, before, acts := P.OvertakenRun(m, k);
    assert steps[..|steps| - 1] == [P.Gate(0), P.RequestMint(0, Some(m))] + P.Reads(0, m.token, k);
  }

  /** The steps of a Handle that ends in 200: gate, mint, reads, conclusion. */
  lemma DeliverySteps(env: Env, n: nat, id: Identity) returns (k: nat)
    requires HandleRun(env, n, true, id).result.status == 200
    ensures Minted(env, n, id).Some?
    ensures var m := Minted(env, n, id).value;
            HandleSteps(0, HandleRun(env, n, true, id), true)
            == [P.Gate(0), P.RequestMint(0, Some(m))] + P.Reads(0, m.token, k) + [P.Conclude(0, 200)]
  {
    hide AfterMint, Asked;
    var m := Minted(env, n, id).value;
    var a := AfterMint(env, n + 1, id, m);
    AfterMintShape(env, n + 1, id, m);
    StepsOfReads(0, m.token, a.log, 200);
    k := |a.log|;
    var log := HandleRun(env, n, true, id).log;
    assert log[1..] == a.log;
    assert Steps(0, log, 200) == [P.RequestMint(0, Some(m))] + P.Reads(0, m.token, k);
  }

  /** One such run, of a Handle against a concrete store. */
  lemma AbandonedReachable() returns (states: seq<P.State>, before: seq<P.Action>, acts: seq<P.Action>)
    ensures P.IsRun(states, acts)
    ensures var steps := HandleSteps(0, HandleRun(CLASH_ENV, 0, true, CLASH_ID), true);
            acts == before + steps[..|steps| - 1] + [P.Timeout(0)] + [P.Conclude(0, 200)]
    ensures states[|acts|].requests == map[0 := P.Call(P.Finished(Some("p"), 200), P.TimedOut)]
    ensures states[|acts|].revokes["p"] == 0
  {
    hide HandleRun, HandleSteps;
    ClashReachable(0);
    states, before, acts := AnyDeliveryCanBeAbandoned(CLASH_ENV, 0, CLASH_ID);
  }

  /** What a canary with this mint and verdict does to the system. */
  ghost function AfterCanary(s: P.State, minted: Option<Mint>, ok: bool): P.State {
    s.(session := s.session.(canaryOK := ok), pc := P.Selecting, armed := !ok, lastFailed := !ok,
       owners := P.Own(s, minted, P.Canary),
       revokes := s.revokes + (if minted.Some? then multiset{minted.value.token} else multiset{}),
       passEpoch := if ok then s.epoch else s.passEpoch)
  }

  /** The client's canary, its calls and its flag writes, is a sequence of the protocol's steps, and ends
      at the loop head: its token revoked once, the flag up exactly if it passed, the timer armed
      exactly if not. */
  lemma CanaryFollowsProtocol(s: P.State, server: Server, n: nat, auth: string, prefix: string)
    requires s.pc.CanaryMinting? && !s.armed && P.Fresh(s, MintReply(server, n, Client.SelftestRequest(prefix)))
    ensures P.StepAll(s, CanaryTrace(server, n, auth, prefix).acts)
            == Some(AfterCanary(s, MintReply(server, n, Client.SelftestRequest(prefix)), CanaryPasses(server, n, prefix)))
  {
    var minted, ok := MintReply(server, n, Client.SelftestRequest(prefix)), CanaryPasses(server, n, prefix);
    var verdict := if ok then [P.CanaryPublish] + ([P.CanaryConfirm] + []) else [P.CanaryReject] + [];
    var acts := CanaryTrace(server, n, auth, prefix).acts;
    var s1 := P.Step(s, P.CanaryMint(minted)).value;
    if minted.None? {
      assert acts == [P.CanaryMint(None)] + verdict && s.revokes + multiset{} == s.revokes;
      hide P.StepAll, MintReply;
      P.StepFirst(s, P.CanaryMint(minted), verdict);
      CanaryConcludes(s1);
    } else {
      var revoke := P.CanaryRevoke(minted.value.token, server.revoke(n + 1, minted.value.token));
      var s2 := P.Step(s1, revoke).value;
      assert acts == [P.CanaryMint(minted)] + ([revoke] + verdict);
      assert s2.pc == if ok then P.CanaryPassed else P.CanaryFailing;
      hide P.StepAll, MintReply;
      P.StepFirst(s, P.CanaryMint(minted), [revoke] + verdict);
      P.StepFirst(s1, revoke, verdict);
      CanaryConcludes(s2);
    }
  }

  lemma CanaryConcludes(s: P.State)
    requires s.pc.CanaryPassed? || s.pc.CanaryFailing?
    ensures var ok := s.pc.CanaryPassed?;
            var verdict := if ok then [P.CanaryPublish] + ([P.CanaryConfirm] + []) else [P.CanaryReject] + [];
            P.StepAll(s, verdict) == Some(s.(session := s.session.(canaryOK := ok), pc := P.Selecting,
                                             armed := !ok, lastFailed := !ok))
  {
    hide P.StepAll, P.RequestStep;
    if s.pc.CanaryPassed? {
      P.StepFirst(s, P.CanaryPublish, [P.CanaryConfirm] + []);
      var s1 := P.Step(s, P.CanaryPublish).value;
      P.StepFirst(s1, P.CanaryConfirm, []);
      Done(P.Step(s1, P.CanaryConfirm).value);
    } else {
      P.StepFirst(s, P.CanaryReject, []);
      Done(P.Step(s, P.CanaryReject).value);
    }
  }

  lemma Done(s: P.State)
    ensures P.StepAll(s, []) == Some(s)
  {}
}
