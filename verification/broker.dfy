/** One request, from policies to response: internal/broker/broker.go. */
module Broker {
  import opened Results
  import opened Text
  import opened Vault
  import opened Identity
  import opened Policy
  import opened Warnings
  import opened SweepSpec
  import opened Vaultx

  datatype Secret = Secret(name: string, value: string, events: seq<string>, images: seq<string>)

  datatype Outcome = OutcomeOK | OutcomeUnonboarded | OutcomeIdentityMismatch | OutcomeError

  datatype Audit = Audit(policiesRequested: seq<string>, policyWarnings: seq<string>,
                         secretNames: seq<string>, tokenAccessor: string, tokenTTL: int)

  datatype HandleResult = HandleResult(status: int, secrets: seq<Secret>, outcome: Outcome, revokeFailed: bool, audit: Audit)

  /** Everything a Handle depends on besides the identity: the server, the configuration, and
      ironbark's own session token. */
  datatype Env = Env(server: Server, site: Config, policyPrefix: string, advertise: string, auth: string)

  // ---------- pieces of the response ----------

  /** The broker's own splitTrimCommaList: nothing for an empty value. */
  function ImageList(v: string): seq<string> { if v == "" then [] else CommaList(v) }

  function Deliver(s: SweptSecret, event: string): Secret {
    Secret(s.name, s.value, if |s.events| == 0 then [event] else s.events, s.images)
  }

  function Delivered(swept: seq<SweptSecret>, event: string): seq<Secret> {
    seq(|swept|, i requires 0 <= i < |swept| => Deliver(swept[i], event))
  }

  function Names(secrets: seq<Secret>): seq<string> {
    seq(|secrets|, i requires 0 <= i < |secrets| => secrets[i].name)
  }

  /** A stored directive; a missing config and a missing key read as the empty string. */
  function Setting(config: Option<map<string, string>>, key: string): string {
    if config.Some? && key in config.value then config.value[key] else ""
  }

  predicate Suppressed(config: Option<map<string, string>>) { Setting(config, "vault_token") == "false" }

  function ResponseBody(env: Env, id: Identity, m: Mint, config: Option<map<string, string>>, swept: seq<SweptSecret>): seq<Secret> {
    Delivered(swept, id.event)
    + (if Suppressed(config) then []
       else [Secret("vault_token", m.token, [id.event], ImageList(Setting(config, "vault_token_images")))])
    + (if env.advertise == "" then [] else [Secret("vault_addr", env.advertise, [id.event], [])])
  }

  function FormatNat(n: nat): string {
    if n < 10 then [HEX[n]] else FormatNat(n / 10) + [HEX[n % 10]]
  }

  function FormatInt(n: int): string { if n < 0 then "-" + FormatNat(-n) else FormatNat(n) }

  /** The mint's metadata; the branch bytes are shown here as characters of the same value. */
  function Meta(id: Identity): map<string, string> {
    map["org" := id.org, "repo" := id.repo, "event" := id.event,
        "branch" := seq(|id.branch|, i requires 0 <= i < |id.branch| => id.branch[i] as char),
        "pipeline_number" := FormatInt(id.pipelineNumber), "commit" := id.commit]
  }

  function Asked(env: Env, id: Identity): MintRequest {
    MintRequest(Derive(id, env.policyPrefix), Meta(id), "ironbark-" + id.org + "-" + id.repo)
  }

  // ---------- the run of a Handle ----------

  datatype Handled = Handled(result: HandleResult, log: seq<Event>)

  function Finish(audit: Audit, status: int, outcome: Outcome, secrets: seq<Secret>): HandleResult {
    HandleResult(status, secrets, outcome, false, audit.(secretNames := Names(secrets)))
  }

  function IdentityRequest(env: Env, id: Identity, m: Mint): Request {
    DirectiveRequest(env.site.kvMount, m.token, SweepSpec.Base(env.site.kvPrefix, id), ".identity")
  }

  function ConfigRequest(env: Env, id: Identity, m: Mint): Request {
    DirectiveRequest(env.site.kvMount, m.token, SweepSpec.Base(env.site.kvPrefix, id), ".config")
  }

  ghost function SweepOf(env: Env, n: nat, id: Identity, m: Mint): Run {
    SweepRun(Site(env.site.kvMount, m.token), env.site.kvPrefix, env.server.read, n, id, Branchful(id.event))
  }

  ghost predicate EveryPolicyWarned(env: Env, id: Identity, m: Mint) {
    forall p | p in Derive(id, env.policyPrefix) :: p in Warned(m.warnings)
  }

  predicate IdentityAccepted(reading: Results.Result<Option<string>, DirectiveError>, id: Identity) {
    reading.Ok? && (reading.value.None? || reading.value.value == id.forgeRemoteID)
  }

  /** Steps 8 to 10, once the config is read: sweep, respond. n is the position of the first LIST. */
  ghost function Respond(env: Env, n: nat, id: Identity, m: Mint, audit: Audit, config: Option<map<string, string>>): Handled {
    var run := SweepOf(env, n, id, m);
    if !run.ok then Handled(Finish(audit, 502, OutcomeError, []), run.log) else
      var swept := Keep([], run.found);
      if swept == [] && Suppressed(config) then Handled(Finish(audit, 204, OutcomeUnonboarded, []), run.log)
      else Handled(Finish(audit, 200, OutcomeOK, ResponseBody(env, id, m, config, swept)), run.log)
  }

  /** Everything between the mint and the deferred revoke. */
  ghost function AfterMint(env: Env, n: nat, id: Identity, m: Mint): Handled {
    var audit0 := Audit(Derive(id, env.policyPrefix), [], [], m.accessor, m.ttl);
    if m.tokenType != "service" then Handled(Finish(audit0, 502, OutcomeError, []), []) else
      var audit := audit0.(policyWarnings := Warned(m.warnings));
      if EveryPolicyWarned(env, id, m) then Handled(Finish(audit, 204, OutcomeUnonboarded, []), []) else
        var reply := env.server.read(n, IdentityRequest(env, id, m));
        var log1 := [Read(Directive, IdentityRequest(env, id, m), reply)];
        var reading := IdentityReading(reply);
        if reading == Err(ReadFailed) then Handled(Finish(audit, 502, OutcomeError, []), log1)
        else if !IdentityAccepted(reading, id) then Handled(Finish(audit, 204, OutcomeIdentityMismatch, []), log1)
        else
          var reply' := env.server.read(n + 1, ConfigRequest(env, id, m));
          var log2 := log1 + [Read(Directive, ConfigRequest(env, id, m), reply')];
          match ConfigReading(reply')
          case Err(_) => Handled(Finish(audit, 502, OutcomeError, []), log2)
          case Ok(config) =>
            var rest := Respond(env, n + 2, id, m, audit, config);
            Handled(rest.result, log2 + rest.log)
  }

  function Minted(env: Env, n: nat, id: Identity): Option<Mint> { MintReply(env.server, n, Asked(env, id)) }

  /** A whole Handle from position n of the record, with what the gate read. */
  ghost function HandleRun(env: Env, n: nat, gate: bool, id: Identity): Handled {
    var audit := Audit(Derive(id, env.policyPrefix), [], [], "", 0);
    if !gate then Handled(HandleResult(502, [], OutcomeError, false, audit), []) else
      var minted := Minted(env, n, id);
      var mintCall := MintCall(env.auth, Asked(env, id), minted);
      if minted.None? then Handled(HandleResult(502, [], OutcomeError, false, audit), [mintCall]) else
        var h := AfterMint(env, n + 1, id, minted.value);
        if h.result.status == 200 then Handled(h.result, [mintCall] + h.log) else
          var ok := env.server.revoke(n + 1 + |h.log|, minted.value.token);
          Handled(h.result.(revokeFailed := !ok), [mintCall] + h.log + [RevokeCall(minted.value.token, ok)])
  }

  class Broker {
    const vault: Client
    const policyPrefix: string
    const advertiseVaultAddr: string

    constructor (v: Client, policyPrefix: string, advertiseVaultAddr: string)
      ensures vault == v && this.policyPrefix == policyPrefix && this.advertiseVaultAddr == advertiseVaultAddr
    {
      vault, this.policyPrefix, this.advertiseVaultAddr := v, policyPrefix, advertiseVaultAddr;
    }

    ghost function EnvNow(): Env
      reads vault
    {
      Env(vault.server, vault.cfg, policyPrefix, advertiseVaultAddr, vault.apiToken)
    }

    static method SplitTrimCommaList(v: string) returns (out: seq<string>)
      ensures out == ImageList(v)
    {
      if v == "" { return []; }
      var parts := Split(v, ',');
      out := [];
      for i := 0 to |parts|
        invariant out == Trimmed(parts[..i])
      {
        out := out + [TrimSpace(parts[i])];
      }
      assert parts[..|parts|] == parts;
    }

    static method SecretNames(secrets: seq<Secret>) returns (names: seq<string>)
      ensures names == Names(secrets)
    {
      names := [];
      for i := 0 to |secrets|
        invariant names == Names(secrets[..i])
      {
        names := names + [secrets[i].name];
      }
      assert secrets[..|secrets|] == secrets;
    }

    static method FinishWith(audit: Audit, status: int, outcome: Outcome, secrets: seq<Secret>) returns (r: HandleResult)
      ensures r == Finish(audit, status, outcome, secrets) && !r.revokeFailed
    {
      var names := SecretNames(secrets);
      r := HandleResult(status, secrets, outcome, false, audit.(secretNames := names));
    }

    /** The response's swept part: a secret without an event pin gets the request's own event. */
    static method DeliverAll(swept: seq<SweptSecret>, event: string) returns (secrets: seq<Secret>)
      ensures secrets == Delivered(swept, event)
    {
      secrets := [];
      for i := 0 to |swept|
        invariant secrets == Delivered(swept[..i], event)
      {
        var events := swept[i].events;
        if |events| == 0 { events := [event]; }
        secrets := secrets + [Secret(swept[i].name, swept[i].value, events, swept[i].images)];
      }
      assert swept[..|swept|] == swept;
    }

    /** Steps 8 to 10. */
    method SweepAndRespond(id: Identity, mint: Mint, audit: Audit, config: Option<map<string, string>>)
      returns (result: HandleResult)
      modifies vault`wire, vault`sweepReads, vault`derefReads
      ensures var h := Respond(EnvNow(), |old(vault.wire)|, id, mint, audit, config);
              result == h.result && vault.wire == old(vault.wire) + h.log
      ensures !result.revokeFailed
    {
      hide SweepRun, Keep, Delivered, Names, ImageList, Answered, LeaseIn;
      var branchful := Branchful(id.event);
      var sweep := vault.Sweep(mint.token, id, branchful);
      if sweep.None? {
        result := FinishWith(audit, 502, OutcomeError, []);
        return;
      }
      var swept := sweep.value.secrets;
      var secrets := DeliverAll(swept, id.event);
      var suppressed := Setting(config, "vault_token") == "false";
      if !suppressed {
        var images := SplitTrimCommaList(Setting(config, "vault_token_images"));
        secrets := secrets + [Secret("vault_token", mint.token, [id.event], images)];
      }
      if |swept| == 0 && suppressed {
        result := FinishWith(audit, 204, OutcomeUnonboarded, []);
        return;
      }
      if advertiseVaultAddr != "" {
        secrets := secrets + [Secret("vault_addr", advertiseVaultAddr, [id.event], [])];
      }
      assert secrets == ResponseBody(EnvNow(), id, mint, config, swept);
      result := FinishWith(audit, 200, OutcomeOK, secrets);
    }

    /** The part of Handle below the mint: its returns are what the deferred check inspects. */
    method Proceed(id: Identity, mint: Mint, audit0: Audit) returns (result: HandleResult)
      requires audit0 == Audit(Derive(id, policyPrefix), [], [], mint.accessor, mint.ttl)
      modifies vault`wire, vault`sweepReads, vault`derefReads
      ensures var h := AfterMint(EnvNow(), |old(vault.wire)|, id, mint);
              result == h.result && vault.wire == old(vault.wire) + h.log
      ensures !result.revokeFailed
    {
      hide Respond, IdentityReading, ConfigReading, Finish, Warned, Derive;
      ghost var before, env := vault.wire, EnvNow();
      var policies := audit0.policiesRequested;
      if mint.tokenType != "service" {
        result := FinishWith(audit0, 502, OutcomeError, []);
        return;
      }
      var warned := WarnedNonexistentPolicies(mint.warnings);
      var audit := audit0.(policyWarnings := warned);
      var all := AllWarned(policies, warned);
      if all {
        result := FinishWith(audit, 204, OutcomeUnonboarded, []);
        return;
      }
      var base := vault.Base(id);
      assert vault.cfg.kvMount + "/data/" + base + "/.identity" == vault.cfg.kvMount + "/data/" + base + "/" + ".identity";
      assert vault.cfg.kvMount + "/data/" + base + "/.config" == vault.cfg.kvMount + "/data/" + base + "/" + ".config";
      var reading := vault.ReadIdentity(mint.token, base);
      if reading.Err? {
        if reading.error.MalformedDirective? {
          result := FinishWith(audit, 204, OutcomeIdentityMismatch, []);
          return;
        }
        result := FinishWith(audit, 502, OutcomeError, []);
        return;
      }
      if reading.value.Some? && reading.value.value != id.forgeRemoteID {
        result := FinishWith(audit, 204, OutcomeIdentityMismatch, []);
        return;
      }
      var config := vault.ReadConfig(mint.token, base);
      if config.Err? {
        result := FinishWith(audit, 502, OutcomeError, []);
        return;
      }
      ghost var n := |vault.wire|;
      assert n == |before| + 2;
      result := SweepAndRespond(id, mint, audit, config.value);
      ghost var rest := Respond(env, n, id, mint, audit, config.value);
      assert EnvNow() == env && IdentityAccepted(reading, id);
      assert vault.wire[|before|..] == (vault.wire[|before|..n]) + rest.log;
      assert AfterMint(env, |before|, id, mint) == Handled(rest.result, vault.wire[|before|..]);
    }

    method Handle(id: Identity) returns (result: HandleResult)
      modifies vault`wire, vault`sweepReads, vault`derefReads
      ensures var env := Env(vault.server, vault.cfg, policyPrefix, advertiseVaultAddr, vault.apiToken);
              var h := HandleRun(env, |old(vault.wire)|, old(vault.canaryOK), id);
              result == h.result && vault.wire == old(vault.wire) + h.log
    {
      hide AfterMint;
      ghost var before, env := vault.wire, EnvNow();
      var policies := Derive(id, policyPrefix);
      var audit := Audit(policies, [], [], "", 0);
      var gate := vault.CanaryOK();
      if !gate {
        return HandleResult(502, [], OutcomeError, false, audit);
      }
      var meta := Meta(id);
      var displayName := "ironbark-" + id.org + "-" + id.repo;
      var mint := vault.MintToken(MintRequest(policies, meta, displayName));
      if mint.None? {
        return HandleResult(502, [], OutcomeError, false, audit);
      }
      audit := audit.(tokenAccessor := mint.value.accessor, tokenTTL := mint.value.ttl);
      ghost var n := |vault.wire|;
      assert mint == Minted(env, |before|, id) && n == |before| + 1;
      result := Proceed(id, mint.value, audit);
      assert EnvNow() == env;
      // the deferred check on the named result
      if result.status != 200 {
        var ok := vault.RevokeSelf(mint.value.token);
        if !ok { result := result.(revokeFailed := true); }
      }
    }
  }
}
