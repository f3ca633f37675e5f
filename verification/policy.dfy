/** Policy names: internal/policy/policy.go. */
module Policy {
  import opened Identity
  import opened Text

  const BRANCHFUL_EVENTS: set<string> :=
    {"push", "pull_request", "pull_request_closed", "release", "cron"}

  predicate Branchful(event: string) { event in BRANCHFUL_EVENTS }

  function EventPolicy(id: Identity, prefix: string): string {
    prefix + "/" + id.org + "/" + id.repo + "/" + id.event
  }

  function BranchPolicy(id: Identity, prefix: string): string {
    EventPolicy(id, prefix) + "/" + Escaped(id.branch)
  }

  predicate HasBranchTier(id: Identity) { Branchful(id.event) && id.branch != [] }

  function Derive(id: Identity, prefix: string): seq<string> {
    var p1 := EventPolicy(id, prefix);
    if !Branchful(id.event) || id.branch == [] then [p1]
    else [p1, p1 + "/" + Escaped(id.branch)]
  }

  lemma BranchfulIsSlashFree(event: string)
    requires Branchful(event)
    ensures Free(event, '/') && event != "" && Lower(event) == event
  {}

  /** Which policies are asked for: the event's, and for a push, pull request, closed pull request,
      release or cron build with a branch also the branch's. */
  lemma DeriveExact(id: Identity, prefix: string)
    ensures var event := prefix + "/" + id.org + "/" + id.repo + "/" + id.event;
            var withBranch := id.event == "push" || id.event == "pull_request" || id.event == "pull_request_closed"
                              || id.event == "release" || id.event == "cron";
            Derive(id, prefix) == [event] + if withBranch && |id.branch| > 0 then [event + "/" + Escaped(id.branch)] else []
  {
    hide Escaped;
  }

  /** org and repo are read back from any two equal names under one prefix, whatever follows. */
  lemma PrefixUnique(prefix: string, a: Identity, x: string, b: Identity, y: string)
    requires WellNamed(a) && WellNamed(b)
    requires prefix + "/" + a.org + "/" + a.repo + "/" + x == prefix + "/" + b.org + "/" + b.repo + "/" + y
    ensures a.org == b.org && a.repo == b.repo && x == y
  {
    var ra, rb := a.repo + ['/'] + x, b.repo + ['/'] + y;
    var s := prefix + "/" + a.org + "/" + a.repo + "/" + x;
    assert s == prefix + "/" + (a.org + ['/'] + ra);
    assert s == prefix + "/" + (b.org + ['/'] + rb);
    assert s[|prefix| + 1..] == a.org + ['/'] + ra;
    assert s[|prefix| + 1..] == b.org + ['/'] + rb;
    HeadUnique(a.org, ra, b.org, rb, '/');
    HeadUnique(a.repo, x, b.repo, y, '/');
  }

  /** Event policies: injective for every event, slashes or not. */
  lemma EventPolicyInjective(prefix: string, a: Identity, b: Identity)
    requires WellNamed(a) && WellNamed(b)
    ensures EventPolicy(a, prefix) == EventPolicy(b, prefix) <==>
            a.org == b.org && a.repo == b.repo && a.event == b.event
  {
    if EventPolicy(a, prefix) == EventPolicy(b, prefix) {
      PrefixUnique(prefix, a, a.event, b, b.event);
    }
  }

  lemma BranchPolicyParts(prefix: string, a: Identity)
    ensures BranchPolicy(a, prefix)
            == prefix + "/" + a.org + "/" + a.repo + "/" + (a.event + "/" + Escaped(a.branch))
  {
    var p := prefix + "/" + a.org + "/" + a.repo + "/";
    assert (p + a.event) + ("/" + Escaped(a.branch)) == p + (a.event + ("/" + Escaped(a.branch)));
    assert BranchPolicy(a, prefix) == (p + a.event) + ("/" + Escaped(a.branch));
    assert a.event + "/" + Escaped(a.branch) == a.event + ("/" + Escaped(a.branch));
  }

  /** Branch policies: shared exactly by identities that also have the same raw branch bytes. */
  lemma BranchPolicyInjective(prefix: string, a: Identity, b: Identity)
    requires WellNamed(a) && WellNamed(b) && HasBranchTier(a) && HasBranchTier(b)
    ensures BranchPolicy(a, prefix) == BranchPolicy(b, prefix) <==>
            a.org == b.org && a.repo == b.repo && a.event == b.event && a.branch == b.branch
  {
    if BranchPolicy(a, prefix) == BranchPolicy(b, prefix) {
      BranchPolicyParts(prefix, a);
      BranchPolicyParts(prefix, b);
      PrefixUnique(prefix, a, a.event + "/" + Escaped(a.branch), b, b.event + "/" + Escaped(b.branch));
      BranchfulIsSlashFree(a.event);
      BranchfulIsSlashFree(b.event);
      HeadUnique(a.event, Escaped(a.branch), b.event, Escaped(b.branch), '/');
      EscInjective(a.branch, b.branch);
    }
  }

  /** An event policy meets a branch policy in exactly one way: its event spells the other's event,
      a slash and the other's encoded branch. */
  lemma TierCollision(prefix: string, a: Identity, b: Identity)
    requires WellNamed(a) && WellNamed(b) && HasBranchTier(b)
    ensures EventPolicy(a, prefix) == BranchPolicy(b, prefix) <==>
            a.org == b.org && a.repo == b.repo && a.event == b.event + "/" + Escaped(b.branch)
  {
    BranchPolicyParts(prefix, b);
    if EventPolicy(a, prefix) == BranchPolicy(b, prefix) {
      PrefixUnique(prefix, a, a.event, b, b.event + "/" + Escaped(b.branch));
    }
  }

  ghost predicate SharePolicy(prefix: string, a: Identity, b: Identity) {
    exists p :: p in Derive(a, prefix) && p in Derive(b, prefix)
  }

  /** The condition a caller can check on the events alone. */
  ghost predicate SpellsBranchTier(a: Identity, b: Identity) {
    HasBranchTier(b) && a.event == b.event + "/" + Escaped(b.branch)
  }

  /** Two parsed identities share a derived policy exactly when they agree on org, repo and event,
      or one's event spells out the other's branch tier. */
  lemma SharedPolicies(prefix: string, a: Identity, b: Identity)
    requires WellNamed(a) && WellNamed(b)
    ensures SharePolicy(prefix, a, b) <==>
            a.org == b.org && a.repo == b.repo
            && (a.event == b.event || SpellsBranchTier(a, b) || SpellsBranchTier(b, a))
  {
    EventPolicyInjective(prefix, a, b);
    if HasBranchTier(a) && HasBranchTier(b) { BranchPolicyInjective(prefix, a, b); }
    if HasBranchTier(b) { TierCollision(prefix, a, b); }
    if HasBranchTier(a) { TierCollision(prefix, b, a); }
    assert EventPolicy(a, prefix) in Derive(a, prefix) && EventPolicy(b, prefix) in Derive(b, prefix);
    if HasBranchTier(a) { assert BranchPolicy(a, prefix) == Derive(a, prefix)[1]; }
    if HasBranchTier(b) { assert BranchPolicy(b, prefix) == Derive(b, prefix)[1]; }
    assert forall p | p in Derive(a, prefix) ::
        p == EventPolicy(a, prefix) || (HasBranchTier(a) && p == BranchPolicy(a, prefix));
    assert forall p | p in Derive(b, prefix) ::
        p == EventPolicy(b, prefix) || (HasBranchTier(b) && p == BranchPolicy(b, prefix));
  }

  /** With slash-free events, the tiers of different identities never meet. */
  lemma SlashFreeEventsNeverCollide(prefix: string, a: Identity, b: Identity)
    requires WellNamed(a) && WellNamed(b) && Free(a.event, '/') && Free(b.event, '/')
    ensures SharePolicy(prefix, a, b) <==> a.org == b.org && a.repo == b.repo && a.event == b.event
    ensures HasBranchTier(b) ==> EventPolicy(a, prefix) != BranchPolicy(b, prefix)
  {
    SharedPolicies(prefix, a, b);
    if HasBranchTier(b) {
      TierCollision(prefix, a, b);
      assert (b.event + "/" + Escaped(b.branch))[|b.event|] == '/';
    }
    if HasBranchTier(a) { assert (a.event + "/" + Escaped(a.branch))[|a.event|] == '/'; }
  }

  /** Without that condition they can: a build with the event `push/main` reaches the policy of
      pushes to main. */
  lemma SlashInEventCollides(prefix: string, a: Identity, b: Identity)
    requires WellNamed(a) && WellNamed(b) && a.org == b.org && a.repo == b.repo
    requires a.event == "push/main" && b.event == "push" && b.branch == [109, 97, 105, 110]
    ensures EventPolicy(a, prefix) == BranchPolicy(b, prefix) && a.event != b.event
    ensures SharePolicy(prefix, a, b)
  {
    var s := b.branch;
    assert EscapedFrom(s, 4) == "";
    assert EscapedFrom(s, 3) == "n";
    assert EscapedFrom(s, 2) == "in";
    assert EscapedFrom(s, 1) == "ain";
    assert Escaped(s) == "main";
    TierCollision(prefix, a, b);
    SharedPolicies(prefix, a, b);
  }
}
