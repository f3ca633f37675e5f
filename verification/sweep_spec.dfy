/**
 What a sweep does, as a machine that works through a list of tasks: list a tier, read an entry,
 follow a reference. Each task is one request; its reply yields candidate secrets and further
 tasks, which go to the front of the list, or aborts the run. The loops of
 internal/vaultx/sweep.go are proved to run this machine (module Vaultx), and the properties of a
 sweep are proved about it (module SweepLaws).
 */
module SweepSpec {
  import opened Results
  import opened Text
  import opened Json
  import opened Vault
  import opened Identity

  // ---------- names and pins ----------

  datatype SweptSecret = SweptSecret(name: string, value: string, images: seq<string>, events: seq<string>)

  predicate NameChar(c: char) { 'a' <= c <= 'z' || '0' <= c <= '9' || c == '_' }

  /** ^[a-z0-9_]+$ */
  predicate ValidName(s: string) { s != "" && forall i | 0 <= i < |s| :: NameChar(s[i]) }

  function NormalizeName(s: string): string {
    var low := Lower(s);
    seq(|low|, i requires 0 <= i < |low| => if low[i] == '-' then '_' else low[i])
  }

  function Trimmed(parts: seq<string>): seq<string> {
    seq(|parts|, i requires 0 <= i < |parts| => TrimSpace(parts[i]))
  }

  /** splitTrimCommaList */
  function CommaList(v: string): seq<string> { Trimmed(Split(v, ',')) }

  /** Go's nil slice and its empty slice are both []. */
  datatype Pins = Pins(images: seq<string>, events: seq<string>)

  function EntryPins(custom: map<string, string>): Pins {
    Pins(if "ironbark_images" in custom then CommaList(custom["ironbark_images"]) else [],
         if "ironbark_events" in custom then CommaList(custom["ironbark_events"]) else [])
  }

  // ---------- tasks ----------

  /** `rank` counts the tiers, most specific first; `via` is the requests that led to the task. */
  datatype Task =
    | ListTier(rank: nat, tier: string)
    | ReadEntry(rank: nat, tier: string, key: string, via: seq<Request>)
    | FollowRef(rank: nat, key: string, ref: string, pins: Pins, via: seq<Request>)

  /** A secret some entry offers, valid name or not, and where it comes from. */
  datatype Candidate = Candidate(rank: nat, key: string, field: string, via: seq<Request>, secret: SweptSecret)

  /** The KV mount and the minted token. */
  datatype Site = Site(mount: string, token: string)

  function RequestOf(site: Site, t: Task): Request {
    match t
    case ListTier(_, tier) => Request(site.token, site.mount + "/metadata/" + tier, true)
    case ReadEntry(_, tier, key, _) => Request(site.token, site.mount + "/data/" + tier + "/" + key, false)
    case FollowRef(_, _, ref, _, _) => Request(site.token, ref, false)
  }

  function PurposeOf(t: Task): Purpose {
    match t
    case ListTier(_, _) => Listing
    case ReadEntry(_, _, _, _) => EntryRead
    case FollowRef(_, _, _, _, _) => Deref
  }

  function ViaOf(t: Task): seq<Request> { if t.ListTier? then [] else t.via }

  // ---------- replies ----------

  /** Not a directory (trailing slash) and not dot-prefixed. */
  predicate PlainKey(k: string) {
    (k == "" || k[|k| - 1] != '/') && (k == "" || k[0] != '.')
  }

  function PlainKeys(keys: seq<string>): seq<string> {
    if keys == [] then [] else
      var rest := PlainKeys(keys[..|keys| - 1]);
      if PlainKey(keys[|keys| - 1]) then rest + [keys[|keys| - 1]] else rest
  }

  predicate IsPointerForm(d: Fields) { |d| == 1 && "$ref" in d }

  predicate IsShorthandForm(d: Fields) { |d| == 1 && "value" in d }

  /** The inner map of a KV v2-shaped dereference: `data` and `metadata` both present, and each an
      object (or null, which decodes as one). */
  function Kv2Inner(d: Fields): Option<Fields> {
    if "data" !in d || "metadata" !in d || AsFields(d["metadata"]).None? then None
    else AsFields(d["data"])
  }

  ghost function Single(t: Task, via: seq<Request>, field: string, value: string, pins: Pins): Candidate
    requires !t.ListTier?
  {
    Candidate(t.rank, t.key, field, via, SweptSecret(NormalizeName(t.key), value, pins.images, pins.events))
  }

  /** One candidate per string field, in the order of the names given. */
  ghost function PerField(t: Task, via: seq<Request>, d: Fields, names: seq<string>, pins: Pins): seq<Candidate>
    requires !t.ListTier?
  {
    if names == [] then [] else
      var rest := PerField(t, via, d, names[..|names| - 1], pins);
      var f := names[|names| - 1];
      match StringField(d, f)
      case None => rest
      case Some(v) =>
        rest + [Candidate(t.rank, t.key, f, via,
                          SweptSecret(NormalizeName(t.key) + "_" + NormalizeName(f), v, pins.images, pins.events))]
  }

  ghost function EntryTasks(rank: nat, tier: string, keys: seq<string>, via: seq<Request>): seq<Task> {
    seq(|keys|, i requires 0 <= i < |keys| => ReadEntry(rank, tier, keys[i], via))
  }

  datatype Answer = Abort | Yield(next: seq<Task>, found: seq<Candidate>)

  ghost function ExpandEntry(t: Task, via: seq<Request>, e: KvEntry): Answer
    requires t.ReadEntry?
  {
    var pins := EntryPins(e.custom);
    if IsPointerForm(e.fields) then
      match StringField(e.fields, "$ref")
      case None => Yield([], [])
      case Some(ref) => Yield([FollowRef(t.rank, t.key, ref, pins, via)], [])
    else if IsShorthandForm(e.fields) then
      match StringField(e.fields, "value")
      case None => Yield([], [])
      case Some(v) => Yield([], [Single(t, via, "value", v, pins)])
    else Yield([], PerField(t, via, e.fields, SortedKeys(e.fields.Keys), pins))
  }

  /** A string `value` inside a KV v2-shaped target is the only secret; otherwise every field is one. */
  ghost function DerefFound(t: Task, via: seq<Request>, d: Fields): seq<Candidate>
    requires t.FollowRef?
  {
    match Kv2Inner(d)
    case None => PerField(t, via, d, SortedKeys(d.Keys), t.pins)
    case Some(inner) =>
      match StringField(inner, "value")
      case Some(v) => [Single(t, via, "value", v, t.pins)]
      case None => PerField(t, via, inner, SortedKeys(inner.Keys), t.pins)
  }

  ghost function Expand(site: Site, t: Task, reply: Reply): Answer {
    var via := ViaOf(t) + [RequestOf(site, t)];
    match reply
    case Denied => Yield([], [])
    case Broken => Abort
    case Garbled => Abort
    case Body(body) =>
      match t
      case ListTier(rank, tier) =>
        (match DecodeKeys(body)
         case None => Abort
         case Some(keys) => Yield(EntryTasks(rank, tier, Sort(PlainKeys(keys)), via), []))
      case ReadEntry(_, _, _, _) =>
        (match DecodeEntry(body)
         case None => Abort
         case Some(e) => ExpandEntry(t, via, e))
      case FollowRef(_, _, _, _, _) =>
        (match DecodeDeref(body)
         case None => Abort
         case Some(d) => Yield([], DerefFound(t, via, d.fields)))
  }

  // ---------- the machine ----------

  ghost function Level(t: Task): nat { if t.ListTier? then 2 else if t.ReadEntry? then 1 else 0 }

  ghost function CountLevel(tasks: seq<Task>, l: nat): nat {
    if tasks == [] then 0 else (if Level(tasks[0]) == l then 1 else 0) + CountLevel(tasks[1..], l)
  }

  lemma {:induction false} CountAppend(a: seq<Task>, b: seq<Task>, l: nat)
    ensures CountLevel(a + b, l) == CountLevel(a, l) + CountLevel(b, l)
  {
    if a == [] {
      assert a + b == b;
    } else {
      CountAppend(a[1..], b, l);
      assert (a + b)[1..] == a[1..] + b;
    }
  }

  lemma {:induction false} CountUniform(a: seq<Task>, k: nat, l: nat)
    requires forall t | t in a :: Level(t) == k
    ensures CountLevel(a, l) == if k == l then |a| else 0
  {
    if a != [] { CountUniform(a[1..], k, l); }
  }

  /** A task only ever spawns tasks one level down: lists spawn reads, reads spawn derefs. */
  lemma NextLevel(site: Site, t: Task, reply: Reply)
    ensures Expand(site, t, reply).Yield? ==> forall u | u in Expand(site, t, reply).next :: Level(u) + 1 == Level(t)
  {}

  lemma NextCounts(site: Site, t: Task, reply: Reply, rest: seq<Task>, l: nat)
    requires Expand(site, t, reply).Yield?
    ensures var next := Expand(site, t, reply).next;
            CountLevel(next + rest, l) == CountLevel(rest, l) + if l + 1 == Level(t) then |next| else 0
  {
    var next := Expand(site, t, reply).next;
    NextLevel(site, t, reply);
    CountAppend(next, rest, l);
    if Level(t) > 0 { CountUniform(next, Level(t) - 1, l); } else { assert next == []; }
  }

  ghost function EventOf(site: Site, o: Reads, n: nat, t: Task): Event {
    Read(PurposeOf(t), RequestOf(site, t), o(n, RequestOf(site, t)))
  }

  ghost function AnswerOf(site: Site, o: Reads, n: nat, t: Task): Answer {
    Expand(site, t, o(n, RequestOf(site, t)))
  }

  ghost predicate Smaller(a: seq<Task>, b: seq<Task>) {
    || CountLevel(a, 2) < CountLevel(b, 2)
    || (CountLevel(a, 2) == CountLevel(b, 2) && CountLevel(a, 1) < CountLevel(b, 1))
    || (CountLevel(a, 2) == CountLevel(b, 2) && CountLevel(a, 1) == CountLevel(b, 1)
        && CountLevel(a, 0) < CountLevel(b, 0))
  }

  lemma StepShrinks(site: Site, o: Reads, n: nat, t: Task, rest: seq<Task>)
    requires AnswerOf(site, o, n, t).Yield?
    ensures Smaller(AnswerOf(site, o, n, t).next + rest, [t] + rest)
  {
    var reply := o(n, RequestOf(site, t));
    NextCounts(site, t, reply, rest, 0);
    NextCounts(site, t, reply, rest, 1);
    NextCounts(site, t, reply, rest, 2);
    assert ([t] + rest)[1..] == rest;
  }

  datatype Run = Run(log: seq<Event>, found: seq<Candidate>, ok: bool)

  /** The run from position n of the record on. */
  ghost function Exec(site: Site, o: Reads, n: nat, tasks: seq<Task>): Run
    decreases CountLevel(tasks, 2), CountLevel(tasks, 1), CountLevel(tasks, 0)
  {
    if tasks == [] then Run([], [], true) else
      var t := tasks[0];
      var event := EventOf(site, o, n, t);
      match AnswerOf(site, o, n, t)
      case Abort => Run([event], [], false)
      case Yield(next, found) =>
        StepShrinks(site, o, n, t, tasks[1..]);
        assert tasks == [t] + tasks[1..];
        var rest := Exec(site, o, n + 1, next + tasks[1..]);
        Run([event] + rest.log, found + rest.found, rest.ok)
  }

  // ---------- tiers ----------

  function Base(kvPrefix: string, id: Identity): string {
    kvPrefix + "/" + id.org + "/" + id.repo
  }

  function Tiers(base: string, id: Identity, branchful: bool): seq<string> {
    (if branchful && id.branch != [] then [base + "/" + id.event + "/" + Escaped(id.branch)] else [])
    + [base + "/" + id.event, base]
  }

  ghost function TierTasks(tiers: seq<string>): seq<Task> {
    seq(|tiers|, i requires 0 <= i < |tiers| => ListTier(i, tiers[i]))
  }

  // ---------- collision handling ----------

  ghost predicate Named(secrets: seq<SweptSecret>, name: string) {
    exists s :: s in secrets && s.name == name
  }

  /** The accumulator's rule: valid names only, first writer wins. */
  ghost function Keep(kept: seq<SweptSecret>, found: seq<Candidate>): seq<SweptSecret>
    decreases |found|
  {
    if found == [] then kept else
      var s := found[0].secret;
      Keep(if ValidName(s.name) && !Named(kept, s.name) then kept + [s] else kept, found[1..])
  }

  /** A lease is created by a dereference that carries a non-empty lease id. */
  ghost predicate CarriesLease(e: Event) {
    e.Read? && e.purpose == Deref && e.reply.Body? && DecodeDeref(e.reply.body).Some?
    && DecodeDeref(e.reply.body).value.lease != ""
  }

  ghost predicate LeaseIn(log: seq<Event>) { exists e :: e in log && CarriesLease(e) }

  /** How many reads of a kind were answered with 200, which is what the two counters count. */
  ghost function Answered(log: seq<Event>, purpose: Purpose): nat {
    if log == [] then 0 else
      (if log[0].Read? && log[0].purpose == purpose && (log[0].reply.Body? || log[0].reply.Garbled?) then 1 else 0)
      + Answered(log[1..], purpose)
  }

  datatype SweepResult = SweepResult(secrets: seq<SweptSecret>, leasesCreated: bool)

  ghost function SweepRun(site: Site, kvPrefix: string, o: Reads, n: nat, id: Identity, branchful: bool): Run {
    Exec(site, o, n, TierTasks(Tiers(Base(kvPrefix, id), id, branchful)))
  }

  /** What Sweep returns: nothing on failure. */
  ghost function Outcome(run: Run): Option<SweepResult> {
    if run.ok then Some(SweepResult(Keep([], run.found), LeaseIn(run.log))) else None
  }

  // ---------- sequencing ----------

  ghost function Then(a: Run, b: Run): Run {
    if a.ok then Run(a.log + b.log, a.found + b.found, b.ok) else a
  }

  ghost function StepRun(site: Site, o: Reads, n: nat, t: Task, rest: seq<Task>): Run {
    var a, e := AnswerOf(site, o, n, t), EventOf(site, o, n, t);
    if a.Abort? then Run([e], [], false)
    else Then(Run([e], a.found, true), Exec(site, o, n + 1, a.next + rest))
  }

  /** One step of the machine, with its task in front. */
  lemma ExecStep(site: Site, o: Reads, n: nat, t: Task, rest: seq<Task>)
    ensures Exec(site, o, n, [t] + rest) == StepRun(site, o, n, t, rest)
  {
    assert ([t] + rest)[1..] == rest;
  }

  lemma ExecNothing(site: Site, o: Reads, n: nat)
    ensures Exec(site, o, n, []) == Run([], [], true)
  {}

  /** A task that spawns nothing. */
  lemma ExecLeaf(site: Site, o: Reads, n: nat, t: Task)
    ensures AnswerOf(site, o, n, t).Abort? ==> Exec(site, o, n, [t]) == Run([EventOf(site, o, n, t)], [], false)
    ensures AnswerOf(site, o, n, t).Yield? && AnswerOf(site, o, n, t).next == [] ==>
              Exec(site, o, n, [t]) == Run([EventOf(site, o, n, t)], AnswerOf(site, o, n, t).found, true)
  {
    ExecStep(site, o, n, t, []);
    assert [t] + [] == [t];
  }

  /** Running two task lists in a row is running one after the other, unless the first aborts. */
  lemma {:induction false} ExecAppend(site: Site, o: Reads, n: nat, a: seq<Task>, b: seq<Task>)
    ensures var first := Exec(site, o, n, a);
            Exec(site, o, n, a + b) == Then(first, Exec(site, o, n + |first.log|, b))
    decreases CountLevel(a, 2), CountLevel(a, 1), CountLevel(a, 0)
  {
    hide AnswerOf, EventOf, Exec, CountLevel;
    if a == [] {
      ExecNothing(site, o, n);
      assert a + b == b;
    } else {
      var t, rest := a[0], a[1..];
      assert a == [t] + rest && a + b == [t] + (rest + b);
      ExecStep(site, o, n, t, rest);
      ExecStep(site, o, n, t, rest + b);
      if AnswerOf(site, o, n, t).Yield? {
        var next := AnswerOf(site, o, n, t).next;
        StepShrinks(site, o, n, t, rest);
        ExecAppend(site, o, n + 1, next + rest, b);
        assert (next + rest) + b == next + (rest + b);
      }
    }
  }

  lemma {:induction false} KeepAppend(kept: seq<SweptSecret>, a: seq<Candidate>, b: seq<Candidate>)
    ensures Keep(kept, a + b) == Keep(Keep(kept, a), b)
    decreases |a|
  {
    if a == [] {
      assert a + b == b;
    } else {
      assert (a + b)[1..] == a[1..] + b;
      var s := a[0].secret;
      KeepAppend(if ValidName(s.name) && !Named(kept, s.name) then kept + [s] else kept, a[1..], b);
    }
  }

  lemma {:induction false} AnsweredAppend(a: seq<Event>, b: seq<Event>, purpose: Purpose)
    ensures Answered(a + b, purpose) == Answered(a, purpose) + Answered(b, purpose)
  {
    if a == [] {
      assert a + b == b;
    } else {
      assert (a + b)[1..] == a[1..] + b;
      AnsweredAppend(a[1..], b, purpose);
    }
  }
}
