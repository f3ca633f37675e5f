/** What holds of every sweep: laws about the machine of module SweepSpec. */
module SweepLaws {
  import opened Results
  import opened Text
  import opened Json
  import opened Vault
  import opened Identity
  import opened Policy
  import opened SweepSpec

  // ---------- entry forms ----------

  /** The two one-key forms, and what counts as a string: a JSON string, or null read as "". */
  lemma FormsExact(d: Fields, name: string, v: string)
    ensures IsPointerForm(d) <==> d.Keys == {"$ref"}
    ensures IsShorthandForm(d) <==> d.Keys == {"value"}
    ensures StringField(d, name) == Some(v) <==> name in d && (d[name] == Str(v) || (d[name] == Null && v == ""))
  {
    OneKey(d, "$ref");
    OneKey(d, "value");
  }

  lemma OneKey(d: Fields, k: string)
    ensures |d| == 1 && k in d <==> d.Keys == {k}
  {
    assert |d| == |d.Keys|;
    if |d| == 1 && k in d {
      assert |d.Keys - {k}| == 0;
    }
  }

  /** A dereferenced reply is unwrapped exactly when `data` and `metadata` are both there and both are
      objects (or null); a lone field of either name, or a plain value under it, is not enough. */
  lemma Kv2Exact(d: Fields, inner: Fields)
    ensures Kv2Inner(d) == Some(inner) <==>
            "data" in d && "metadata" in d && ObjectOrNull(d["data"], inner) && exists m :: ObjectOrNull(d["metadata"], m)
  {
    if "metadata" in d && AsFields(d["metadata"]).Some? {
      assert ObjectOrNull(d["metadata"], AsFields(d["metadata"]).value);
    }
  }

  /** The candidate a field of the general form stands for. */
  ghost function FieldCandidate(t: Task, via: seq<Request>, f: string, v: string, pins: Pins): Candidate
    requires !t.ListTier?
  {
    Candidate(t.rank, t.key, f, via,
              SweptSecret(NormalizeName(t.key) + "_" + NormalizeName(f), v, pins.images, pins.events))
  }

  lemma {:induction false} PerFieldMembers(t: Task, via: seq<Request>, d: Fields, names: seq<string>, pins: Pins, c: Candidate)
    requires !t.ListTier?
    ensures c in PerField(t, via, d, names, pins) <==>
            c.field in names && StringField(d, c.field).Some?
            && c == FieldCandidate(t, via, c.field, StringField(d, c.field).value, pins)
  {
    if names != [] {
      PerFieldMembers(t, via, d, names[..|names| - 1], pins, c);
      assert c.field in names <==> c.field in names[..|names| - 1] || c.field == names[|names| - 1];
    }
  }

  ghost predicate Increasing(s: seq<string>) { forall i, j | 0 <= i < j < |s| :: Less(s[i], s[j]) }

  ghost predicate Once(s: seq<string>) { forall i, j | 0 <= i < j < |s| :: s[i] != s[j] }

  lemma TwiceCounts(s: seq<string>, i: nat, j: nat)
    requires i < j < |s| && s[i] == s[j]
    ensures multiset(s)[s[i]] >= 2
  {
    assert s == s[..j] + s[j..] && s[..j][i] == s[i] && s[j..][0] == s[i];
    assert multiset(s)[s[i]] == multiset(s[..j])[s[i]] + multiset(s[j..])[s[i]];
  }

  /** Sorting names that occur once each makes them increase. */
  lemma SortedOnce(s: seq<string>)
    requires Sorted(s) && forall x :: multiset(s)[x] <= 1
    ensures Increasing(s)
  {
    forall i, j | 0 <= i < j < |s| ensures Less(s[i], s[j]) {
      if s[i] == s[j] { TwiceCounts(s, i, j); } else { LeqExact(s[i], s[j]); }
    }
  }

  lemma {:induction false} OnceCounts(s: seq<string>, x: string)
    requires Once(s)
    ensures multiset(s)[x] <= 1
  {
    if s != [] {
      var k := |s| - 1;
      assert s == s[..k] + [s[k]];
      OnceCounts(s[..k], x);
    }
  }

  lemma SortedKeysIncrease(s: set<string>)
    ensures Increasing(SortedKeys(s))
  {
    SortSorts(Enumerate(s));
    SortedOnce(SortedKeys(s));
  }

  lemma {:induction false} PerFieldIncreasing(t: Task, via: seq<Request>, d: Fields, names: seq<string>, pins: Pins)
    requires !t.ListTier? && Increasing(names)
    ensures var found := PerField(t, via, d, names, pins);
            forall i, j | 0 <= i < j < |found| :: Less(found[i].field, found[j].field)
  {
    if names != [] {
      var k := |names| - 1;
      PerFieldIncreasing(t, via, d, names[..k], pins);
      var init := PerField(t, via, d, names[..k], pins);
      forall i | 0 <= i < |init| ensures Less(init[i].field, names[k]) {
        PerFieldMembers(t, via, d, names[..k], pins, init[i]);
        var l :| 0 <= l < k && names[l] == init[i].field;
      }
    }
  }

  /** The general form: exactly one candidate a string field, named after key and field, in strictly
      increasing order of the field names; non-string fields drop out and their siblings stay. */
  lemma GeneralForm(t: Task, via: seq<Request>, d: Fields, pins: Pins)
    requires !t.ListTier?
    ensures var found := PerField(t, via, d, SortedKeys(d.Keys), pins);
            && (forall i, j | 0 <= i < j < |found| :: Less(found[i].field, found[j].field))
            && (forall c :: c in found <==>
                  c.field in d && StringField(d, c.field).Some?
                  && c == FieldCandidate(t, via, c.field, StringField(d, c.field).value, pins))
  {
    var names := SortedKeys(d.Keys);
    SortSorts(Enumerate(d.Keys));
    SortedKeysIncrease(d.Keys);
    PerFieldIncreasing(t, via, d, names, pins);
    forall c ensures c in PerField(t, via, d, names, pins) <==>
                     c.field in d && StringField(d, c.field).Some?
                     && c == FieldCandidate(t, via, c.field, StringField(d, c.field).value, pins)
    {
      PerFieldMembers(t, via, d, names, pins, c);
      assert c.field in names <==> c.field in multiset(names);
    }
  }

  const NAME_CHARS: set<char> :=
    {'a', 'b', 'c', 'd', 'e', 'f', 'g', 'h', 'i', 'j', 'k', 'l', 'm', 'n', 'o', 'p', 'q', 'r',
     's', 't', 'u', 'v', 'w', 'x', 'y', 'z', '0', '1', '2', '3', '4', '5', '6', '7', '8', '9', '_'}

  /** The accepted names: non-empty, lower-case letters, digits and underscores. */
  lemma ValidNameExact(s: string)
    ensures ValidName(s) <==> s != "" && forall c | c in s :: c in NAME_CHARS
  {
    forall c: char ensures NameChar(c) <==> c in NAME_CHARS { NameCharExact(c); }
    hide NameChar, NAME_CHARS;
    assert forall i | 0 <= i < |s| :: s[i] in s;
  }

  lemma NameCharExact(c: char)
    ensures NameChar(c) <==> c in NAME_CHARS
  {}

  /** Normalising works character by character: a dash becomes an underscore, a capital its lower
      case, and everything else outside the two folding code points stays; so twice is once. */
  lemma NormalizedNames(s: string)
    ensures NormalizeName(NormalizeName(s)) == NormalizeName(s) && |NormalizeName(s)| == |s|
    ensures forall i | 0 <= i < |s| ::
              var c, n := s[i], NormalizeName(s)[i];
              && n != '-' && !('A' <= n <= 'Z')
              && (c == '-' ==> n == '_')
              && ('A' <= c <= 'Z' ==> 'a' <= n <= 'z' && n as int - c as int == 32)
              && (c != '-' && !('A' <= c <= 'Z') && c != '\U{212A}' && c != '\U{0130}' ==> n == c)
              && (c == '\U{212A}' ==> n == 'k') && (c == '\U{0130}' ==> n == 'i')
  {}

  ghost predicate AllSpace(s: string) { forall i | 0 <= i < |s| :: IsSpace(s[i]) }

  /** `p` is `q` without surrounding white space. */
  ghost predicate TrimOf(p: string, q: string) {
    (exists l, r :: AllSpace(l) && AllSpace(r) && q == l + p + r)
    && (p == "" || (!IsSpace(p[0]) && !IsSpace(p[|p| - 1])))
  }

  lemma {:induction false} TrimLeftRest(s: string) returns (l: string)
    ensures AllSpace(l) && s == l + TrimLeft(s)
  {
    l := "";
    if s != "" && IsSpace(s[0]) {
      l := TrimLeftRest(s[1..]);
      l := [s[0]] + l;
    }
  }

  lemma {:induction false} TrimRightRest(s: string) returns (r: string)
    ensures AllSpace(r) && s == TrimRight(s) + r
  {
    r := "";
    if s != "" && IsSpace(s[|s| - 1]) {
      r := TrimRightRest(s[..|s| - 1]);
      r := r + [s[|s| - 1]];
    }
  }

  lemma TrimmedPiece(q: string)
    ensures TrimOf(TrimSpace(q), q)
  {
    hide IsSpace;
    TrimmedEnds(q);
    var l := TrimLeftRest(q);
    var r := TrimRightRest(TrimLeft(q));
    assert q == l + TrimSpace(q) + r;
  }

  /** The comma list is the value's comma-free pieces, in order, each without surrounding space. */
  lemma CommaListPieces(v: string)
    ensures var pieces := Split(v, ',');
            && Join(pieces, ',') == v && (forall p | p in pieces :: Free(p, ','))
            && |CommaList(v)| == |pieces| > 0
            && forall i | 0 <= i < |pieces| :: TrimOf(CommaList(v)[i], pieces[i])
  {
    hide TrimOf, TrimSpace, Split, Join;
    var pieces := Split(v, ',');
    SplitJoins(v, ',');
    forall i | 0 <= i < |pieces| ensures TrimOf(CommaList(v)[i], pieces[i]) {
      TrimmedPiece(pieces[i]);
    }
  }

  // ---------- the shape of one step ----------

  lemma {:induction false} PerFieldOrigin(t: Task, via: seq<Request>, d: Fields, names: seq<string>, pins: Pins)
    requires !t.ListTier?
    ensures forall c | c in PerField(t, via, d, names, pins) :: c.rank == t.rank && c.key == t.key && c.via == via
  {
    if names != [] { PerFieldOrigin(t, via, d, names[..|names| - 1], pins); }
  }

  lemma EntryOrigin(t: Task, via: seq<Request>, e: KvEntry)
    requires t.ReadEntry?
    ensures var a := ExpandEntry(t, via, e);
            && a.Yield?
            && (forall u | u in a.next :: u.FollowRef? && u.rank == t.rank && u.key == t.key && u.via == via)
            && (forall c | c in a.found :: c.rank == t.rank && c.key == t.key && c.via == via)
            && (a.next == [] || a.found == [])
  {
    hide PerField, NormalizeName;
    PerFieldOrigin(t, via, e.fields, SortedKeys(e.fields.Keys), EntryPins(e.custom));
  }

  lemma DerefOrigin(t: Task, via: seq<Request>, d: Fields)
    requires t.FollowRef?
    ensures forall c | c in DerefFound(t, via, d) :: c.rank == t.rank && c.key == t.key && c.via == via
  {
    hide PerField, NormalizeName, Kv2Inner, StringField, Sort;
    if Kv2Inner(d).None? {
      PerFieldOrigin(t, via, d, SortedKeys(d.Keys), t.pins);
    } else if StringField(Kv2Inner(d).value, "value").None? {
      PerFieldOrigin(t, via, Kv2Inner(d).value, SortedKeys(Kv2Inner(d).value.Keys), t.pins);
    }
  }

  /** Whatever a task yields descends from it: same tier, same key, and one more request on the way. */
  lemma ExpandOrigin(site: Site, t: Task, reply: Reply)
    requires Expand(site, t, reply).Yield?
    ensures var a, via := Expand(site, t, reply), ViaOf(t) + [RequestOf(site, t)];
            && (forall u | u in a.next :: !u.ListTier? && u.rank == t.rank && ViaOf(u) == via
                                          && (!t.ListTier? ==> u.key == t.key))
            && (forall c | c in a.found :: !t.ListTier? && c.rank == t.rank && c.key == t.key && c.via == via)
            && (a.next == [] || a.found == [])
  {
    hide ExpandEntry, DerefFound, Sort, PlainKeys, DecodeKeys, DecodeEntry, DecodeDeref;
    var via := ViaOf(t) + [RequestOf(site, t)];
    if reply.Body? && t.ReadEntry? { EntryOrigin(t, via, DecodeEntry(reply.body).value); }
    if reply.Body? && t.FollowRef? { DerefOrigin(t, via, DecodeDeref(reply.body).value.fields); }
  }

  lemma TailShrinks(t: Task, rest: seq<Task>)
    ensures Smaller(rest, [t] + rest)
  {
    assert ([t] + rest)[1..] == rest;
  }

  // ---------- the record ----------

  /** A read under the minted token, recorded with the reply the server gave at position k. */
  ghost predicate Recorded(site: Site, o: Reads, k: nat, e: Event) {
    && e.Read? && e.purpose != Directive
    && e.req.token == site.token && (e.req.list <==> e.purpose == Listing)
    && e.reply == o(k, e.req)
  }

  /** Every request of a sweep is a read under the minted token, and the record tells its reply. */
  lemma {:induction false} Traffic(site: Site, o: Reads, n: nat, tasks: seq<Task>, i: nat)
    requires i < |Exec(site, o, n, tasks).log|
    ensures Recorded(site, o, n + i, Exec(site, o, n, tasks).log[i])
    decreases CountLevel(tasks, 2), CountLevel(tasks, 1), CountLevel(tasks, 0)
  {
    hide Expand;
    var t, rest := tasks[0], tasks[1..];
    assert tasks == [t] + rest;
    ExecStep(site, o, n, t, rest);
    if i > 0 {
      StepShrinks(site, o, n, t, rest);
      Traffic(site, o, n + 1, AnswerOf(site, o, n, t).next + rest, i - 1);
    }
  }

  /** A reply the sweep cannot go on from: a hard failure, or a body that does not decode. A 403 or
      404 is never one. */
  ghost predicate Fatal(e: Event) {
    e.Read? &&
    match e.reply
    case Broken => true
    case Garbled => true
    case Denied => false
    case Body(body) =>
      match e.purpose
      case Listing => DecodeKeys(body).None?
      case EntryRead => DecodeEntry(body).None?
      case Deref => DecodeDeref(body).None?
      case Directive => false
  }

  lemma AbortsOnFatal(site: Site, o: Reads, n: nat, t: Task)
    ensures AnswerOf(site, o, n, t).Abort? <==> Fatal(EventOf(site, o, n, t))
  {}

  /** All or nothing, and prompt: the run succeeds exactly when no reply is fatal, and a fatal reply
      is the last one. */
  lemma {:induction false} FailsPromptly(site: Site, o: Reads, n: nat, tasks: seq<Task>)
    ensures var run := Exec(site, o, n, tasks);
            && (run.ok <==> forall e | e in run.log :: !Fatal(e))
            && (!run.ok ==> run.log != [] && Fatal(run.log[|run.log| - 1])
                            && forall i | 0 <= i < |run.log| - 1 :: !Fatal(run.log[i]))
            && (!run.ok ==> Outcome(run).None?)
    decreases CountLevel(tasks, 2), CountLevel(tasks, 1), CountLevel(tasks, 0)
  {
    hide AnswerOf, EventOf, Fatal, Keep;
    if tasks != [] {
      var t, rest := tasks[0], tasks[1..];
      assert tasks == [t] + rest;
      ExecStep(site, o, n, t, rest);
      AbortsOnFatal(site, o, n, t);
      var e := EventOf(site, o, n, t);
      if AnswerOf(site, o, n, t).Yield? {
        StepShrinks(site, o, n, t, rest);
        FailsPromptly(site, o, n + 1, AnswerOf(site, o, n, t).next + rest);
      } else {
        assert e in [e];
      }
    }
  }

  // ---------- accounting ----------

  ghost function Count(log: seq<Event>, purpose: Purpose): nat {
    if log == [] then 0 else (if log[0].Read? && log[0].purpose == purpose then 1 else 0) + Count(log[1..], purpose)
  }

  /** The plain keys a LIST reply carries. */
  ghost function KeysIn(e: Event): nat {
    if e.Read? && e.purpose == Listing && e.reply.Body? && DecodeKeys(e.reply.body).Some?
    then |PlainKeys(DecodeKeys(e.reply.body).value)| else 0
  }

  /** The reference an entry read carries, if the entry is a pointer with a usable `$ref`. */
  ghost function PointerIn(e: Event): Option<string> {
    if e.Read? && e.purpose == EntryRead && e.reply.Body? && DecodeEntry(e.reply.body).Some?
       && IsPointerForm(DecodeEntry(e.reply.body).value.fields)
    then StringField(DecodeEntry(e.reply.body).value.fields, "$ref") else None
  }

  ghost function KeysListed(log: seq<Event>): nat {
    if log == [] then 0 else KeysIn(log[0]) + KeysListed(log[1..])
  }

  ghost function PointersRead(log: seq<Event>): nat {
    if log == [] then 0 else (if PointerIn(log[0]).Some? then 1 else 0) + PointersRead(log[1..])
  }

  lemma {:induction false} SortLength(s: seq<string>)
    ensures |Sort(s)| == |s|
  {
    SortSorts(s);
    assert |multiset(Sort(s))| == |multiset(s)|;
  }

  /** The tasks one reply spawns. */
  lemma Fanout(site: Site, o: Reads, n: nat, t: Task)
    requires AnswerOf(site, o, n, t).Yield?
    ensures |AnswerOf(site, o, n, t).next| ==
            KeysIn(EventOf(site, o, n, t)) + if PointerIn(EventOf(site, o, n, t)).Some? then 1 else 0
    ensures t.FollowRef? ==> AnswerOf(site, o, n, t).next == []
    ensures t.ListTier? ==> PointerIn(EventOf(site, o, n, t)).None?
    ensures t.ReadEntry? ==> KeysIn(EventOf(site, o, n, t)) == 0
  {
    var reply := o(n, RequestOf(site, t));
    if t.ListTier? && reply.Body? { SortLength(PlainKeys(DecodeKeys(reply.body).value)); }
  }

  /** Request accounting of a successful run: one LIST a tier, one read a plain listed key, one
      dereference a usable pointer that was read, and nothing else. */
  lemma {:induction false} Accounting(site: Site, o: Reads, n: nat, tasks: seq<Task>)
    requires Exec(site, o, n, tasks).ok
    ensures var log := Exec(site, o, n, tasks).log;
            && Count(log, Listing) == CountLevel(tasks, 2)
            && Count(log, EntryRead) == CountLevel(tasks, 1) + KeysListed(log)
            && Count(log, Deref) == CountLevel(tasks, 0) + PointersRead(log)
            && |log| == Count(log, Listing) + Count(log, EntryRead) + Count(log, Deref)
    decreases CountLevel(tasks, 2), CountLevel(tasks, 1), CountLevel(tasks, 0)
  {
    hide KeysIn, PointerIn, Expand;
    if tasks != [] {
      var t, rest := tasks[0], tasks[1..];
      assert tasks == [t] + rest;
      ExecStep(site, o, n, t, rest);
      StepShrinks(site, o, n, t, rest);
      var reply := o(n, RequestOf(site, t));
      NextCounts(site, t, reply, rest, 0);
      NextCounts(site, t, reply, rest, 1);
      NextCounts(site, t, reply, rest, 2);
      Fanout(site, o, n, t);
      var later := Exec(site, o, n + 1, AnswerOf(site, o, n, t).next + rest).log;
      Accounting(site, o, n + 1, AnswerOf(site, o, n, t).next + rest);
      assert Exec(site, o, n, tasks).log[1..] == later;
    }
  }

  lemma TierTaskCounts(tiers: seq<string>)
    ensures CountLevel(TierTasks(tiers), 2) == |tiers|
    ensures CountLevel(TierTasks(tiers), 1) == 0 && CountLevel(TierTasks(tiers), 0) == 0
  {
    CountUniform(TierTasks(tiers), 2, 2);
    CountUniform(TierTasks(tiers), 2, 1);
    CountUniform(TierTasks(tiers), 2, 0);
  }

  /** The same for a whole sweep. */
  lemma SweepAccounting(site: Site, kvPrefix: string, o: Reads, n: nat, id: Identity, branchful: bool)
    requires SweepRun(site, kvPrefix, o, n, id, branchful).ok
    ensures var log := SweepRun(site, kvPrefix, o, n, id, branchful).log;
            |log| == |Tiers(Base(kvPrefix, id), id, branchful)| + KeysListed(log) + PointersRead(log)
  {
    hide Exec;
    var tiers := Tiers(Base(kvPrefix, id), id, branchful);
    Accounting(site, o, n, TierTasks(tiers));
    TierTaskCounts(tiers);
  }

  // ---------- which lists, in which order ----------

  /** The paths a record lists, in order. */
  ghost function ListPaths(log: seq<Event>): seq<string> {
    if log == [] then [] else
      (if log[0].Read? && log[0].req.list then [log[0].req.path] else []) + ListPaths(log[1..])
  }

  ghost function ListTaskPaths(site: Site, tasks: seq<Task>): seq<string> {
    if tasks == [] then [] else
      (if tasks[0].ListTier? then [site.mount + "/metadata/" + tasks[0].tier] else []) + ListTaskPaths(site, tasks[1..])
  }

  ghost function MetadataPaths(mount: string, tiers: seq<string>): seq<string> {
    seq(|tiers|, i requires 0 <= i < |tiers| => mount + "/metadata/" + tiers[i])
  }

  lemma {:induction false} ListPathsAppend(a: seq<Event>, b: seq<Event>)
    ensures ListPaths(a + b) == ListPaths(a) + ListPaths(b)
  {
    if a == [] {
      assert a + b == b;
    } else {
      assert (a + b)[1..] == a[1..] + b;
      ListPathsAppend(a[1..], b);
    }
  }

  lemma {:induction false} NoListTasks(site: Site, next: seq<Task>, rest: seq<Task>)
    requires forall u | u in next :: !u.ListTier?
    ensures ListTaskPaths(site, next + rest) == ListTaskPaths(site, rest)
  {
    if next == [] {
      assert next + rest == rest;
    } else {
      assert next[0] in next && (next + rest)[1..] == next[1..] + rest;
      NoListTasks(site, next[1..], rest);
    }
  }

  lemma ListsOfStep(site: Site, o: Reads, n: nat, t: Task, log: seq<Event>, rest: seq<Task>)
    ensures ListPaths([EventOf(site, o, n, t)] + log) == ListTaskPaths(site, [t]) + ListPaths(log)
    ensures ListTaskPaths(site, [t] + rest) == ListTaskPaths(site, [t]) + ListTaskPaths(site, rest)
    ensures ListPaths([EventOf(site, o, n, t)]) == ListTaskPaths(site, [t])
  {
    assert ([EventOf(site, o, n, t)] + log)[1..] == log && ([t] + rest)[1..] == rest;
    assert [EventOf(site, o, n, t)][1..] == [] && [t][1..] == [];
  }

  /** The lists of a run are those of its list tasks, in their order, all of them unless it fails. */
  lemma {:induction false} ListsInOrder(site: Site, o: Reads, n: nat, tasks: seq<Task>)
    ensures var run := Exec(site, o, n, tasks);
            ListPaths(run.log) <= ListTaskPaths(site, tasks) && (run.ok ==> ListPaths(run.log) == ListTaskPaths(site, tasks))
    decreases CountLevel(tasks, 2), CountLevel(tasks, 1), CountLevel(tasks, 0)
  {
    hide Expand, EventOf;
    if tasks != [] {
      hide ListPaths, ListTaskPaths;
      var t, rest := tasks[0], tasks[1..];
      assert tasks == [t] + rest;
      ExecStep(site, o, n, t, rest);
      ListsOfStep(site, o, n, t, [], rest);
      if AnswerOf(site, o, n, t).Yield? {
        var next := AnswerOf(site, o, n, t).next;
        var later := Exec(site, o, n + 1, next + rest);
        ExpandOrigin(site, t, o(n, RequestOf(site, t)));
        StepShrinks(site, o, n, t, rest);
        ListsInOrder(site, o, n + 1, next + rest);
        NoListTasks(site, next, rest);
        ListsOfStep(site, o, n, t, later.log, rest);
      }
    }
  }

  lemma {:induction false} ListTasksAre(site: Site, tasks: seq<Task>, tiers: seq<string>)
    requires |tasks| == |tiers| && forall i | 0 <= i < |tasks| :: tasks[i].ListTier? && tasks[i].tier == tiers[i]
    ensures ListTaskPaths(site, tasks) == MetadataPaths(site.mount, tiers)
  {
    if tasks != [] { ListTasksAre(site, tasks[1..], tiers[1..]); }
  }

  /** A sweep lists its tiers, each once, in their order. */
  lemma ListsTheTiers(site: Site, o: Reads, n: nat, tiers: seq<string>)
    ensures var run := Exec(site, o, n, TierTasks(tiers));
            && ListPaths(run.log) <= MetadataPaths(site.mount, tiers)
            && (run.ok ==> ListPaths(run.log) == MetadataPaths(site.mount, tiers))
  {
    hide Exec;
    ListsInOrder(site, o, n, TierTasks(tiers));
    ListTasksAre(site, TierTasks(tiers), tiers);
  }

  // ---------- leases and counters ----------

  /** The lease flag of a result: some dereference came back with a lease id that is a non-empty string. */
  lemma LeaseFlagExactly(site: Site, kvPrefix: string, o: Reads, n: nat, id: Identity, branchful: bool)
    requires SweepRun(site, kvPrefix, o, n, id, branchful).ok
    ensures var run := SweepRun(site, kvPrefix, o, n, id, branchful);
            Outcome(run).value.leasesCreated <==>
            exists e :: e in run.log && e.Read? && e.purpose == Deref && e.reply.Body?
                        && Member(e.reply.body, "lease_id").Str? && Member(e.reply.body, "lease_id").text != ""
  {
    hide Exec, Keep;
    var tasks := TierTasks(Tiers(Base(kvPrefix, id), id, branchful));
    var log := Exec(site, o, n, tasks).log;
    FailsPromptly(site, o, n, tasks);
    forall e | e in log
      ensures CarriesLease(e) <==> e.Read? && e.purpose == Deref && e.reply.Body?
                                   && Member(e.reply.body, "lease_id").Str? && Member(e.reply.body, "lease_id").text != ""
    {
      assert !Fatal(e);
      if e.Read? && e.purpose == Deref && e.reply.Body? {
        DecodeDerefExact(e.reply.body, DecodeDeref(e.reply.body).value);
      }
    }
  }

  ghost predicate Reached(e: Event, purpose: Purpose) {
    e.Read? && e.purpose == purpose && !e.reply.Denied? && !e.reply.Broken?
  }

  /** The two counters count the entry reads and the dereferences that were neither denied nor broken. */
  lemma {:induction false} CountersExactly(log: seq<Event>, purpose: Purpose)
    ensures Answered(log, purpose) == |set i | 0 <= i < |log| && Reached(log[i], purpose)|
  {
    var all := set i | 0 <= i < |log| && Reached(log[i], purpose);
    if log == [] {
      assert all == {};
    } else {
      var k := |log| - 1;
      var init, e := log[..k], log[k];
      CountersExactly(init, purpose);
      AnsweredAppend(init, [e], purpose);
      OneAnswered(e, purpose);
      assert log == init + [e];
      hide Answered, Reached;
      var before := set i | 0 <= i < k && Reached(init[i], purpose);
      if Reached(e, purpose) { assert all == before + {k}; } else { assert all == before; }
    }
  }

  lemma OneAnswered(e: Event, purpose: Purpose)
    ensures Answered([e], purpose) == if Reached(e, purpose) then 1 else 0
  {
    assert [e][1..] == [] && Answered([], purpose) == 0;
  }

  // ---------- no pointer chains ----------

  /** Position i of the log is a dereference only of the pointer that the read just before returned. */
  ghost predicate FollowsPointer(log: seq<Event>, i: nat)
    requires i < |log|
  {
    log[i].Read? && log[i].purpose == Deref ==>
      i > 0 && PointerIn(log[i - 1]) == Some(log[i].req.path)
  }

  lemma SpawnedRefs(site: Site, o: Reads, n: nat, t: Task)
    requires AnswerOf(site, o, n, t).Yield?
    ensures forall i, u | 0 <= i < |AnswerOf(site, o, n, t).next| && u == AnswerOf(site, o, n, t).next[i] && u.FollowRef? ::
              i == 0 && PointerIn(EventOf(site, o, n, t)) == Some(u.ref)
  {}

  lemma {:induction false} NoChainsFrom(site: Site, o: Reads, n: nat, tasks: seq<Task>)
    requires forall i | 1 <= i < |tasks| :: !tasks[i].FollowRef?
    ensures var log := Exec(site, o, n, tasks).log;
            && (forall i | 1 <= i < |log| :: FollowsPointer(log, i))
            && (log != [] ==> tasks != [] && log[0] == EventOf(site, o, n, tasks[0]))
    decreases CountLevel(tasks, 2), CountLevel(tasks, 1), CountLevel(tasks, 0)
  {
    hide Expand, PointerIn;
    if tasks != [] {
      var t, rest := tasks[0], tasks[1..];
      assert tasks == [t] + rest;
      ExecStep(site, o, n, t, rest);
      if AnswerOf(site, o, n, t).Yield? {
        StepShrinks(site, o, n, t, rest);
        var next := AnswerOf(site, o, n, t).next;
        SpawnedRefs(site, o, n, t);
        NoChainsFrom(site, o, n + 1, next + rest);
        var log, later := Exec(site, o, n, tasks).log, Exec(site, o, n + 1, next + rest).log;
        forall i | 1 <= i < |log| ensures FollowsPointer(log, i) {
          assert log[i] == later[i - 1];
          if i > 1 {
            assert FollowsPointer(later, i - 1);
          } else if next != [] {
            assert next[0] == (next + rest)[0];
          } else {
            assert rest[0] == (next + rest)[0] == tasks[1];
          }
        }
      }
    }
  }

  /** A reference is followed one level: every dereference answers the entry read before it, so no
      dereference is caused by another. */
  lemma NoPointerChains(site: Site, kvPrefix: string, o: Reads, n: nat, id: Identity, branchful: bool)
    ensures var log := SweepRun(site, kvPrefix, o, n, id, branchful).log;
            forall i | 0 <= i < |log| :: FollowsPointer(log, i)
  {
    hide Exec, Expand, PointerIn;
    NoChainsFrom(site, o, n, TierTasks(Tiers(Base(kvPrefix, id), id, branchful)));
  }

  // ---------- footprint ----------

  /** The request lists one of the tiers, or reads a plain key of one. */
  ghost predicate ListsTier(site: Site, tiers: seq<string>, req: Request) {
    exists tier :: tier in tiers && req.path == site.mount + "/metadata/" + tier
  }

  ghost predicate ReadsTier(site: Site, tiers: seq<string>, req: Request) {
    exists tier, key :: tier in tiers && PlainKey(key) && req.path == site.mount + "/data/" + tier + "/" + key
  }

  ghost predicate InTiers(tiers: seq<string>, t: Task) {
    (t.ListTier? ==> t.tier in tiers) && (t.ReadEntry? ==> t.tier in tiers && PlainKey(t.key))
  }

  lemma {:induction false} PlainKeysArePlain(keys: seq<string>)
    ensures forall k | k in PlainKeys(keys) :: PlainKey(k) && k in keys
  {
    if keys != [] { PlainKeysArePlain(keys[..|keys| - 1]); }
  }

  lemma StaysInTiers(site: Site, o: Reads, n: nat, tiers: seq<string>, t: Task)
    requires InTiers(tiers, t) && AnswerOf(site, o, n, t).Yield?
    ensures forall u | u in AnswerOf(site, o, n, t).next :: InTiers(tiers, u)
  {
    var reply := o(n, RequestOf(site, t));
    if t.ListTier? && reply.Body? {
      var plain := PlainKeys(DecodeKeys(reply.body).value);
      PlainKeysArePlain(DecodeKeys(reply.body).value);
      SortSorts(plain);
      forall i | 0 <= i < |Sort(plain)| ensures PlainKey(Sort(plain)[i]) {
        assert Sort(plain)[i] in multiset(Sort(plain));
      }
    }
  }

  /** LISTs and entry reads stay inside the identity's own tiers. */
  lemma {:induction false} Footprint(site: Site, o: Reads, n: nat, tiers: seq<string>, tasks: seq<Task>)
    requires forall t | t in tasks :: InTiers(tiers, t)
    ensures forall e | e in Exec(site, o, n, tasks).log ::
              && e.Read?
              && (e.purpose == Listing ==> ListsTier(site, tiers, e.req))
              && (e.purpose == EntryRead ==> ReadsTier(site, tiers, e.req))
              && e.purpose != Directive
    decreases CountLevel(tasks, 2), CountLevel(tasks, 1), CountLevel(tasks, 0)
  {
    hide Expand;
    forall i | 0 <= i < |Exec(site, o, n, tasks).log| { Traffic(site, o, n, tasks, i); }
    if tasks != [] {
      var t, rest := tasks[0], tasks[1..];
      assert tasks == [t] + rest;
      ExecStep(site, o, n, t, rest);
      if AnswerOf(site, o, n, t).Yield? {
        StepShrinks(site, o, n, t, rest);
        StaysInTiers(site, o, n, tiers, t);
        Footprint(site, o, n + 1, tiers, AnswerOf(site, o, n, t).next + rest);
      }
    }
  }

  /** The paths of one org and repo: under the mount's data or metadata, then kvPrefix, org, repo. */
  ghost predicate UnderBase(site: Site, kvPrefix: string, id: Identity, path: string) {
    || (exists x :: path + "/" == (site.mount + "/data/" + kvPrefix) + "/" + id.org + "/" + id.repo + "/" + x)
    || (exists x :: path + "/" == (site.mount + "/metadata/" + kvPrefix) + "/" + id.org + "/" + id.repo + "/" + x)
  }

  lemma TierUnderBase(base: string, id: Identity, branchful: bool, tier: string)
    requires tier in Tiers(base, id, branchful)
    ensures tier == base || exists s :: tier == base + "/" + id.event + s
  {
    if tier != base {
      if tier == base + "/" + id.event {
        assert tier == base + "/" + id.event + "";
      } else {
        assert tier == base + "/" + id.event + ("/" + Escaped(id.branch));
      }
    }
  }

  lemma PathUnderBase(head: string, kvPrefix: string, id: Identity, branchful: bool, tier: string, tail: string)
    requires tier in Tiers(Base(kvPrefix, id), id, branchful)
    ensures exists x :: head + tier + "/" + tail == (head + kvPrefix) + "/" + id.org + "/" + id.repo + "/" + x
  {
    var base := Base(kvPrefix, id);
    TierUnderBase(base, id, branchful, tier);
    var root := (head + kvPrefix) + "/" + id.org + "/" + id.repo + "/";
    if tier == base {
      assert head + tier + "/" + tail == root + tail;
    } else {
      var s :| tier == base + "/" + id.event + s;
      assert head + tier + "/" + tail == root + (id.event + s + "/" + tail);
    }
  }

  /** Every LIST and entry read of a sweep is a path of the identity's own org and repo. */
  lemma FootprintUnderBase(site: Site, kvPrefix: string, o: Reads, n: nat, id: Identity, branchful: bool)
    ensures forall e | e in SweepRun(site, kvPrefix, o, n, id, branchful).log ::
              e.Read? && (e.purpose != Deref ==> UnderBase(site, kvPrefix, id, e.req.path))
  {
    hide Exec;
    var tiers := Tiers(Base(kvPrefix, id), id, branchful);
    Footprint(site, o, n, tiers, TierTasks(tiers));
    forall e | e in SweepRun(site, kvPrefix, o, n, id, branchful).log
      ensures e.Read? && (e.purpose != Deref ==> UnderBase(site, kvPrefix, id, e.req.path))
    {
      if e.purpose == Deref {
      } else if e.purpose == Listing {
        var tier :| tier in tiers && e.req.path == site.mount + "/metadata/" + tier;
        PathUnderBase(site.mount + "/metadata/", kvPrefix, id, branchful, tier, "");
        assert e.req.path + "/" == site.mount + "/metadata/" + tier + "/" + "";
      } else {
        var tier, key :| tier in tiers && PlainKey(key) && e.req.path == site.mount + "/data/" + tier + "/" + key;
        PathUnderBase(site.mount + "/data/", kvPrefix, id, branchful, tier, key + "/");
        assert e.req.path + "/" == site.mount + "/data/" + tier + "/" + (key + "/");
      }
    }
  }

  /** A directive is never swept: no entry read is a read of a dot-prefixed name at the base. */
  lemma DirectivesNeverSwept(site: Site, kvPrefix: string, id: Identity, branchful: bool, req: Request, name: string)
    requires ReadsTier(site, Tiers(Base(kvPrefix, id), id, branchful), req)
    requires name != "" && name[0] == '.' && Free(name, '/')
    ensures req.path != site.mount + "/data/" + Base(kvPrefix, id) + "/" + name
  {
    var base := Base(kvPrefix, id);
    var tiers := Tiers(base, id, branchful);
    var tier, key :| tier in tiers && PlainKey(key) && req.path == site.mount + "/data/" + tier + "/" + key;
    TierUnderBase(base, id, branchful, tier);
    var root := site.mount + "/data/" + base + "/";
    if tier == base {
      assert req.path == root + key;
      Cancel(root, key, name);
    } else {
      var s :| tier == base + "/" + id.event + s;
      var tail := (id.event + s) + "/" + key;
      assert tail[|id.event + s|] == '/' && '/' in tail;
      Reassociate(site.mount + "/data/" + base, id.event + s, key);
      assert site.mount + "/data/" + tier == site.mount + "/data/" + base + "/" + (id.event + s);
      assert req.path == root + tail;
      Cancel(root, tail, name);
    }
  }

  /** ... so no LIST and no entry read of a sweep is the read of a directive; only a reference can lead
      to one. */
  lemma SweepReadsNoDirective(site: Site, kvPrefix: string, o: Reads, n: nat, id: Identity, branchful: bool, name: string)
    requires name != "" && name[0] == '.' && Free(name, '/')
    ensures forall e | e in SweepRun(site, kvPrefix, o, n, id, branchful).log ::
              e.Read? && (e.purpose != Deref ==> e.req.path != site.mount + "/data/" + Base(kvPrefix, id) + "/" + name)
  {
    hide Exec;
    var tiers := Tiers(Base(kvPrefix, id), id, branchful);
    var directive := site.mount + "/data/" + Base(kvPrefix, id) + "/" + name;
    Footprint(site, o, n, tiers, TierTasks(tiers));
    forall e | e in SweepRun(site, kvPrefix, o, n, id, branchful).log
      ensures e.Read? && (e.purpose != Deref ==> e.req.path != directive)
    {
      if e.purpose == Listing {
        var tier :| tier in tiers && e.req.path == site.mount + "/metadata/" + tier;
        assert e.req.path[|site.mount| + 1] == 'm' && directive[|site.mount| + 1] == 'd';
      } else if e.purpose == EntryRead {
        DirectivesNeverSwept(site, kvPrefix, id, branchful, e.req, name);
      }
    }
  }

  lemma Cancel(root: string, a: string, b: string)
    ensures root + a == root + b <==> a == b
  {
    assert (root + a)[|root|..] == a && (root + b)[|root|..] == b;
  }

  lemma Reassociate(root: string, mid: string, key: string)
    ensures root + "/" + mid + "/" + key == root + "/" + (mid + "/" + key)
  {}

  /** Identities that differ in org or repo have disjoint footprints. */
  lemma DisjointFootprints(site: Site, kvPrefix: string, a: Identity, b: Identity, path: string)
    requires WellNamed(a) && WellNamed(b) && (a.org != b.org || a.repo != b.repo)
    ensures !(UnderBase(site, kvPrefix, a, path) && UnderBase(site, kvPrefix, b, path))
  {
    if UnderBase(site, kvPrefix, a, path) && UnderBase(site, kvPrefix, b, path) {
      var data, meta := site.mount + "/data/" + kvPrefix, site.mount + "/metadata/" + kvPrefix;
      var i := |site.mount| + 1;
      assert data[i] == 'd' && meta[i] == 'm';
      if x :| path + "/" == data + "/" + a.org + "/" + a.repo + "/" + x {
        assert (path + "/")[i] == 'd';
        var y :| path + "/" == data + "/" + b.org + "/" + b.repo + "/" + y;
        PrefixUnique(data, a, x, b, y);
      } else {
        var x :| path + "/" == meta + "/" + a.org + "/" + a.repo + "/" + x;
        assert (path + "/")[i] == 'm';
        var y :| path + "/" == meta + "/" + b.org + "/" + b.repo + "/" + y;
        PrefixUnique(meta, a, x, b, y);
      }
    }
  }

  // ---------- locality ----------

  /** A run depends on nothing but the replies to the requests it makes. */
  lemma {:induction false} Locality(site: Site, o: Reads, o': Reads, n: nat, tasks: seq<Task>)
    requires var log := Exec(site, o, n, tasks).log;
             forall i | 0 <= i < |log| && log[i].Read? :: o'(n + i, log[i].req) == o(n + i, log[i].req)
    ensures Exec(site, o', n, tasks) == Exec(site, o, n, tasks)
    decreases CountLevel(tasks, 2), CountLevel(tasks, 1), CountLevel(tasks, 0)
  {
    hide Expand;
    if tasks != [] {
      var t, rest := tasks[0], tasks[1..];
      assert tasks == [t] + rest;
      ExecStep(site, o, n, t, rest);
      ExecStep(site, o', n, t, rest);
      var log := Exec(site, o, n, tasks).log;
      assert log[0] == EventOf(site, o, n, t);
      assert o'(n + 0, log[0].req) == o(n + 0, log[0].req);
      if AnswerOf(site, o, n, t).Yield? {
        StepShrinks(site, o, n, t, rest);
        var tasks' := AnswerOf(site, o, n, t).next + rest;
        var later := Exec(site, o, n + 1, tasks').log;
        forall i | 0 <= i < |later| && later[i].Read? ensures o'(n + 1 + i, later[i].req) == o(n + 1 + i, later[i].req) {
          assert later[i] == log[i + 1] && n + (i + 1) == n + 1 + i;
        }
        Locality(site, o, o', n + 1, tasks');
      }
    }
  }

  /** So what is stored elsewhere cannot alter a sweep: two servers that agree under the identity's
      own base and on the references it follows give the same run. */
  lemma Isolation(site: Site, kvPrefix: string, o: Reads, o': Reads, n: nat, id: Identity, branchful: bool)
    requires forall k: nat, r: Request | UnderBase(site, kvPrefix, id, r.path) :: o'(k, r) == o(k, r)
    requires var log := SweepRun(site, kvPrefix, o, n, id, branchful).log;
             forall i | 0 <= i < |log| && log[i].Read? && log[i].purpose == Deref :: o'(n + i, log[i].req) == o(n + i, log[i].req)
    ensures SweepRun(site, kvPrefix, o', n, id, branchful) == SweepRun(site, kvPrefix, o, n, id, branchful)
  {
    hide Exec, UnderBase;
    var tasks := TierTasks(Tiers(Base(kvPrefix, id), id, branchful));
    FootprintUnderBase(site, kvPrefix, o, n, id, branchful);
    var log := Exec(site, o, n, tasks).log;
    assert forall i | 0 <= i < |log| :: log[i] in log;
    Locality(site, o, o', n, tasks);
  }

  /** In particular, nothing another org or repo stores can, unless a reference leads there. */
  lemma OtherReposCannotAlter(site: Site, kvPrefix: string, o: Reads, o': Reads, n: nat, id: Identity, branchful: bool,
                              other: Identity)
    requires WellNamed(id) && WellNamed(other) && (id.org != other.org || id.repo != other.repo)
    requires forall k: nat, r: Request | !UnderBase(site, kvPrefix, other, r.path) :: o'(k, r) == o(k, r)
    requires var log := SweepRun(site, kvPrefix, o, n, id, branchful).log;
             forall e | e in log && e.Read? && e.purpose == Deref :: !UnderBase(site, kvPrefix, other, e.req.path)
    ensures SweepRun(site, kvPrefix, o', n, id, branchful) == SweepRun(site, kvPrefix, o, n, id, branchful)
  {
    hide Exec, UnderBase;
    forall k: nat, r: Request | UnderBase(site, kvPrefix, id, r.path) ensures o'(k, r) == o(k, r) {
      DisjointFootprints(site, kvPrefix, id, other, r.path);
    }
    var log := SweepRun(site, kvPrefix, o, n, id, branchful).log;
    assert forall i | 0 <= i < |log| :: log[i] in log;
    Isolation(site, kvPrefix, o, o', n, id, branchful);
  }

  // ---------- listing order ----------

  /** Equal, or two LIST replies whose keys are permutations of one another. */
  ghost predicate SameUpToOrder(a: Reply, b: Reply, list: bool) {
    a == b ||
    (list && a.Body? && b.Body? && DecodeKeys(a.body).Some? && DecodeKeys(b.body).Some?
     && multiset(DecodeKeys(a.body).value) == multiset(DecodeKeys(b.body).value))
  }

  lemma {:induction false} PlainKeysCount(keys: seq<string>, k: string)
    ensures multiset(PlainKeys(keys))[k] == if PlainKey(k) then multiset(keys)[k] else 0
  {
    if keys != [] {
      PlainKeysCount(keys[..|keys| - 1], k);
      assert keys == keys[..|keys| - 1] + [keys[|keys| - 1]];
    }
  }

  lemma SortPermuted(a: seq<string>, b: seq<string>)
    requires multiset(a) == multiset(b)
    ensures Sort(PlainKeys(a)) == Sort(PlainKeys(b))
  {
    forall k ensures multiset(PlainKeys(a))[k] == multiset(PlainKeys(b))[k] {
      PlainKeysCount(a, k);
      PlainKeysCount(b, k);
    }
    assert multiset(PlainKeys(a)) == multiset(PlainKeys(b));
    SortSorts(PlainKeys(a));
    SortSorts(PlainKeys(b));
    SortedUnique(Sort(PlainKeys(a)), Sort(PlainKeys(b)));
  }

  lemma AnswersAgree(site: Site, o: Reads, o': Reads, n: nat, t: Task)
    requires SameUpToOrder(o(n, RequestOf(site, t)), o'(n, RequestOf(site, t)), RequestOf(site, t).list)
    ensures AnswerOf(site, o, n, t) == AnswerOf(site, o', n, t)
  {
    var a, b := o(n, RequestOf(site, t)), o'(n, RequestOf(site, t));
    if a != b { SortPermuted(DecodeKeys(a.body).value, DecodeKeys(b.body).value); }
  }

  /** The same read, with the same reply unless it is a LIST. */
  ghost predicate SameEvent(e: Event, f: Event) {
    && e.Read? && f.Read? && e.req == f.req && e.purpose == f.purpose
    && (e.purpose != Listing ==> e == f)
  }

  lemma SameLeases(a: seq<Event>, b: seq<Event>)
    requires |a| == |b| && forall i | 0 <= i < |a| :: SameEvent(a[i], b[i])
    ensures LeaseIn(a) ==> LeaseIn(b)
  {
    if e :| e in a && CarriesLease(e) {
      var i :| 0 <= i < |a| && a[i] == e;
      assert SameEvent(a[i], b[i]) && b[i] in b;
    }
  }

  /** For whole sweeps: the same requests in the same order, and the same result, lease flag included. */
  lemma SweepIgnoresListingOrder(site: Site, kvPrefix: string, o: Reads, o': Reads, n: nat, id: Identity, branchful: bool)
    requires forall k: nat, r: Request :: SameUpToOrder(o(k, r), o'(k, r), r.list)
    ensures var a := SweepRun(site, kvPrefix, o, n, id, branchful);
            var b := SweepRun(site, kvPrefix, o', n, id, branchful);
            && Outcome(a) == Outcome(b) && |a.log| == |b.log|
            && forall i | 0 <= i < |a.log| :: SameEvent(a.log[i], b.log[i])
  {
    hide Exec, SameUpToOrder, CarriesLease;
    ListingOrderIrrelevant(site, o, o', n, TierTasks(Tiers(Base(kvPrefix, id), id, branchful)));
    var a := SweepRun(site, kvPrefix, o, n, id, branchful);
    var b := SweepRun(site, kvPrefix, o', n, id, branchful);
    SameLeases(a.log, b.log);
    forall i | 0 <= i < |a.log| ensures SameEvent(b.log[i], a.log[i]) { assert SameEvent(a.log[i], b.log[i]); }
    SameLeases(b.log, a.log);
  }

  /** The order in which Vault lists keys changes nothing: same requests, same outcome, same secrets,
      even when two keys collide after normalisation. */
  lemma {:induction false} ListingOrderIrrelevant(site: Site, o: Reads, o': Reads, n: nat, tasks: seq<Task>)
    requires forall k: nat, r: Request :: SameUpToOrder(o(k, r), o'(k, r), r.list)
    ensures var a, b := Exec(site, o, n, tasks), Exec(site, o', n, tasks);
            && a.ok == b.ok && a.found == b.found && |a.log| == |b.log|
            && forall i | 0 <= i < |a.log| ::
                 SameEvent(a.log[i], b.log[i])
    decreases CountLevel(tasks, 2), CountLevel(tasks, 1), CountLevel(tasks, 0)
  {
    hide AnswerOf;
    if tasks != [] {
      var t, rest := tasks[0], tasks[1..];
      assert tasks == [t] + rest;
      ExecStep(site, o, n, t, rest);
      ExecStep(site, o', n, t, rest);
      assert SameUpToOrder(o(n, RequestOf(site, t)), o'(n, RequestOf(site, t)), RequestOf(site, t).list);
      AnswersAgree(site, o, o', n, t);
      if AnswerOf(site, o, n, t).Yield? {
        StepShrinks(site, o, n, t, rest);
        ListingOrderIrrelevant(site, o, o', n + 1, AnswerOf(site, o, n, t).next + rest);
      }
    }
  }

  // ---------- precedence ----------

  /** The order of precedence: more specific tier, then key. */
  ghost predicate Before(c: Candidate, d: Candidate) {
    c.rank < d.rank || (c.rank == d.rank && (c.key == d.key || Less(c.key, d.key)))
  }

  ghost predicate TaskBefore(t: Task, u: Task) {
    t.rank < u.rank || (t.rank == u.rank && !t.ListTier? && !u.ListTier? && (t.key == u.key || Less(t.key, u.key)))
  }

  ghost predicate Ordered(tasks: seq<Task>) {
    forall i, j | 0 <= i < j < |tasks| :: TaskBefore(tasks[i], tasks[j])
  }

  ghost predicate From(tasks: seq<Task>, c: Candidate) {
    exists t :: t in tasks && t.rank == c.rank && (t.ListTier? || t.key == c.key)
  }

  ghost predicate InOrder(found: seq<Candidate>) {
    forall i, j | 0 <= i < j < |found| :: Before(found[i], found[j])
  }

  lemma NextOrdered(site: Site, o: Reads, n: nat, t: Task)
    requires AnswerOf(site, o, n, t).Yield?
    ensures Ordered(AnswerOf(site, o, n, t).next)
  {
    hide Exec, CountLevel, PerField;
    var reply := o(n, RequestOf(site, t));
    if t.ListTier? && reply.Body? { SortExact(PlainKeys(DecodeKeys(reply.body).value)); }
  }

  lemma ReplacedHeadOrdered(t: Task, next: seq<Task>, rest: seq<Task>)
    requires Ordered(next) && Ordered([t] + rest)
    requires forall u | u in next :: !u.ListTier? && u.rank == t.rank && (!t.ListTier? ==> u.key == t.key)
    ensures Ordered(next + rest)
  {
    var all, old' := next + rest, [t] + rest;
    forall i, j | 0 <= i < j < |all| ensures TaskBefore(all[i], all[j]) {
      if j < |next| {
        assert all[i] == next[i] && all[j] == next[j];
      } else {
        var l := j - |next| + 1;
        assert all[j] == old'[l];
        if i < |next| {
          assert all[i] in next && TaskBefore(old'[0], old'[l]);
        } else {
          assert all[i] == old'[i - |next| + 1];
        }
      }
    }
  }

  lemma StepOrdered(site: Site, o: Reads, n: nat, t: Task, rest: seq<Task>)
    requires AnswerOf(site, o, n, t).Yield? && Ordered([t] + rest)
    ensures Ordered(AnswerOf(site, o, n, t).next + rest)
  {
    hide Expand, Exec, Ordered;
    ExpandOrigin(site, t, o(n, RequestOf(site, t)));
    NextOrdered(site, o, n, t);
    ReplacedHeadOrdered(t, AnswerOf(site, o, n, t).next, rest);
  }

  lemma FoundFromHead(site: Site, o: Reads, n: nat, t: Task, rest: seq<Task>, c: Candidate)
    requires AnswerOf(site, o, n, t).Yield?
    ensures From(AnswerOf(site, o, n, t).next + rest, c) ==> From([t] + rest, c)
    ensures c in AnswerOf(site, o, n, t).found ==> !t.ListTier? && t.rank == c.rank && t.key == c.key
  {
    hide Expand;
    ExpandOrigin(site, t, o(n, RequestOf(site, t)));
    var next := AnswerOf(site, o, n, t).next;
    if From(next + rest, c) {
      var u :| u in next + rest && u.rank == c.rank && (u.ListTier? || u.key == c.key);
      assert t in [t] + rest && forall w | w in rest :: w in [t] + rest;
    }
  }

  /** Candidates come out by tier and, within a tier, by key. */
  lemma {:induction false} FoundInOrder(site: Site, o: Reads, n: nat, tasks: seq<Task>)
    requires Ordered(tasks)
    ensures var found := Exec(site, o, n, tasks).found;
            InOrder(found) && forall c | c in found :: From(tasks, c)
    decreases CountLevel(tasks, 2), CountLevel(tasks, 1), CountLevel(tasks, 0)
  {
    hide AnswerOf;
    if tasks != [] {
      var t, rest := tasks[0], tasks[1..];
      assert tasks == [t] + rest;
      ExecStep(site, o, n, t, rest);
      if AnswerOf(site, o, n, t).Yield? {
        var first, tasks' := AnswerOf(site, o, n, t).found, AnswerOf(site, o, n, t).next + rest;
        StepShrinks(site, o, n, t, rest);
        StepOrdered(site, o, n, t, rest);
        FoundInOrder(site, o, n + 1, tasks');
        var later := Exec(site, o, n + 1, tasks').found;
        forall c | c in first + later ensures From(tasks, c) {
          FoundFromHead(site, o, n, t, rest, c);
          assert t in tasks;
        }
        var all: seq<Candidate> := first + later;
        forall i, j | 0 <= i < j < |all| ensures Before(all[i], all[j]) {
          if i < |first| {
            assert all[i] in first;
            FoundFromHead(site, o, n, t, rest, all[i]);
            HeadFirst(t, rest, all[i], all[j]);
          }
        }
      }
    }
  }

  lemma HeadFirst(t: Task, rest: seq<Task>, c: Candidate, d: Candidate)
    requires Ordered([t] + rest) && From([t] + rest, d)
    requires !t.ListTier? && t.rank == c.rank && t.key == c.key
    ensures Before(c, d)
  {
    var tasks := [t] + rest;
    var u :| u in tasks && u.rank == d.rank && (u.ListTier? || u.key == d.key);
    var i :| 0 <= i < |tasks| && tasks[i] == u;
    if i > 0 { assert TaskBefore(tasks[0], tasks[i]); }
  }

  // ---------- strict precedence ----------

  /** No listing repeats a key. */
  ghost predicate ListsOnce(o: Reads) {
    forall k: nat, r: Request | r.list && o(k, r).Body? && DecodeKeys(o(k, r).body).Some? :: Once(DecodeKeys(o(k, r).body).value)
  }

  /** More specific tier, then smaller key, then smaller field: a strict order on candidates. */
  ghost predicate Precedes(c: Candidate, d: Candidate) {
    || c.rank < d.rank
    || (c.rank == d.rank && Less(c.key, d.key))
    || (c.rank == d.rank && c.key == d.key && Less(c.field, d.field))
  }

  ghost predicate TaskPrecedes(t: Task, u: Task) {
    t.rank < u.rank || (t.rank == u.rank && !t.ListTier? && !u.ListTier? && Less(t.key, u.key))
  }

  ghost predicate Ranked(tasks: seq<Task>) {
    forall i, j | 0 <= i < j < |tasks| :: TaskPrecedes(tasks[i], tasks[j])
  }

  ghost predicate Stepwise(found: seq<Candidate>) {
    forall i, j | 0 <= i < j < |found| :: Precedes(found[i], found[j])
  }

  lemma NextRanked(site: Site, o: Reads, n: nat, t: Task)
    requires ListsOnce(o) && AnswerOf(site, o, n, t).Yield?
    ensures Ranked(AnswerOf(site, o, n, t).next)
  {
    hide Exec, CountLevel, PerField;
    var reply := o(n, RequestOf(site, t));
    if t.ListTier? && reply.Body? {
      var keys := DecodeKeys(reply.body).value;
      SortSorts(PlainKeys(keys));
      forall x ensures multiset(Sort(PlainKeys(keys)))[x] <= 1 {
        PlainKeysCount(keys, x);
        OnceCounts(keys, x);
      }
      SortedOnce(Sort(PlainKeys(keys)));
    } else {
      assert |AnswerOf(site, o, n, t).next| <= 1;
    }
  }

  lemma ReplacedHeadRanked(t: Task, next: seq<Task>, rest: seq<Task>)
    requires Ranked(next) && Ranked([t] + rest)
    requires forall u | u in next :: !u.ListTier? && u.rank == t.rank && (!t.ListTier? ==> u.key == t.key)
    ensures Ranked(next + rest)
  {
    var all, old' := next + rest, [t] + rest;
    forall i, j | 0 <= i < j < |all| ensures TaskPrecedes(all[i], all[j]) {
      if j < |next| {
        assert all[i] == next[i] && all[j] == next[j];
      } else {
        var l := j - |next| + 1;
        assert all[j] == old'[l];
        if i < |next| {
          assert all[i] in next && TaskPrecedes(old'[0], old'[l]);
        } else {
          assert all[i] == old'[i - |next| + 1];
        }
      }
    }
  }

  lemma SingleStepwise(t: Task, via: seq<Request>, d: Fields, pins: Pins)
    requires !t.ListTier?
    ensures Stepwise(PerField(t, via, d, SortedKeys(d.Keys), pins))
  {
    GeneralForm(t, via, d, pins);
    PerFieldOrigin(t, via, d, SortedKeys(d.Keys), pins);
  }

  /** One reply's candidates increase by field. */
  lemma FoundStepwise(site: Site, t: Task, reply: Reply)
    requires Expand(site, t, reply).Yield?
    ensures Stepwise(Expand(site, t, reply).found)
  {
    hide PerField, Stepwise, NormalizeName, Kv2Inner, Sort, Enumerate;
    var via := ViaOf(t) + [RequestOf(site, t)];
    if reply.Body? && t.ReadEntry? {
      var e := DecodeEntry(reply.body).value;
      SingleStepwise(t, via, e.fields, EntryPins(e.custom));
    }
    if reply.Body? && t.FollowRef? {
      var d := DecodeDeref(reply.body).value.fields;
      SingleStepwise(t, via, d, t.pins);
      if Kv2Inner(d).Some? { SingleStepwise(t, via, Kv2Inner(d).value, t.pins); }
    }
    ShortStepwise(Expand(site, t, reply).found);
  }

  lemma ShortStepwise(found: seq<Candidate>)
    ensures |found| <= 1 ==> Stepwise(found)
  {}

  lemma HeadPrecedes(t: Task, rest: seq<Task>, c: Candidate, d: Candidate)
    requires Ranked([t] + rest) && From(rest, d)
    requires !t.ListTier? && t.rank == c.rank && t.key == c.key
    ensures Precedes(c, d)
  {
    var u :| u in rest && u.rank == d.rank && (u.ListTier? || u.key == d.key);
    var i :| 0 <= i < |rest| && rest[i] == u;
    assert TaskPrecedes(([t] + rest)[0], ([t] + rest)[i + 1]);
  }

  lemma JoinStepwise(a: seq<Candidate>, b: seq<Candidate>)
    requires Stepwise(a) && Stepwise(b)
    requires forall c, d | c in a && d in b :: Precedes(c, d)
    ensures Stepwise(a + b)
  {
    forall i, j | 0 <= i < j < |a + b| ensures Precedes((a + b)[i], (a + b)[j]) {
      if i < |a| <= j { assert a[i] in a && b[j - |a|] in b; }
    }
  }

  /** If no key is listed twice, candidates come out in strictly increasing order of tier, key and
      field, whatever else the server does. */
  lemma {:induction false} FoundInStrictOrder(site: Site, o: Reads, n: nat, tasks: seq<Task>)
    requires ListsOnce(o) && Ranked(tasks)
    ensures var found := Exec(site, o, n, tasks).found;
            Stepwise(found) && forall c | c in found :: From(tasks, c)
    decreases CountLevel(tasks, 2), CountLevel(tasks, 1), CountLevel(tasks, 0)
  {
    hide Expand, Stepwise, Ranked, ListsOnce, From;
    if tasks != [] {
      var t, rest := tasks[0], tasks[1..];
      assert tasks == [t] + rest;
      ExecStep(site, o, n, t, rest);
      if AnswerOf(site, o, n, t).Yield? {
        var a := AnswerOf(site, o, n, t);
        StepShrinks(site, o, n, t, rest);
        ExpandOrigin(site, t, o(n, RequestOf(site, t)));
        NextRanked(site, o, n, t);
        ReplacedHeadRanked(t, a.next, rest);
        FoundInStrictOrder(site, o, n + 1, a.next + rest);
        var later := Exec(site, o, n + 1, a.next + rest).found;
        forall c | c in a.found + later ensures From(tasks, c) {
          FoundFromHead(site, o, n, t, rest, c);
          HeadIsFrom(t, rest, c);
        }
        FoundStepwise(site, t, o(n, RequestOf(site, t)));
        forall c, d | c in a.found && d in later ensures Precedes(c, d) {
          assert a.next + rest == rest;
          HeadPrecedes(t, rest, c, d);
        }
        JoinStepwise(a.found, later);
      } else {
        ShortStepwise([]);
      }
    } else {
      ShortStepwise([]);
    }
  }

  lemma HeadIsFrom(t: Task, rest: seq<Task>, c: Candidate)
    ensures t.rank == c.rank && !t.ListTier? && t.key == c.key ==> From([t] + rest, c)
  {
    assert t in [t] + rest;
  }

  // ---------- first writer wins ----------

  /** The i-th candidate has a valid name that no earlier candidate has. */
  ghost predicate IsFirst(found: seq<Candidate>, i: nat)
    requires i < |found|
  {
    ValidName(found[i].secret.name) && forall j | 0 <= j < i :: found[j].secret.name != found[i].secret.name
  }

  /** The candidates that are first of their name, in order. */
  ghost function Firsts(found: seq<Candidate>): seq<SweptSecret> {
    if found == [] then [] else
      var i := |found| - 1;
      Firsts(found[..i]) + if IsFirst(found, i) then [found[i].secret] else []
  }

  lemma {:induction false} FirstsSound(found: seq<Candidate>, s: SweptSecret) returns (i: nat)
    requires s in Firsts(found)
    ensures i < |found| && IsFirst(found, i) && found[i].secret == s
  {
    i := |found| - 1;
    if s in Firsts(found[..i]) { i := FirstsSound(found[..i], s); }
  }

  lemma {:induction false} FirstsComplete(found: seq<Candidate>, i: nat)
    requires i < |found| && IsFirst(found, i)
    ensures found[i].secret in Firsts(found)
  {
    var k := |found| - 1;
    if i < k {
      assert IsFirst(found[..k], i);
      FirstsComplete(found[..k], i);
    }
  }

  /** The earliest candidate of a name some candidate has. */
  lemma {:induction false} Earliest(found: seq<Candidate>, i: nat) returns (j: nat)
    requires i < |found| && ValidName(found[i].secret.name)
    ensures j <= i && IsFirst(found, j) && found[j].secret.name == found[i].secret.name
  {
    if IsFirst(found, i) { j := i; } else {
      var k :| 0 <= k < i && found[k].secret.name == found[i].secret.name;
      j := Earliest(found, k);
    }
  }

  lemma FirstsNamed(found: seq<Candidate>, name: string)
    ensures Named(Firsts(found), name) <==> ValidName(name) && exists c :: c in found && c.secret.name == name
  {
    if Named(Firsts(found), name) {
      var s :| s in Firsts(found) && s.name == name;
      var i := FirstsSound(found, s);
      assert found[i] in found;
    }
    if ValidName(name) && exists c :: c in found && c.secret.name == name {
      var c :| c in found && c.secret.name == name;
      var i :| 0 <= i < |found| && found[i] == c;
      var j := Earliest(found, i);
      FirstsComplete(found, j);
    }
  }

  /** The accumulator computes exactly the first-occurrence filter. */
  lemma {:induction false} KeepIsFirsts(found: seq<Candidate>)
    ensures Keep([], found) == Firsts(found)
    decreases |found|
  {
    if found != [] {
      var k := |found| - 1;
      var init, c := found[..k], found[k];
      assert found == init + [c];
      KeepIsFirsts(init);
      KeepAppend([], init, [c]);
      FirstsNamed(init, c.secret.name);
      assert IsFirst(found, k) <==> ValidName(c.secret.name) && !Named(Firsts(init), c.secret.name) by {
        assert forall j | 0 <= j < k :: found[j] == init[j] && init[j] in init;
      }
    }
  }

  /** Names in the result are valid and distinct. */
  lemma {:induction false} NamesUnique(found: seq<Candidate>)
    ensures forall s | s in Firsts(found) :: ValidName(s.name)
    ensures forall i, j | 0 <= i < j < |Firsts(found)| :: Firsts(found)[i].name != Firsts(found)[j].name
  {
    forall s | s in Firsts(found) ensures ValidName(s.name) { var i := FirstsSound(found, s); }
    if found != [] {
      var k := |found| - 1;
      NamesUnique(found[..k]);
      if IsFirst(found, k) {
        forall i | 0 <= i < |Firsts(found[..k])| ensures Firsts(found[..k])[i].name != found[k].secret.name {
          var j := FirstsSound(found[..k], Firsts(found[..k])[i]);
        }
      }
    }
  }

  lemma TierTasksOrdered(tiers: seq<string>)
    ensures Ordered(TierTasks(tiers)) && Ranked(TierTasks(tiers))
  {}

  /** The secret comes from a candidate that no other candidate of its name precedes by tier or,
      within the tier, by key. */
  ghost predicate MostSpecific(found: seq<Candidate>, s: SweptSecret) {
    exists c :: c in found && c.secret == s && NonePrecedes(found, c)
  }

  ghost predicate NonePrecedes(found: seq<Candidate>, c: Candidate) {
    forall d | d in found && d.secret.name == c.secret.name :: Before(c, d)
  }

  /** The secrets of a successful sweep: valid, distinct names; one for every valid name offered; and
      each with the value and pins of the most specific offer of its name. */
  lemma MostSpecificWins(site: Site, kvPrefix: string, o: Reads, n: nat, id: Identity, branchful: bool)
    ensures var run := SweepRun(site, kvPrefix, o, n, id, branchful);
            Outcome(run).Some? ==>
              var secrets := Outcome(run).value.secrets;
              && (forall i, j | 0 <= i < j < |secrets| :: secrets[i].name != secrets[j].name)
              && (forall s | s in secrets :: ValidName(s.name))
              && (forall c | c in run.found && ValidName(c.secret.name) :: Named(secrets, c.secret.name))
              && (forall s | s in secrets :: MostSpecific(run.found, s))
  {
    hide Exec, Before;
    var tasks := TierTasks(Tiers(Base(kvPrefix, id), id, branchful));
    var run := Exec(site, o, n, tasks);
    var found := run.found;
    TierTasksOrdered(Tiers(Base(kvPrefix, id), id, branchful));
    FoundInOrder(site, o, n, tasks);
    KeepIsFirsts(found);
    NamesUnique(found);
    forall c | c in found && ValidName(c.secret.name) ensures Named(Firsts(found), c.secret.name) {
      FirstsNamed(found, c.secret.name);
    }
    forall s | s in Firsts(found) ensures MostSpecific(found, s) {
      var i := FirstsSound(found, s);
      assert found[i] in found;
      forall d | d in found && d.secret.name == s.name ensures Before(found[i], d) {
        var j :| 0 <= j < |found| && found[j] == d;
        if i == j { BeforeItself(d); }
      }
      assert NonePrecedes(found, found[i]);
    }
  }

  /** Each secret comes from the one offer of its name that strictly precedes every other: more
      specific tier, then smaller key, then smaller field. This decides every collision. */
  lemma StrictestWins(site: Site, kvPrefix: string, o: Reads, n: nat, id: Identity, branchful: bool, s: SweptSecret)
    requires ListsOnce(o)
    requires var run := SweepRun(site, kvPrefix, o, n, id, branchful); run.ok && s in Outcome(run).value.secrets
    ensures var found := SweepRun(site, kvPrefix, o, n, id, branchful).found;
            exists c :: c in found && c.secret == s
                        && forall d | d in found && d.secret.name == s.name :: d == c || Precedes(c, d)
  {
    hide Exec, Precedes, ListsOnce;
    var tasks := TierTasks(Tiers(Base(kvPrefix, id), id, branchful));
    var found := Exec(site, o, n, tasks).found;
    TierTasksOrdered(Tiers(Base(kvPrefix, id), id, branchful));
    FoundInStrictOrder(site, o, n, tasks);
    KeepIsFirsts(found);
    var i := FirstsSound(found, s);
    assert found[i] in found;
    forall d | d in found && d.secret.name == s.name ensures d == found[i] || Precedes(found[i], d) {
      var j :| 0 <= j < |found| && found[j] == d;
    }
  }

  lemma BeforeItself(c: Candidate)
    ensures Before(c, c)
  {
  }

  // ---------- what the store offers ----------

  /** A steady store offers the candidate below this task: it is among what the reply yields, or
      below one of the tasks the reply spawns. */
  ghost predicate Offers(site: Site, v: Request -> Reply, t: Task, c: Candidate)
    decreases Level(t)
  {
    var a := Expand(site, t, v(RequestOf(site, t)));
    a.Yield? && (c in a.found || exists u :: u in a.next && Level(u) < Level(t) && Offers(site, v, u, c))
  }

  ghost predicate OffersAny(site: Site, v: Request -> Reply, tasks: seq<Task>, c: Candidate) {
    exists t :: t in tasks && Offers(site, v, t, c)
  }

  lemma OffersSplit(site: Site, v: Request -> Reply, a: seq<Task>, b: seq<Task>, c: Candidate)
    ensures OffersAny(site, v, a + b, c) <==> OffersAny(site, v, a, c) || OffersAny(site, v, b, c)
  {
    hide Offers;
    assert forall u :: u in a + b <==> u in a || u in b;
  }

  lemma OffersStep(site: Site, v: Request -> Reply, n: nat, t: Task, rest: seq<Task>, c: Candidate)
    requires AnswerOf(site, Snapshot(v), n, t).Yield?
    ensures var a := AnswerOf(site, Snapshot(v), n, t);
            OffersAny(site, v, [t] + rest, c) <==> c in a.found || OffersAny(site, v, a.next + rest, c)
  {
    hide Expand, Exec, CountLevel;
    var a := AnswerOf(site, Snapshot(v), n, t);
    NextLevel(site, t, v(RequestOf(site, t)));
    assert Offers(site, v, t, c) <==> c in a.found || OffersAny(site, v, a.next, c);
    OffersSplit(site, v, [t], rest, c);
    OffersSplit(site, v, a.next, rest, c);
    assert OffersAny(site, v, [t], c) <==> Offers(site, v, t, c) by { assert t in [t]; }
  }

  /** On a steady store a successful run finds exactly what is offered: nothing is missed, nothing
      made up. */
  lemma {:induction false} FindsWhatIsOffered(site: Site, v: Request -> Reply, n: nat, tasks: seq<Task>, c: Candidate)
    requires Exec(site, Snapshot(v), n, tasks).ok
    ensures c in Exec(site, Snapshot(v), n, tasks).found <==> OffersAny(site, v, tasks, c)
    decreases CountLevel(tasks, 2), CountLevel(tasks, 1), CountLevel(tasks, 0)
  {
    hide AnswerOf, OffersAny;
    var o := Snapshot(v);
    if tasks != [] {
      var t, rest := tasks[0], tasks[1..];
      assert tasks == [t] + rest;
      ExecStep(site, o, n, t, rest);
      StepShrinks(site, o, n, t, rest);
      OffersStep(site, v, n, t, rest, c);
      FindsWhatIsOffered(site, v, n + 1, AnswerOf(site, o, n, t).next + rest, c);
    } else {
      OffersNothing(site, v, c);
    }
  }

  lemma OffersNothing(site: Site, v: Request -> Reply, c: Candidate)
    ensures !OffersAny(site, v, [], c)
  {}

  // ---------- the declarative reading of a tier ----------

  ghost predicate NamedFor(c: Candidate, single: bool) {
    c.secret.name == if single then NormalizeName(c.key) else NormalizeName(c.key) + "_" + NormalizeName(c.field)
  }

  /** The data of a dereference holds the candidate: as the one secret of a KV v2-shaped target with a
      string `value`, or as a string field of the target (unwrapped if KV v2-shaped). */
  ghost predicate TargetHolds(d: Fields, c: Candidate) {
    match Kv2Inner(d)
    case Some(inner) =>
      if StringField(inner, "value").Some?
      then c.field == "value" && StringField(inner, "value") == Some(c.secret.value) && NamedFor(c, true)
      else StringField(inner, c.field) == Some(c.secret.value) && NamedFor(c, false)
    case None => StringField(d, c.field) == Some(c.secret.value) && NamedFor(c, false)
  }

  /** The target of a reference is readable and holds the candidate. */
  ghost predicate RefHolds(v: Request -> Reply, target: Request, c: Candidate) {
    v(target).Body? && DecodeDeref(v(target).body).Some? && TargetHolds(DecodeDeref(v(target).body).value.fields, c)
  }

  /** The pins stored under a metadata key: none if it is absent, else its comma list. */
  ghost predicate PinnedBy(custom: map<string, string>, key: string, pins: seq<string>) {
    pins == if key in custom then CommaList(custom[key]) else []
  }

  /** A readable entry holds the candidate, with the pins of its own metadata: as a string field of
      its own, or behind its reference. */
  ghost predicate EntryHolds(site: Site, v: Request -> Reply, via: seq<Request>, entry: Request, c: Candidate) {
    && v(entry).Body? && DecodeEntry(v(entry).body).Some?
    && var e := DecodeEntry(v(entry).body).value;
       && PinnedBy(e.custom, "ironbark_images", c.secret.images)
       && PinnedBy(e.custom, "ironbark_events", c.secret.events)
       && if e.fields.Keys == {"$ref"} then
            && StringField(e.fields, "$ref").Some?
            && var target := Request(site.token, StringField(e.fields, "$ref").value, false);
               c.via == via + [entry, target] && RefHolds(v, target, c)
          else
            && c.via == via + [entry]
            && StringField(e.fields, c.field) == Some(c.secret.value)
            && NamedFor(c, e.fields.Keys == {"value"})
  }

  ghost predicate DotPrefixed(k: string) { exists x :: k == "." + x }

  ghost predicate IsDirectory(k: string) { exists x :: k == x + "/" }

  /** The keys a sweep reads: neither dot-prefixed nor a directory. */
  lemma PlainKeyExact(k: string)
    ensures PlainKey(k) <==> !DotPrefixed(k) && !IsDirectory(k)
  {
    if k != "" && k[0] == '.' { assert k == "." + k[1..]; }
    if k != "" && k[|k| - 1] == '/' { assert k == k[..|k| - 1] + "/"; }
  }

  /** The plain keys of a listing, in its order. */
  lemma {:induction false} PlainKeysInOrder(a: seq<string>, b: seq<string>, k: string)
    ensures PlainKeys(a + b) == PlainKeys(a) + PlainKeys(b)
    ensures PlainKeys([k]) == if DotPrefixed(k) || IsDirectory(k) then [] else [k]
  {
    hide DotPrefixed, IsDirectory;
    PlainKeyExact(k);
    assert PlainKeys([k][..0]) == [];
    hide PlainKey;
    if b == [] {
      assert a + b == a;
    } else {
      var n := |b| - 1;
      PlainKeysInOrder(a, b[..n], k);
      assert (a + b)[..|a| + n] == a + b[..n];
    }
  }

  /** The tier holds the candidate: it is readable, lists the key as a plain key, and the key's entry
      holds the candidate. */
  ghost predicate TierHolds(site: Site, v: Request -> Reply, rank: nat, tier: string, c: Candidate) {
    var list := Request(site.token, site.mount + "/metadata/" + tier, true);
    && c.rank == rank
    && v(list).Body? && DecodeKeys(v(list).body).Some?
    && c.key in DecodeKeys(v(list).body).value && !DotPrefixed(c.key) && !IsDirectory(c.key)
    && EntryHolds(site, v, [list], Request(site.token, site.mount + "/data/" + tier + "/" + c.key, false), c)
  }

  lemma RefOffers(site: Site, v: Request -> Reply, t: Task, c: Candidate)
    requires t.FollowRef?
    ensures Offers(site, v, t, c) <==>
            && c.rank == t.rank && c.key == t.key && c.via == t.via + [RequestOf(site, t)]
            && Pins(c.secret.images, c.secret.events) == t.pins
            && RefHolds(v, RequestOf(site, t), c)
  {
    hide DerefFound, TargetHolds, DecodeDeref;
    var reply, via := v(RequestOf(site, t)), t.via + [RequestOf(site, t)];
    if reply.Body? && DecodeDeref(reply.body).Some? {
      DerefFoundHolds(t, via, DecodeDeref(reply.body).value.fields, c);
    }
  }

  lemma DerefFoundHolds(t: Task, via: seq<Request>, d: Fields, c: Candidate)
    requires t.FollowRef?
    ensures c in DerefFound(t, via, d) <==>
            && c.rank == t.rank && c.key == t.key && c.via == via
            && Pins(c.secret.images, c.secret.events) == t.pins
            && TargetHolds(d, c)
  {
    hide NormalizeName, PerField, Sort, Enumerate, Kv2Inner;
    GeneralForm(t, via, d, t.pins);
    if Kv2Inner(d).Some? { GeneralForm(t, via, Kv2Inner(d).value, t.pins); }
  }

  lemma EntryOffers(site: Site, v: Request -> Reply, t: Task, c: Candidate)
    requires t.ReadEntry?
    ensures Offers(site, v, t, c) <==>
            c.rank == t.rank && c.key == t.key && EntryHolds(site, v, t.via, RequestOf(site, t), c)
  {
    hide NormalizeName, RefHolds;
    var entry := RequestOf(site, t);
    var via := t.via + [entry];
    if v(entry).Body? && DecodeEntry(v(entry).body).Some? {
      var e := DecodeEntry(v(entry).body).value;
      FormsExact(e.fields, c.field, c.secret.value);
      var pins := EntryPins(e.custom);
      assert Expand(site, t, v(entry)) == ExpandEntry(t, via, e);
      if IsPointerForm(e.fields) {
        if StringField(e.fields, "$ref").Some? {
          var f := FollowRef(t.rank, t.key, StringField(e.fields, "$ref").value, pins, via);
          RefOffers(site, v, f, c);
          assert Offers(site, v, t, c) <==> Offers(site, v, f, c) by { assert f in [f]; }
          assert via + [RequestOf(site, f)] == t.via + [entry, RequestOf(site, f)];
        }
      } else if !IsShorthandForm(e.fields) {
        GeneralForm(t, via, e.fields, pins);
      }
    }
  }

  lemma TierOffers(site: Site, v: Request -> Reply, rank: nat, tier: string, c: Candidate)
    ensures Offers(site, v, ListTier(rank, tier), c) <==> TierHolds(site, v, rank, tier, c)
  {
    hide EntryHolds, PlainKey, DotPrefixed, IsDirectory;
    PlainKeyExact(c.key);
    var t := ListTier(rank, tier);
    var list := RequestOf(site, t);
    if v(list).Body? && DecodeKeys(v(list).body).Some? {
      var keys := DecodeKeys(v(list).body).value;
      var sorted := Sort(PlainKeys(keys));
      var next := EntryTasks(rank, tier, sorted, [list]);
      assert Expand(site, t, v(list)) == Yield(next, []) by { assert ViaOf(t) + [list] == [list]; }
      SortSorts(PlainKeys(keys));
      PlainKeysCount(keys, c.key);
      assert c.key in sorted <==> c.key in multiset(sorted);
      assert c.key in keys <==> c.key in multiset(keys);
      assert c.key in sorted <==> c.key in keys && PlainKey(c.key);
      EntryTasksOffer(site, v, rank, tier, sorted, [list], c);
    }
  }

  lemma EntryTasksOffer(site: Site, v: Request -> Reply, rank: nat, tier: string, keys: seq<string>, via: seq<Request>,
                        c: Candidate)
    ensures OffersAny(site, v, EntryTasks(rank, tier, keys, via), c) <==>
            && c.rank == rank && c.key in keys
            && EntryHolds(site, v, via, RequestOf(site, ReadEntry(rank, tier, c.key, via)), c)
  {
    hide EntryHolds;
    var tasks := EntryTasks(rank, tier, keys, via);
    forall i | 0 <= i < |keys| { EntryOffers(site, v, tasks[i], c); }
    if c.key in keys {
      var i :| 0 <= i < |keys| && keys[i] == c.key;
      assert tasks[i] in tasks && tasks[i] == ReadEntry(rank, tier, c.key, via);
    }
  }

  /** The full declarative specification of what a sweep finds on a steady store: the candidates are
      exactly what the tiers hold. Their order is FoundInOrder's, and the result their first-of-name
      filter. */
  lemma FindsWhatTiersHold(site: Site, kvPrefix: string, v: Request -> Reply, n: nat, id: Identity, branchful: bool,
                           c: Candidate)
    requires SweepRun(site, kvPrefix, Snapshot(v), n, id, branchful).ok
    ensures var tiers := Tiers(Base(kvPrefix, id), id, branchful);
            c in SweepRun(site, kvPrefix, Snapshot(v), n, id, branchful).found <==>
            exists i :: 0 <= i < |tiers| && TierHolds(site, v, i, tiers[i], c)
  {
    hide Exec, TierHolds, Offers;
    var tiers := Tiers(Base(kvPrefix, id), id, branchful);
    var tasks := TierTasks(tiers);
    FindsWhatIsOffered(site, v, n, tasks, c);
    forall i | 0 <= i < |tiers| ensures Offers(site, v, tasks[i], c) <==> TierHolds(site, v, i, tiers[i], c) {
      TierOffers(site, v, i, tiers[i], c);
    }
    if OffersAny(site, v, tasks, c) {
      var t :| t in tasks && Offers(site, v, t, c);
      var i :| 0 <= i < |tasks| && tasks[i] == t;
    }
    if i :| 0 <= i < |tiers| && TierHolds(site, v, i, tiers[i], c) { assert tasks[i] in tasks; }
  }

  // ---------- the ordered specification ----------

  /** The candidates behind a reference, in order. */
  ghost function RefCandidates(site: Site, v: Request -> Reply, t: Task): seq<Candidate>
    requires t.FollowRef?
  {
    var target := RequestOf(site, t);
    if v(target).Body? && DecodeDeref(v(target).body).Some?
    then DerefFound(t, t.via + [target], DecodeDeref(v(target).body).value.fields) else []
  }

  /** The candidates of one key of a tier, in order. */
  ghost function EntryCandidates(site: Site, v: Request -> Reply, t: Task): seq<Candidate>
    requires t.ReadEntry?
  {
    var entry := RequestOf(site, t);
    var via := t.via + [entry];
    if !v(entry).Body? || DecodeEntry(v(entry).body).None? then [] else
      var e := DecodeEntry(v(entry).body).value;
      var pins := EntryPins(e.custom);
      if e.fields.Keys == {"$ref"} then
        (match StringField(e.fields, "$ref")
         case None => []
         case Some(ref) => RefCandidates(site, v, FollowRef(t.rank, t.key, ref, pins, via)))
      else if e.fields.Keys == {"value"} then
        (match StringField(e.fields, "value")
         case None => []
         case Some(value) => [Single(t, via, "value", value, pins)])
      else PerField(t, via, e.fields, SortedKeys(e.fields.Keys), pins)
  }

  /** Those of a list of entries, one after the other. */
  ghost function EntriesCandidates(site: Site, v: Request -> Reply, tasks: seq<Task>): seq<Candidate>
    requires forall t | t in tasks :: t.ReadEntry?
  {
    if tasks == [] then [] else
      var k := |tasks| - 1;
      EntriesCandidates(site, v, tasks[..k]) + EntryCandidates(site, v, tasks[k])
  }

  /** Those of a tier: of its plain keys, sorted. */
  ghost function TierCandidates(site: Site, v: Request -> Reply, rank: nat, tier: string): seq<Candidate> {
    var list := Request(site.token, site.mount + "/metadata/" + tier, true);
    if !v(list).Body? || DecodeKeys(v(list).body).None? then [] else
      EntriesCandidates(site, v, EntryTasks(rank, tier, Sort(PlainKeys(DecodeKeys(v(list).body).value)), [list]))
  }

  /** Those of all tiers, most specific first. */
  ghost function TiersCandidates(site: Site, v: Request -> Reply, tiers: seq<string>): seq<Candidate> {
    if tiers == [] then [] else
      var k := |tiers| - 1;
      TiersCandidates(site, v, tiers[..k]) + TierCandidates(site, v, k, tiers[k])
  }

  /** A task and all it leads to: what its reply yields, then what the tasks it spawns find. */
  lemma RunsSingle(site: Site, o: Reads, n: nat, t: Task)
    requires Exec(site, o, n, [t]).ok
    ensures AnswerOf(site, o, n, t).Yield? && Exec(site, o, n + 1, AnswerOf(site, o, n, t).next).ok
    ensures var a := AnswerOf(site, o, n, t);
            Exec(site, o, n, [t]).found == a.found + Exec(site, o, n + 1, a.next).found
  {
    hide Exec, AnswerOf;
    ExecStep(site, o, n, t, []);
    assert [t] + [] == [t];
    if AnswerOf(site, o, n, t).Yield? {
      assert AnswerOf(site, o, n, t).next + [] == AnswerOf(site, o, n, t).next;
    }
  }

  lemma RunsRef(site: Site, v: Request -> Reply, n: nat, t: Task)
    requires t.FollowRef? && Exec(site, Snapshot(v), n, [t]).ok
    ensures Exec(site, Snapshot(v), n, [t]).found == RefCandidates(site, v, t)
  {
    hide Exec, DerefFound, DecodeDeref;
    ExecLeaf(site, Snapshot(v), n, t);
  }

  lemma RunsEntry(site: Site, v: Request -> Reply, n: nat, t: Task)
    requires t.ReadEntry? && Exec(site, Snapshot(v), n, [t]).ok
    ensures Exec(site, Snapshot(v), n, [t]).found == EntryCandidates(site, v, t)
  {
    hide Exec, PerField, DecodeEntry, EntryPins, RefCandidates;
    var o, entry := Snapshot(v), RequestOf(site, t);
    RunsSingle(site, o, n, t);
    ExecNothing(site, o, n + 1);
    if v(entry).Body? && DecodeEntry(v(entry).body).Some? {
      var e := DecodeEntry(v(entry).body).value;
      OneKey(e.fields, "$ref");
      OneKey(e.fields, "value");
      var a := ExpandEntry(t, t.via + [entry], e);
      assert AnswerOf(site, o, n, t) == a;
      if a.next != [] { RunsRef(site, v, n + 1, a.next[0]); }
    }
  }

  lemma {:induction false} RunsEntries(site: Site, v: Request -> Reply, n: nat, tasks: seq<Task>)
    requires (forall t | t in tasks :: t.ReadEntry?) && Exec(site, Snapshot(v), n, tasks).ok
    ensures Exec(site, Snapshot(v), n, tasks).found == EntriesCandidates(site, v, tasks)
  {
    hide Exec, EntryCandidates;
    var o := Snapshot(v);
    if tasks == [] {
      ExecNothing(site, o, n);
    } else {
      var k := |tasks| - 1;
      ExecAppend(site, o, n, tasks[..k], [tasks[k]]);
      assert tasks == tasks[..k] + [tasks[k]];
      RunsEntries(site, v, n, tasks[..k]);
      RunsEntry(site, v, n + |Exec(site, o, n, tasks[..k]).log|, tasks[k]);
    }
  }

  lemma RunsTier(site: Site, v: Request -> Reply, n: nat, rank: nat, tier: string)
    requires Exec(site, Snapshot(v), n, [ListTier(rank, tier)]).ok
    ensures Exec(site, Snapshot(v), n, [ListTier(rank, tier)]).found == TierCandidates(site, v, rank, tier)
  {
    hide Exec, EntriesCandidates, PlainKeys, Sort;
    var t, o := ListTier(rank, tier), Snapshot(v);
    var list := RequestOf(site, t);
    RunsSingle(site, o, n, t);
    ExecNothing(site, o, n + 1);
    if v(list).Body? && DecodeKeys(v(list).body).Some? {
      var next := EntryTasks(rank, tier, Sort(PlainKeys(DecodeKeys(v(list).body).value)), [list]);
      assert AnswerOf(site, o, n, t) == Yield(next, []) by { assert ViaOf(t) + [list] == [list]; }
      RunsEntries(site, v, n + 1, next);
    }
  }

  lemma {:induction false} RunsTiers(site: Site, v: Request -> Reply, n: nat, tiers: seq<string>)
    requires Exec(site, Snapshot(v), n, TierTasks(tiers)).ok
    ensures Exec(site, Snapshot(v), n, TierTasks(tiers)).found == TiersCandidates(site, v, tiers)
  {
    hide Exec, TierCandidates;
    var o := Snapshot(v);
    if tiers == [] {
      ExecNothing(site, o, n);
    } else {
      var k := |tiers| - 1;
      var init := TierTasks(tiers[..k]);
      assert TierTasks(tiers) == init + [ListTier(k, tiers[k])];
      ExecAppend(site, o, n, init, [ListTier(k, tiers[k])]);
      RunsTiers(site, v, n, tiers[..k]);
      RunsTier(site, v, n + |Exec(site, o, n, init).log|, k, tiers[k]);
    }
  }

  /** The specification of a sweep of a steady store, order and multiplicity included: the candidates
      are those of the tiers, most specific first, of each tier's plain keys in sorted order, of each
      entry's fields in sorted order; and the result is the first valid candidate of each name. */
  lemma SweepSpecified(site: Site, kvPrefix: string, v: Request -> Reply, n: nat, id: Identity, branchful: bool)
    requires SweepRun(site, kvPrefix, Snapshot(v), n, id, branchful).ok
    ensures var run, tiers := SweepRun(site, kvPrefix, Snapshot(v), n, id, branchful), Tiers(Base(kvPrefix, id), id, branchful);
            && run.found == TiersCandidates(site, v, tiers)
            && Outcome(run).value.secrets == Firsts(TiersCandidates(site, v, tiers))
  {
    hide Exec, Keep, Firsts;
    var tiers := Tiers(Base(kvPrefix, id), id, branchful);
    RunsTiers(site, v, n, tiers);
    KeepIsFirsts(TiersCandidates(site, v, tiers));
  }

  // ---------- visibility ----------

  /** The same store with some requests answered 403 or 404. */
  function Hidden(v: Request -> Reply, h: set<Request>): Request -> Reply {
    (r: Request) => if r in h then Denied else v(r)
  }

  ghost predicate Visible(h: set<Request>, via: seq<Request>) { forall r | r in via :: r !in h }

  /** The candidates none of whose requests is hidden. */
  ghost function Survivors(h: set<Request>, found: seq<Candidate>): seq<Candidate> {
    if found == [] then [] else
      var i := |found| - 1;
      Survivors(h, found[..i]) + if Visible(h, found[i].via) then [found[i]] else []
  }

  lemma {:induction false} SurvivorsAppend(h: set<Request>, a: seq<Candidate>, b: seq<Candidate>)
    ensures Survivors(h, a + b) == Survivors(h, a) + Survivors(h, b)
  {
    if b == [] {
      assert a + b == a;
    } else {
      var k := |b| - 1;
      SurvivorsAppend(h, a, b[..k]);
      assert (a + b)[..|a| + k] == a + b[..k];
    }
  }

  lemma {:induction false} SurvivorsUniform(h: set<Request>, a: seq<Candidate>, visible: bool)
    requires forall c | c in a :: Visible(h, c.via) <==> visible
    ensures Survivors(h, a) == if visible then a else []
  {
    if a != [] {
      SurvivorsUniform(h, a[..|a| - 1], visible);
      assert a == a[..|a| - 1] + [a[|a| - 1]];
    }
  }

  /** Everything found below a task was reached through the requests that led to the task. */
  lemma {:induction false} FoundThrough(site: Site, o: Reads, n: nat, tasks: seq<Task>, via: seq<Request>)
    requires forall t | t in tasks :: via <= ViaOf(t)
    ensures forall c | c in Exec(site, o, n, tasks).found :: via <= c.via
    decreases CountLevel(tasks, 2), CountLevel(tasks, 1), CountLevel(tasks, 0)
  {
    hide Expand;
    if tasks != [] {
      var t, rest := tasks[0], tasks[1..];
      assert tasks == [t] + rest;
      ExecStep(site, o, n, t, rest);
      if AnswerOf(site, o, n, t).Yield? {
        ExpandOrigin(site, t, o(n, RequestOf(site, t)));
        StepShrinks(site, o, n, t, rest);
        FoundThrough(site, o, n + 1, AnswerOf(site, o, n, t).next + rest, via);
      }
    }
  }

  /** What a hidden request cuts off is invisible. */
  lemma CutOff(site: Site, v: Request -> Reply, h: set<Request>, n: nat, t: Task)
    requires RequestOf(site, t) in h && Exec(site, Snapshot(v), n, [t]).ok
    ensures Survivors(h, Exec(site, Snapshot(v), n, [t]).found) == []
  {
    hide Expand;
    var o := Snapshot(v);
    ExecStep(site, o, n, t, []);
    assert [t] + [] == [t];
    var a, via := AnswerOf(site, o, n, t), ViaOf(t) + [RequestOf(site, t)];
    ExpandOrigin(site, t, o(n, RequestOf(site, t)));
    assert a.next + [] == a.next;
    FoundThrough(site, o, n + 1, a.next, via);
    var found := Exec(site, o, n, [t]).found;
    forall c | c in found ensures !Visible(h, c.via) {
      assert via <= c.via && c.via[|via| - 1] == RequestOf(site, t);
    }
    SurvivorsUniform(h, found, false);
  }

  /** Hiding parts of a steady store gives exactly the sweep of the rest. */
  lemma {:induction false} HidingIsFiltering(site: Site, v: Request -> Reply, h: set<Request>, n: nat, m: nat, tasks: seq<Task>)
    requires Exec(site, Snapshot(v), n, tasks).ok
    requires forall t | t in tasks :: Visible(h, ViaOf(t))
    ensures var rest := Exec(site, Snapshot(Hidden(v, h)), m, tasks);
            rest.ok && rest.found == Survivors(h, Exec(site, Snapshot(v), n, tasks).found)
    decreases CountLevel(tasks, 2), CountLevel(tasks, 1), CountLevel(tasks, 0)
  {
    hide AnswerOf, Visible, CountLevel, Survivors;
    SurvivorsUniform(h, [], true);
    if tasks != [] {
      var o, o' := Snapshot(v), Snapshot(Hidden(v, h));
      var t, rest := tasks[0], tasks[1..];
      assert tasks == [t] + rest;
      if RequestOf(site, t) in h {
        var first := Exec(site, o, n, [t]);
        ExecAppend(site, o, n, [t], rest);
        ExecStep(site, o', m, t, rest);
        HiddenAnswer(site, o', m, t);
        assert [] + rest == rest;
        CutOff(site, v, h, n, t);
        TailShrinks(t, rest);
        HidingIsFiltering(site, v, h, n + |first.log|, m + 1, rest);
        SurvivorsAppend(h, first.found, Exec(site, o, n + |first.log|, rest).found);
      } else {
        ExecStep(site, o, n, t, rest);
        ExecStep(site, o', m, t, rest);
        SameAnswer(site, v, h, n, m, t);
        StepShrinks(site, o, n, t, rest);
        var a := AnswerOf(site, o, n, t);
        VisibleStep(site, v, h, n, t);
        HidingIsFiltering(site, v, h, n + 1, m + 1, a.next + rest);
        SurvivorsAppend(h, a.found, Exec(site, o, n + 1, a.next + rest).found);
      }
    }
  }

  lemma HiddenAnswer(site: Site, o: Reads, n: nat, t: Task)
    requires o(n, RequestOf(site, t)) == Denied
    ensures AnswerOf(site, o, n, t) == Yield([], [])
  {}

  lemma SameAnswer(site: Site, v: Request -> Reply, h: set<Request>, n: nat, m: nat, t: Task)
    requires RequestOf(site, t) !in h
    ensures AnswerOf(site, Snapshot(Hidden(v, h)), m, t) == AnswerOf(site, Snapshot(v), n, t)
  {
    hide Expand;
  }

  lemma VisibleStep(site: Site, v: Request -> Reply, h: set<Request>, n: nat, t: Task)
    requires RequestOf(site, t) !in h && Visible(h, ViaOf(t)) && AnswerOf(site, Snapshot(v), n, t).Yield?
    ensures forall u | u in AnswerOf(site, Snapshot(v), n, t).next :: Visible(h, ViaOf(u))
    ensures Survivors(h, AnswerOf(site, Snapshot(v), n, t).found) == AnswerOf(site, Snapshot(v), n, t).found
  {
    hide Expand;
    ExpandOrigin(site, t, v(RequestOf(site, t)));
    SurvivorsUniform(h, AnswerOf(site, Snapshot(v), n, t).found, true);
  }

  lemma {:induction false} SurvivorsMember(h: set<Request>, found: seq<Candidate>, c: Candidate)
    ensures c in Survivors(h, found) <==> c in found && Visible(h, c.via)
  {
    if found != [] {
      SurvivorsMember(h, found[..|found| - 1], c);
      assert found == found[..|found| - 1] + [found[|found| - 1]];
    }
  }

  /** A first candidate that survives is still first among the survivors. */
  lemma {:induction false} FirstSurvives(h: set<Request>, found: seq<Candidate>, i: nat)
    requires i < |found| && IsFirst(found, i) && Visible(h, found[i].via)
    ensures found[i].secret in Firsts(Survivors(h, found))
  {
    var k := |found| - 1;
    var init := Survivors(h, found[..k]);
    if i < k {
      FirstSurvives(h, found[..k], i);
      FirstsGrow(init, Survivors(h, found)[|init|..], found[i].secret);
      assert Survivors(h, found) == init + Survivors(h, found)[|init|..];
    } else {
      var all := init + [found[k]];
      forall j | 0 <= j < |init| ensures all[j].secret.name != found[k].secret.name {
        assert init[j] in init;
        SurvivorsMember(h, found[..k], init[j]);
      }
      FirstsComplete(all, |init|);
    }
  }

  lemma FirstsGrow(a: seq<Candidate>, b: seq<Candidate>, s: SweptSecret)
    requires s in Firsts(a)
    ensures s in Firsts(a + b)
  {
    var i := FirstsSound(a, s);
    FirstsComplete(a + b, i);
  }

  /** The full secret came from a hidden candidate, the first of its name. */
  ghost predicate Revealed(h: set<Request>, found: seq<Candidate>, s: SweptSecret) {
    exists i :: 0 <= i < |found| && IsFirst(found, i) && found[i].secret == s && !Visible(h, found[i].via)
  }

  lemma ChangedWasHidden(h: set<Request>, found: seq<Candidate>, s: SweptSecret, s': SweptSecret)
    requires s in Firsts(Survivors(h, found)) && s' in Firsts(found) && s'.name == s.name && s' != s
    ensures Revealed(h, found, s')
  {
    var i := FirstsSound(found, s');
    if Visible(h, found[i].via) {
      FirstSurvives(h, found, i);
      NamesUnique(Survivors(h, found));
      assert false;
    }
  }

  /** Revealing what was hidden drops no name, and changes a secret only in favour of a candidate
      that was itself hidden and is the first of its name. */
  lemma RevealingIsMonotone(h: set<Request>, found: seq<Candidate>, s: SweptSecret)
    requires s in Firsts(Survivors(h, found))
    ensures Named(Firsts(found), s.name)
    ensures forall s' | s' in Firsts(found) && s'.name == s.name && s' != s :: Revealed(h, found, s')
  {
    var some := Survivors(h, found);
    var j := FirstsSound(some, s);
    assert some[j] in some;
    SurvivorsMember(h, found, some[j]);
    FirstsNamed(found, s.name);
    forall s' | s' in Firsts(found) && s'.name == s.name && s' != s ensures Revealed(h, found, s') {
      ChangedWasHidden(h, found, s, s');
    }
  }

  /** Both together, for whole sweeps of a steady store. */
  lemma VisibilityIsMonotone(site: Site, kvPrefix: string, v: Request -> Reply, h: set<Request>, n: nat, m: nat,
                             id: Identity, branchful: bool)
    requires SweepRun(site, kvPrefix, Snapshot(v), n, id, branchful).ok
    ensures var full := SweepRun(site, kvPrefix, Snapshot(v), n, id, branchful);
            var part := SweepRun(site, kvPrefix, Snapshot(Hidden(v, h)), m, id, branchful);
            && part.ok
            && Outcome(part).value.secrets == Keep([], Survivors(h, full.found))
            && forall s | s in Outcome(part).value.secrets ::
                 && Named(Outcome(full).value.secrets, s.name)
                 && forall s' | s' in Outcome(full).value.secrets && s'.name == s.name && s' != s ::
                      Revealed(h, full.found, s')
  {
    hide Exec;
    var tasks := TierTasks(Tiers(Base(kvPrefix, id), id, branchful));
    HidingIsFiltering(site, v, h, n, m, tasks);
    var found := Exec(site, Snapshot(v), n, tasks).found;
    KeepIsFirsts(found);
    KeepIsFirsts(Survivors(h, found));
    forall s | s in Firsts(Survivors(h, found))
      ensures Named(Firsts(found), s.name)
      ensures forall s' | s' in Firsts(found) && s'.name == s.name && s' != s :: Revealed(h, found, s')
    {
      RevealingIsMonotone(h, found, s);
    }
  }

  // ---------- tiers and policies ----------

  ghost function Reversed(s: seq<string>): seq<string> {
    if s == [] then [] else Reversed(s[1..]) + [s[0]]
  }

  /** The KV tiers are the policy names, most specific first, and then the base. */
  lemma TiersMirrorPolicies(id: Identity, prefix: string)
    ensures Tiers(Base(prefix, id), id, Branchful(id.event)) == Reversed(Derive(id, prefix)) + [Base(prefix, id)]
  {
    var policies := Derive(id, prefix);
    var p1 := EventPolicy(id, prefix);
    assert p1 == Base(prefix, id) + "/" + id.event;
    assert Reversed([p1]) == [p1];
    if HasBranchTier(id) {
      var p2 := p1 + "/" + Escaped(id.branch);
      assert policies == [p1, p2] && policies[1..] == [p2] && Reversed([p2]) == [p2];
      assert Reversed(policies) == [p2, p1];
    }
  }
}
