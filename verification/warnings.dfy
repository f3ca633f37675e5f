/** Un-onboarded detection: the mint-warning parser of internal/broker/broker.go and its round trip
    through the warnings Vault prints. */
module Warnings {
  import opened Results
  import opened Text
  import opened Identity
  import opened Policy

  // ---------- the pattern (?i)^policy\s+"([^"]*)"\s+does not exist$ ----------

  /** One literal character under the pattern's case folding, where s also matches the long s. */
  predicate FoldsChar(c: char, l: char) {
    c == l || ('A' <= c <= 'Z' && (c as int + 32) as char == l) || (l == 's' && c == '\U{017F}')
  }

  predicate Folds(s: string, literal: string) {
    |s| == |literal| && forall i | 0 <= i < |s| :: FoldsChar(s[i], literal[i])
  }

  predicate Blank(c: char) { c == '\t' || c == '\n' || c == '\r' || c == ' ' || c == '\U{000C}' }

  ghost predicate Blanks(s: string) { s != "" && forall i | 0 <= i < |s| :: Blank(s[i]) }

  const HEAD := "policy"
  const TAIL := "does not exist"

  /** The warning matches the pattern with this group, spelled out piece by piece. */
  ghost predicate Matches(w: string, name: string) {
    exists head, gap, gap', tail :: Spells(w, head, gap, name, gap', tail)
  }

  ghost predicate Spells(w: string, head: string, gap: string, name: string, gap': string, tail: string) {
    && w == head + (gap + (['"'] + (name + ['"'] + (gap' + tail))))
    && Folds(head, HEAD) && Blanks(gap) && Free(name, '"') && Blanks(gap') && Folds(tail, TAIL)
  }

  /** How many blanks the string starts with. */
  function LeadingBlanks(s: string): (k: nat)
    ensures k <= |s| && (forall i | 0 <= i < k :: Blank(s[i])) && (k < |s| ==> !Blank(s[k]))
  {
    if s != "" && Blank(s[0]) then 1 + LeadingBlanks(s[1..]) else 0
  }

  function FirstQuote(s: string): Option<(string, string)> {
    if s == "" then None
    else if s[0] == '"' then Some(("", s[1..]))
    else match FirstQuote(s[1..])
      case None => None
      case Some((name, rest)) => Some(([s[0]] + name, rest))
  }

  /** Blanks and the tail, after the closing quote. */
  predicate TailMatches(rest: string) {
    var l := LeadingBlanks(rest);
    l > 0 && Folds(rest[l..], TAIL)
  }

  /** Blanks, a quoted name and the tail, after the head. */
  function Captured(afterHead: string): Option<string> {
    var k := LeadingBlanks(afterHead);
    if k == 0 || k == |afterHead| || afterHead[k] != '"' then None else
      match FirstQuote(afterHead[k + 1..])
      case None => None
      case Some((name, rest)) => if TailMatches(rest) then Some(name) else None
  }

  /** FindStringSubmatch: the captured name, if the warning matches. */
  function MatchWarning(w: string): Option<string> {
    if |w| < |HEAD| || !Folds(w[..|HEAD|], HEAD) then None else Captured(w[|HEAD|..])
  }

  lemma {:induction false} FirstQuoteSplits(s: string)
    ensures FirstQuote(s).Some? ==>
              var (name, rest) := FirstQuote(s).value; Free(name, '"') && s == name + ['"'] + rest
  {
    if s != "" && s[0] != '"' {
      FirstQuoteSplits(s[1..]);
      assert s == [s[0]] + s[1..];
      if FirstQuote(s[1..]).Some? {
        var (name, rest) := FirstQuote(s[1..]).value;
        assert [s[0]] + (name + ['"'] + rest) == ([s[0]] + name) + ['"'] + rest;
      }
    } else if s != "" {
      assert s == "" + ['"'] + s[1..];
    }
  }

  lemma {:induction false} FirstQuoteFinds(name: string, rest: string)
    requires Free(name, '"')
    ensures FirstQuote(name + ['"'] + rest) == Some((name, rest))
  {
    var s := name + ['"'] + rest;
    if name == "" {
      assert s[1..] == rest;
    } else {
      FirstQuoteFinds(name[1..], rest);
      assert s[1..] == name[1..] + ['"'] + rest;
      assert [name[0]] + name[1..] == name;
    }
  }

  lemma TailSound(rest: string) returns (gap: string, tail: string)
    requires TailMatches(rest)
    ensures rest == gap + tail && Blanks(gap) && Folds(tail, TAIL)
  {
    hide Folds;
    var l := LeadingBlanks(rest);
    gap, tail := rest[..l], rest[l..];
  }

  lemma CapturedSound(afterHead: string, name: string) returns (gap: string, gap': string, tail: string)
    requires Captured(afterHead) == Some(name)
    ensures afterHead == gap + (['"'] + (name + ['"'] + (gap' + tail)))
    ensures Blanks(gap) && Free(name, '"') && Blanks(gap') && Folds(tail, TAIL)
  {
    hide Folds, FirstQuote;
    var k := LeadingBlanks(afterHead);
    var quoted := afterHead[k + 1..];
    FirstQuoteSplits(quoted);
    var rest := FirstQuote(quoted).value.1;
    gap := afterHead[..k];
    gap', tail := TailSound(rest);
    assert afterHead == gap + (['"'] + quoted);
  }

  lemma MatchWarningSound(w: string, name: string)
    requires MatchWarning(w) == Some(name)
    ensures Matches(w, name)
  {
    hide Folds, Captured;
    var gap, gap', tail := CapturedSound(w[|HEAD|..], name);
    assert w == w[..|HEAD|] + w[|HEAD|..];
    assert Spells(w, w[..|HEAD|], gap, name, gap', tail);
  }

  lemma BlanksThenText(gap: string, text: string)
    requires Blanks(gap) && text != "" && !Blank(text[0])
    ensures LeadingBlanks(gap + text) == |gap|
  {
    var k := LeadingBlanks(gap + text);
    assert (gap + text)[|gap|] == text[0];
    assert forall i | 0 <= i < |gap| :: (gap + text)[i] == gap[i];
  }

  lemma FoldsLength(s: string, literal: string)
    ensures Folds(s, literal) ==> |s| == |literal|
  {}

  lemma FoldedTail(tail: string)
    requires Folds(tail, TAIL)
    ensures tail != "" && !Blank(tail[0])
  {
    assert FoldsChar(tail[0], TAIL[0]);
  }

  lemma MatchWarningComplete(w: string, name: string)
    requires Matches(w, name)
    ensures MatchWarning(w) == Some(name)
  {
    hide Folds;
    var head, gap, gap', tail :| Spells(w, head, gap, name, gap', tail);
    FoldedTail(tail);
    assert |head| == |HEAD| by { FoldsLength(head, HEAD); }
    var rest := gap' + tail;
    var quoted := name + ['"'] + rest;
    var afterHead := gap + (['"'] + quoted);
    assert w == head + afterHead;
    assert w[..|HEAD|] == head && w[|HEAD|..] == afterHead;
    BlanksThenText(gap, ['"'] + quoted);
    assert afterHead[|gap| + 1..] == quoted;
    FirstQuoteFinds(name, rest);
    BlanksThenText(gap', tail);
    assert rest[|gap'|..] == tail;
  }

  /** The parser finds a name exactly when the pattern matches with that name. */
  lemma MatchWarningExact(w: string, name: string)
    ensures MatchWarning(w) == Some(name) <==> Matches(w, name)
  {
    if MatchWarning(w) == Some(name) { MatchWarningSound(w, name); }
    if Matches(w, name) { MatchWarningComplete(w, name); }
  }

  /** White space as \s has it, either case, and the long s, which folds with s. */
  lemma OddSpelling()
    ensures MatchWarning("POLICY \t\n\r\U{000C}\"x\" dOEs not exi\U{017F}T") == Some("x")
  {
    var gap := " \t\n\r\U{000C}";
    hide MatchWarning;
    assert Spells("POLICY \t\n\r\U{000C}\"x\" dOEs not exi\U{017F}T", "POLICY", gap, "x", " ", "dOEs not exi\U{017F}T");
    MatchWarningExact("POLICY \t\n\r\U{000C}\"x\" dOEs not exi\U{017F}T", "x");
  }

  // ---------- the loops ----------

  function Warned(warnings: seq<string>): seq<string> {
    if warnings == [] then [] else
      var rest := Warned(warnings[..|warnings| - 1]);
      match MatchWarning(warnings[|warnings| - 1])
      case Some(name) => rest + [name]
      case None => rest
  }

  method WarnedNonexistentPolicies(warnings: seq<string>) returns (out: seq<string>)
    ensures out == Warned(warnings)
  {
    out := [];
    for i := 0 to |warnings|
      invariant out == Warned(warnings[..i])
    {
      assert warnings[..i + 1][..i] == warnings[..i];
      match MatchWarning(warnings[i]) {
        case Some(name) => out := out + [name];
        case None =>
      }
    }
    assert warnings[..|warnings|] == warnings;
  }

  method AllWarned(policies: seq<string>, warned: seq<string>) returns (all: bool)
    ensures all <==> forall p | p in policies :: p in warned
  {
    var warnedSet: map<string, bool> := map[];
    for i := 0 to |warned|
      invariant forall w :: w in warnedSet <==> w in warned[..i]
    {
      warnedSet := warnedSet[warned[i] := true];
    }
    assert warned[..|warned|] == warned;
    for i := 0 to |policies|
      invariant forall p | p in policies[..i] :: p in warned
    {
      if policies[i] !in warnedSet { return false; }
    }
    assert policies[..|policies|] == policies;
    return true;
  }

  /** A name is collected exactly when some warning says it does not exist. */
  lemma {:induction false} WarnedMember(warnings: seq<string>, p: string)
    ensures p in Warned(warnings) <==> exists w :: w in warnings && MatchWarning(w) == Some(p)
  {
    if warnings != [] {
      var last := warnings[|warnings| - 1];
      WarnedMember(warnings[..|warnings| - 1], p);
      assert forall w :: w in warnings <==> w in warnings[..|warnings| - 1] || w == last;
    }
  }

  /** The names come in the order of the warnings, one for each that matches. */
  lemma {:induction false} WarnedInOrder(a: seq<string>, w: string, b: seq<string>)
    ensures Warned(a + b) == Warned(a) + Warned(b)
    ensures forall p :: Warned([w]) == [p] <==> Matches(w, p)
    ensures (forall p :: !Matches(w, p)) ==> Warned([w]) == []
  {
    hide MatchWarning, Matches;
    WarnedAppend(a, b);
    assert Warned([w][..0]) == [];
    var only := Warned([w]);
    assert only == if MatchWarning(w).Some? then [MatchWarning(w).value] else [];
    forall p ensures (only == [p] <==> Matches(w, p)) && (only != [] ==> Matches(w, only[0])) {
      MatchWarningExact(w, p);
      if only != [] { MatchWarningExact(w, only[0]); }
      assert only == [p] <==> |only| == 1 && only[0] == p;
    }
  }

  lemma {:induction false} WarnedAppend(a: seq<string>, b: seq<string>)
    ensures Warned(a + b) == Warned(a) + Warned(b)
  {
    hide MatchWarning;
    if b == [] {
      assert a + b == a;
    } else {
      var k := |b| - 1;
      WarnedAppend(a, b[..k]);
      assert (a + b)[..|a| + k] == a + b[..k];
    }
  }

  // ---------- the warnings Vault prints ----------

  /** What `strings.ToLower` and `strconv.IsPrint` do, the part beyond ASCII left open. */
  datatype Unicode = Unicode(lower: char -> char, printable: char -> bool)

  /** ASCII is lower-cased as usual, and nothing else is lower-cased into a quote. */
  ghost predicate Standard(u: Unicode) {
    forall c: char :: if c as int < 128 then u.lower(c) == LowerChar(c) else u.lower(c) != '"'
  }

  function LowerBy(u: Unicode, s: string): string {
    seq(|s|, i requires 0 <= i < |s| => u.lower(s[i]))
  }

  /** The last k hexadecimal digits of n. */
  function HexOf(n: nat, k: nat): string {
    if k == 0 then "" else HexOf(n / 16, k - 1) + [HEX[n % 16]]
  }

  /** Go's %q on one character. */
  function QuoteChar(u: Unicode, c: char): string {
    if c == '"' then "\\\""
    else if c == '\\' then "\\\\"
    else if ' ' <= c <= '~' then [c]
    else if c as int >= 128 then
      if u.printable(c) then [c]
      else if c as int < 0x1_0000 then "\\u" + HexOf(c as int, 4)
      else "\\U" + HexOf(c as int, 8)
    else if c as int == 7 then "\\a"
    else if c as int == 8 then "\\b"
    else if c == '\t' then "\\t"
    else if c == '\n' then "\\n"
    else if c as int == 11 then "\\v"
    else if c as int == 12 then "\\f"
    else if c == '\r' then "\\r"
    else "\\x" + HexOf(c as int, 2)
  }

  function Quote(u: Unicode, s: string): string {
    if s == "" then "" else QuoteChar(u, s[0]) + Quote(u, s[1..])
  }

  /** Vault lower-cases policy names and reports an unknown one as `Policy %q does not exist`. */
  function VaultWarning(u: Unicode, name: string): string {
    "Policy \"" + Quote(u, LowerBy(u, name)) + "\" does not exist"
  }

  predicate PlainChar(u: Unicode, c: char) {
    && u.lower(c) == c && c != '"' && c != '\\'
    && if c as int < 128 then ' ' <= c <= '~' else u.printable(c)
  }

  /** Printable, without upper case, quote or backslash. */
  predicate Plain(u: Unicode, s: string) { forall i | 0 <= i < |s| :: PlainChar(u, s[i]) }

  lemma {:induction false} HexOfShape(n: nat, k: nat)
    ensures |HexOf(n, k)| == k && Free(HexOf(n, k), '"')
  {
    if k > 0 {
      HexOfShape(n / 16, k - 1);
      HexDigits(n % 16);
    }
  }

  lemma QuoteCharShape(u: Unicode, c: char)
    ensures |QuoteChar(u, c)| >= 1
    ensures |QuoteChar(u, c)| == 1 ==>
              QuoteChar(u, c) == [c] && c != '"' && c != '\\' && if c as int < 128 then ' ' <= c <= '~' else u.printable(c)
    ensures c != '"' ==> Free(QuoteChar(u, c), '"')
  {
    HexOfShape(c as int, 2);
    HexOfShape(c as int, 4);
    HexOfShape(c as int, 8);
  }

  /** Quoting never shortens, and leaves the length alone only if it changes nothing. */
  lemma {:induction false} QuoteLength(u: Unicode, s: string)
    ensures |Quote(u, s)| >= |s|
    ensures |Quote(u, s)| == |s| ==> forall i | 0 <= i < |s| :: |QuoteChar(u, s[i])| == 1
    ensures Free(s, '"') ==> Free(Quote(u, s), '"')
  {
    hide QuoteChar;
    if s != "" {
      QuoteLength(u, s[1..]);
      QuoteCharShape(u, s[0]);
      assert s == [s[0]] + s[1..];
    }
  }

  lemma {:induction false} QuoteNothing(u: Unicode, s: string)
    requires forall i | 0 <= i < |s| :: |QuoteChar(u, s[i])| == 1
    ensures Quote(u, s) == s
  {
    hide QuoteChar;
    if s != "" {
      QuoteNothing(u, s[1..]);
      QuoteCharShape(u, s[0]);
      assert s == [s[0]] + s[1..];
    }
  }

  /** What the parser reads back: the quoted, lower-cased name, if quoting left no quote in it. */
  lemma WarningReadBack(u: Unicode, name: string)
    ensures var q := Quote(u, LowerBy(u, name)); Free(q, '"') ==> MatchWarning(VaultWarning(u, name)) == Some(q)
    ensures MatchWarning(VaultWarning(u, name)).Some? ==> Free(MatchWarning(VaultWarning(u, name)).value, '"')
  {
    var w, q := VaultWarning(u, name), Quote(u, LowerBy(u, name));
    if Free(q, '"') {
      var rest := ['"'] + (q + ['"'] + (" " + TAIL));
      assert w == "Policy" + (" " + rest);
      assert Spells(w, "Policy", " ", q, " ", TAIL);
      MatchWarningExact(w, q);
    }
    if MatchWarning(w).Some? { MatchWarningExact(w, MatchWarning(w).value); }
  }

  lemma LowerFreesQuotes(u: Unicode, s: string)
    requires Standard(u) && Free(s, '"')
    ensures Free(LowerBy(u, s), '"')
  {
    forall i | 0 <= i < |s| ensures LowerBy(u, s)[i] != '"' {
      assert s[i] in s && u.lower(s[i]) == LowerBy(u, s)[i];
    }
  }

  /** A name that is read back as some text is never longer than it, and is plain if it is that text. */
  lemma ReadBackLength(u: Unicode, m: string, p: string)
    requires Standard(u) && MatchWarning(VaultWarning(u, m)) == Some(p) && Free(m, '"')
    ensures Free(p, '"') && p == Quote(u, LowerBy(u, m)) && |p| >= |m|
  {
    WarningReadBack(u, m);
    LowerFreesQuotes(u, m);
    QuoteLength(u, LowerBy(u, m));
  }

  lemma ReadBackPlain(u: Unicode, name: string)
    requires Free(name, '"') && Quote(u, LowerBy(u, name)) == name
    ensures Plain(u, name)
  {
    hide QuoteChar, Quote;
    var low := LowerBy(u, name);
    QuoteLength(u, low);
    QuoteNothing(u, low);
    forall i | 0 <= i < |name| ensures PlainChar(u, name[i]) {
      QuoteCharShape(u, low[i]);
      assert low[i] == u.lower(name[i]) == name[i];
    }
  }

  lemma PlainReadBack(u: Unicode, name: string)
    requires Plain(u, name)
    ensures MatchWarning(VaultWarning(u, name)) == Some(name)
  {
    assert LowerBy(u, name) == name;
    QuoteNothing(u, name);
    assert Free(name, '"');
    WarningReadBack(u, name);
  }

  /** The print-and-parse round trip is exact on the plain names and on no other name. */
  lemma WarningRoundTrip(u: Unicode, name: string)
    requires Standard(u)
    ensures MatchWarning(VaultWarning(u, name)) == Some(name) <==> Plain(u, name)
  {
    if Plain(u, name) { PlainReadBack(u, name); }
    if MatchWarning(VaultWarning(u, name)) == Some(name) {
      WarningReadBack(u, name);
      ReadBackLength(u, name, name);
      ReadBackPlain(u, name);
    }
  }

  /** A mint response for these policies: the missing ones warned about, mixed in any order and any
      number with warnings about something else. */
  ghost predicate MintWarnings(u: Unicode, warnings: seq<string>, missing: set<string>) {
    && (forall m | m in missing :: VaultWarning(u, m) in warnings)
    && (forall w | w in warnings :: MatchWarning(w).None? || exists m :: m in missing && w == VaultWarning(u, m))
  }

  /** A plain missing name is always collected, and nothing plain is collected that is not missing. */
  lemma PlainNamesRecovered(u: Unicode, warnings: seq<string>, missing: set<string>, p: string)
    requires MintWarnings(u, warnings, missing) && Plain(u, p)
    requires forall m | m in missing :: Plain(u, m)
    ensures p in Warned(warnings) <==> p in missing
  {
    WarnedMember(warnings, p);
    PlainReadBack(u, p);
    forall m | m in missing ensures MatchWarning(VaultWarning(u, m)) == Some(m) { PlainReadBack(u, m); }
  }

  lemma DerivedPlain(u: Unicode, id: Identity, prefix: string, p: string)
    requires Standard(u) && p in Derive(id, prefix)
    ensures Plain(u, EventPolicy(id, prefix)) ==> Plain(u, p)
    ensures Free(EventPolicy(id, prefix), '"') ==> Free(p, '"')
    ensures p == EventPolicy(id, prefix) || |p| > |EventPolicy(id, prefix)|
  {
    EscShape(id.branch);
    var e := Escaped(id.branch);
    assert forall i | 0 <= i < |e| :: e[i] in e && u.lower(e[i]) == e[i];
    assert u.lower('/') == '/';
  }

  lemma NotPlainNotRecovered(u: Unicode, id: Identity, prefix: string, missing: set<string>, warnings: seq<string>)
    requires Standard(u) && !Plain(u, EventPolicy(id, prefix))
    requires forall m | m in missing :: m in Derive(id, prefix)
    requires MintWarnings(u, warnings, missing)
    ensures EventPolicy(id, prefix) !in Warned(warnings)
  {
    hide Standard;
    var p1 := EventPolicy(id, prefix);
    WarnedMember(warnings, p1);
    if w :| w in warnings && MatchWarning(w) == Some(p1) {
      var m :| m in missing && w == VaultWarning(u, m);
      WarningReadBack(u, m);
      DerivedPlain(u, id, prefix, m);
      ReadBackLength(u, m, p1);
      ReadBackPlain(u, p1);
      assert false;
    }
  }

  /** The un-onboarded test of Handle, end to end: it fires exactly when every derived policy is
      missing and the event policy's name survives Vault's printing. */
  lemma UnonboardedExact(u: Unicode, id: Identity, prefix: string, missing: set<string>, warnings: seq<string>)
    requires Standard(u)
    requires forall m | m in missing :: m in Derive(id, prefix)
    requires MintWarnings(u, warnings, missing)
    ensures (forall p | p in Derive(id, prefix) :: p in Warned(warnings)) <==>
            Plain(u, EventPolicy(id, prefix)) && forall p | p in Derive(id, prefix) :: p in missing
  {
    hide Standard;
    var policies, p1 := Derive(id, prefix), EventPolicy(id, prefix);
    assert p1 in policies;
    if Plain(u, p1) {
      forall p | p in policies ensures Plain(u, p) { DerivedPlain(u, id, prefix, p); }
      forall p | p in policies ensures p in Warned(warnings) <==> p in missing {
        PlainNamesRecovered(u, warnings, missing, p);
      }
    } else if p1 in Warned(warnings) {
      NotPlainNotRecovered(u, id, prefix, missing, warnings);
    }
  }

  /** One warning a policy, in the order they were requested. */
  function WarningsFor(u: Unicode, policies: seq<string>): seq<string> {
    seq(|policies|, i requires 0 <= i < |policies| => VaultWarning(u, policies[i]))
  }

  lemma CapitalIsNotPlain(u: Unicode, id: Identity)
    requires Standard(u)
    ensures !Plain(u, EventPolicy(id, "CI"))
  {
    var p1 := EventPolicy(id, "CI");
    assert p1[0] == 'C' && u.lower('C') == 'c';
    assert !PlainChar(u, p1[0]);
  }

  /** A prefix with a capital: every derived policy of every identity is missing, Vault warns of each
      and of nothing else, and the test does not fire. */
  lemma CapitalPrefixIsMissed(u: Unicode, id: Identity)
    requires Standard(u)
    ensures var policies := Derive(id, "CI");
            var warnings := WarningsFor(u, policies);
            && MintWarnings(u, warnings, set p | p in policies)
            && !(forall p | p in policies :: p in Warned(warnings))
  {
    hide Derive, VaultWarning, MatchWarning, Warned, Standard, Plain;
    var policies := Derive(id, "CI");
    var warnings := WarningsFor(u, policies);
    CapitalIsNotPlain(u, id);
    forall m | m in policies ensures VaultWarning(u, m) in warnings {
      var i :| 0 <= i < |policies| && policies[i] == m;
      assert warnings[i] in warnings;
    }
    UnonboardedExact(u, id, "CI", (set p | p in policies), warnings);
  }

  lemma ExampleWarning(u: Unicode)
    requires Standard(u)
    ensures VaultWarning(u, "CI/acme/app/tag") == "Policy \"" + "ci/acme/app/tag" + "\" does not exist"
    ensures MatchWarning(VaultWarning(u, "CI/acme/app/tag")) == Some("ci/acme/app/tag")
  {
    var name, low := "CI/acme/app/tag", "ci/acme/app/tag";
    ExampleLowered(u);
    assert forall i | 0 <= i < |low| :: ' ' <= low[i] <= '~' && low[i] != '"' && low[i] != '\\';
    PrintsUnchanged(u, name, low);
  }

  /** A name that lower-cases to printable ASCII without quotes and backslashes. */
  lemma PrintsUnchanged(u: Unicode, name: string, low: string)
    requires LowerBy(u, name) == low
    requires forall i | 0 <= i < |low| :: ' ' <= low[i] <= '~' && low[i] != '"' && low[i] != '\\'
    ensures VaultWarning(u, name) == "Policy \"" + low + "\" does not exist"
    ensures MatchWarning(VaultWarning(u, name)) == Some(low)
  {
    QuoteNothing(u, low);
    hide Quote, QuoteChar, MatchWarning;
    WarningReadBack(u, name);
  }

  lemma ExampleLowered(u: Unicode)
    requires Standard(u)
    ensures LowerBy(u, "CI/acme/app/tag") == "ci/acme/app/tag"
  {
    var name := "CI/acme/app/tag";
    forall i | 0 <= i < |name| ensures u.lower(name[i]) == LowerChar(name[i]) {}
    hide Standard;
  }

  /** The same, spelled out for one identity. */
  lemma CapitalPrefixExample(u: Unicode)
    requires Standard(u)
    ensures var id := Identity("acme", "app", "tag", [], "7", "", 0);
            && Derive(id, "CI") == ["CI/acme/app/tag"]
            && WarningsFor(u, Derive(id, "CI")) == ["Policy \"" + "ci/acme/app/tag" + "\" does not exist"]
            && Warned(WarningsFor(u, Derive(id, "CI"))) == ["ci/acme/app/tag"]
  {
    hide VaultWarning, MatchWarning, Standard;
    ExampleWarning(u);
    var warnings := WarningsFor(u, ["CI/acme/app/tag"]);
    assert Warned(warnings[..0]) == [];
    assert EventPolicy(Identity("acme", "app", "tag", [], "7", "", 0), "CI") == "CI/acme/app/tag";
  }

  /** Derive always asks for something, so the test is never vacuous. */
  lemma DeriveNeverEmpty(id: Identity, prefix: string)
    ensures EventPolicy(id, prefix) in Derive(id, prefix)
    ensures !(forall p | p in Derive(id, prefix) :: p in Warned([]))
  {
    assert Derive(id, prefix)[0] == EventPolicy(id, prefix);
  }
}
