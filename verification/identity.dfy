/** Identities and the branch encoding: internal/identity/identity.go. */
module Identity {
  import opened Results
  import opened Text

  newtype byte = x: int | 0 <= x < 256

  datatype Identity = Identity(org: string, repo: string, event: string, branch: seq<byte>,
                               forgeRemoteID: string, commit: string, pipelineNumber: int)

  // ---------- the normalisation part of Parse ----------

  /** The payload after JSON decoding; an absent object is None. */
  datatype Payload = Payload(repo: Option<RepoPart>, pipeline: Option<PipelinePart>)
  datatype RepoPart = RepoPart(fullName: string, forgeRemoteID: string)
  datatype PipelinePart = PipelinePart(event: string, branch: seq<byte>, number: int, commit: string)

  datatype Malformed = Malformed

  function SplitFullName(fullName: string): Result<(string, string), Malformed> {
    var parts := Split(fullName, '/');
    if |parts| != 2 || parts[0] == "" || parts[1] == "" then Err(Malformed)
    else Ok((Lower(parts[0]), Lower(parts[1])))
  }

  function Parse(p: Payload): Result<Identity, Malformed> {
    if p.repo.None? || p.pipeline.None? then Err(Malformed) else
      var repo, pipeline := p.repo.value, p.pipeline.value;
      match SplitFullName(repo.fullName)
      case Err(e) => Err(e)
      case Ok((org, name)) =>
        if pipeline.event == "" then Err(Malformed)
        else Ok(Identity(org, name, Lower(pipeline.event), pipeline.branch,
                         repo.forgeRemoteID, pipeline.commit, pipeline.number))
  }

  /** An org or repo name as policy names and KV paths need it. */
  ghost predicate Segment(s: string) { s != "" && Free(s, '/') }

  ghost predicate WellNamed(id: Identity) {
    Segment(id.org) && Segment(id.repo) && id.event != ""
  }

  lemma LowerKeepsSegments(s: string)
    ensures Segment(Lower(s)) <==> Segment(s)
  {
    if Segment(s) {
      assert forall i | 0 <= i < |s| :: s[i] in s;
    } else if '/' in s {
      var i :| 0 <= i < |s| && s[i] == '/';
      assert Lower(s)[i] == '/';
    }
  }

  /** A full name is accepted exactly when it is two non-empty slash-free halves around one slash,
      and the halves come back lower-cased. */
  lemma FullNameHalves(fullName: string, org: string, repo: string)
    ensures SplitFullName(fullName) == Ok((org, repo)) <==>
            exists o, r :: Segment(o) && Segment(r) && fullName == o + "/" + r
                           && org == Lower(o) && repo == Lower(r)
  {
    var parts := Split(fullName, '/');
    SplitJoins(fullName, '/');
    if SplitFullName(fullName) == Ok((org, repo)) {
      assert Join(parts, '/') == parts[0] + ['/'] + parts[1];
      assert Segment(parts[0]) && Segment(parts[1]) && fullName == parts[0] + "/" + parts[1];
    }
    forall o, r | Segment(o) && Segment(r) && fullName == o + "/" + r
      ensures SplitFullName(fullName) == Ok((Lower(o), Lower(r)))
    {
      SplitFirst(o, r, '/');
      SplitFree(r, '/');
      assert fullName == o + ['/'] + r;
      assert parts == [o] + [r];
    }
  }

  /** Parse, in both directions: a payload is accepted exactly when both objects are there, the full
      name is two non-empty slash-free halves, and the event is non-empty; the halves and the event
      come back lower-cased, everything else as it was sent. */
  lemma ParseExact(p: Payload, id: Identity)
    ensures Parse(p) == Ok(id) <==>
            && p.repo.Some? && p.pipeline.Some?
            && var sent := p.pipeline.value;
               && (exists o, r :: Segment(o) && Segment(r) && p.repo.value.fullName == o + "/" + r
                                  && id.org == Lower(o) && id.repo == Lower(r))
               && sent.event != "" && id.event == Lower(sent.event)
               && id.branch == sent.branch && id.commit == sent.commit && id.pipelineNumber == sent.number
               && id.forgeRemoteID == p.repo.value.forgeRemoteID
  {
    hide SplitFullName, Lower, Segment;
    if p.repo.Some? { FullNameHalves(p.repo.value.fullName, id.org, id.repo); }
  }

  /** What an accepted payload promises: org and repo are non-empty and slash-free, the three
      folded parts are lower-case, and the branch is untouched. The event is only non-empty. */
  lemma ParsedIsWellNamed(p: Payload)
    requires Parse(p).Ok?
    ensures var id := Parse(p).value;
            WellNamed(id) && id.branch == p.pipeline.value.branch
            && Lower(id.org) == id.org && Lower(id.repo) == id.repo && Lower(id.event) == id.event
  {
    var id := Parse(p).value;
    FullNameHalves(p.repo.value.fullName, id.org, id.repo);
    var o, r :| Segment(o) && Segment(r) && id.org == Lower(o) && id.repo == Lower(r)
                && p.repo.value.fullName == o + "/" + r;
    LowerKeepsSegments(o);
    LowerKeepsSegments(r);
    LowerLower(o);
    LowerLower(r);
    LowerLower(p.pipeline.value.event);
  }

  /** Only the full name and the event are validated: a slash in the event passes through. */
  lemma SlashInEventIsAccepted(p: Payload, o: string, r: string)
    requires p.repo.Some? && p.pipeline.Some? && p.repo.value.fullName == o + "/" + r
    requires Segment(o) && Segment(r) && p.pipeline.value.event == "push/main"
    ensures Parse(p).Ok? && Parse(p).value.event == "push/main"
  {
    FullNameHalves(p.repo.value.fullName, Lower(o), Lower(r));
    assert Lower("push/main") == "push/main";
  }

  // ---------- Esc ----------

  const HEX := "0123456789abcdef"

  predicate IsUnescaped(c: byte) {
    97 <= c <= 122 || 48 <= c <= 57 || c == 46 || c == 95 || c == 45
  }

  /** The byte must be written as an escape: outside [a-z0-9._-], or a dot in first place. */
  predicate NeedsEscape(s: seq<byte>, i: nat)
    requires i < |s|
  {
    !IsUnescaped(s[i]) || (i == 0 && s[i] == 46)
  }

  function HexPair(c: byte): string {
    ['%', HEX[c as int / 16], HEX[c as int % 16]]
  }

  /** What Esc writes for byte i. */
  function EscapedAt(s: seq<byte>, i: nat): string
    requires i < |s|
  {
    if NeedsEscape(s, i) then HexPair(s[i]) else [s[i] as char]
  }

  /** What Esc writes for the bytes from i on. */
  function EscapedFrom(s: seq<byte>, i: nat): string
    requires i <= |s|
    decreases |s| - i
  {
    if i == |s| then ""
    else EscapedAt(s, i) + EscapedFrom(s, i + 1)
  }

  function Escaped(s: seq<byte>): string { EscapedFrom(s, 0) }

  lemma EscStep(s: seq<byte>, i: nat, out: string, piece: string)
    requires i < |s| && piece == EscapedAt(s, i)
    ensures (out + piece) + EscapedFrom(s, i + 1) == out + EscapedFrom(s, i)
  {}

  lemma EscEnd(s: seq<byte>)
    ensures EscapedFrom(s, |s|) == ""
  {}

  method Esc(s: seq<byte>) returns (out: string)
    ensures out == Escaped(s)
  {
    hide EscapedFrom;
    out := "";
    var i := 0;
    EscEnd(s);
    while i < |s|
      invariant 0 <= i <= |s|
      invariant out + EscapedFrom(s, i) == Escaped(s)
    {
      var c := s[i];
      var piece: string;
      if i == 0 && c == 46 {
        piece := ['%', HEX[c as int / 16], HEX[c as int % 16]];
      } else if IsUnescaped(c) {
        piece := [c as char];
      } else {
        piece := ['%', HEX[c as int / 16], HEX[c as int % 16]];
      }
      EscStep(s, i, out, piece);
      out := out + piece;
      i := i + 1;
    }
  }

  function Unhex(c: char): Option<int> {
    if '0' <= c <= '9' then Some(c as int - '0' as int)
    else if 'a' <= c <= 'f' then Some(c as int - 'a' as int + 10)
    else None
  }

  function HexValue(h: char, l: char): Option<byte> {
    match (Unhex(h), Unhex(l))
    case (Some(x), Some(y)) => Some((16 * x + y) as byte)
    case _ => None
  }

  /** Percent-decoding with lower-case hex digits (section 2.1 of RFC 3986), the inverse of Esc. */
  function Unescape(t: string): Option<seq<byte>> {
    if t == "" then Some([])
    else if t[0] == '%' then
      if |t| < 3 then None else
        match (HexValue(t[1], t[2]), Unescape(t[3..]))
        case (Some(c), Some(rest)) => Some([c] + rest)
        case _ => None
    else if t[0] as int < 256 then
      match Unescape(t[1..])
      case Some(rest) => Some([t[0] as byte] + rest)
      case None => None
    else None
  }

  lemma HexDigits(n: int)
    requires 0 <= n < 16
    ensures Unhex(HEX[n]) == Some(n)
    ensures '0' <= HEX[n] <= '9' || 'a' <= HEX[n] <= 'f'
  {}

  lemma HexPairValue(c: byte)
    ensures HexValue(HEX[c as int / 16], HEX[c as int % 16]) == Some(c)
  {
    HexDigits(c as int / 16);
    HexDigits(c as int % 16);
  }

  lemma UnescapeHexPair(c: byte, rest: string)
    ensures Unescape(HexPair(c) + rest)
            == if Unescape(rest).Some? then Some([c] + Unescape(rest).value) else None
  {
    var t := HexPair(c) + rest;
    HexPairValue(c);
    assert t[0] == '%' && t[1] == HexPair(c)[1] && t[2] == HexPair(c)[2];
    assert t[3..] == rest;
  }

  lemma UnescapePlain(c: byte, rest: string)
    requires c != 37
    ensures Unescape([c as char] + rest)
            == if Unescape(rest).Some? then Some([c] + Unescape(rest).value) else None
  {
    var t := [c as char] + rest;
    assert t[1..] == rest;
  }

  lemma {:induction false} UnescapeEscapedFrom(s: seq<byte>, i: nat)
    requires i <= |s|
    ensures Unescape(EscapedFrom(s, i)) == Some(s[i..])
    decreases |s| - i
  {
    if i < |s| {
      UnescapeEscapedFrom(s, i + 1);
      assert s[i..] == [s[i]] + s[i + 1..];
      var rest := EscapedFrom(s, i + 1);
      if NeedsEscape(s, i) {
        UnescapeHexPair(s[i], rest);
        assert EscapedFrom(s, i) == HexPair(s[i]) + rest;
      } else {
        UnescapePlain(s[i], rest);
        assert EscapedFrom(s, i) == [s[i] as char] + rest;
      }
    } else {
      assert s[i..] == [];
    }
  }

  /** The round trip: every byte string is recovered from its encoding. */
  lemma EscRoundTrip(s: seq<byte>)
    ensures Unescape(Escaped(s)) == Some(s)
  {
    UnescapeEscapedFrom(s, 0);
    assert s[0..] == s;
  }

  lemma EscInjective(s: seq<byte>, t: seq<byte>)
    requires Escaped(s) == Escaped(t)
    ensures s == t
  {
    EscRoundTrip(s);
    EscRoundTrip(t);
  }

  // ---------- Esc, byte by byte ----------

  /** Byte i is written as itself: a lower-case letter, a digit, an underscore, a dash, or a dot that
      is not the first byte. */
  ghost predicate StaysAt(s: seq<byte>, i: nat)
    requires i < |s|
  {
    var c := s[i] as char;
    'a' <= c <= 'z' || '0' <= c <= '9' || c == '_' || c == '-' || (c == '.' && i > 0)
  }

  /** What stands for byte i: itself, or a percent sign and its two lower-case hex digits. */
  ghost predicate Piece(s: seq<byte>, i: nat, piece: string)
    requires i < |s|
  {
    if StaysAt(s, i) then piece == [s[i] as char]
    else |piece| == 3 && piece[0] == '%' && HexValue(piece[1], piece[2]) == Some(s[i])
  }

  ghost function Flat(pieces: seq<string>): string {
    if pieces == [] then "" else pieces[0] + Flat(pieces[1..])
  }

  lemma EscapedAtPiece(s: seq<byte>, i: nat)
    requires i < |s|
    ensures Piece(s, i, EscapedAt(s, i)) && (NeedsEscape(s, i) <==> !StaysAt(s, i))
  {
    HexPairValue(s[i]);
  }

  lemma {:induction false} EscapedFromPieces(s: seq<byte>, i: nat) returns (pieces: seq<string>)
    requires i <= |s|
    ensures |pieces| == |s| - i && EscapedFrom(s, i) == Flat(pieces)
    ensures forall k | 0 <= k < |pieces| :: Piece(s, i + k, pieces[k])
    decreases |s| - i
  {
    pieces := [];
    if i < |s| {
      var rest := EscapedFromPieces(s, i + 1);
      EscapedAtPiece(s, i);
      pieces := [EscapedAt(s, i)] + rest;
      assert pieces[1..] == rest;
      forall k | 0 <= k < |pieces| ensures Piece(s, i + k, pieces[k]) {
        if k > 0 { assert Piece(s, i + 1 + (k - 1), rest[k - 1]); }
      }
    }
  }

  /** The encoding is one piece a byte, and which bytes stay is the class above. */
  lemma EscByteByByte(s: seq<byte>) returns (pieces: seq<string>)
    ensures |pieces| == |s| && Escaped(s) == Flat(pieces)
    ensures forall i | 0 <= i < |s| :: Piece(s, i, pieces[i])
  {
    pieces := EscapedFromPieces(s, 0);
    forall i | 0 <= i < |s| ensures Piece(s, i, pieces[i]) { assert Piece(s, 0 + i, pieces[i]); }
  }

  lemma {:induction false} StayingFrom(s: seq<byte>, i: nat)
    requires i <= |s|
    ensures |EscapedFrom(s, i)| >= |s| - i
    ensures |EscapedFrom(s, i)| == |s| - i <==> forall k | i <= k < |s| :: StaysAt(s, k)
    ensures |EscapedFrom(s, i)| == |s| - i ==> EscapedFrom(s, i) == seq(|s| - i, k requires 0 <= k < |s| - i => s[i + k] as char)
    decreases |s| - i
  {
    if i < |s| {
      StayingFrom(s, i + 1);
      EscapedAtPiece(s, i);
    }
  }

  /** The names Esc leaves alone: exactly those of letters, digits, underscores, dashes and dots that
      do not start with a dot. */
  lemma EscFixed(s: seq<byte>)
    ensures |Escaped(s)| == |s| <==> forall i | 0 <= i < |s| :: StaysAt(s, i)
    ensures |Escaped(s)| == |s| ==> Escaped(s) == seq(|s|, i requires 0 <= i < |s| => s[i] as char)
  {
    StayingFrom(s, 0);
  }

  ghost function EscapeCount(s: seq<byte>, i: nat): nat
    requires i <= |s|
    decreases |s| - i
  {
    if i == |s| then 0 else (if StaysAt(s, i) then 0 else 1) + EscapeCount(s, i + 1)
  }

  predicate EscChar(c: char) {
    'a' <= c <= 'z' || '0' <= c <= '9' || c == '.' || c == '_' || c == '-' || c == '%'
  }

  lemma {:induction false} EscapedFromShape(s: seq<byte>, i: nat)
    requires i <= |s|
    ensures forall c | c in EscapedFrom(s, i) :: EscChar(c)
    ensures |EscapedFrom(s, i)| == |s| - i + 2 * EscapeCount(s, i)
    decreases |s| - i
  {
    if i < |s| {
      EscapedFromShape(s, i + 1);
      EscapedAtPiece(s, i);
      HexDigits(s[i] as int / 16);
      HexDigits(s[i] as int % 16);
    }
  }

  /** The output alphabet (so lower-case and slash-free), its length, and its first character. */
  lemma EscShape(s: seq<byte>)
    ensures forall c | c in Escaped(s) :: EscChar(c)
    ensures |Escaped(s)| == |s| + 2 * EscapeCount(s, 0)
    ensures Lower(Escaped(s)) == Escaped(s)
    ensures s != [] ==> Segment(Escaped(s)) && Escaped(s)[0] != '.'
  {
    EscapedFromShape(s, 0);
    var t := Escaped(s);
    assert forall i | 0 <= i < |t| :: t[i] in t;
    if s != [] && !NeedsEscape(s, 0) {
      assert t[0] == s[0] as char;
    }
  }
}
