/**
 `src/signalling/sdpIdentity.js`: attaching an `a=identity` assertion (section 5 of RFC 8827) over the DTLS
 fingerprints of an SDP (section 5 of RFC 8122) and verifying it, as edits of SDP lines. Base64, JSON and ES384 are
 the functions of a `Scheme`, with the axioms of an honest signer.
 */
module SdpIdentity {
  import opened SdpLines
  import opened Sequences
  import opened Text
  import opened Wrappers

  datatype Fingerprint = Fingerprint(algorithm: string, digest: string)

  // ---------------------------------------------------------------------------------------------------------
  // Lines

  const IDENTITY := "a=identity:"
  const FINGERPRINT := "a=fingerprint:"
  const MEDIA := "m="

  /** What `\s` matches. */
  predicate IsSpace(c: char) {
    var n := c as int;
    (0x09 <= n <= 0x0d) || n in {0x20, 0xa0, 0x1680, 0x2028, 0x2029, 0x202f, 0x205f, 0x3000, 0xfeff}
    || (0x2000 <= n <= 0x200a)
  }

  /** How many characters from `at` on are spaces, or are not. */
  function RunLength(s: string, at: nat, spaces: bool): (n: nat)
    requires at <= |s|
    ensures at + n <= |s|
    decreases |s| - at
  {
    if at < |s| && IsSpace(s[at]) == spaces then 1 + RunLength(s, at + 1, spaces) else 0
  }

  /** `line.match(/^a=fingerprint:(\S+)\s+(\S+)/)` */
  function MatchFingerprint(line: string): Option<Fingerprint> {
    if !(FINGERPRINT <= line) then None else MatchTwoWords(line[|FINGERPRINT|..])
  }

  function MatchTwoWords(rest: string): Option<Fingerprint> {
    var a := RunLength(rest, 0, false);
    var gap := RunLength(rest, a, true);
    var d := RunLength(rest, a + gap, false);
    WordsAt(rest, a, gap, d)
  }

  function WordsAt(rest: string, a: nat, gap: nat, d: nat): Option<Fingerprint>
    requires a + gap + d <= |rest|
  {
    if a == 0 || gap == 0 || d == 0 then None else Some(Fingerprint(rest[..a], rest[a + gap..a + gap + d]))
  }

  /** The fingerprint a line holds, as a list of none or one. */
  function FingerprintIn(line: string): seq<Fingerprint> {
    var m := MatchFingerprint(line);
    if m.Some? then [m.value] else []
  }

  function Fingerprints(lines: seq<string>): seq<Fingerprint> {
    if lines == [] then []
    else Fingerprints(lines[..|lines| - 1]) + FingerprintIn(lines[|lines| - 1])
  }

  predicate IsIdentity(line: string) {
    IDENTITY <= line
  }

  predicate IsMedia(line: string) {
    MEDIA <= line
  }

  /** `lines.filter(l => !l.startsWith('a=identity:'))` */
  function Kept(lines: seq<string>): (kept: seq<string>)
    ensures forall i | 0 <= i < |kept| :: !IsIdentity(kept[i])
  {
    if lines == [] then []
    else
      var last := lines[|lines| - 1];
      Kept(lines[..|lines| - 1]) + (if IsIdentity(last) then [] else [last])
  }

  /** `lines.filter(l => l.startsWith('a=identity:'))` */
  function IdentityLines(lines: seq<string>): seq<string> {
    if lines == [] then []
    else
      var last := lines[|lines| - 1];
      IdentityLines(lines[..|lines| - 1]) + (if IsIdentity(last) then [last] else [])
  }

  /** The index of the first media line, or the number of lines when there is none. */
  function FirstMedia(lines: seq<string>): (n: nat)
    ensures n <= |lines|
    ensures n < |lines| ==> IsMedia(lines[n])
    ensures forall i | 0 <= i < n :: !IsMedia(lines[i])
  {
    if lines == [] || IsMedia(lines[0]) then 0 else 1 + FirstMedia(lines[1..])
  }

  function Inserted(kept: seq<string>, line: string): seq<string> {
    kept[..FirstMedia(kept)] + [line] + kept[FirstMedia(kept)..]
  }

  method ExtractFingerprints(sdp: string) returns (out: seq<Fingerprint>)
    ensures out == Fingerprints(SplitLines(sdp))
  {
    out := [];
    var lines := SplitLines(sdp);
    for i := 0 to |lines|
      invariant out == Fingerprints(lines[..i])
    {
      assert lines[..i + 1][..i] == lines[..i];
      var m := MatchFingerprint(lines[i]);
      assert FingerprintIn(lines[i]) == if m.Some? then [m.value] else [];
      if m.Some? {
        out := out + [m.value];
      }
    }
    assert lines[..|lines|] == lines;
  }

  // ---------------------------------------------------------------------------------------------------------
  // Signatures

  datatype Envelope = Envelope(defaultProtocol: bool, fingerprints: string, token: string)

  datatype Identity = Identity(token: string, domain: string)

  /**
   `header` is the encoded JWS header, `payload` the encoded canonical JSON of a fingerprint list, `sign` the encoded
   signature of a signing input; `seal` and `open` are the base64 JSON envelope; `validToken` and `accepts` are
   JWT.verify of the token and of a compact JWS, both with the key in the token.
   */
  datatype Scheme = Scheme(
    header: string,
    payload: seq<Fingerprint> -> string,
    sign: string -> string,
    seal: (string, Identity) -> string,
    open: string -> Option<Envelope>,
    validToken: string -> bool,
    accepts: (string, string) -> bool)

  /** An acceptable identity: its token verifies, and verifies what this signer signs. */
  ghost predicate Honest(scheme: Scheme, who: Identity) {
    && '.' !in scheme.header
    && (forall fps :: '.' !in scheme.payload(fps))
    && (forall input :: '.' !in scheme.sign(input))
    && (forall jws :: '\n' !in scheme.seal(jws, who) && '\r' !in scheme.seal(jws, who))
    && (forall jws :: scheme.open(scheme.seal(jws, who)) == Some(Envelope(true, jws, who.token)))
    && scheme.validToken(who.token)
    && (forall input {:trigger scheme.sign(input)} :: scheme.accepts(who.token, input + "." + scheme.sign(input)))
  }

  /** `detachedES384`: header, nothing, signature. */
  function Detached(scheme: Scheme, fps: seq<Fingerprint>): string {
    scheme.header + "." + ("." + scheme.sign(scheme.header + "." + scheme.payload(fps)))
  }

  function IdentityLine(scheme: Scheme, who: Identity, fps: seq<Fingerprint>): string {
    IDENTITY + scheme.seal(Detached(scheme, fps), who)
  }

  function Eol(sdp: string): string {
    if HasCrLf(sdp) then CRLF else LF
  }

  /** What `attachIdentity` returns for an SDP with fingerprints, given the line it adds. */
  function WithLine(sdp: string, line: string): string {
    Join(Inserted(Kept(SplitLines(sdp)), line), Eol(sdp))
  }

  /** `attachIdentity`. None is the exception for an SDP without fingerprints. */
  function Attached(scheme: Scheme, who: Identity, sdp: string): Option<string> {
    var lines := SplitLines(sdp);
    var fps := Fingerprints(lines);
    if fps == [] then None
    else Some(WithLine(sdp, IdentityLine(scheme, who, fps)))
  }

  method AttachIdentity(scheme: Scheme, who: Identity, sdp: string) returns (r: Option<string>)
    ensures r == Attached(scheme, who, sdp)
  {
    var fps := ExtractFingerprints(sdp);
    if |fps| == 0 {
      return None;
    }
    var value := scheme.seal(Detached(scheme, fps), who);
    var eol := if HasCrLf(sdp) then CRLF else LF;
    var lines := Kept(SplitLines(sdp));
    var mi := FirstMedia(lines);
    var idLine := IDENTITY + value;
    if mi == |lines| {
      assert lines[..mi] + [idLine] + lines[mi..] == lines + [idLine];
      lines := lines + [idLine];
    } else {
      lines := lines[..mi] + [idLine] + lines[mi..];
    }
    return Some(Join(lines, eol));
  }

  /** What verification yields: the SDP without its assertion, and the token whose key signed it. */
  datatype Verified = Verified(token: string, sdp: string)

  /** A compact JWS whose middle part is empty, and the same with a payload put in. */
  function DetachedForm(head: string, signature: string): string {
    head + "." + ("." + signature)
  }

  function CompactForm(head: string, body: string, signature: string): string {
    head + "." + (body + "." + signature)
  }

  /**
   `sdp` carries exactly one assertion; it opens to `e`, of the default protocol, with a valid token and a detached
   signature; and that signature is accepted over the fingerprints of this very SDP, of which there are some.
   */
  ghost predicate Vouched(scheme: Scheme, sdp: string, e: Envelope, head: string, signature: string) {
    var lines := SplitLines(sdp);
    var identities := IdentityLines(lines);
    && |identities| == 1
    && scheme.open(AfterPrefix(identities[0])) == Some(e)
    && e.defaultProtocol
    && scheme.validToken(e.token)
    && Fingerprints(lines) != []
    && '.' !in head && '.' !in signature
    && e.fingerprints == DetachedForm(head, signature)
    && scheme.accepts(e.token, CompactForm(head, scheme.payload(Fingerprints(lines)), signature))
  }

  /** `line.slice('a=identity:'.length)` */
  function AfterPrefix(line: string): string {
    if |IDENTITY| <= |line| then line[|IDENTITY|..] else ""
  }

  lemma SplitDetached(jws: string, head: string, signature: string)
    ensures Split(jws, '.') == [head, "", signature]
       <==> '.' !in head && '.' !in signature && jws == DetachedForm(head, signature)
  {
    if '.' !in head && '.' !in signature && jws == DetachedForm(head, signature) {
      SplitOff(head, '.', "." + signature);
      SplitOff("", '.', signature);
      assert "" + "." + signature == "." + signature;
      NoSeparator(signature, '.');
    }
    if Split(jws, '.') == [head, "", signature] {
      JoinSplit(jws, '.');
      assert '.' !in Split(jws, '.')[0] && '.' !in Split(jws, '.')[2];
      ThreeParts(head, "", signature);
      assert "" + "." + signature == "." + signature;
    }
  }

  lemma ThreeParts(a: string, b: string, c: string)
    ensures Join([a, b, c], ".") == a + "." + (b + "." + c)
  {
    assert [a, b, c][1..] == [b, c] && [b, c][1..] == [c];
    assert Join([c], ".") == c;
    assert Join([b, c], ".") == b + "." + c;
  }

  lemma {:induction false} NoSeparator(a: string, sep: char)
    requires sep !in a
    ensures Split(a, sep) == [a]
  {
    if a != [] {
      NoSeparator(a[1..], sep);
      assert a == [a[0]] + a[1..];
    }
  }

  /** `verifyServerIdentity`. None is any of its exceptions. */
  method VerifyServerIdentity(scheme: Scheme, sdp: string) returns (r: Option<Verified>)
    ensures r.Some? <==> exists e, head, signature :: Vouched(scheme, sdp, e, head, signature)
    ensures forall e, head, signature :: Vouched(scheme, sdp, e, head, signature) ==>
              r == Some(Verified(e.token, Join(Kept(SplitLines(sdp)), CRLF)))
  {
    var lines := SplitLines(sdp);
    var identities := IdentityLines(lines);
    if |identities| != 1 {
      return None;
    }
    var envelope := scheme.open(AfterPrefix(identities[0]));
    if envelope.None? || !envelope.value.defaultProtocol || !scheme.validToken(envelope.value.token) {
      return None;
    }
    var fps := ExtractFingerprints(sdp);
    if |fps| == 0 {
      return None;
    }
    var parts := Split(envelope.value.fingerprints, '.');
    forall head, signature
      ensures parts == [head, "", signature]
         <==> '.' !in head && '.' !in signature && envelope.value.fingerprints == DetachedForm(head, signature)
    {
      SplitDetached(envelope.value.fingerprints, head, signature);
    }
    if |parts| != 3 || parts[1] != "" {
      return None;
    }
    ghost var head, signature := parts[0], parts[2];
    assert parts == [head, "", signature];
    parts := parts[1 := scheme.payload(fps)];
    ThreeParts(head, scheme.payload(fps), signature);
    assert parts == [head, scheme.payload(fps), signature];
    if !scheme.accepts(envelope.value.token, Join(parts, ".")) {
      return None;
    }
    assert Vouched(scheme, sdp, envelope.value, head, signature);
    return Some(Verified(envelope.value.token, Join(Kept(lines), CRLF)));
  }

  // ---------------------------------------------------------------------------------------------------------
  // What the edits preserve

  lemma {:induction false} FingerprintsAppend(a: seq<string>, b: seq<string>)
    ensures Fingerprints(a + b) == Fingerprints(a) + Fingerprints(b)
    decreases |b|
  {
    if b == [] {
      Nothing(a);
      Nothing(Fingerprints(a));
    } else {
      var init := b[..|b| - 1];
      FingerprintsAppend(a, init);
      InitOfAppend(a, b);
      Associate(Fingerprints(a), Fingerprints(init), FingerprintIn(b[|b| - 1]));
    }
  }

  /** What the kept lines inherit from all the lines. */
  lemma {:induction false} KeptInherits(lines: seq<string>)
    ensures (forall i | 0 <= i < |lines| :: '\n' !in lines[i]) ==>
              forall i | 0 <= i < |Kept(lines)| :: '\n' !in Kept(lines)[i]
    ensures (forall i | 0 <= i < |lines| :: !EndsInCr(lines[i])) ==>
              forall i | 0 <= i < |Kept(lines)| :: !EndsInCr(Kept(lines)[i])
  {
    if lines != [] {
      KeptInherits(lines[..|lines| - 1]);
    }
  }

  lemma {:induction false} KeptAppend(a: seq<string>, b: seq<string>)
    ensures Kept(a + b) == Kept(a) + Kept(b)
    decreases |b|
  {
    if b == [] {
      Nothing(a);
      Nothing(Kept(a));
    } else {
      var init := b[..|b| - 1];
      KeptAppend(a, init);
      InitOfAppend(a, b);
      Associate(Kept(a), Kept(init), if IsIdentity(b[|b| - 1]) then [] else [b[|b| - 1]]);
    }
  }

  lemma {:induction false} IdentityAppend(a: seq<string>, b: seq<string>)
    ensures IdentityLines(a + b) == IdentityLines(a) + IdentityLines(b)
    decreases |b|
  {
    if b == [] {
      Nothing(a);
      Nothing(IdentityLines(a));
    } else {
      var init := b[..|b| - 1];
      IdentityAppend(a, init);
      InitOfAppend(a, b);
      Associate(IdentityLines(a), IdentityLines(init), if IsIdentity(b[|b| - 1]) then [b[|b| - 1]] else []);
    }
  }

  lemma OneLine(line: string)
    ensures Fingerprints([line]) == FingerprintIn(line)
    ensures Kept([line]) == (if IsIdentity(line) then [] else [line])
    ensures IdentityLines([line]) == (if IsIdentity(line) then [line] else [])
  {
    assert [line][..0] == [];
  }

  lemma NoFingerprint(line: string)
    requires IsIdentity(line)
    ensures FingerprintIn(line) == []
  {
    assert line[2] == IDENTITY[2] == 'i';
    assert FINGERPRINT[2] == 'f';
  }

  /** An identity line is not a fingerprint line, so dropping identity lines drops no fingerprint. */
  lemma {:induction false} KeptFingerprints(lines: seq<string>)
    ensures Fingerprints(Kept(lines)) == Fingerprints(lines)
  {
    if lines != [] {
      var init, last := lines[..|lines| - 1], lines[|lines| - 1];
      KeptFingerprints(init);
      if IsIdentity(last) {
        NoFingerprint(last);
        assert Kept(lines) == Kept(init);
      } else {
        FingerprintsAppend(Kept(init), [last]);
        OneLine(last);
      }
    }
  }

  lemma {:induction false} NothingToDrop(lines: seq<string>)
    requires forall i | 0 <= i < |lines| :: !IsIdentity(lines[i])
    ensures Kept(lines) == lines && IdentityLines(lines) == []
  {
    if lines != [] {
      NothingToDrop(lines[..|lines| - 1]);
    }
  }

  /** Lines without an assertion, with one inserted. */
  lemma InsertedLines(kept: seq<string>, line: string)
    requires forall i | 0 <= i < |kept| :: !IsIdentity(kept[i])
    requires IsIdentity(line)
    ensures Kept(Inserted(kept, line)) == kept
    ensures IdentityLines(Inserted(kept, line)) == [line]
    ensures Fingerprints(Inserted(kept, line)) == Fingerprints(kept)
  {
    InsertedAnywhere(kept, line, FirstMedia(kept));
  }

  lemma InsertedAnywhere(kept: seq<string>, line: string, m: nat)
    requires forall i | 0 <= i < |kept| :: !IsIdentity(kept[i])
    requires IsIdentity(line) && m <= |kept|
    ensures Kept(kept[..m] + [line] + kept[m..]) == kept
    ensures IdentityLines(kept[..m] + [line] + kept[m..]) == [line]
    ensures Fingerprints(kept[..m] + [line] + kept[m..]) == Fingerprints(kept)
  {
    Halves(kept, m);
    Surrounded(kept[..m], line, kept[m..]);
  }

  lemma Surrounded(a: seq<string>, line: string, b: seq<string>)
    requires forall i | 0 <= i < |a| :: !IsIdentity(a[i])
    requires forall i | 0 <= i < |b| :: !IsIdentity(b[i])
    requires IsIdentity(line)
    ensures Kept(a + [line] + b) == a + b
    ensures IdentityLines(a + [line] + b) == [line]
    ensures Fingerprints(a + [line] + b) == Fingerprints(a + b)
  {
    SurroundedKept(a, line, b);
    SurroundedIdentity(a, line, b);
    SurroundedFingerprints(a, line, b);
  }

  lemma SurroundedKept(a: seq<string>, line: string, b: seq<string>)
    requires forall i | 0 <= i < |a| :: !IsIdentity(a[i])
    requires forall i | 0 <= i < |b| :: !IsIdentity(b[i])
    requires IsIdentity(line)
    ensures Kept(a + [line] + b) == a + b
  {
    NothingToDrop(a);
    NothingToDrop(b);
    OneLine(line);
    KeptAppend(a + [line], b);
    KeptAppend(a, [line]);
    Nothing(a);
  }

  lemma SurroundedIdentity(a: seq<string>, line: string, b: seq<string>)
    requires forall i | 0 <= i < |a| :: !IsIdentity(a[i])
    requires forall i | 0 <= i < |b| :: !IsIdentity(b[i])
    requires IsIdentity(line)
    ensures IdentityLines(a + [line] + b) == [line]
  {
    NothingToDrop(a);
    NothingToDrop(b);
    OneLine(line);
    IdentityAppend(a + [line], b);
    IdentityAppend(a, [line]);
    Nothing([line]);
  }

  lemma SurroundedFingerprints(a: seq<string>, line: string, b: seq<string>)
    requires IsIdentity(line)
    ensures Fingerprints(a + [line] + b) == Fingerprints(a + b)
  {
    NoFingerprint(line);
    OneLine(line);
    FingerprintsAppend(a, [line]);
    Nothing(Fingerprints(a));
    FingerprintsAppend(a + [line], b);
    FingerprintsAppend(a, b);
  }

  /** A carriage return at the end of a line is not part of a fingerprint. */
  lemma ChompedFingerprint(line: string)
    ensures MatchFingerprint(Chomp(line)) == MatchFingerprint(line)
  {
    if EndsInCr(line) {
      var c := Chomp(line);
      assert line == c + "\r";
      if FINGERPRINT <= line {
        assert line[|FINGERPRINT| - 1] == ':';
        assert FINGERPRINT <= c;
        var rest := c[|FINGERPRINT|..];
        assert line[|FINGERPRINT|..] == rest + "\r";
        TwoWordsWithCr(rest);
      } else {
        assert !(FINGERPRINT <= c);
      }
    }
  }

  /** A carriage return at the end lengthens a run of spaces that gets there, and nothing else. */
  lemma {:induction false} RunWithCr(s: string, at: nat, spaces: bool)
    requires at <= |s|
    ensures var n := RunLength(s, at, spaces);
            RunLength(s + "\r", at, spaces) == if spaces && at + n == |s| then n + 1 else n
    decreases |s| - at
  {
    if at < |s| {
      assert (s + "\r")[at] == s[at];
      RunWithCr(s, at + 1, spaces);
    } else {
      assert (s + "\r")[at] == '\r';
    }
  }

  lemma TwoWordsWithCr(rest: string)
    ensures MatchTwoWords(rest + "\r") == MatchTwoWords(rest)
  {
    var a := RunLength(rest, 0, false);
    var gap := RunLength(rest, a, true);
    RunWithCr(rest, 0, false);
    RunWithCr(rest, a, true);
    if a + gap < |rest| {
      RunWithCr(rest, a + gap, false);
      SameWords(rest, a, gap, RunLength(rest, a + gap, false));
    }
  }

  lemma SameWords(rest: string, a: nat, gap: nat, d: nat)
    requires a + gap + d <= |rest|
    ensures WordsAt(rest + "\r", a, gap, d) == WordsAt(rest, a, gap, d)
  {
    SliceOfAppend(rest, "\r", 0, a);
    SliceOfAppend(rest, "\r", a + gap, a + gap + d);
  }

  // ---------------------------------------------------------------------------------------------------------
  // Attaching

  /** No media line, and the last line ends in a carriage return. */
  predicate StrayLines(kept: seq<string>) {
    kept != [] && FirstMedia(kept) == |kept| && EndsInCr(kept[|kept| - 1])
  }

  /** Without a CRLF and without media lines, the last line may end in a carriage return that joins the new break. */
  predicate Stray(sdp: string) {
    var kept := Kept(SplitLines(sdp));
    !HasCrLf(sdp) && StrayLines(kept)
  }

  /** The lines other than the assertion, as they read once it has been attached. */
  function Settled(sdp: string): seq<string> {
    var kept := Kept(SplitLines(sdp));
    if Stray(sdp) then kept[..|kept| - 1] + [Chomp(kept[|kept| - 1])] else kept
  }

  lemma SettledLines(sdp: string)
    ensures |Settled(sdp)| == |Kept(SplitLines(sdp))|
    ensures forall i | 0 <= i < |Settled(sdp)| :: !IsIdentity(Settled(sdp)[i]) && '\n' !in Settled(sdp)[i]
    ensures FirstMedia(Settled(sdp)) == FirstMedia(Kept(SplitLines(sdp)))
  {
    KeptInherits(SplitLines(sdp));
    if Stray(sdp) {
      ChompedLines(Kept(SplitLines(sdp)));
    }
  }

  lemma ChompedLines(kept: seq<string>)
    requires StrayLines(kept)
    requires forall i | 0 <= i < |kept| :: !IsIdentity(kept[i]) && '\n' !in kept[i]
    ensures var r := kept[..|kept| - 1] + [Chomp(kept[|kept| - 1])];
            && (forall i | 0 <= i < |r| :: !IsIdentity(r[i]) && '\n' !in r[i])
            && FirstMedia(r) == FirstMedia(kept)
  {
    var last := kept[|kept| - 1];
    var r := kept[..|kept| - 1] + [Chomp(last)];
    ChompPrefix(last, IDENTITY);
    ChompPrefix(last, MEDIA);
    assert forall i | 0 <= i < |kept| - 1 :: r[i] == kept[i];
    NoMedia(r);
  }

  lemma SettledFingerprints(sdp: string)
    ensures Fingerprints(Settled(sdp)) == Fingerprints(SplitLines(sdp))
  {
    var kept := Kept(SplitLines(sdp));
    KeptFingerprints(SplitLines(sdp));
    if Stray(sdp) {
      ChompedLast(kept[..|kept| - 1], kept[|kept| - 1]);
      InitAndLast(kept);
    }
  }

  lemma ChompedLast(init: seq<string>, last: string)
    ensures Fingerprints(init + [Chomp(last)]) == Fingerprints(init + [last])
  {
    FingerprintsAppend(init, [last]);
    FingerprintsAppend(init, [Chomp(last)]);
    OneLine(last);
    OneLine(Chomp(last));
    ChompedFingerprint(last);
  }

  lemma ChompPrefix(line: string, prefix: string)
    requires EndsInCr(line)
    ensures prefix <= Chomp(line) ==> prefix <= line
    ensures '\n' !in line ==> '\n' !in Chomp(line)
  {
    assert line == Chomp(line) + "\r";
  }

  lemma NoMedia(lines: seq<string>)
    requires forall i | 0 <= i < |lines| :: !IsMedia(lines[i])
    ensures FirstMedia(lines) == |lines|
  {
  }

  /** In a text without CRLF no kept line but the last ends in a carriage return. */
  lemma KeptStray(sdp: string)
    requires !HasCrLf(sdp)
    ensures NoneButLastEndsInCr(Kept(SplitLines(sdp)))
  {
    var lines := SplitLines(sdp);
    StrayOnlyAtTheEnd(sdp);
    var init := lines[..|lines| - 1];
    KeptInherits(init);
  }

  lemma {:induction false} ChompBeforeLast(a: seq<string>, x: string, y: string)
    requires forall i | 0 <= i < |a| :: !EndsInCr(a[i])
    ensures ChompAllButLast(a + [x] + [y]) == a + [Chomp(x)] + [y]
  {
    var all := a + [x] + [y];
    if a == [] {
      assert all[1..] == [y];
    } else {
      assert all[1..] == a[1..] + [x] + [y];
      ChompBeforeLast(a[1..], x, y);
      assert a == [a[0]] + a[1..];
    }
  }

  lemma InsertedAt(kept: seq<string>, line: string)
    ensures var all, m := Inserted(kept, line), FirstMedia(kept);
            && |all| == |kept| + 1
            && forall i | 0 <= i < |all| :: all[i] == if i < m then kept[i] else if i == m then line else kept[i - 1]
  {
  }

  lemma JoinedLinesResplit(kept: seq<string>, line: string)
    requires forall i | 0 <= i < |kept| :: '\n' !in kept[i]
    requires '\n' !in line && !EndsInCr(line)
    requires NoneButLastEndsInCr(kept) && !StrayLines(kept)
    ensures SplitLines(Join(Inserted(kept, line), LF)) == Inserted(kept, line)
    ensures NoneButLastEndsInCr(Inserted(kept, line))
    ensures forall i | 0 <= i < |Inserted(kept, line)| :: '\n' !in Inserted(kept, line)[i]
  {
    InsertedAt(kept, line);
    SplitJoinLf(Inserted(kept, line));
    NothingToChomp(Inserted(kept, line));
  }

  lemma StrayLinesResplit(kept: seq<string>, line: string)
    requires forall i | 0 <= i < |kept| :: '\n' !in kept[i]
    requires '\n' !in line
    requires NoneButLastEndsInCr(kept) && StrayLines(kept)
    ensures SplitLines(Join(Inserted(kept, line), LF)) == kept[..|kept| - 1] + [Chomp(kept[|kept| - 1])] + [line]
  {
    var init, last := kept[..|kept| - 1], kept[|kept| - 1];
    InsertedAt(kept, line);
    SplitJoinLf(Inserted(kept, line));
    assert Inserted(kept, line) == init + [last] + [line];
    ChompBeforeLast(init, last, line);
  }

  /** The result splits into the other lines in order, with the new one before the first media line. */
  lemma ResplitLines(sdp: string, line: string)
    requires '\n' !in line && !EndsInCr(line)
    ensures SplitLines(WithLine(sdp, line)) == Inserted(Settled(sdp), line)
  {
    var kept := Kept(SplitLines(sdp));
    KeptInherits(SplitLines(sdp));
    if HasCrLf(sdp) {
      CrLfResplit(kept, line);
    } else {
      KeptStray(sdp);
      if StrayLines(kept) {
        StrayLinesResplit(kept, line);
        InsertedLast(sdp, line);
      } else {
        JoinedLinesResplit(kept, line);
      }
    }
  }

  lemma CrLfResplit(kept: seq<string>, line: string)
    requires forall i | 0 <= i < |kept| :: '\n' !in kept[i]
    requires '\n' !in line
    ensures SplitLines(Join(Inserted(kept, line), CRLF)) == Inserted(kept, line)
  {
    InsertedAt(kept, line);
    SplitJoinCrLf(Inserted(kept, line));
  }

  /** With a stray carriage return there are no media lines, so the assertion comes last. */
  lemma InsertedLast(sdp: string, line: string)
    requires Stray(sdp)
    ensures Inserted(Settled(sdp), line) == Settled(sdp) + [line]
    ensures Inserted(Kept(SplitLines(sdp)), line) == Kept(SplitLines(sdp)) + [line]
  {
    SettledLines(sdp);
    AppendedLine(Settled(sdp), line);
    AppendedLine(Kept(SplitLines(sdp)), line);
  }

  lemma AppendedLine(lines: seq<string>, line: string)
    requires FirstMedia(lines) == |lines|
    ensures Inserted(lines, line) == lines + [line]
  {
  }

  /** The assertion's line has no line break in it. */
  lemma PlainLine(scheme: Scheme, who: Identity, fps: seq<Fingerprint>)
    requires Honest(scheme, who)
    ensures var line := IdentityLine(scheme, who, fps);
            '\n' !in line && '\r' !in line && !EndsInCr(line) && IsIdentity(line)
  {
    var line, value := IdentityLine(scheme, who, fps), scheme.seal(Detached(scheme, fps), who);
    assert line == IDENTITY + value;
    assert EndsInCr(line) ==> '\r' in line;
  }

  /** Where the new line is, and that nothing else has changed but a stray carriage return. */
  ghost predicate Placed(sdp: string, line: string, out: string) {
    var lines := SplitLines(out);
    var m := FirstMedia(Kept(SplitLines(sdp)));
    && IdentityLines(lines) == [line]
    && m < |lines| && IsIdentity(lines[m])
    && (forall i | 0 <= i < m :: !IsMedia(lines[i]))
    && (m + 1 < |lines| ==> IsMedia(lines[m + 1]))
    && Fingerprints(lines) == Fingerprints(SplitLines(sdp))
    && Kept(lines) == Settled(sdp)
  }

  lemma LineIsPlaced(sdp: string, line: string)
    requires IsIdentity(line) && '\n' !in line && !EndsInCr(line)
    ensures Placed(sdp, line, WithLine(sdp, line))
  {
    ResplitLines(sdp, line);
    SettledLines(sdp);
    SettledFingerprints(sdp);
    InsertedLines(Settled(sdp), line);
    BeforeMedia(Settled(sdp), line);
  }

  /**
   Attaching yields exactly one assertion, at session level before the first media line if there is one, and leaves
   the fingerprints unchanged.
   */
  lemma OneAssertion(scheme: Scheme, who: Identity, sdp: string)
    requires Honest(scheme, who) && Attached(scheme, who, sdp).Some?
    ensures Placed(sdp, IdentityLine(scheme, who, Fingerprints(SplitLines(sdp))), Attached(scheme, who, sdp).value)
  {
    PlainLine(scheme, who, Fingerprints(SplitLines(sdp)));
    LineIsPlaced(sdp, IdentityLine(scheme, who, Fingerprints(SplitLines(sdp))));
  }

  lemma BeforeMedia(kept: seq<string>, line: string)
    requires IsIdentity(line)
    ensures var lines, m := Inserted(kept, line), FirstMedia(kept);
            && m < |lines| && IsIdentity(lines[m])
            && (forall i | 0 <= i < m :: !IsMedia(lines[i]))
            && (m + 1 < |lines| ==> IsMedia(lines[m + 1]))
  {
    InsertedAt(kept, line);
  }

  /**
   Attaching a second identity replaces the first: the result is what attaching the second alone gives, exactly unless
   a stray carriage return (see `Stray`) turns the first result into CRLF text and there is another line break for
   that to change. The two may differ in anything, so this holds of a signer that never signs twice the same.
   */
  lemma ReplacingIff(first: Scheme, one: Identity, second: Scheme, two: Identity, sdp: string)
    requires Honest(first, one) && Honest(second, two) && Attached(first, one, sdp).Some?
    ensures Attached(second, two, Attached(first, one, sdp).value) == Attached(second, two, sdp)
       <==> !Stray(sdp) || |Kept(SplitLines(sdp))| == 1
  {
    var fps := Fingerprints(SplitLines(sdp));
    PlainLine(first, one, fps);
    PlainLine(second, two, fps);
    OneAssertion(first, one, sdp);
    KeptIsNotEmpty(sdp);
    RelineIff(sdp, IdentityLine(first, one, fps), IdentityLine(second, two, fps));
  }

  /** Two lines, of which the second ends in a stray carriage return. */
  lemma StrayText(a: string, b: string)
    requires '\n' !in a && '\n' !in b && !EndsInCr(a) && EndsInCr(b)
    requires !IsIdentity(a) && !IsIdentity(b) && !IsMedia(a) && !IsMedia(b)
    ensures SplitLines(a + LF + b) == [a, b] && Kept([a, b]) == [a, b]
    ensures Stray(a + LF + b)
  {
    SplitAtBreak(a, b);
    SplitOneLine(b);
    NoCrLfInLine(a, b);
    NoCrLfInOneLine(b);
    TwoKept(a, b);
  }

  lemma TwoKept(a: string, b: string)
    requires !IsIdentity(a) && !IsIdentity(b) && !IsMedia(a) && !IsMedia(b)
    ensures Kept([a, b]) == [a, b] && FirstMedia([a, b]) == 2
  {
    NothingToDrop([a, b]);
    NoMedia([a, b]);
  }

  lemma OneFingerprint(a: string, b: string)
    requires MatchFingerprint(a).Some?
    ensures Fingerprints([a, b]) != []
  {
    assert [a, b][..1] == [a];
    OneLine(a);
  }

  const EXAMPLE_LINE := FINGERPRINT + "x y"
  const STRAY_EXAMPLE := EXAMPLE_LINE + LF + "z\r"

  lemma ExampleMatches()
    ensures MatchFingerprint(EXAMPLE_LINE) == Some(Fingerprint("x", "y"))
  {
    var s := "x y";
    assert EXAMPLE_LINE[|FINGERPRINT|..] == s;
    assert !IsSpace(s[0]) && IsSpace(s[1]) && !IsSpace(s[2]);
    assert RunLength(s, 3, false) == 0;
    assert RunLength(s, 2, false) == 1 && RunLength(s, 2, true) == 0;
    assert RunLength(s, 1, true) == 1 && RunLength(s, 1, false) == 0;
    assert RunLength(s, 0, false) == 1;
    assert s[..1] == "x" && s[2..3] == "y";
  }

  /** A text on which it fails: a fingerprint, a line feed, and a line that ends in a stray carriage return. */
  lemma StrayExample()
    ensures Stray(STRAY_EXAMPLE) && |Kept(SplitLines(STRAY_EXAMPLE))| == 2
    ensures Fingerprints(SplitLines(STRAY_EXAMPLE)) != []
  {
    var a, b := EXAMPLE_LINE, "z\r";
    assert a[2] == 'f' && a[0] == 'a' && b[0] == 'z';
    assert IDENTITY[2] == 'i' && IDENTITY[0] == 'a' && MEDIA[0] == 'm';
    StrayText(a, b);
    ExampleMatches();
    OneFingerprint(a, b);
  }

  /** For that text, no two honest identities are exchanged cleanly. */
  lemma StrayExampleFails(first: Scheme, one: Identity, second: Scheme, two: Identity)
    requires Honest(first, one) && Honest(second, two)
    ensures Attached(first, one, STRAY_EXAMPLE).Some?
    ensures Attached(second, two, Attached(first, one, STRAY_EXAMPLE).value) != Attached(second, two, STRAY_EXAMPLE)
  {
    StrayExample();
    ReplacingIff(first, one, second, two, STRAY_EXAMPLE);
  }

  /** With a deterministic signer, attaching again gives what attaching once gave under the same condition. */
  lemma ReattachingIff(scheme: Scheme, who: Identity, sdp: string)
    requires Honest(scheme, who) && Attached(scheme, who, sdp).Some?
    ensures var once := Attached(scheme, who, sdp);
            Attached(scheme, who, once.value) == once <==> !Stray(sdp) || |Kept(SplitLines(sdp))| == 1
  {
    ReplacingIff(scheme, who, scheme, who, sdp);
  }

  /**
   Replacing an assertion by another, whatever their signatures, gives what attaching the second to the original
   gives, exactly under the same condition.
   */
  lemma RelineIff(sdp: string, first: string, second: string)
    requires IsIdentity(first) && '\n' !in first && !EndsInCr(first)
    requires IsIdentity(second) && '\n' !in second && !EndsInCr(second)
    requires Kept(SplitLines(sdp)) != []
    ensures WithLine(WithLine(sdp, first), second) == WithLine(sdp, second)
       <==> !Stray(sdp) || |Kept(SplitLines(sdp))| == 1
  {
    LineIsPlaced(sdp, first);
    if Stray(sdp) {
      StrayReattached(sdp, first, second);
    } else {
      EolSettles(sdp, first);
    }
  }

  lemma KeptIsNotEmpty(sdp: string)
    requires Fingerprints(SplitLines(sdp)) != []
    ensures Kept(SplitLines(sdp)) != []
  {
    KeptFingerprints(SplitLines(sdp));
  }

  /** Without a stray carriage return the result has the line breaks of the original. */
  lemma EolSettles(sdp: string, line: string)
    requires !Stray(sdp) && Kept(SplitLines(sdp)) != []
    requires '\n' !in line && !EndsInCr(line)
    ensures Eol(WithLine(sdp, line)) == Eol(sdp)
  {
    var kept := Kept(SplitLines(sdp));
    var all := Inserted(kept, line);
    KeptInherits(SplitLines(sdp));
    if HasCrLf(sdp) {
      CrLfInside(all[0], Join(all[1..], CRLF));
    } else {
      KeptStray(sdp);
      JoinedLinesResplit(kept, line);
      NoCrLfInJoin(all);
    }
  }

  lemma StrayReattached(sdp: string, first: string, second: string)
    requires Stray(sdp)
    ensures Join(Inserted(Settled(sdp), second), Eol(WithLine(sdp, first))) == WithLine(sdp, second)
       <==> |Kept(SplitLines(sdp))| == 1
  {
    var kept := Kept(SplitLines(sdp));
    var init, last := kept[..|kept| - 1], kept[|kept| - 1];
    assert kept == init + [last];
    InsertedLast(sdp, first);
    InsertedLast(sdp, second);
    StrayBreak(init, last, first);
    StrayChangesBreaks(init, last, second);
  }

  lemma StrayChangesBreaks(init: seq<string>, last: string, line: string)
    requires EndsInCr(last)
    ensures Join(init + [Chomp(last)] + [line], CRLF) == Join(init + [last] + [line], LF) <==> init == []
  {
    StrayBreak(init, last, line);
    if init == [] {
      Nothing([last]);
      Nothing([Chomp(last)]);
    } else {
      BreaksDiffer(init, last, Chomp(last), line);
    }
  }

  lemma BreaksDiffer(init: seq<string>, x: string, y: string, line: string)
    requires init != []
    ensures Join(init + [x] + [line], LF) != Join(init + [y] + [line], CRLF)
  {
    DifferentBreaks(init[0], Join((init + [x] + [line])[1..], LF), Join((init + [y] + [line])[1..], CRLF));
  }

  lemma DifferentBreaks(a: string, b: string, c: string)
    ensures a + LF + b != a + CRLF + c
  {
    assert (a + LF + b)[|a|] == '\n';
    assert (a + CRLF + c)[|a|] == '\r';
  }

  /** The carriage return and the line feed put behind it make a CRLF. */
  lemma {:induction false} StrayBreak(init: seq<string>, last: string, line: string)
    requires EndsInCr(last)
    ensures HasCrLf(Join(init + [last] + [line], LF))
    ensures init == [] ==> Join([last] + [line], LF) == Join([Chomp(last)] + [line], CRLF)
  {
    var all := init + [last] + [line];
    if init == [] {
      assert all == [last] + [line] && all[1..] == [line];
      assert last == Chomp(last) + "\r";
      assert last + LF + line == Chomp(last) + CRLF + line;
      CrLfInside(Chomp(last), line);
      assert ([Chomp(last)] + [line])[1..] == [line];
    } else {
      assert all[1..] == init[1..] + [last] + [line];
      StrayBreak(init[1..], last, line);
      CrLfLater(init[0] + LF, Join(all[1..], LF));
    }
  }

  lemma {:induction false} CrLfLater(a: string, b: string)
    requires HasCrLf(b)
    ensures HasCrLf(a + b)
  {
    if a == [] {
      assert a + b == b;
    } else {
      assert (a + b)[1..] == a[1..] + b;
      CrLfLater(a[1..], b);
    }
  }

  // ---------------------------------------------------------------------------------------------------------
  // Verifying what was attached

  /** An honest assertion is vouched for by its own SDP. */
  lemma AttachedIsVouched(scheme: Scheme, who: Identity, sdp: string)
    requires Honest(scheme, who) && Attached(scheme, who, sdp).Some?
    ensures var fps := Fingerprints(SplitLines(sdp));
            Vouched(scheme, Attached(scheme, who, sdp).value, Envelope(true, Detached(scheme, fps), who.token),
                    scheme.header, scheme.sign(scheme.header + "." + scheme.payload(fps)))
  {
    var fps := Fingerprints(SplitLines(sdp));
    OneAssertion(scheme, who, sdp);
    CarrierIsVouched(scheme, who, Attached(scheme, who, sdp).value, fps);
  }

  lemma Unwrapped(value: string)
    ensures AfterPrefix(IDENTITY + value) == value
  {
  }

  /** Any SDP with these fingerprints and the assertion made over them is vouched for. */
  lemma CarrierIsVouched(scheme: Scheme, who: Identity, out: string, fps: seq<Fingerprint>)
    requires Honest(scheme, who) && fps != []
    requires Fingerprints(SplitLines(out)) == fps
    requires IdentityLines(SplitLines(out)) == [IdentityLine(scheme, who, fps)]
    ensures Vouched(scheme, out, Envelope(true, Detached(scheme, fps), who.token),
                    scheme.header, scheme.sign(scheme.header + "." + scheme.payload(fps)))
  {
    Unwrapped(scheme.seal(Detached(scheme, fps), who));
    SignatureAccepted(scheme, who, fps);
  }

  lemma SignatureAccepted(scheme: Scheme, who: Identity, fps: seq<Fingerprint>)
    requires Honest(scheme, who)
    ensures scheme.accepts(who.token, CompactForm(scheme.header, scheme.payload(fps),
                                                  scheme.sign(scheme.header + "." + scheme.payload(fps))))
  {
    var input := scheme.header + "." + scheme.payload(fps);
    assert input + "." + scheme.sign(input) == CompactForm(scheme.header, scheme.payload(fps), scheme.sign(input));
  }

  /**
   Verifying an SDP that was given an honest assertion yields the original text exactly when that text carried no
   assertion before, has only CRLF line breaks, and no stray carriage return.
   */
  lemma VerifyingRestoresIff(scheme: Scheme, who: Identity, sdp: string)
    requires Honest(scheme, who) && Attached(scheme, who, sdp).Some?
    ensures Join(Kept(SplitLines(Attached(scheme, who, sdp).value)), CRLF) == sdp
       <==> IdentityLines(SplitLines(sdp)) == [] && OnlyCrLf(sdp) && !Stray(sdp)
  {
    JoinSplitCrLfIff(sdp);
    OneAssertion(scheme, who, sdp);
    KeptIsNotEmpty(sdp);
    SettledLines(sdp);
    var lines := SplitLines(sdp);
    if IdentityLines(lines) == [] {
      KeepsAllIff(lines);
    }
    if Join(Settled(sdp), CRLF) == sdp {
      SplitJoinCrLf(Settled(sdp));
      assert lines == Settled(sdp);
      NothingToDrop(lines);
    }
  }

  lemma {:induction false} KeepsAllIff(lines: seq<string>)
    requires IdentityLines(lines) == []
    ensures Kept(lines) == lines
  {
    if lines != [] {
      KeepsAllIff(lines[..|lines| - 1]);
    }
  }
}
