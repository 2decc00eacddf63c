/**
 `parseRedirect` of `src/werift/turnRedirect.js`: the loop over a STUN Allocate error response, proved equal to
 the attribute-list grammar of sections 5, 14, 14.8 and 14.15 of RFC 8489.
 */
module TurnRedirect {
  import opened Bytes
  import opened Sequences
  import opened Wrappers

  const MAGIC: nat := 0x2112_a442
  const ALLOCATE_ERROR: nat := 0x0113
  const ERROR_CODE: nat := 0x0009
  const ALTERNATE_SERVER: nat := 0x8023

  // ---------------------------------------------------------------------------------------------------------
  // The grammar

  /** A type, a value, and the bytes that pad the value to a multiple of four. Any padding bytes are allowed. */
  datatype Attribute = Attribute(typ: nat, value: bytes, padding: bytes) {
    predicate WellFormed() {
      typ < 0x1_0000 && |value| < 0x1_0000 && |padding| == Padding(|value|)
    }
  }

  function Padding(size: nat): nat {
    (4 - size % 4) % 4
  }

  ghost predicate AllWellFormed(attrs: seq<Attribute>) {
    forall i | 0 <= i < |attrs| :: attrs[i].WellFormed()
  }

  function EncodeOne(a: Attribute): bytes
    requires a.WellFormed()
  {
    Be16(a.typ) + Be16(|a.value|) + a.value + a.padding
  }

  ghost function EncodeAll(attrs: seq<Attribute>): bytes
    requires AllWellFormed(attrs)
  {
    if attrs == [] then [] else EncodeOne(attrs[0]) + EncodeAll(attrs[1..])
  }

  /** The 20-byte header: message type, length of what follows, magic cookie, and the request's transaction id. */
  function Header(length: nat, transaction: bytes): (header: bytes)
    requires length < 0x1_0000
    ensures |header| == 8 + |transaction|
  {
    Be16(ALLOCATE_ERROR) + Be16(length) + Cookie() + transaction
  }

  function Cookie(): (cookie: bytes)
    ensures |cookie| == 4
  {
    Be16(MAGIC / 0x1_0000) + Be16(MAGIC % 0x1_0000)
  }

  /** `msg` answers `request` and carries exactly these attributes. */
  ghost predicate Carries(msg: bytes, request: bytes, attrs: seq<Attribute>) {
    && AllWellFormed(attrs)
    && |Subarray(request, 8, 20)| == 12
    && |EncodeAll(attrs)| < 0x1_0000
    && msg == Header(|EncodeAll(attrs)|, Subarray(request, 8, 20)) + EncodeAll(attrs)
  }

  /** No ERROR-CODE is too short to hold a code. */
  ghost predicate NoShortCode(attrs: seq<Attribute>) {
    forall i | 0 <= i < |attrs| && attrs[i].typ == ERROR_CODE :: |attrs[i].value| >= 4
  }

  /** At least one ERROR-CODE, and every ERROR-CODE long enough to hold one. */
  ghost predicate Usable(attrs: seq<Attribute>) {
    && (exists i | 0 <= i < |attrs| :: attrs[i].typ == ERROR_CODE)
    && NoShortCode(attrs)
  }

  datatype Alternate = Alternate(ip: bytes, port: nat)

  /** Section 14.8 of RFC 8489: the hundreds digit is in the low three bits of byte 2, the rest in byte 3. */
  function CodeOf(value: bytes): nat
    requires |value| >= 4
  {
    var digit: int := value[2];
    digit % 8 * 100 + value[3]
  }

  /** An ALTERNATE-SERVER of the IPv4 family and size. */
  predicate IsIpv4Alternate(typ: nat, value: bytes) {
    typ == ALTERNATE_SERVER && |value| == 8 && value[1] == 1
  }

  function AlternateOf(value: bytes): Alternate
    requires |value| == 8
  {
    Alternate(value[4..], ReadBe16(value, 2))
  }

  /** The value of the last attribute that has one. */
  function LastCode(attrs: seq<Attribute>): Option<nat> {
    if attrs == [] then None
    else
      var a := attrs[|attrs| - 1];
      if a.typ == ERROR_CODE && |a.value| >= 4 then Some(CodeOf(a.value)) else LastCode(attrs[..|attrs| - 1])
  }

  function LastAlternate(attrs: seq<Attribute>): Option<Alternate> {
    if attrs == [] then None
    else
      var a := attrs[|attrs| - 1];
      if IsIpv4Alternate(a.typ, a.value) then Some(AlternateOf(a.value)) else LastAlternate(attrs[..|attrs| - 1])
  }

  // ---------------------------------------------------------------------------------------------------------
  // Decoding is the inverse of the grammar

  /** Reading one attribute off the front, if the bytes hold it and its padding. */
  function DecodeOne(b: bytes): Option<Attribute> {
    if |b| < 4 then None
    else
      var size := ReadBe16(b, 2);
      var end := 4 + size;
      var next := end + Padding(size);
      if next > |b| then None else Some(Attribute(ReadBe16(b, 0), b[4..end], b[end..next]))
  }

  function Size(a: Attribute): (n: nat)
    ensures n >= 4
  {
    4 + |a.value| + |a.padding|
  }

  lemma DecodeOneInverts(b: bytes)
    requires DecodeOne(b).Some?
    ensures var a := DecodeOne(b).value;
            a.WellFormed() && Size(a) <= |b| && EncodeOne(a) == b[..Size(a)]
  {
    var a := DecodeOne(b).value;
    Be16OfRead(b, 0);
    Be16OfRead(b, 2);
    assert b[0..2] + b[2..4] + b[4..4 + |a.value|] + b[4 + |a.value|..Size(a)] == b[..Size(a)];
  }

  lemma EncodeOneInverts(a: Attribute, rest: bytes)
    requires a.WellFormed()
    ensures DecodeOne(EncodeOne(a) + rest) == Some(a)
    ensures |EncodeOne(a)| == Size(a) && (EncodeOne(a) + rest)[Size(a)..] == rest
  {
    var b := EncodeOne(a) + rest;
    assert b[0] == a.typ / 256 && b[1] == a.typ % 256 && b[2] == |a.value| / 256 && b[3] == |a.value| % 256;
    assert b[4..4 + |a.value|] == a.value;
    assert b[4 + |a.value|..Size(a)] == a.padding;
  }

  /** The whole attribute list, or nothing if the bytes do not end where an attribute ends. */
  function DecodeAll(b: bytes): Option<seq<Attribute>>
    decreases |b|
  {
    if b == [] then Some([])
    else
      match DecodeOne(b)
      case None => None
      case Some(a) =>
        if Size(a) > |b| then None
        else
          var rest := DecodeAll(b[Size(a)..]);
          if rest.Some? then Some([a] + rest.value) else None
  }

  lemma {:induction false} EncodedDecodes(attrs: seq<Attribute>)
    requires AllWellFormed(attrs)
    ensures DecodeAll(EncodeAll(attrs)) == Some(attrs)
  {
    if attrs != [] {
      var a, rest := attrs[0], attrs[1..];
      EncodeOneInverts(a, EncodeAll(rest));
      EncodedDecodes(rest);
      DecodeStep(EncodeAll(attrs), a);
      assert [a] + rest == attrs;
    }
  }

  /** Decoding takes the first attribute off and goes on. */
  lemma DecodeStep(b: bytes, a: Attribute)
    requires b != [] && DecodeOne(b) == Some(a) && Size(a) <= |b|
    ensures DecodeAll(b) == Prefixed([a], DecodeAll(b[Size(a)..]))
  {
  }

  lemma {:induction false} DecodedIsEncoding(b: bytes)
    requires DecodeAll(b).Some?
    ensures AllWellFormed(DecodeAll(b).value) && EncodeAll(DecodeAll(b).value) == b
    decreases |b|
  {
    if b != [] {
      var a := DecodeOne(b).value;
      DecodeOneInverts(b);
      DecodeStep(b, a);
      DecodedIsEncoding(b[Size(a)..]);
      EncodeStep(a, DecodeAll(b[Size(a)..]).value);
      Halves(b, Size(a));
    }
  }

  lemma EncodeStep(a: Attribute, rest: seq<Attribute>)
    requires a.WellFormed() && AllWellFormed(rest)
    ensures AllWellFormed([a] + rest) && EncodeAll([a] + rest) == EncodeOne(a) + EncodeAll(rest)
  {
    assert ([a] + rest)[1..] == rest;
  }

  /** Bytes decode to `attrs` exactly when they are the encoding of `attrs`; in particular no list but one fits. */
  lemma DecodeIffEncoding(b: bytes, attrs: seq<Attribute>)
    ensures DecodeAll(b) == Some(attrs) <==> AllWellFormed(attrs) && EncodeAll(attrs) == b
  {
    if AllWellFormed(attrs) && EncodeAll(attrs) == b {
      EncodedDecodes(attrs);
    }
    if DecodeAll(b) == Some(attrs) {
      DecodedIsEncoding(b);
    }
  }

  /** Every attribute, so every list of them, takes a multiple of four bytes. */
  lemma {:induction false} EncodingIsAligned(attrs: seq<Attribute>)
    requires AllWellFormed(attrs)
    ensures |EncodeAll(attrs)| % 4 == 0
  {
    if attrs != [] {
      AttributeIsAligned(attrs[0]);
      EncodingIsAligned(attrs[1..]);
      AlignedSum(|EncodeOne(attrs[0])|, |EncodeAll(attrs[1..])|);
    }
  }

  lemma AlignedSum(a: nat, b: nat)
    requires a % 4 == 0 && b % 4 == 0
    ensures (a + b) % 4 == 0
  {
  }

  lemma AttributeIsAligned(a: Attribute)
    requires a.WellFormed()
    ensures |EncodeOne(a)| % 4 == 0
  {
    assert |EncodeOne(a)| == 4 + |a.value| + Padding(|a.value|);
  }

  /**
   Wherever a list of attributes ends inside a message whose length is a multiple of four, another attribute header
   fits. The loop of `ParseAttributes` has its own invariant for this.
   */
  lemma HeaderCheckIsUnreachable(msg: bytes, offset: nat, seen: seq<Attribute>)
    requires AllWellFormed(seen) && 20 <= offset < |msg| && |msg| % 4 == 0
    requires msg[20..offset] == EncodeAll(seen)
    ensures offset % 4 == 0 && offset + 4 <= |msg|
  {
    EncodingIsAligned(seen);
  }

  // ---------------------------------------------------------------------------------------------------------
  // The parser

  /** JavaScript's undefined (not an answer), null (an answer without a usable redirect), or the alternate. */
  datatype Parsed = Undefined | Null | Redirect(alternate: Alternate)

  /** Try Alternate, with somewhere to go. */
  function Judged(code: nat, alternate: Option<Alternate>): Parsed {
    if code == 300 && alternate.Some? && alternate.value.port != 0 then Redirect(alternate.value) else Null
  }

  /** The verdict on a usable attribute list. */
  function Verdict(attrs: seq<Attribute>): Parsed {
    if LastCode(attrs).Some? then Judged(LastCode(attrs).value, LastAlternate(attrs)) else Null
  }

  lemma {:induction false} CodeIffPresent(attrs: seq<Attribute>)
    requires NoShortCode(attrs)
    ensures LastCode(attrs).Some? <==> exists i | 0 <= i < |attrs| :: attrs[i].typ == ERROR_CODE
  {
    if attrs != [] {
      var init := attrs[..|attrs| - 1];
      CodeIffPresent(init);
      if attrs[|attrs| - 1].typ != ERROR_CODE && exists i | 0 <= i < |attrs| :: attrs[i].typ == ERROR_CODE {
        var i :| 0 <= i < |attrs| && attrs[i].typ == ERROR_CODE;
        assert init[i].typ == ERROR_CODE;
      }
    }
  }

  /** The message starts with the header of an answer to `request`. */
  predicate HasHeader(msg: bytes, request: bytes) {
    && |msg| >= 20
    && |Subarray(request, 8, 20)| == 12
    && |msg| - 20 < 0x1_0000
    && msg[..20] == Header(|msg| - 20, Subarray(request, 8, 20))
  }

  /** The tests of the source say exactly that. */
  lemma HeaderTests(msg: bytes, request: bytes)
    requires |msg| >= 20
    ensures (&& ReadBe16(msg, 0) == ALLOCATE_ERROR
             && 0x1_0000 * ReadBe16(msg, 4) + ReadBe16(msg, 6) == MAGIC
             && msg[8..20] == Subarray(request, 8, 20)
             && ReadBe16(msg, 2) + 20 == |msg|)
       <==> HasHeader(msg, request)
  {
    var t := Subarray(request, 8, 20);
    Quarters(msg);
    ReadIffWritten(msg, 0, ALLOCATE_ERROR);
    CookieIffMagic(msg);
    if |t| == 12 && |msg| - 20 < 0x1_0000 {
      ReadIffWritten(msg, 2, |msg| - 20);
      SameQuarters(msg[0..2], msg[2..4], msg[4..8], msg[8..20], Be16(ALLOCATE_ERROR), Be16(|msg| - 20), Cookie(), t);
    }
  }

  lemma Quarters(msg: bytes)
    requires |msg| >= 20
    ensures msg[..20] == msg[0..2] + msg[2..4] + msg[4..8] + msg[8..20]
  {
  }

  lemma SameQuarters(a: bytes, b: bytes, c: bytes, d: bytes, a': bytes, b': bytes, c': bytes, d': bytes)
    requires |a| == |a'| && |b| == |b'| && |c| == |c'|
    ensures a + b + c + d == a' + b' + c' + d' <==> a == a' && b == b' && c == c' && d == d'
  {
    SameHalves(a, b, a', b');
    SameHalves(a + b, c, a' + b', c');
    SameHalves(a + b + c, d, a' + b' + c', d');
  }

  lemma SameHalves(a: bytes, b: bytes, a': bytes, b': bytes)
    requires |a| == |a'|
    ensures a + b == a' + b' <==> a == a' && b == b'
  {
    assert (a + b)[..|a|] == a && (a + b)[|a|..] == b;
    assert (a' + b')[..|a|] == a' && (a' + b')[|a|..] == b';
  }

  lemma ReadIffWritten(msg: bytes, at: nat, n: nat)
    requires at + 2 <= |msg| && n < 0x1_0000
    ensures ReadBe16(msg, at) == n <==> msg[at..at + 2] == Be16(n)
  {
    Be16OfRead(msg, at);
    assert Be16(n)[0] == n / 256 && Be16(n)[1] == n % 256;
  }

  lemma CookieIffMagic(msg: bytes)
    requires |msg| >= 8
    ensures 0x1_0000 * ReadBe16(msg, 4) + ReadBe16(msg, 6) == MAGIC <==> msg[4..8] == Cookie()
  {
    ReadIffWritten(msg, 4, MAGIC / 0x1_0000);
    ReadIffWritten(msg, 6, MAGIC % 0x1_0000);
    assert msg[4..8] == msg[4..6] + msg[6..8];
    SameHalves(msg[4..6], msg[6..8], Be16(MAGIC / 0x1_0000), Be16(MAGIC % 0x1_0000));
  }

  /** A message carries exactly what the bytes after its header decode to. */
  lemma CarriesIffDecodes(msg: bytes, request: bytes, attrs: seq<Attribute>)
    ensures Carries(msg, request, attrs) <==> HasHeader(msg, request) && DecodeAll(msg[20..]) == Some(attrs)
  {
    if Carries(msg, request, attrs) {
      var h := Header(|EncodeAll(attrs)|, Subarray(request, 8, 20));
      assert |h| == 20;
      assert msg[..20] == h && msg[20..] == EncodeAll(attrs);
      DecodeIffEncoding(msg[20..], attrs);
    }
    if HasHeader(msg, request) {
      DecodeIffEncoding(msg[20..], attrs);
      assert msg == msg[..20] + msg[20..];
    }
  }

  lemma CarriedIsAligned(msg: bytes, request: bytes, attrs: seq<Attribute>)
    requires Carries(msg, request, attrs)
    ensures |msg| % 4 == 0
  {
    EncodingIsAligned(attrs);
    AlignedSum(20, |EncodeAll(attrs)|);
  }

  lemma Misfit(msg: bytes, request: bytes)
    requires !HasHeader(msg, request) || |msg| % 4 != 0
    ensures !exists attrs :: Carries(msg, request, attrs)
  {
    forall attrs | Carries(msg, request, attrs)
      ensures false
    {
      CarriesIffDecodes(msg, request, attrs);
      CarriedIsAligned(msg, request, attrs);
    }
  }

  /** With the header in place, the loop's outcome is the verdict on whatever usable list the message carries. */
  lemma OutcomeIsTheVerdict(msg: bytes, request: bytes)
    requires HasHeader(msg, request)
    ensures var r := Outcome(DecodeAll(msg[20..]));
            && (r != Undefined <==> exists attrs :: Carries(msg, request, attrs) && Usable(attrs))
            && (forall attrs :: Carries(msg, request, attrs) && Usable(attrs) ==> r == Verdict(attrs))
  {
    var d := DecodeAll(msg[20..]);
    forall attrs
      ensures Carries(msg, request, attrs) <==> d == Some(attrs)
    {
      CarriesIffDecodes(msg, request, attrs);
    }
    if d.Some? {
      if NoShortCode(d.value) {
        CodeIffPresent(d.value);
      }
      assert Carries(msg, request, d.value);
    }
  }

  /** What the loop is to return for the bytes after the header. */
  ghost function Outcome(decoded: Option<seq<Attribute>>): Parsed {
    if decoded.Some? && NoShortCode(decoded.value) && LastCode(decoded.value).Some? then Verdict(decoded.value)
    else Undefined
  }

  ghost function Prefixed(seen: seq<Attribute>, rest: Option<seq<Attribute>>): Option<seq<Attribute>> {
    if rest.Some? then Some(seen + rest.value) else None
  }

  lemma NothingBefore(rest: Option<seq<Attribute>>)
    ensures Prefixed([], rest) == rest
  {
    if rest.Some? {
      Nothing(rest.value);
    }
  }

  lemma ReadOneMore(b: bytes, seen: seq<Attribute>, a: Attribute)
    requires DecodeOne(b) == Some(a) && b != [] && Size(a) <= |b|
    ensures Prefixed(seen, DecodeAll(b)) == Prefixed(seen + [a], DecodeAll(b[Size(a)..]))
  {
    var rest := DecodeAll(b[Size(a)..]);
    if rest.Some? {
      Associate(seen, [a], rest.value);
    }
  }

  lemma OneMoreCode(seen: seq<Attribute>, a: Attribute)
    ensures NoShortCode(seen + [a]) <==> NoShortCode(seen) && (a.typ == ERROR_CODE ==> |a.value| >= 4)
    ensures LastCode(seen + [a])
         == if a.typ == ERROR_CODE && |a.value| >= 4 then Some(CodeOf(a.value)) else LastCode(seen)
  {
    var longer := seen + [a];
    assert longer[..|seen|] == seen && longer[|seen|] == a;
    assert forall i | 0 <= i < |seen| :: longer[i] == seen[i];
  }

  lemma OneMoreAlternate(seen: seq<Attribute>, a: Attribute)
    ensures LastAlternate(seen + [a])
         == if IsIpv4Alternate(a.typ, a.value) then Some(AlternateOf(a.value)) else LastAlternate(seen)
  {
    assert (seen + [a])[..|seen|] == seen;
  }

  /** Reading at an offset of the message is reading off the front of what is left of it. */
  lemma DecodeAt(msg: bytes, offset: nat)
    requires offset + 4 <= |msg|
    ensures var size := ReadBe16(msg, offset + 2);
            var end := offset + 4 + size;
            var next := end + Padding(size);
            if next > |msg| then DecodeAll(msg[offset..]).None?
            else
              var a := Attribute(ReadBe16(msg, offset), msg[offset + 4..end], msg[end..next]);
              DecodeOne(msg[offset..]) == Some(a) && Size(a) == next - offset && msg[offset..][Size(a)..] == msg[next..]
  {
    var here := msg[offset..];
    assert here[0] == msg[offset] && here[1] == msg[offset + 1];
    assert here[2] == msg[offset + 2] && here[3] == msg[offset + 3];
    var size := ReadBe16(msg, offset + 2);
    var end := offset + 4 + size;
    var next := end + Padding(size);
    if next <= |msg| {
      assert here[4..4 + size] == msg[offset + 4..end];
      assert here[4 + size..4 + size + Padding(size)] == msg[end..next];
    }
  }

  /** One short ERROR-CODE spoils the list, whatever follows it. */
  lemma ShortCodeIsFatal(seen: seq<Attribute>, rest: Option<seq<Attribute>>)
    requires !NoShortCode(seen)
    ensures Outcome(Prefixed(seen, rest)) == Undefined
  {
    if rest.Some? {
      var i :| 0 <= i < |seen| && seen[i].typ == ERROR_CODE && |seen[i].value| < 4;
      assert (seen + rest.value)[i] == seen[i];
    }
  }

  /** What the loop's variables say at `offset`, where `seen` has been read and `decoded` is the whole outcome. */
  ghost predicate Reads(decoded: Option<seq<Attribute>>, msg: bytes, offset: nat, seen: seq<Attribute>,
                        code: Option<nat>, alternate: Option<Alternate>)
  {
    && offset <= |msg|
    && decoded == Prefixed(seen, DecodeAll(msg[offset..]))
    && NoShortCode(seen)
    && code == LastCode(seen) && alternate == LastAlternate(seen)
  }

  function NextCode(code: Option<nat>, typ: nat, value: bytes): Option<nat> {
    if typ == ERROR_CODE && |value| >= 4 then Some(CodeOf(value)) else code
  }

  function NextAlternate(alternate: Option<Alternate>, typ: nat, value: bytes): Option<Alternate> {
    if IsIpv4Alternate(typ, value) then Some(AlternateOf(value)) else alternate
  }

  /** One round: None when it rejects the message, otherwise the offset, code and alternate it leaves. */
  function Round(msg: bytes, offset: nat, code: Option<nat>, alternate: Option<Alternate>)
    : (r: Option<(nat, Option<nat>, Option<Alternate>)>)
    ensures r.Some? ==> offset < r.value.0 <= |msg|
  {
    if offset + 4 > |msg| then None
    else
      var typ, size := ReadBe16(msg, offset), ReadBe16(msg, offset + 2);
      var end := offset + 4 + size;
      var next := end + Padding(size);
      if next > |msg| || (typ == ERROR_CODE && size < 4) then None
      else
        var value := msg[offset + 4..end];
        Some((next, NextCode(code, typ, value), NextAlternate(alternate, typ, value)))
  }

  /** The attributes up to `next` and what follows make the same list as those up to `offset` and what follows. */
  lemma MoveOn(msg: bytes, offset: nat, seen: seq<Attribute>, next: nat, a: Attribute)
    requires offset + 4 <= |msg| && DecodeOne(msg[offset..]) == Some(a)
    requires Size(a) == next - offset && next <= |msg| && msg[offset..][Size(a)..] == msg[next..]
    ensures Prefixed(seen, DecodeAll(msg[offset..])) == Prefixed(seen + [a], DecodeAll(msg[next..]))
  {
    ReadOneMore(msg[offset..], seen, a);
  }

  /** What one attribute more makes of the loop's variables. */
  lemma Grown(decoded: Option<seq<Attribute>>, msg: bytes, next: nat, seen: seq<Attribute>, a: Attribute,
              code: Option<nat>, alternate: Option<Alternate>)
    requires next <= |msg| && decoded == Prefixed(seen + [a], DecodeAll(msg[next..]))
    requires NoShortCode(seen) && code == LastCode(seen) && alternate == LastAlternate(seen)
    ensures if a.typ == ERROR_CODE && |a.value| < 4 then Outcome(decoded) == Undefined
            else Reads(decoded, msg, next, seen + [a], NextCode(code, a.typ, a.value),
                       NextAlternate(alternate, a.typ, a.value))
  {
    OneMoreCode(seen, a);
    OneMoreAlternate(seen, a);
    if a.typ == ERROR_CODE && |a.value| < 4 {
      ShortCodeIsFatal(seen + [a], DecodeAll(msg[next..]));
    }
  }

  /** A round reads one attribute more, or finds that there is nothing usable. */
  lemma Advance(decoded: Option<seq<Attribute>>, msg: bytes, offset: nat, seen: seq<Attribute>,
                code: Option<nat>, alternate: Option<Alternate>)
    returns (longer: seq<Attribute>)
    requires Reads(decoded, msg, offset, seen, code, alternate) && offset < |msg|
    ensures match Round(msg, offset, code, alternate)
            case None => Outcome(decoded) == Undefined
            case Some((next, code', alternate')) => Reads(decoded, msg, next, longer, code', alternate')
  {
    longer := seen;
    if Fits(msg, offset) {
      var a := AttributeAt(msg, offset);
      longer := seen + [a];
      RoundOf(msg, offset, code, alternate, a);
      ReadsOn(decoded, msg, offset, seen, code, alternate, a);
    } else {
      NothingFits(msg, offset);
    }
  }

  lemma ReadsOn(decoded: Option<seq<Attribute>>, msg: bytes, offset: nat, seen: seq<Attribute>,
                code: Option<nat>, alternate: Option<Alternate>, a: Attribute)
    requires Reads(decoded, msg, offset, seen, code, alternate) && offset + 4 <= |msg|
    requires DecodeOne(msg[offset..]) == Some(a) && offset + Size(a) <= |msg|
    requires msg[offset..][Size(a)..] == msg[offset + Size(a)..]
    ensures if a.typ == ERROR_CODE && |a.value| < 4 then Outcome(decoded) == Undefined
            else Reads(decoded, msg, offset + Size(a), seen + [a], NextCode(code, a.typ, a.value),
                       NextAlternate(alternate, a.typ, a.value))
  {
    var next := offset + Size(a);
    MoveOn(msg, offset, seen, next, a);
    Grown(decoded, msg, next, seen, a, code, alternate);
  }

  /** The round that reads `a`. */
  lemma RoundOf(msg: bytes, offset: nat, code: Option<nat>, alternate: Option<Alternate>, a: Attribute)
    requires Fits(msg, offset)
    requires a.typ == ReadBe16(msg, offset) && |a.value| == ReadBe16(msg, offset + 2)
    requires Size(a) == 4 + |a.value| + Padding(|a.value|)
    requires a.value == msg[offset + 4..offset + 4 + |a.value|]
    ensures Round(msg, offset, code, alternate)
         == if a.typ == ERROR_CODE && |a.value| < 4 then None
            else Some((offset + Size(a), NextCode(code, a.typ, a.value), NextAlternate(alternate, a.typ, a.value)))
  {
  }

  /** A whole attribute with its padding is left. */
  predicate Fits(msg: bytes, offset: nat) {
    && offset + 4 <= |msg|
    && var size := ReadBe16(msg, offset + 2); offset + 4 + size + Padding(size) <= |msg|
  }

  lemma AttributeAt(msg: bytes, offset: nat) returns (a: Attribute)
    requires Fits(msg, offset)
    ensures a.typ == ReadBe16(msg, offset) && |a.value| == ReadBe16(msg, offset + 2)
    ensures Size(a) == 4 + |a.value| + Padding(|a.value|) && offset + Size(a) <= |msg|
    ensures a.value == msg[offset + 4..offset + 4 + |a.value|]
    ensures DecodeOne(msg[offset..]) == Some(a) && msg[offset..][Size(a)..] == msg[offset + Size(a)..]
  {
    DecodeAt(msg, offset);
    var end := offset + 4 + ReadBe16(msg, offset + 2);
    a := Attribute(ReadBe16(msg, offset), msg[offset + 4..end], msg[end..end + Padding(end - offset - 4)]);
  }

  lemma NothingFits(msg: bytes, offset: nat)
    requires offset < |msg| && !Fits(msg, offset)
    ensures DecodeAll(msg[offset..]).None?
    ensures forall code, alternate :: Round(msg, offset, code, alternate).None?
  {
    if offset + 4 <= |msg| {
      DecodeAt(msg, offset);
    }
  }

  lemma AlignedGap(a: nat, b: nat)
    requires a < b && a % 4 == 0 && b % 4 == 0
    ensures a + 4 <= b
  {
  }

  /** A value and its padding end on a multiple of four. */
  lemma PaddedIsAligned(size: nat)
    ensures (size + Padding(size)) % 4 == 0
  {
  }

  /** A round leaves the offset a multiple of four. */
  lemma RoundIsAligned(msg: bytes, offset: nat, code: Option<nat>, alternate: Option<Alternate>)
    requires offset % 4 == 0
    ensures var r := Round(msg, offset, code, alternate);
            r.Some? ==> r.value.0 % 4 == 0
  {
    if offset + 4 <= |msg| {
      var size := ReadBe16(msg, offset + 2);
      PaddedIsAligned(size);
      AlignedSum(offset + 4, size + Padding(size));
    }
  }

  lemma AtTheStart(msg: bytes)
    requires |msg| >= 20
    ensures Reads(DecodeAll(msg[20..]), msg, 20, [], None, None)
  {
    NothingBefore(DecodeAll(msg[20..]));
  }

  lemma AtTheEnd(decoded: Option<seq<Attribute>>, msg: bytes, seen: seq<Attribute>,
                 code: Option<nat>, alternate: Option<Alternate>)
    requires Reads(decoded, msg, |msg|, seen, code, alternate)
    ensures Outcome(decoded) == if code.Some? then Judged(code.value, alternate) else Undefined
  {
    Nothing(seen);
  }

  /** The body of the `for` loop. */
  method ReadAttribute(msg: bytes, offset: nat, code: Option<nat>, alternate: Option<Alternate>)
    returns (r: Option<(nat, Option<nat>, Option<Alternate>)>)
    ensures r == Round(msg, offset, code, alternate)
  {
    if offset + 4 > |msg| {
      return None;
    }
    var typ := ReadBe16(msg, offset);
    var size := ReadBe16(msg, offset + 2);
    var end := offset + 4 + size;
    var next := end + (4 - size % 4) % 4;
    if next > |msg| {
      return None;
    }
    var value := msg[offset + 4..end];
    var code', alternate' := code, alternate;
    if typ == ERROR_CODE {
      if size < 4 {
        return None;
      }
      var digit: int := value[2];
      code' := Some(digit % 8 * 100 + value[3]);
    } else if typ == ALTERNATE_SERVER {
      if size == 8 && value[1] == 1 {
        alternate' := Some(Alternate(value[4..], ReadBe16(value, 2)));
      }
    }
    return Some((next, code', alternate'));
  }

  /**
   The `for` loop of the source, whose variables are `offset`, `code` and `alternate`. Its offset stays a multiple of
   four, like the message, so the first check of the body never fires.
   */
  method ParseAttributes(msg: bytes) returns (result: Parsed)
    requires |msg| >= 20 && |msg| % 4 == 0
    ensures result == Outcome(DecodeAll(msg[20..]))
  {
    var code: Option<nat>, alternate: Option<Alternate> := None, None;
    var offset := 20;
    ghost var seen: seq<Attribute> := [];
    ghost var decoded := DecodeAll(msg[20..]);
    AtTheStart(msg);
    while offset < |msg|
      invariant 20 <= offset <= |msg| && offset % 4 == 0
      invariant Reads(decoded, msg, offset, seen, code, alternate)
      decreases |msg| - offset
    {
      AlignedGap(offset, |msg|);
      assert offset + 4 <= |msg|;
      RoundIsAligned(msg, offset, code, alternate);
      seen := Advance(decoded, msg, offset, seen, code, alternate);
      var round := ReadAttribute(msg, offset, code, alternate);
      if round.None? {
        return Undefined;
      }
      offset, code, alternate := round.value.0, round.value.1, round.value.2;
    }
    AtTheEnd(decoded, msg, seen, code, alternate);
    if code.None? {
      return Undefined;
    }
    result := Judged(code.value, alternate);
  }

  /** What `ParseRedirect` is to return. */
  ghost predicate IsResult(msg: bytes, request: bytes, result: Parsed) {
    && (result != Undefined <==> exists attrs :: Carries(msg, request, attrs) && Usable(attrs))
    && forall attrs :: Carries(msg, request, attrs) && Usable(attrs) ==> result == Verdict(attrs)
  }

  /**
   Sound and complete: a value comes back exactly when the bytes are a matching response carrying a usable
   attribute list, and it is that list's verdict.
   */
  method ParseRedirect(msg: bytes, request: bytes) returns (result: Parsed)
    ensures result != Undefined <==> exists attrs :: Carries(msg, request, attrs) && Usable(attrs)
    ensures forall attrs :: Carries(msg, request, attrs) && Usable(attrs) ==> result == Verdict(attrs)
    ensures IsResult(msg, request, result)
  {
    if |msg| < 20 {
      Misfit(msg, request);
      return Undefined;
    }
    HeaderTests(msg, request);
    if ReadBe16(msg, 0) != ALLOCATE_ERROR
       || 0x1_0000 * ReadBe16(msg, 4) + ReadBe16(msg, 6) != MAGIC
       || msg[8..20] != Subarray(request, 8, 20) {
      Misfit(msg, request);
      return Undefined;
    }
    var length := ReadBe16(msg, 2);
    if length % 4 != 0 || length + 20 != |msg| {
      Misfit(msg, request);
      return Undefined;
    }
    AlignedSum(20, length);
    result := ParseAttributes(msg);
    OutcomeIsTheVerdict(msg, request);
  }
}
