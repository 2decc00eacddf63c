/**
 The binary discovery frames: the layout of `src/datatypes/protocol.json`, the `encapsulated` type of
 `src/datatypes/compiler.js`, and the encrypted packets of `src/signalling/lan.js` with the recovery of undercounted
 signals. Strings are their UTF-8 bytes.
 */
module Discovery {
  import opened Bytes
  import opened Sequences
  import opened Wrappers

  datatype Packet =
    | Request(sender: nat, reserved: bytes)
    | Response(sender: nat, reserved: bytes, data: bytes)
    | Message(sender: nat, reserved: bytes, recipient: nat, data: bytes)
  {
    /** The fields fit the widths of the layout. */
    predicate Fits() {
      && sender < Pow256(8) && |reserved| == 8
      && (Message? ==> recipient < Pow256(8))
      && (!Request? ==> |data| < Pow256(4))
    }
  }

  // ---------------------------------------------------------------------------------------------------------
  // Encoding

  /** The packet type and the two fields every packet starts with. */
  function Head(tag: nat, sender: nat, reserved: bytes): bytes {
    Le(tag, 2) + Le(sender, 8) + reserved
  }

  /** `nethernet_packet_inner`: the packet type, then the fields of that type. */
  function Inner(p: Packet): bytes {
    match p
    case Request(sender, reserved) => Head(0, sender, reserved)
    case Response(sender, reserved, data) => Head(1, sender, reserved) + (Le(|data|, 4) + data)
    case Message(sender, reserved, recipient, data) =>
      Head(2, sender, reserved) + Le(recipient, 8) + (Le(|data|, 4) + data)
  }

  function SizeOfInner(p: Packet): nat {
    match p
    case Request(_, reserved) => 2 + 8 + |reserved|
    case Response(_, reserved, data) => 2 + 8 + |reserved| + 4 + |data|
    case Message(_, reserved, _, data) => 2 + 8 + |reserved| + 8 + 4 + |data|
  }

  /** `SizeOf.encapsulated` */
  function SizeOf(p: Packet): nat {
    2 + SizeOfInner(p)
  }

  function Encode(p: Packet): bytes {
    Le(|Inner(p)|, 2) + Inner(p)
  }

  lemma SizeIsLength(p: Packet)
    ensures |Inner(p)| == SizeOfInner(p) && |Encode(p)| == SizeOf(p)
  {
  }

  /** `s` with the bytes from `at` on replaced by `data`. */
  ghost function Spliced(s: bytes, at: nat, data: bytes): bytes
    requires at + |data| <= |s|
  {
    s[..at] + data + s[at + |data|..]
  }

  lemma SplicedTwice(s: bytes, at: nat, a: bytes, b: bytes)
    requires at + |a| + |b| <= |s|
    ensures Spliced(Spliced(s, at, a), at + |a|, b) == Spliced(s, at, a + b)
  {
  }

  lemma SplicedWhole(s: bytes, was: bytes, data: bytes)
    requires |data| == |was| && s == Spliced(was, 0, data)
    ensures s == data
  {
  }

  method WriteAt(data: bytes, buffer: array<byte>, offset: nat)
    requires offset + |data| <= buffer.Length
    modifies buffer
    ensures buffer[..] == Spliced(old(buffer[..]), offset, data)
  {
    for i := 0 to |data|
      invariant forall k | 0 <= k < buffer.Length ::
                  buffer[k] == if offset <= k < offset + i then data[k - offset] else old(buffer[k])
    {
      buffer[offset + i] := data[i];
    }
  }

  /**
   `Write.encapsulated`, for the bytes its payload type writes: they go to a buffer of their own first, so that their
   size can be written in front of them. None is the RangeError of a size that does not fit 16 bits.
   */
  method WriteEncapsulated(payload: bytes, buffer: array<byte>, offset: nat) returns (end: Option<nat>)
    requires offset + 2 + |payload| <= buffer.Length
    modifies buffer
    ensures end == if |payload| < Pow256(2) then Some(offset + 2 + |payload|) else None
    ensures buffer[..] == if end.Some? then Spliced(old(buffer[..]), offset, Le(|payload|, 2) + payload)
                          else old(buffer[..])
  {
    var buf := new byte[buffer.Length - offset](_ => 0);
    WriteAt(payload, buf, 0);
    var payloadSize := |payload|;
    var copied := buf[..payloadSize];
    assert copied == payload;
    if payloadSize >= Pow256(2) {
      return None;
    }
    WriteAt(Le(payloadSize, 2), buffer, offset);
    var size := offset + 2;
    WriteAt(copied, buffer, size);
    SplicedTwice(old(buffer[..]), offset, Le(payloadSize, 2), payload);
    return Some(size + payloadSize);
  }

  /** `serializer.createPacketBuffer`: a buffer of exactly `SizeOf` bytes, filled by one write. */
  method CreatePacketBuffer(p: Packet) returns (r: Option<bytes>)
    ensures r == if |Inner(p)| < Pow256(2) then Some(Encode(p)) else None
  {
    SizeIsLength(p);
    var buffer := new byte[SizeOf(p)](_ => 0);
    ghost var zeros := buffer[..];
    var end := WriteEncapsulated(Inner(p), buffer, 0);
    if end.None? {
      return None;
    }
    SplicedWhole(buffer[..], zeros, Encode(p));
    return Some(buffer[..]);
  }

  // ---------------------------------------------------------------------------------------------------------
  // Decoding

  /** `nethernet_packet_inner` read from the front of `b`: the packet and the bytes read. None is a read error. */
  function ReadInner(b: bytes): (r: Option<(Packet, nat)>)
    ensures r.Some? ==> r.value.1 <= |b|
  {
    if |b| < 18 then None
    else
      var sender, reserved := FromLe(b[2..10]), b[10..18];
      match FromLe(b[0..2])
      case 0 => Some((Request(sender, reserved), 18))
      case 1 =>
        var data := ReadString(b, 18);
        if data.None? then None else Some((Response(sender, reserved, data.value), 22 + |data.value|))
      case 2 =>
        var data := if |b| < 26 then None else ReadString(b, 26);
        if data.None? then None
        else Some((Message(sender, reserved, FromLe(b[18..26]), data.value), 30 + |data.value|))
      case _ => None
  }

  /** `pstring` with a 32-bit count. */
  function ReadString(b: bytes, at: nat): (r: Option<bytes>)
    ensures r.Some? ==> at + 4 + |r.value| <= |b|
  {
    if |b| < at + 4 then None
    else
      var count := FromLe(b[at..at + 4]);
      if |b| < at + 4 + count then None else Some(b[at + 4..at + 4 + count])
  }

  /** `Read.encapsulated`: the outer length is read past and otherwise ignored. */
  function ReadEncapsulated(b: bytes): (r: Option<(Packet, nat)>)
    ensures r.Some? ==> r.value.1 <= |b|
  {
    if |b| < 2 then None
    else
      var inner := ReadInner(b[2..]);
      if inner.None? then None else Some((inner.value.0, inner.value.1 + 2))
  }

  /** A discovery message as a peer may frame it: any outer length, and its own count of the data bytes. */
  function MessageFrame(outer: nat, p: Packet, count: nat, data: bytes): bytes
    requires p.Message?
  {
    Le(outer, 2) + (Head(2, p.sender, p.reserved) + Le(p.recipient, 8) + (Le(count, 4) + data))
  }

  lemma HeadParts(tag: nat, sender: nat, reserved: bytes, rest: bytes)
    requires tag < 3 && sender < Pow256(8) && |reserved| == 8
    ensures var b := Head(tag, sender, reserved) + rest;
            && |b| == 18 + |rest|
            && FromLe(b[0..2]) == tag && FromLe(b[2..10]) == sender && b[10..18] == reserved
            && b[18..] == rest
  {
    var b := Head(tag, sender, reserved) + rest;
    assert b[0..2] == Le(tag, 2) && b[2..10] == Le(sender, 8);
    Pow256Values();
    LeRoundTrip(tag, 2);
    LeRoundTrip(sender, 8);
  }

  /** Reading a counted string off `front + count + data`. */
  lemma ReadCounted(front: bytes, count: nat, data: bytes)
    requires count < Pow256(4)
    ensures ReadString(front + (Le(count, 4) + data), |front|)
         == if count <= |data| then Some(data[..count]) else None
  {
    var b := front + (Le(count, 4) + data);
    assert b[|front|..|front| + 4] == Le(count, 4);
    LeRoundTrip(count, 4);
    if count <= |data| {
      assert b[|front| + 4..|front| + 4 + count] == data[..count];
    }
  }

  lemma InnerOf(outer: nat, inner: bytes)
    ensures (Le(outer, 2) + inner)[2..] == inner
  {
  }

  lemma ReadMessageInner(p: Packet, count: nat, data: bytes)
    requires p.Message? && p.Fits() && count < Pow256(4)
    ensures ReadInner(Head(2, p.sender, p.reserved) + Le(p.recipient, 8) + (Le(count, 4) + data))
         == if count <= |data| then Some((p.(data := data[..count]), 30 + count)) else None
  {
    var front := Head(2, p.sender, p.reserved) + Le(p.recipient, 8);
    var tail := Le(count, 4) + data;
    var b := front + tail;
    assert b == Head(2, p.sender, p.reserved) + (Le(p.recipient, 8) + tail);
    HeadParts(2, p.sender, p.reserved, Le(p.recipient, 8) + tail);
    assert b[18..26] == Le(p.recipient, 8);
    LeRoundTrip(p.recipient, 8);
    ReadCounted(front, count, data);
  }

  /** The outer length does not matter, and the count decides how much of the data is read. */
  lemma ReadMessageFrame(outer: nat, p: Packet, count: nat, data: bytes)
    requires p.Message? && p.Fits() && count < Pow256(4)
    ensures ReadEncapsulated(MessageFrame(outer, p, count, data))
         == if count <= |data| then Some((p.(data := data[..count]), 32 + count)) else None
  {
    InnerOf(outer, Head(2, p.sender, p.reserved) + Le(p.recipient, 8) + (Le(count, 4) + data));
    ReadMessageInner(p, count, data);
  }

  lemma ReadOwnInner(p: Packet)
    requires p.Fits()
    ensures ReadInner(Inner(p)) == Some((p, |Inner(p)|))
  {
    match p
    case Request(sender, reserved) =>
      HeadParts(0, sender, reserved, []);
      assert Inner(p) + [] == Inner(p);
    case Response(sender, reserved, data) =>
      HeadParts(1, sender, reserved, Le(|data|, 4) + data);
      ReadCounted(Head(1, sender, reserved), |data|, data);
      assert data[..|data|] == data;
    case Message(sender, reserved, recipient, data) =>
      ReadMessageInner(p, |data|, data);
      assert data[..|data|] == data;
  }

  /** Decoding what was encoded gives the packet back and has read every byte. */
  lemma ReadOwnEncoding(p: Packet)
    requires p.Fits()
    ensures ReadEncapsulated(Encode(p)) == Some((p, |Encode(p)|))
  {
    InnerOf(|Inner(p)|, Inner(p));
    ReadOwnInner(p);
  }

  /** Every encoded frame contains a zero byte: the high byte of its type. */
  lemma FrameHasZero(p: Packet)
    ensures 0 in Encode(p)
  {
    var tag := match p case Request(_, _) => 0 case Response(_, _, _) => 1 case Message(_, _, _, _) => 2;
    assert Encode(p)[3] == Le(tag, 2)[1] == 0;
  }

  // ---------------------------------------------------------------------------------------------------------
  // Secure packets

  /** AES and HMAC as functions; decryption fails on what is not an encryption. */
  datatype Crypto = Crypto(
    encrypt: bytes -> bytes,
    decrypt: bytes -> Option<bytes>,
    checksum: bytes -> bytes)

  ghost predicate Sound(c: Crypto) {
    && (forall d :: c.decrypt(c.encrypt(d)) == Some(d))
    && (forall d :: |c.checksum(d)| == 32)
  }

  function Secure(c: Crypto, plain: bytes): bytes {
    c.checksum(plain) + c.encrypt(plain)
  }

  /** `prepareSecurePacket`. None is the RangeError of a frame that is too large. */
  method PrepareSecurePacket(c: Crypto, p: Packet) returns (r: Option<bytes>)
    ensures r == if |Inner(p)| < Pow256(2) then Some(Secure(c, Encode(p))) else None
  {
    var buf := CreatePacketBuffer(p);
    if buf.None? {
      return None;
    }
    return Some(Secure(c, buf.value));
  }

  const CONNECT_RESPONSE: bytes :=
    [0x43, 0x4f, 0x4e, 0x4e, 0x45, 0x43, 0x54, 0x52, 0x45, 0x53, 0x50, 0x4f, 0x4e, 0x53, 0x45, 0x20]

  const DISCOVERY_MESSAGE_DATA_OFFSET: nat := 2 + 2 + 8 + 8 + 8 + 4

  datatype Processed = TooShort | Undecryptable | ChecksumMismatch | Malformed | Accepted(packet: Packet)

  /** The recovery of a CONNECTRESPONSE whose lengths were undercounted. */
  function Recovered(p: Packet, size: nat, plain: bytes): Packet {
    if p.Message? && CONNECT_RESPONSE <= p.data && size < |plain| then
      var data := Subarray(plain, DISCOVERY_MESSAGE_DATA_OFFSET, |plain|);
      if 0 !in data then p.(data := data) else p
    else p
  }

  /** What `processSecurePacket` makes of a plaintext whose checksum was right. */
  function Parsed(plain: bytes): Processed {
    var read := ReadEncapsulated(plain);
    if read.None? then Malformed else Accepted(Recovered(read.value.0, read.value.1, plain))
  }

  /** `processSecurePacket` */
  method ProcessSecurePacket(c: Crypto, buffer: bytes) returns (r: Processed)
    ensures |buffer| < 32 <==> r == TooShort
    ensures |buffer| >= 32 ==>
              match c.decrypt(buffer[32..])
              case None => r == Undecryptable
              case Some(plain) =>
                if buffer[..32] != c.checksum(plain) then r == ChecksumMismatch else r == Parsed(plain)
  {
    if |buffer| < 32 {
      return TooShort;
    }
    var plain := c.decrypt(buffer[32..]);
    if plain.None? {
      return Undecryptable;
    }
    if buffer[..32] != c.checksum(plain.value) {
      return ChecksumMismatch;
    }
    var read := ReadEncapsulated(plain.value);
    if read.None? {
      return Malformed;
    }
    var (packet, size) := read.value;
    if packet.Message? && CONNECT_RESPONSE <= packet.data && size < |plain.value| {
      var data := Subarray(plain.value, DISCOVERY_MESSAGE_DATA_OFFSET, |plain.value|);
      if 0 !in data {
        packet := packet.(data := data);
      }
    }
    return Accepted(packet);
  }

  /** Every packet that can be sent is received as it was: a frame that counts its own bytes is never "recovered". */
  lemma SecureRoundTrip(c: Crypto, p: Packet)
    requires Sound(c) && p.Fits()
    ensures var b := Secure(c, Encode(p));
            && |b| >= 32
            && c.decrypt(b[32..]) == Some(Encode(p))
            && b[..32] == c.checksum(Encode(p))
            && Parsed(Encode(p)) == Accepted(p)
            && ReadEncapsulated(Encode(p)).value.1 == SizeOf(p) == |Encode(p)|
  {
    ReadOwnEncoding(p);
    SizeIsLength(p);
    assert Secure(c, Encode(p))[32..] == c.encrypt(Encode(p));
  }

  lemma FrameData(outer: nat, p: Packet, count: nat, data: bytes)
    requires p.Message? && |p.reserved| == 8
    ensures var plain := MessageFrame(outer, p, count, data);
            && |plain| == 32 + |data|
            && Subarray(plain, DISCOVERY_MESSAGE_DATA_OFFSET, |plain|) == data
  {
    var plain := MessageFrame(outer, p, count, data);
    assert plain[32..] == data;
  }

  /** The condition under which the data bytes after the counted ones are taken in. */
  predicate Recoverable(count: nat, data: bytes)
    requires count <= |data|
  {
    CONNECT_RESPONSE <= data[..count] && count < |data| && 0 !in data
  }

  /** Exactly what arrives of a message frame, for any outer length and any count of at most the data's length. */
  lemma RecoveryIsExact(outer: nat, p: Packet, count: nat, data: bytes)
    requires p.Message? && p.Fits() && count <= |data| && count < Pow256(4)
    ensures Parsed(MessageFrame(outer, p, count, data))
         == Accepted(p.(data := if Recoverable(count, data) then data else data[..count]))
  {
    ReadMessageFrame(outer, p, count, data);
    FrameData(outer, p, count, data);
  }

  /**
   An undercounted answer is recovered whole whenever its 16-byte prefix was counted, and with a shorter count it is
   read as counted.
   */
  lemma AnswerRecoveredIff(outer: nat, p: Packet, count: nat, data: bytes)
    requires p.Message? && p.Fits() && count <= |data| && count < Pow256(4)
    requires CONNECT_RESPONSE <= data && 0 !in data
    ensures Parsed(MessageFrame(outer, p, count, data)) == Accepted(p.(data := data))
       <==> count >= 16
  {
    RecoveryIsExact(outer, p, count, data);
    if count >= 16 {
      assert data[..count][..16] == data[..16] == CONNECT_RESPONSE;
      assert count == |data| ==> data[..count] == data;
    } else {
      assert |data[..count]| < |data|;
      assert !(CONNECT_RESPONSE <= data[..count]);
    }
  }

  ghost function EncodeFrames(ps: seq<Packet>): bytes {
    if ps == [] then [] else Encode(ps[0]) + EncodeFrames(ps[1..])
  }

  /** Frames appended to a message are never taken in: what arrives is the first frame's data as it counts it. */
  lemma AppendedFramesStayOut(outer: nat, p: Packet, count: nat, data: bytes, more: seq<Packet>)
    requires p.Message? && p.Fits() && count <= |data| && count < Pow256(4) && more != []
    ensures Parsed(MessageFrame(outer, p, count, data) + EncodeFrames(more)) == Accepted(p.(data := data[..count]))
  {
    var all := data + EncodeFrames(more);
    FrameHasZero(more[0]);
    assert 0 in all by {
      var i :| 0 <= i < |Encode(more[0])| && Encode(more[0])[i] == 0;
      assert all[|data| + i] == 0;
    }
    LongerFrame(outer, p, count, data, EncodeFrames(more));
    RecoveryIsExact(outer, p, count, all);
    assert all[..count] == data[..count];
  }

  lemma LongerFrame(outer: nat, p: Packet, count: nat, data: bytes, more: bytes)
    requires p.Message?
    ensures MessageFrame(outer, p, count, data) + more == MessageFrame(outer, p, count, data + more)
  {
  }

  // ---------------------------------------------------------------------------------------------------------
  // Where the fields are

  /** `width` bytes from `at` on hold `n`, the least significant first. */
  ghost predicate HoldsAt(b: bytes, at: nat, width: nat, n: nat) {
    at + width <= |b| && forall i: nat | i < width :: Pow256(i) > 0 && b[at + i] == n / Pow256(i) % 256
  }

  lemma HoldsLe(b: bytes, at: nat, width: nat, n: nat)
    requires at + width <= |b| && b[at..at + width] == Le(n, width)
    ensures HoldsAt(b, at, width, n)
  {
    forall i: nat | i < width
      ensures Pow256(i) > 0 && b[at + i] == n / Pow256(i) % 256
    {
      LeAt(n, width, i);
      assert b[at + i] == b[at..at + width][i];
    }
  }

  /** The byte layout of a discovery message: the offsets of its fields, which the recovery relies on. */
  lemma MessageLayout(sender: nat, reserved: bytes, recipient: nat, data: bytes)
    requires |reserved| == 8
    ensures var b := Encode(Message(sender, reserved, recipient, data));
            && |b| == 32 + |data|
            && HoldsAt(b, 0, 2, 30 + |data|) && b[2] == 2 && b[3] == 0
            && HoldsAt(b, 4, 8, sender) && b[12..20] == reserved && HoldsAt(b, 20, 8, recipient)
            && HoldsAt(b, 28, 4, |data|) && b[32..] == data
  {
    var b := Encode(Message(sender, reserved, recipient, data));
    var outer, tag, from, to, count := Le(30 + |data|, 2), Le(2, 2), Le(sender, 8), Le(recipient, 8), Le(|data|, 4);
    assert b == outer + (tag + from + reserved + to + (count + data));
    SevenParts(outer, tag, from, reserved, to, count, data);
    HoldsLe(b, 0, 2, 30 + |data|);
    HoldsLe(b, 4, 8, sender);
    HoldsLe(b, 20, 8, recipient);
    HoldsLe(b, 28, 4, |data|);
    assert b[2] == b[2..4][0] && b[3] == b[2..4][1];
  }

  lemma SevenParts(a: bytes, b: bytes, c: bytes, d: bytes, e: bytes, f: bytes, g: bytes)
    requires |a| == 2 && |b| == 2 && |c| == 8 && |d| == 8 && |e| == 8 && |f| == 4
    ensures var s := a + (b + c + d + e + (f + g));
            && s[0..2] == a && s[2..4] == b && s[4..12] == c && s[12..20] == d && s[20..28] == e
            && s[28..32] == f && s[32..] == g
  {
  }

  /** The other two packets: requests have no data, responses no recipient. */
  lemma OtherLayouts(sender: nat, reserved: bytes, data: bytes)
    requires |reserved| == 8
    ensures var b := Encode(Request(sender, reserved));
            && |b| == 20 && HoldsAt(b, 0, 2, 18) && b[2] == 0 && b[3] == 0
            && HoldsAt(b, 4, 8, sender) && b[12..20] == reserved
    ensures var b := Encode(Response(sender, reserved, data));
            && |b| == 24 + |data| && HoldsAt(b, 0, 2, 22 + |data|) && b[2] == 1 && b[3] == 0
            && HoldsAt(b, 4, 8, sender) && b[12..20] == reserved
            && HoldsAt(b, 20, 4, |data|) && b[24..] == data
  {
    RequestLayout(sender, reserved);
    ResponseLayout(sender, reserved, data);
  }

  lemma RequestLayout(sender: nat, reserved: bytes)
    requires |reserved| == 8
    ensures var b := Encode(Request(sender, reserved));
            && |b| == 20 && HoldsAt(b, 0, 2, 18) && b[2] == 0 && b[3] == 0
            && HoldsAt(b, 4, 8, sender) && b[12..20] == reserved
  {
    var b := Encode(Request(sender, reserved));
    SixParts(Le(18, 2), Le(0, 2), Le(sender, 8), reserved, [], []);
    Nothing(Le(0, 2) + Le(sender, 8) + reserved);
    var none: bytes := [];
    Nothing(none);
    HoldsLe(b, 0, 2, 18);
    HoldsLe(b, 4, 8, sender);
    assert b[2] == b[2..4][0] && b[3] == b[2..4][1];
  }

  lemma ResponseLayout(sender: nat, reserved: bytes, data: bytes)
    requires |reserved| == 8
    ensures var b := Encode(Response(sender, reserved, data));
            && |b| == 24 + |data| && HoldsAt(b, 0, 2, 22 + |data|) && b[2] == 1 && b[3] == 0
            && HoldsAt(b, 4, 8, sender) && b[12..20] == reserved
            && HoldsAt(b, 20, 4, |data|) && b[24..] == data
  {
    var b := Encode(Response(sender, reserved, data));
    var outer, tag, from, count := Le(22 + |data|, 2), Le(1, 2), Le(sender, 8), Le(|data|, 4);
    assert b == outer + (tag + from + reserved + (count + data));
    SixParts(outer, tag, from, reserved, count, data);
    HoldsLe(b, 0, 2, 22 + |data|);
    HoldsLe(b, 4, 8, sender);
    HoldsLe(b, 20, 4, |data|);
    assert b[2] == b[2..4][0] && b[3] == b[2..4][1];
  }

  lemma SixParts(a: bytes, b: bytes, c: bytes, d: bytes, e: bytes, f: bytes)
    requires |a| == 2 && |b| == 2 && |c| == 8 && |d| == 8
    ensures var s := a + (b + c + d + (e + f));
            && s[0..2] == a && s[2..4] == b && s[4..12] == c && s[12..20] == d
            && s[20..20 + |e|] == e && s[20 + |e|..] == f
  {
  }

  /** The prefix that is recovered is the text of an answer's type and the space behind it. */
  lemma PrefixIsText()
    ensures var text := "CONNECTRESPONSE ";
            |CONNECT_RESPONSE| == |text| && forall i | 0 <= i < |text| :: CONNECT_RESPONSE[i] == text[i] as int
  {
    var text := "CONNECTRESPONSE ";
    assert text[0] == 'C' && text[1] == 'O' && text[2] == 'N' && text[3] == 'N' && text[4] == 'E' && text[5] == 'C';
    assert text[6] == 'T' && text[7] == 'R' && text[8] == 'E' && text[9] == 'S' && text[10] == 'P' && text[11] == 'O';
    assert text[12] == 'N' && text[13] == 'S' && text[14] == 'E' && text[15] == ' ';
  }
}
