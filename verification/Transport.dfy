/**
 The wire format of `src/connection.js`: a message is cut into fragments of at most 10000 bytes, each behind
 one byte that counts down the fragments still to come, and the receiver joins fragments until it reads 0.
 */
module Transport {
  import opened Bytes
  import opened Sequences
  import opened Wrappers

  const MAX_MESSAGE_SIZE: nat := 10_000

  /** `Math.ceil(n / MAX_MESSAGE_SIZE)` */
  function Segments(n: nat): nat {
    (n + MAX_MESSAGE_SIZE - 1) / MAX_MESSAGE_SIZE
  }

  /** The slices `data.subarray(i, min(i + MAX_MESSAGE_SIZE, data.length))` that `sendNow` walks over. */
  function Chunks(data: bytes): (chunks: seq<bytes>)
    ensures forall i | 0 <= i < |chunks| :: 0 < |chunks[i]| <= MAX_MESSAGE_SIZE
    decreases |data|
  {
    if data == [] then []
    else
      var end := Min(MAX_MESSAGE_SIZE, |data|);
      [data[..end]] + Chunks(data[end..])
  }

  /**
   A chunk behind the count of fragments that follow it, when `segments` fragments are left to send. The count is
   written with `Buffer.from([n])`, which keeps only the low byte.
   */
  function Framed(segments: nat, chunk: bytes): bytes
    requires segments > 0
  {
    [(segments - 1) % 256] + chunk
  }

  function Frame(chunks: seq<bytes>): seq<bytes> {
    if chunks == [] then []
    else [Framed(|chunks|, chunks[0])] + Frame(chunks[1..])
  }

  /** What `sendNow` puts on the channel for one message. */
  function Fragments(data: bytes): seq<bytes> {
    Frame(Chunks(data))
  }

  lemma {:induction false} ChunkAt(data: bytes, j: nat)
    requires j < Segments(|data|)
    ensures |Chunks(data)| == Segments(|data|)
    ensures Chunks(data)[j] == data[j * MAX_MESSAGE_SIZE..Min((j + 1) * MAX_MESSAGE_SIZE, |data|)]
    decreases |data|
  {
    var rest := data[Min(MAX_MESSAGE_SIZE, |data|)..];
    if rest != [] {
      ChunkAt(rest, if j == 0 then 0 else j - 1);
      if j > 0 {
        var lo, hi := (j - 1) * MAX_MESSAGE_SIZE, Min(j * MAX_MESSAGE_SIZE, |rest|);
        assert rest[lo..hi] == data[j * MAX_MESSAGE_SIZE..Min((j + 1) * MAX_MESSAGE_SIZE, |data|)];
      }
    }
  }

  lemma {:induction false} FrameAt(chunks: seq<bytes>, j: nat)
    requires j < |chunks|
    ensures |Frame(chunks)| == |chunks|
    ensures Frame(chunks)[j] == [(|chunks| - 1 - j) % 256] + chunks[j]
  {
    if |chunks| > 1 {
      FrameAt(chunks[1..], if j == 0 then 0 else j - 1);
    }
  }

  /** Fragment `j` of `k` carries the `j`-th 10000-byte slice and the low byte of `k - 1 - j`. */
  lemma FragmentAt(data: bytes, j: nat)
    requires j < Segments(|data|)
    ensures |Fragments(data)| == Segments(|data|)
    ensures Fragments(data)[j]
         == [(Segments(|data|) - 1 - j) % 256]
            + data[j * MAX_MESSAGE_SIZE..Min((j + 1) * MAX_MESSAGE_SIZE, |data|)]
  {
    ChunkAt(data, j);
    FrameAt(Chunks(data), j);
  }

  /** In figures: a message of `n` bytes takes one fragment for every 10000 bytes or part of them. */
  lemma FragmentSizes(data: bytes, j: nat)
    requires j < |Fragments(data)|
    ensures |Fragments(data)| == (|data| + 9_999) / 10_000
    ensures |Fragments(data)[j]| == 1 + (if (j + 1) * 10_000 <= |data| then 10_000 else |data| - j * 10_000)
    ensures Fragments(data)[j][0] == (|Fragments(data)| - 1 - j) % 256
  {
    ChunksCover(data);
    FrameCount(Chunks(data));
    FragmentAt(data, j);
  }

  lemma {:induction false} FrameCount(chunks: seq<bytes>)
    ensures |Frame(chunks)| == |chunks|
  {
    if chunks != [] {
      FrameCount(chunks[1..]);
    }
  }

  /** The receiving half of a `Connection`: `promisedSegments` and `buf`. */
  datatype Receiver = Receiver(promised: nat, buf: Option<bytes>)

  const IDLE := Receiver(0, None)

  datatype Outcome = UnexpectedEof | InvalidSegments | Buffered | Emitted(message: bytes) {
    predicate Rejected() {
      UnexpectedEof? || InvalidSegments?
    }
  }

  function Extended(buf: Option<bytes>, payload: bytes): bytes {
    if buf.Some? then buf.value + payload else payload
  }

  /** `handleMessage`: the next state and what the call did. A rejection is an exception thrown by the source. */
  function HandleMessage(r: Receiver, data: bytes): (Receiver, Outcome) {
    if |data| < 2 then (r, UnexpectedEof)
    else if r.promised > 0 && r.promised - 1 != data[0] then (r, InvalidSegments)
    else if data[0] > 0 then (Receiver(data[0], Some(Extended(r.buf, data[1..]))), Buffered)
    else (Receiver(0, None), Emitted(Extended(r.buf, data[1..])))
  }

  /** A receiver together with the history of what it accepted and what it emitted. */
  datatype Session = Session(receiver: Receiver, accepted: seq<bytes>, emitted: seq<bytes>)

  const FRESH := Session(IDLE, [], [])

  function Deliver(s: Session, fragment: bytes): Session {
    var (r, out) := HandleMessage(s.receiver, fragment);
    Session(r,
            if out.Rejected() then s.accepted else s.accepted + [fragment],
            if out.Emitted? then s.emitted + [out.message] else s.emitted)
  }

  function DeliverAll(s: Session, fragments: seq<bytes>): Session
    decreases |fragments|
  {
    if fragments == [] then s else DeliverAll(Deliver(s, fragments[0]), fragments[1..])
  }

  lemma {:induction false} DeliverAppend(s: Session, a: seq<bytes>, b: seq<bytes>)
    ensures DeliverAll(s, a + b) == DeliverAll(DeliverAll(s, a), b)
    decreases |a|
  {
    if a == [] {
      assert a + b == b;
    } else {
      assert (a + b)[1..] == a[1..] + b;
      DeliverAppend(Deliver(s, a[0]), a[1..], b);
    }
  }

  lemma DeliverSnoc(s: Session, fragments: seq<bytes>, last: bytes)
    ensures DeliverAll(s, fragments + [last]) == Deliver(DeliverAll(s, fragments), last)
  {
    DeliverAppend(s, fragments, [last]);
    DeliverCons(DeliverAll(s, fragments), last, []);
    Nothing([last]);
  }

  /** Delivery only ever adds to the histories. */
  lemma {:induction false} DeliverExtends(s: Session, fragments: seq<bytes>)
    ensures s.accepted <= DeliverAll(s, fragments).accepted
    ensures s.emitted <= DeliverAll(s, fragments).emitted
    decreases |fragments|
  {
    if fragments != [] {
      DeliverExtends(Deliver(s, fragments[0]), fragments[1..]);
    }
  }

  // ---------------------------------------------------------------------------------------------------------
  // Arbitrary fragment streams

  function Concat<T>(parts: seq<seq<T>>): seq<T> {
    if parts == [] then [] else Concat(parts[..|parts| - 1]) + parts[|parts| - 1]
  }

  /** A fragment without its header byte. */
  function Body(fragment: bytes): bytes {
    if fragment == [] then [] else fragment[1..]
  }

  /** The payload bytes of a list of fragments. */
  function Payload(fragments: seq<bytes>): bytes {
    if fragments == [] then []
    else Payload(fragments[..|fragments| - 1]) + Body(fragments[|fragments| - 1])
  }

  /** Headers that count down by one from the first. */
  ghost predicate CountsDown(fragments: seq<bytes>) {
    && (forall i | 0 <= i < |fragments| :: |fragments[i]| >= 2)
    && forall i | 0 <= i < |fragments| :: fragments[i][0] == fragments[0][0] - i
  }

  /** A complete run: it counts down to exactly 0. */
  ghost predicate IsRun(fragments: seq<bytes>) {
    fragments != [] && CountsDown(fragments) && fragments[|fragments| - 1][0] == 0
  }

  /** A run that has not reached 0 yet, possibly not started. */
  ghost predicate IsUnfinished(fragments: seq<bytes>) {
    CountsDown(fragments) && (fragments != [] ==> fragments[|fragments| - 1][0] > 0)
  }

  /** `stream` is a list of complete runs followed by an unfinished one. */
  ghost predicate SplitsInto(stream: seq<bytes>, runs: seq<seq<bytes>>, tail: seq<bytes>) {
    stream == Concat(runs) + tail && (forall i | 0 <= i < |runs| :: IsRun(runs[i])) && IsUnfinished(tail)
  }

  ghost function Payloads(runs: seq<seq<bytes>>): (p: seq<bytes>)
    ensures |p| == |runs|
  {
    if runs == [] then [] else Payloads(runs[..|runs| - 1]) + [Payload(runs[|runs| - 1])]
  }

  /** What the receiver's fields say about the unfinished run. */
  ghost predicate Buffers(r: Receiver, tail: seq<bytes>)
    requires IsUnfinished(tail)
  {
    if tail == [] then r == IDLE
    else r == Receiver(tail[|tail| - 1][0], Some(Payload(tail)))
  }

  /** The history of `s` is these complete runs and this unfinished one, with one emission per complete run. */
  ghost predicate TellsOf(s: Session, runs: seq<seq<bytes>>, tail: seq<bytes>) {
    && SplitsInto(s.accepted, runs, tail)
    && s.emitted == Payloads(runs)
    && Buffers(s.receiver, tail)
  }

  /**
   For an arbitrary stream, what an initially idle receiver accepted is a list of complete countdown runs and an
   unfinished one; it emitted exactly one message per complete run, that run's payload, and its fields describe
   the unfinished run.
   */
  lemma {:induction false} EmissionsAreRuns(stream: seq<bytes>)
    returns (runs: seq<seq<bytes>>, tail: seq<bytes>)
    ensures TellsOf(DeliverAll(FRESH, stream), runs, tail)
    decreases |stream|
  {
    if stream == [] {
      runs, tail := [], [];
    } else {
      var last := |stream| - 1;
      runs, tail := EmissionsAreRuns(stream[..last]);
      assert stream == stream[..last] + [stream[last]];
      DeliverSnoc(FRESH, stream[..last], stream[last]);
      runs, tail := EmissionStep(DeliverAll(FRESH, stream[..last]), stream[last], runs, tail);
    }
  }

  lemma EmissionStep(s: Session, fragment: bytes, runs: seq<seq<bytes>>, tail: seq<bytes>)
    returns (runs': seq<seq<bytes>>, tail': seq<bytes>)
    requires TellsOf(s, runs, tail)
    ensures TellsOf(Deliver(s, fragment), runs', tail')
  {
    if HandleMessage(s.receiver, fragment).1.Rejected() {
      return runs, tail;
    }
    LongerTail(s.receiver, fragment, tail);
    if fragment[0] == 0 {
      RunEnds(s, fragment, runs, tail);
      return runs + [tail + [fragment]], [];
    } else {
      RunGoesOn(s, fragment, runs, tail);
      return runs, tail + [fragment];
    }
  }

  /** The fragment with header 0 completes the run. */
  lemma RunEnds(s: Session, fragment: bytes, runs: seq<seq<bytes>>, tail: seq<bytes>)
    requires TellsOf(s, runs, tail) && !HandleMessage(s.receiver, fragment).1.Rejected()
    requires CountsDown(tail + [fragment]) && |fragment| >= 2 && fragment[0] == 0
    requires Payload(tail + [fragment]) == Extended(s.receiver.buf, fragment[1..])
    ensures TellsOf(Deliver(s, fragment), runs + [tail + [fragment]], [])
  {
    var run := tail + [fragment];
    Associate(Concat(runs), tail, [fragment]);
    AddRun(runs, run);
    Nothing(Concat(runs + [run]));
    OneMoreRun(runs, run);
  }

  lemma OneMoreRun(runs: seq<seq<bytes>>, run: seq<bytes>)
    requires (forall i | 0 <= i < |runs| :: IsRun(runs[i])) && IsRun(run)
    ensures forall i | 0 <= i < |runs + [run]| :: IsRun((runs + [run])[i])
  {
  }

  lemma RunGoesOn(s: Session, fragment: bytes, runs: seq<seq<bytes>>, tail: seq<bytes>)
    requires TellsOf(s, runs, tail) && !HandleMessage(s.receiver, fragment).1.Rejected()
    requires CountsDown(tail + [fragment]) && |fragment| >= 2 && fragment[0] > 0
    requires Payload(tail + [fragment]) == Extended(s.receiver.buf, fragment[1..])
    ensures TellsOf(Deliver(s, fragment), runs, tail + [fragment])
  {
    Associate(Concat(runs), tail, [fragment]);
  }

  /** An accepted fragment continues the unfinished run. */
  lemma LongerTail(r: Receiver, fragment: bytes, tail: seq<bytes>)
    requires IsUnfinished(tail) && Buffers(r, tail)
    requires !HandleMessage(r, fragment).1.Rejected()
    ensures CountsDown(tail + [fragment]) && |fragment| >= 2
    ensures Payload(tail + [fragment]) == Extended(r.buf, fragment[1..])
  {
    var longer := tail + [fragment];
    assert longer[..|tail|] == tail;
    if tail == [] {
      assert Payload([]) + Body(fragment) == Body(fragment);
    } else {
      assert tail[|tail| - 1][0] == tail[0][0] - (|tail| - 1);
    }
  }

  /** A fragment is rejected exactly when it does not continue the unfinished run, or is too short to. */
  lemma RejectedIff(s: Session, fragment: bytes, runs: seq<seq<bytes>>, tail: seq<bytes>)
    requires TellsOf(s, runs, tail)
    ensures HandleMessage(s.receiver, fragment).1.Rejected() <==> !CountsDown(tail + [fragment])
  {
    if CountsDown(tail + [fragment]) {
      Continues(s.receiver, fragment, tail);
    } else if !HandleMessage(s.receiver, fragment).1.Rejected() {
      LongerTail(s.receiver, fragment, tail);
    }
  }

  lemma Continues(r: Receiver, fragment: bytes, tail: seq<bytes>)
    requires IsUnfinished(tail) && Buffers(r, tail) && CountsDown(tail + [fragment])
    ensures !HandleMessage(r, fragment).1.Rejected()
  {
    var longer := tail + [fragment];
    assert longer[|tail|] == fragment;
    if tail != [] {
      assert longer[|tail| - 1] == tail[|tail| - 1] && longer[0] == tail[0];
    }
  }

  lemma AddRun(runs: seq<seq<bytes>>, run: seq<bytes>)
    ensures Concat(runs + [run]) == Concat(runs) + run
    ensures Payloads(runs + [run]) == Payloads(runs) + [Payload(run)]
  {
    assert (runs + [run])[..|runs|] == runs;
  }

  /** Taking the last fragment off a split stream leaves a split stream. */
  lemma SplitShrinks(stream: seq<bytes>, runs: seq<seq<bytes>>, tail: seq<bytes>)
    returns (runs': seq<seq<bytes>>, tail': seq<bytes>)
    requires stream != [] && SplitsInto(stream, runs, tail)
    ensures SplitsInto(stream[..|stream| - 1], runs', tail')
    ensures |stream[|stream| - 1]| >= 2
    ensures var last := stream[|stream| - 1];
            if last[0] == 0 then runs == runs' + [tail' + [last]] && tail == []
            else runs == runs' && tail == tail' + [last]
  {
    var last := stream[|stream| - 1];
    if tail == [] {
      var run := runs[|runs| - 1];
      runs', tail' := runs[..|runs| - 1], run[..|run| - 1];
      assert run == tail' + [last];
      assert stream[..|stream| - 1] == Concat(runs') + tail';
    } else {
      runs', tail' := runs, tail[..|tail| - 1];
      assert tail == tail' + [last];
      assert stream[..|stream| - 1] == Concat(runs) + tail';
    }
  }

  /** There is only one way to read a stream as complete runs and an unfinished one. */
  lemma {:induction false} SplitIsUnique(stream: seq<bytes>,
                                         runs1: seq<seq<bytes>>, tail1: seq<bytes>,
                                         runs2: seq<seq<bytes>>, tail2: seq<bytes>)
    requires SplitsInto(stream, runs1, tail1) && SplitsInto(stream, runs2, tail2)
    ensures runs1 == runs2 && tail1 == tail2
    decreases |stream|
  {
    if stream == [] {
      SplitOfNothing(runs1, tail1);
      SplitOfNothing(runs2, tail2);
    } else {
      var r1, t1 := SplitShrinks(stream, runs1, tail1);
      var r2, t2 := SplitShrinks(stream, runs2, tail2);
      SplitIsUnique(stream[..|stream| - 1], r1, t1, r2, t2);
    }
  }

  lemma SplitOfNothing(runs: seq<seq<bytes>>, tail: seq<bytes>)
    requires SplitsInto([], runs, tail)
    ensures runs == [] && tail == []
  {
  }

  /** `buf` is set exactly when segments are promised, and buffered plus promised fragments never exceed 256. */
  lemma ReceiverBounds(stream: seq<bytes>)
    returns (runs: seq<seq<bytes>>, tail: seq<bytes>)
    ensures var s := DeliverAll(FRESH, stream);
            && SplitsInto(s.accepted, runs, tail)
            && (s.receiver.buf.Some? <==> s.receiver.promised > 0)
            && |tail| + s.receiver.promised <= 256
  {
    runs, tail := EmissionsAreRuns(stream);
  }

  /** A rejected fragment changes nothing but is an error. */
  lemma RejectionIsInert(s: Session, fragment: bytes)
    requires HandleMessage(s.receiver, fragment).1.Rejected()
    ensures Deliver(s, fragment) == s
  {
  }

  // ---------------------------------------------------------------------------------------------------------
  // The sender's own fragments

  /** How a receiver groups framed chunks into messages: the count passes 0 after every 256th chunk from the end. */
  function Grouped(chunks: seq<bytes>): seq<bytes> {
    if chunks == [] then []
    else
      var later := Grouped(chunks[1..]);
      if (|chunks| - 1) % 256 == 0 || later == [] then [chunks[0]] + later
      else [chunks[0] + later[0]] + later[1..]
  }

  /** The messages a receiver makes of `Fragments(data)`. */
  function Pieces(data: bytes): seq<bytes> {
    Grouped(Chunks(data))
  }

  /** Joining what is already buffered to the first of the messages to come. */
  function Onto(buf: Option<bytes>, messages: seq<bytes>): seq<bytes> {
    if buf.None? || messages == [] then messages else [buf.value + messages[0]] + messages[1..]
  }

  /**
   The receiver can take `segments` fragments: it is idle, or it was promised that many modulo 256. Its buffer may have
   been dropped.
   */
  ghost predicate Expects(r: Receiver, segments: nat) {
    if r.promised == 0 then r == IDLE else r.promised == segments % 256
  }

  lemma DeliverFramed(s: Session, segments: nat, chunk: bytes)
    requires chunk != [] && segments > 0 && Expects(s.receiver, segments)
    ensures var next := Deliver(s, Framed(segments, chunk));
            && next.accepted == s.accepted + [Framed(segments, chunk)]
            && Expects(next.receiver, segments - 1)
            && next.receiver.buf ==
               (if (segments - 1) % 256 == 0 then None else Some(Extended(s.receiver.buf, chunk)))
            && next.emitted ==
               (if (segments - 1) % 256 == 0 then s.emitted + [Extended(s.receiver.buf, chunk)] else s.emitted)
  {
    var fragment := Framed(segments, chunk);
    assert fragment[1..] == chunk;
    assert s.receiver.promised > 0 ==> s.receiver.promised - 1 == (segments - 1) % 256;
  }

  lemma DeliverCons(s: Session, fragment: bytes, rest: seq<bytes>)
    ensures DeliverAll(s, [fragment] + rest) == DeliverAll(Deliver(s, fragment), rest)
  {
    assert ([fragment] + rest)[1..] == rest;
  }

  lemma {:induction false} ReassemblyFrom(chunks: seq<bytes>, s: Session)
    requires forall i | 0 <= i < |chunks| :: chunks[i] != []
    requires chunks != [] && Expects(s.receiver, |chunks|)
    ensures DeliverAll(s, Frame(chunks))
         == Session(IDLE, s.accepted + Frame(chunks), s.emitted + Onto(s.receiver.buf, Grouped(chunks)))
    decreases |chunks|
  {
    var fragment, rest := Framed(|chunks|, chunks[0]), chunks[1..];
    var next := Deliver(s, fragment);
    DeliverFramed(s, |chunks|, chunks[0]);
    DeliverCons(s, fragment, Frame(rest));
    Associate(s.accepted, [fragment], Frame(rest));
    OntoStep(chunks, s.receiver.buf, s.emitted);
    if rest != [] {
      ReassemblyFrom(rest, next);
    }
  }

  lemma OntoStep(chunks: seq<bytes>, buf: Option<bytes>, emitted: seq<bytes>)
    requires chunks != []
    ensures emitted + Onto(buf, Grouped(chunks)) ==
            if (|chunks| - 1) % 256 == 0 then emitted + [Extended(buf, chunks[0])] + Grouped(chunks[1..])
            else emitted + Onto(Some(Extended(buf, chunks[0])), Grouped(chunks[1..]))
  {
    var first, later := Extended(buf, chunks[0]), Grouped(chunks[1..]);
    GroupedCount(chunks[1..]);
    if (|chunks| - 1) % 256 == 0 {
      OntoHead(buf, chunks[0], later);
      Associate(emitted, [first], later);
    } else {
      OntoHead(buf, chunks[0] + later[0], later[1..]);
      if buf.Some? {
        Associate(buf.value, chunks[0], later[0]);
      }
    }
  }

  lemma OntoHead(buf: Option<bytes>, first: bytes, later: seq<bytes>)
    ensures Onto(buf, [first] + later) == [Extended(buf, first)] + later
  {
    assert ([first] + later)[1..] == later;
  }

  lemma {:induction false} GroupedKeepsBytes(chunks: seq<bytes>)
    ensures Concat(Grouped(chunks)) == Concat(chunks)
  {
    if chunks != [] {
      var later := Grouped(chunks[1..]);
      GroupedKeepsBytes(chunks[1..]);
      assert chunks == [chunks[0]] + chunks[1..];
      ConcatHead(chunks[0], chunks[1..]);
      ConcatHead(chunks[0], later);
      if later != [] {
        assert later == [later[0]] + later[1..];
        ConcatHead(later[0], later[1..]);
        ConcatHead(chunks[0] + later[0], later[1..]);
      }
    }
  }

  lemma {:induction false} GroupedCount(chunks: seq<bytes>)
    ensures |Grouped(chunks)| == (|chunks| + 255) / 256
  {
    if chunks != [] {
      GroupedCount(chunks[1..]);
      OneMoreGroup(|chunks| - 1);
    }
  }

  /** The number of groups grows when a chunk is put before a multiple of 256. */
  lemma OneMoreGroup(n: nat)
    ensures (n + 1 + 255) / 256 == (n + 255) / 256 + (if n % 256 == 0 then 1 else 0)
    ensures n % 256 != 0 ==> (n + 255) / 256 > 0
  {
  }

  lemma {:induction false} ChunksCover(data: bytes)
    ensures Concat(Chunks(data)) == data
    ensures |Chunks(data)| == Segments(|data|)
    decreases |data|
  {
    if data != [] {
      var end := Min(MAX_MESSAGE_SIZE, |data|);
      ChunksCover(data[end..]);
      ConcatHead(data[..end], Chunks(data[end..]));
      assert data == data[..end] + data[end..];
    }
  }

  lemma {:induction false} ConcatFront<T>(a: seq<seq<T>>, b: seq<seq<T>>)
    ensures Concat(a + b) == Concat(a) + Concat(b)
    decreases |b|
  {
    if b == [] {
      Nothing(a);
      Nothing(Concat(a));
    } else {
      var init := b[..|b| - 1];
      ConcatFront(a, init);
      InitOfAppend(a, b);
      Associate(Concat(a), Concat(init), b[|b| - 1]);
    }
  }

  lemma ConcatHead<T>(head: seq<T>, parts: seq<seq<T>>)
    ensures Concat([head] + parts) == head + Concat(parts)
  {
    ConcatFront([head], parts);
    assert [head][..0] == [];
    assert Concat([head]) == head;
  }

  /**
   Every non-empty message, of any length, sent to an idle receiver: no fragment is rejected, the receiver is idle
   again, and it emitted ceil(k / 256) messages, k = ceil(length / 10000), whose concatenation is the original.
   */
  lemma Reassembly(data: bytes, s: Session)
    requires data != [] && s.receiver == IDLE
    ensures DeliverAll(s, Fragments(data)) == Session(IDLE, s.accepted + Fragments(data), s.emitted + Pieces(data))
    ensures Concat(Pieces(data)) == data
    ensures |Pieces(data)| == (Segments(|data|) + 255) / 256
  {
    ReassemblyFrom(Chunks(data), s);
    GroupedKeepsBytes(Chunks(data));
    GroupedCount(Chunks(data));
    ChunksCover(data);
  }

  /** The message arrives whole exactly when it is at most 2,560,000 bytes long: one header byte counts to 255. */
  lemma WholeIffShort(data: bytes)
    requires data != []
    ensures Pieces(data) == [data] <==> |data| <= 2_560_000
  {
    Reassembly(data, FRESH);
    var pieces := Pieces(data);
    assert |data| <= 256 * MAX_MESSAGE_SIZE <==> Segments(|data|) <= 256;
    if |pieces| == 1 {
      ConcatHead(pieces[0], []);
      assert pieces == [pieces[0]] + [];
      assert pieces[0] == data;
    }
  }

  // ---------------------------------------------------------------------------------------------------------
  // A connection closed in the middle of a message

  /** What `Connection.close` leaves of the receiver: the buffer is dropped, the promised count is kept. */
  function Cut(r: Receiver): Receiver {
    r.(buf := None)
  }

  lemma {:induction false} FrameFrom(chunks: seq<bytes>, j: nat)
    requires j <= |chunks|
    ensures |Frame(chunks)| == |chunks| && Frame(chunks)[j..] == Frame(chunks[j..])
  {
    if chunks != [] {
      if j > 0 {
        FrameFrom(chunks[1..], j - 1);
        assert chunks[1..][j - 1..] == chunks[j..];
        assert Frame(chunks)[j..] == Frame(chunks[1..])[j - 1..];
      } else {
        FrameFrom(chunks[1..], 0);
        assert chunks[0..] == chunks;
      }
    }
  }

  lemma {:induction false} ChunksFrom(data: bytes, j: nat)
    requires j < Segments(|data|)
    ensures j < |Chunks(data)| && Chunks(data)[j..] == Chunks(data[j * MAX_MESSAGE_SIZE..])
    decreases j
  {
    ChunksCover(data);
    if j == 0 {
      assert data[0..] == data;
    } else {
      var rest := data[MAX_MESSAGE_SIZE..];
      ChunksFrom(rest, j - 1);
      assert rest[(j - 1) * MAX_MESSAGE_SIZE..] == data[j * MAX_MESSAGE_SIZE..];
      assert Chunks(data)[j..] == Chunks(rest)[j - 1..];
    }
  }

  /** A receiver that has taken `j` fragments can take the others. */
  lemma {:induction false} ExpectsTheRest(chunks: seq<bytes>, s: Session, j: nat)
    requires forall i | 0 <= i < |chunks| :: chunks[i] != []
    requires j < |chunks| && Expects(s.receiver, |chunks|)
    ensures |Frame(chunks)| == |chunks|
    ensures Expects(DeliverAll(s, Frame(chunks)[..j]).receiver, |chunks| - j)
    decreases j
  {
    FrameFrom(chunks, 0);
    if j > 0 {
      var fragment, rest := Framed(|chunks|, chunks[0]), chunks[1..];
      DeliverFramed(s, |chunks|, chunks[0]);
      ExpectsTheRest(rest, Deliver(s, fragment), j - 1);
      assert Frame(chunks)[..j] == [fragment] + Frame(rest)[..j - 1];
      DeliverCons(s, fragment, Frame(rest)[..j - 1]);
    }
  }

  lemma FragmentsFrom(data: bytes, j: nat)
    requires j < Segments(|data|)
    ensures j < |Fragments(data)| && Fragments(data)[j..] == Fragments(data[j * MAX_MESSAGE_SIZE..])
  {
    ChunksFrom(data, j);
    FrameFrom(Chunks(data), j);
  }

  lemma CutExpectsTheRest(data: bytes, j: nat, s: Session)
    requires s.receiver == IDLE && j < Segments(|data|)
    ensures j < |Fragments(data)|
    ensures Expects(Cut(DeliverAll(s, Fragments(data)[..j]).receiver), |Chunks(data[j * MAX_MESSAGE_SIZE..])|)
  {
    ChunksFrom(data, j);
    ExpectsTheRest(Chunks(data), s, j);
  }

  /**
   If the connection is closed after `j` fragments of a message, those still to come are accepted all the same, and
   are emitted as the message that lacks its first `j` slices.
   */
  lemma ClosedMidMessage(data: bytes, j: nat, s: Session)
    requires s.receiver == IDLE && j < Segments(|data|)
    ensures j < |Fragments(data)|
    ensures var before := DeliverAll(s, Fragments(data)[..j]);
            var suffix := data[j * MAX_MESSAGE_SIZE..];
            && DeliverAll(before.(receiver := Cut(before.receiver)), Fragments(data)[j..])
               == Session(IDLE, before.accepted + Fragments(data)[j..], before.emitted + Pieces(suffix))
            && (|suffix| <= 256 * MAX_MESSAGE_SIZE ==> Pieces(suffix) == [suffix])
  {
    var suffix := data[j * MAX_MESSAGE_SIZE..];
    FragmentsFrom(data, j);
    CutExpectsTheRest(data, j, s);
    var before := DeliverAll(s, Fragments(data)[..j]);
    ReassemblyFrom(Chunks(suffix), before.(receiver := Cut(before.receiver)));
    WholeIffShort(suffix);
  }
}
