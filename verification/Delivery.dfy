/**
 One direction of a connection end to end: the sending half of a `Connection`, an ordered reliable channel, and an
 open receiving `Connection`, run under every interleaving.
 */
module Delivery {
  import opened Bytes
  import opened Sequences
  import opened Wrappers
  import opened Transport

  datatype ReadyState = Connecting | Open | Closing

  /** The fields `send` and `flushQueue` use: the reliable channel's state, `sendQueue` and `closed`. */
  datatype Sender = Sender(channel: Option<ReadyState>, queue: seq<bytes>, closed: bool)

  datatype SendResult = ConnectionClosed | ChannelNotOpen | Queued | Sent(count: nat)

  /** `send`: the next state, the fragments put on the channel, and the result or exception. */
  function Send(s: Sender, data: bytes): (Sender, seq<bytes>, SendResult) {
    if s.closed then (s, [], ConnectionClosed)
    else if s.channel.None? || s.channel.value.Connecting? then (s.(queue := s.queue + [data]), [], Queued)
    else if s.channel.value.Closing? then (s, [], ChannelNotOpen)
    else (s, Fragments(data), Sent(|data|))
  }

  /** `send` took responsibility for the message. */
  predicate Accepts(s: Sender) {
    !s.closed && s.channel != Some(Closing)
  }

  function AllFragments(messages: seq<bytes>): seq<bytes> {
    if messages == [] then []
    else AllFragments(messages[..|messages| - 1]) + Fragments(messages[|messages| - 1])
  }

  /** What the receiver is to make of a list of messages. */
  function AllPieces(messages: seq<bytes>): seq<bytes> {
    if messages == [] then []
    else AllPieces(messages[..|messages| - 1]) + Pieces(messages[|messages| - 1])
  }

  /** `flushQueue` when the channel opens. */
  function Opened(s: Sender): (Sender, seq<bytes>) {
    (s.(channel := Some(Open), queue := []), AllFragments(s.queue))
  }

  /** Nothing more will be sent. */
  predicate Finished(s: Sender) {
    s.closed || s.channel == Some(Closing)
  }

  /** `close`: the queue is dropped and the channel is closed. */
  function Closed(s: Sender): Sender {
    if s.closed then s
    else Sender(if s.channel.Some? then Some(Closing) else None, [], true)
  }

  /** `delivered` is a history: every fragment the channel has handed to the receiver. */
  datatype Link = Link(sender: Sender, accepted: seq<bytes>, wire: seq<bytes>, delivered: seq<bytes>, session: Session)

  const START := Link(Sender(None, [], false), [], [], [], FRESH)

  datatype Step =
    | CallSend(data: bytes)
    | Attach(state: ReadyState)  // setChannels with a reliable channel
    | ChannelOpens               // onopen: flushQueue
    | DeliverNext                // onmessage on the other side
    | ChannelCloses              // the channel starts to close before its onclose is heard
    | CallClose
    | LoseRest                   // a closing channel may drop what it had not delivered

  /** One step. A step that is not enabled changes nothing. */
  function Next(l: Link, step: Step): Link {
    match step
    case CallSend(data) =>
      var (s, out, _) := Send(l.sender, data);
      l.(sender := s, wire := l.wire + out,
         accepted := if Accepts(l.sender) then l.accepted + [data] else l.accepted)
    case Attach(state) =>
      if l.sender.channel.Some? || l.sender.closed then l
      else l.(sender := l.sender.(channel := Some(state)))
    case ChannelOpens =>
      if l.sender.channel != Some(Connecting) then l
      else
        var (s, out) := Opened(l.sender);
        l.(sender := s, wire := l.wire + out)
    case DeliverNext =>
      if l.wire == [] then l
      else Link(l.sender, l.accepted, l.wire[1..], l.delivered + [l.wire[0]], Deliver(l.session, l.wire[0]))
    case ChannelCloses => if l.sender.channel.None? then l else l.(sender := l.sender.(channel := Some(Closing)))
    case CallClose => l.(sender := Closed(l.sender))
    case LoseRest => if Finished(l.sender) then l.(wire := []) else l
  }

  function Run(l: Link, steps: seq<Step>): Link
    decreases |steps|
  {
    if steps == [] then l else Run(Next(l, steps[0]), steps[1..])
  }

  predicate OnlyEmpty(messages: seq<bytes>) {
    forall i | 0 <= i < |messages| :: messages[i] == []
  }

  /** The one thing the callers must not do: attach a channel that is already open while there are bytes queued. */
  predicate AttachesInOrder(l: Link, step: Step) {
    step == Attach(Open) ==> OnlyEmpty(l.sender.queue) || l.sender.channel.Some? || l.sender.closed
  }

  ghost predicate RunsInOrder(l: Link, steps: seq<Step>)
    decreases |steps|
  {
    steps == [] || (AttachesInOrder(l, steps[0]) && RunsInOrder(Next(l, steps[0]), steps[1..]))
  }

  /** Everything delivered, on the wire or still queued is the fragments of what was accepted, in order. */
  ghost predicate Inv(l: Link) {
    && l.session == DeliverAll(FRESH, l.delivered)
    && (l.sender.closed ==> l.sender.queue == [])
    && (l.sender.channel == Some(Open) ==> AllFragments(l.sender.queue) == [])
    && (l.sender.channel.None? ==>
          l.delivered == [] && l.wire == [] && (l.sender.closed || l.sender.queue == l.accepted))
    && (if Finished(l.sender) then l.delivered + l.wire <= AllFragments(l.accepted)
        else l.delivered + l.wire + AllFragments(l.sender.queue) == AllFragments(l.accepted))
  }

  lemma {:induction false} AllFragmentsAppend(a: seq<bytes>, b: seq<bytes>)
    ensures AllFragments(a + b) == AllFragments(a) + AllFragments(b)
    decreases |b|
  {
    if b == [] {
      Nothing(a);
      Nothing(AllFragments(a));
    } else {
      var init := b[..|b| - 1];
      AllFragmentsAppend(a, init);
      InitOfAppend(a, b);
      Associate(AllFragments(a), AllFragments(init), Fragments(b[|b| - 1]));
    }
  }

  lemma AllFragmentsSnoc(a: seq<bytes>, m: bytes)
    ensures AllFragments(a + [m]) == AllFragments(a) + Fragments(m)
  {
    assert (a + [m])[..|a|] == a;
  }

  /** Only messages without bytes produce no fragments. */
  lemma {:induction false} NoFragmentsIff(messages: seq<bytes>)
    ensures AllFragments(messages) == [] <==> OnlyEmpty(messages)
  {
    if messages != [] {
      var init, last := messages[..|messages| - 1], messages[|messages| - 1];
      NoFragmentsIff(init);
      ChunksCover(last);
      assert OnlyEmpty(messages) <==> OnlyEmpty(init) && last == [];
    }
  }

  lemma SendKeepsInv(l: Link, data: bytes)
    requires Inv(l)
    ensures Inv(Next(l, CallSend(data)))
  {
    Nothing(l.wire);
    if Accepts(l.sender) {
      if l.sender.channel == Some(Open) {
        AllFragmentsSnoc(l.accepted, data);
        NowInOrder(l.delivered, l.wire, Fragments(data), AllFragments(l.accepted));
      } else {
        QueueingKeepsInv(l, data);
      }
    }
  }

  lemma QueueingKeepsInv(l: Link, data: bytes)
    requires Inv(l) && Accepts(l.sender) && l.sender.channel != Some(Open)
    ensures Inv(Next(l, CallSend(data)))
  {
    AllFragmentsSnoc(l.accepted, data);
    AllFragmentsSnoc(l.sender.queue, data);
    Nothing(l.wire);
    Associate(l.delivered + l.wire, AllFragments(l.sender.queue), Fragments(data));
  }

  lemma NowInOrder<T>(delivered: seq<T>, wire: seq<T>, out: seq<T>, all: seq<T>)
    requires delivered + wire + [] == all
    ensures delivered + (wire + out) + [] == all + out
  {
  }

  lemma HandedOver<T>(delivered: seq<T>, wire: seq<T>)
    requires wire != []
    ensures delivered + [wire[0]] + wire[1..] == delivered + wire
  {
  }

  lemma DeliveryKeepsInv(l: Link)
    requires Inv(l) && l.wire != []
    ensures Inv(Next(l, DeliverNext))
  {
    DeliverSnoc(FRESH, l.delivered, l.wire[0]);
    HandedOver(l.delivered, l.wire);
  }

  lemma OpeningKeepsInv(l: Link)
    requires Inv(l) && l.sender.channel == Some(Connecting)
    ensures Inv(Next(l, ChannelOpens))
  {
    var all := AllFragments(l.sender.queue);
    Associate(l.delivered, l.wire, all);
    Nothing(l.delivered + l.wire + all);
    if l.sender.closed {
      Nothing(l.wire);
    }
  }

  lemma EndingKeepsInv(l: Link, step: Step)
    requires Inv(l) && (step.ChannelCloses? || step.CallClose? || step.LoseRest?)
    ensures Inv(Next(l, step))
  {
    var passed := l.delivered + l.wire;
    assert passed <= passed + AllFragments(l.sender.queue);
    assert passed <= AllFragments(l.accepted);
    Nothing(l.delivered);
    assert l.delivered <= passed;
  }

  lemma AttachingKeepsInv(l: Link, state: ReadyState)
    requires Inv(l) && AttachesInOrder(l, Attach(state))
    ensures Inv(Next(l, Attach(state)))
  {
    NoFragmentsIff(l.sender.queue);
    Nothing(l.delivered);
  }

  lemma NextKeepsInv(l: Link, step: Step)
    requires Inv(l) && AttachesInOrder(l, step)
    ensures Inv(Next(l, step))
  {
    match step
    case CallSend(data) => SendKeepsInv(l, data);
    case Attach(state) => AttachingKeepsInv(l, state);
    case ChannelOpens => if l.sender.channel == Some(Connecting) { OpeningKeepsInv(l); }
    case DeliverNext => if l.wire != [] { DeliveryKeepsInv(l); }
    case ChannelCloses => EndingKeepsInv(l, step);
    case CallClose => EndingKeepsInv(l, step);
    case LoseRest => EndingKeepsInv(l, step);
  }

  /** The receiver's fields after all the fragments of a list of messages, none rejected. */
  lemma {:induction false} DeliverMessages(messages: seq<bytes>)
    ensures DeliverAll(FRESH, AllFragments(messages)) == Session(IDLE, AllFragments(messages), AllPieces(messages))
    decreases |messages|
  {
    if messages != [] {
      var init, last := messages[..|messages| - 1], messages[|messages| - 1];
      DeliverMessages(init);
      DeliverAppend(FRESH, AllFragments(init), Fragments(last));
      if last != [] {
        Reassembly(last, DeliverAll(FRESH, AllFragments(init)));
      }
    }
  }

  lemma {:induction false} RunKeepsInv(l: Link, steps: seq<Step>)
    requires Inv(l) && RunsInOrder(l, steps)
    ensures Inv(Run(l, steps))
    decreases |steps|
  {
    if steps != [] {
      NextKeepsInv(l, steps[0]);
      RunKeepsInv(Next(l, steps[0]), steps[1..]);
    }
  }

  /** The receiver's emissions are a prefix of what the accepted messages amount to. */
  ghost predicate InOrder(l: Link) {
    l.session.emitted <= AllPieces(l.accepted)
  }

  /** Nothing with bytes in it is queued or under way, on a connection that still sends. */
  ghost predicate Drained(l: Link) {
    !Finished(l.sender) && l.wire == [] && OnlyEmpty(l.sender.queue)
  }

  lemma DeliveredIsPrefix(l: Link) returns (rest: seq<bytes>)
    requires Inv(l)
    ensures AllFragments(l.accepted) == l.delivered + rest
  {
    assert l.delivered <= l.delivered + l.wire <= AllFragments(l.accepted);
    rest := AllFragments(l.accepted)[|l.delivered|..];
  }

  /** A receiver that has been given the first part of the fragments of a list of messages. */
  lemma PrefixIsInOrder(messages: seq<bytes>, rest: seq<bytes>, delivered: seq<bytes>)
    requires AllFragments(messages) == delivered + rest
    ensures DeliverAll(FRESH, delivered).accepted == delivered
    ensures DeliverAll(FRESH, delivered).emitted <= AllPieces(messages)
  {
    DeliverMessages(messages);
    DeliverAppend(FRESH, delivered, rest);
    DeliverExtends(DeliverAll(FRESH, delivered), rest);
    AcceptedAll(FRESH, delivered, rest);
  }

  lemma InvMeansFifo(l: Link)
    requires Inv(l)
    ensures l.session.accepted == l.delivered && InOrder(l)
    ensures Drained(l) ==> l.session.emitted == AllPieces(l.accepted) && l.session.receiver == IDLE
  {
    var rest := DeliveredIsPrefix(l);
    PrefixIsInOrder(l.accepted, rest, l.delivered);
    if Drained(l) {
      NoFragmentsIff(l.sender.queue);
      Nothing(l.delivered);
      DeliverMessages(l.accepted);
    }
  }

  /**
   First in, first out, over every interleaving: nothing is ever rejected, the receiver's emissions are always a
   prefix of what the accepted messages amount to, and all of it once an open connection has drained.
   */
  lemma FifoForAllSizes(steps: seq<Step>)
    requires RunsInOrder(START, steps)
    ensures var l := Run(START, steps);
            && l.session.accepted == l.delivered
            && InOrder(l)
            && (Drained(l) ==> l.session.emitted == AllPieces(l.accepted) && l.session.receiver == IDLE)
  {
    assert Inv(START);
    RunKeepsInv(START, steps);
    InvMeansFifo(Run(START, steps));
  }

  /** If the whole stream is accepted, so is the part delivered so far. */
  lemma AcceptedAll(s: Session, a: seq<bytes>, b: seq<bytes>)
    requires DeliverAll(s, a + b).accepted == s.accepted + (a + b)
    ensures DeliverAll(s, a).accepted == s.accepted + a
  {
    DeliverAppend(s, a, b);
    AcceptedLength(s, a);
    AcceptedLength(DeliverAll(s, a), b);
    DeliverExtends(s, a);
    DeliverExtends(DeliverAll(s, a), b);
    var mid := DeliverAll(s, a).accepted;
    assert mid <= s.accepted + (a + b);
    Associate(s.accepted, a, b);
    assert mid == (s.accepted + a + b)[..|mid|];
  }

  lemma {:induction false} AcceptedLength(s: Session, fragments: seq<bytes>)
    ensures |DeliverAll(s, fragments).accepted| <= |s.accepted| + |fragments|
    decreases |fragments|
  {
    if fragments != [] {
      AcceptedLength(Deliver(s, fragments[0]), fragments[1..]);
    }
  }

  /** The messages that have bytes at all: an empty message produces no fragment. */
  function NonEmpty(messages: seq<bytes>): seq<bytes> {
    if messages == [] then []
    else
      var init, last := NonEmpty(messages[..|messages| - 1]), messages[|messages| - 1];
      if last == [] then init else init + [last]
  }

  lemma {:induction false} ShortMessagesArriveWhole(messages: seq<bytes>)
    requires forall i | 0 <= i < |messages| :: |messages[i]| <= 256 * MAX_MESSAGE_SIZE
    ensures AllPieces(messages) == NonEmpty(messages)
  {
    if messages != [] {
      ShortMessagesArriveWhole(messages[..|messages| - 1]);
      if messages[|messages| - 1] != [] {
        WholeIffShort(messages[|messages| - 1]);
      }
    }
  }

  /** With messages of at most 2,560,000 bytes the receiver emits exactly the accepted non-empty messages, in order. */
  lemma Fifo(steps: seq<Step>)
    requires RunsInOrder(START, steps)
    requires forall i | 0 <= i < |Run(START, steps).accepted| ::
               |Run(START, steps).accepted[i]| <= 256 * MAX_MESSAGE_SIZE
    ensures var l := Run(START, steps);
            l.session.emitted <= NonEmpty(l.accepted) && (Drained(l) ==> l.session.emitted == NonEmpty(l.accepted))
  {
    FifoForAllSizes(steps);
    ShortMessagesArriveWhole(Run(START, steps).accepted);
  }

  // ---------------------------------------------------------------------------------------------------------
  // Everything arrives

  /** `send` takes responsibility for a message exactly when neither connection nor channel has begun to close. */
  lemma AcceptedIff(l: Link, data: bytes)
    ensures var result := Send(l.sender, data).2;
            && Next(l, CallSend(data)).accepted
               == (if !l.sender.closed && l.sender.channel != Some(Closing) then l.accepted + [data] else l.accepted)
            && (result.ConnectionClosed? <==> l.sender.closed)
            && (result.ChannelNotOpen? <==> !l.sender.closed && l.sender.channel == Some(Closing))
            && (result == Sent(|data|) <==> !l.sender.closed && l.sender.channel == Some(Open))
  {
  }

  /** Over every run, a connection that has closed takes on nothing, and no more arrives than was on the wire. */
  lemma {:induction false} ClosedSendsNothing(l: Link, steps: seq<Step>)
    requires l.sender.closed && l.sender.channel != Some(Connecting)
    ensures var t := Run(l, steps);
            t.sender.closed && t.accepted == l.accepted && t.delivered + t.wire <= l.delivered + l.wire
    decreases |steps|
  {
    if steps != [] {
      ClosedSendsNothing(Next(l, steps[0]), steps[1..]);
      ClosedStep(l, steps[0]);
    }
  }

  lemma ClosedStep(l: Link, step: Step)
    requires l.sender.closed && l.sender.channel != Some(Connecting)
    ensures Next(l, step).delivered + Next(l, step).wire <= l.delivered + l.wire
  {
    Nothing(l.wire);
    Nothing(l.delivered);
    if step.DeliverNext? && l.wire != [] {
      HandedOver(l.delivered, l.wire);
    }
    assert l.delivered <= l.delivered + l.wire;
  }

  /** Closing drops the queue and closes the channel, once. */
  lemma ClosingStops(l: Link)
    requires !l.sender.closed
    ensures var t := Next(l, CallClose);
            && t.sender.closed && t.sender.queue == [] && t.wire == l.wire && t.accepted == l.accepted
            && (t.sender.channel == if l.sender.channel.Some? then Some(Closing) else None)
            && Next(t, CallClose) == t
  {
  }

  function Deliveries(n: nat): seq<Step> {
    if n == 0 then [] else [DeliverNext] + Deliveries(n - 1)
  }

  /** Delivering as often as there are fragments on the wire empties it and changes nothing else for the sender. */
  lemma {:induction false} DeliveriesDrain(l: Link)
    requires Inv(l)
    ensures Emptied(l, Run(l, Deliveries(|l.wire|)))
    decreases |l.wire|
  {
    if l.wire != [] {
      var next := Next(l, DeliverNext);
      OneDelivery(l);
      DeliveriesDrain(next);
      RunHead(l, DeliverNext, Deliveries(|l.wire| - 1));
      StillEmptied(l, next, Run(next, Deliveries(|l.wire| - 1)));
    }
  }

  ghost predicate Emptied(l: Link, t: Link) {
    Inv(t) && t.wire == [] && t.sender == l.sender && t.accepted == l.accepted
  }

  lemma StillEmptied(l: Link, next: Link, t: Link)
    requires Emptied(next, t) && next.sender == l.sender && next.accepted == l.accepted
    ensures Emptied(l, t)
  {
  }

  lemma OneDelivery(l: Link)
    requires Inv(l) && l.wire != []
    ensures var next := Next(l, DeliverNext);
            Inv(next) && |next.wire| == |l.wire| - 1 && next.sender == l.sender && next.accepted == l.accepted
  {
    DeliveryKeepsInv(l);
  }

  lemma RunHead(l: Link, step: Step, rest: seq<Step>)
    ensures Run(l, [step] + rest) == Run(Next(l, step), rest)
  {
    FrontAndBack([step], rest);
  }

  /**
   From every state of a connection that has not begun to close, once the channel is open and what is on the wire has
   been delivered, the receiver has emitted all that the accepted messages amount to.
   */
  lemma EverythingArrives(l: Link)
    requires Inv(l) && !Finished(l.sender) && l.sender.channel.Some?
    ensures var ready := Next(l, ChannelOpens);
            var t := Run(ready, Deliveries(|ready.wire|));
            && t.accepted == l.accepted
            && t.session.emitted == AllPieces(l.accepted) && t.session.receiver == IDLE
  {
    var ready := Next(l, ChannelOpens);
    NextKeepsInv(l, ChannelOpens);
    assert ready.sender.channel == Some(Open) by {
      match l.sender.channel.value
      case Connecting =>
      case Open =>
      case Closing =>
    }
    NoFragmentsIff(ready.sender.queue);
    DeliveriesDrain(ready);
    EmptiedHasAll(ready, Run(ready, Deliveries(|ready.wire|)));
  }

  lemma EmptiedHasAll(l: Link, t: Link)
    requires Emptied(l, t) && !Finished(l.sender) && OnlyEmpty(l.sender.queue)
    ensures t.session.emitted == AllPieces(l.accepted) && t.session.receiver == IDLE
  {
    InvMeansFifo(t);
  }

  // ---------------------------------------------------------------------------------------------------------
  // When order is kept

  /** At every state of the run, every continuation that attaches in order is in order. */
  ghost predicate OrderIsKept(l: Link, steps: seq<Step>)
    decreases |steps|
  {
    && (forall more | RunsInOrder(l, more) :: InOrder(Run(l, more)))
    && (steps == [] || OrderIsKept(Next(l, steps[0]), steps[1..]))
  }

  /**
   The order of messages is kept over a run exactly when no open channel is attached in it over queued bytes: from
   any other run there is a way on that delivers a later message first.
   */
  lemma {:induction false} OrderIsKeptIff(l: Link, steps: seq<Step>)
    requires Inv(l)
    ensures OrderIsKept(l, steps) <==> RunsInOrder(l, steps)
    decreases |steps|
  {
    forall more | RunsInOrder(l, more)
      ensures InOrder(Run(l, more))
    {
      RunKeepsInv(l, more);
      InvMeansFifo(Run(l, more));
    }
    if steps != [] {
      if AttachesInOrder(l, steps[0]) {
        NextKeepsInv(l, steps[0]);
        OrderIsKeptIff(Next(l, steps[0]), steps[1..]);
      } else {
        var more := Overtakes(l);
        assert !OrderIsKept(Next(l, steps[0]), steps[1..]);
      }
    }
  }

  /** The way on: one message of one byte, other than the first byte there is in the queue, and its delivery. */
  lemma Overtakes(l: Link) returns (more: seq<Step>)
    requires Inv(l) && !AttachesInOrder(l, Attach(Open))
    ensures RunsInOrder(Next(l, Attach(Open)), more) && !InOrder(Run(Next(l, Attach(Open)), more))
  {
    SomethingToCome(l.accepted);
    var b: byte := if AllPieces(l.accepted)[0] == [0] then 1 else 0;
    var attached := Next(l, Attach(Open));
    OneByte(b);
    var sent := Next(attached, CallSend([b]));
    Nothing([[0, b]]);
    assert sent.wire == [[0, b]];
    more := [CallSend([b]), DeliverNext];
    TwoSteps(attached, CallSend([b]), DeliverNext);
    assert [0, b][1..] == [b];
    var end := Next(sent, DeliverNext);
    assert end.session.emitted == [[b]];
    PiecesSnoc(l.accepted, [b]);
    assert end.accepted == l.accepted + [[b]];
    assert AllPieces(end.accepted)[0] == AllPieces(l.accepted)[0] != [b];
  }

  lemma OneByte(b: byte)
    ensures Fragments([b]) == [[0, b]]
  {
    assert Chunks([b]) == [[b]] + [] by {
      assert [b][..1] == [b] && [b][1..] == [];
    }
    assert [[b]][1..] == [];
    assert Frame([[b]]) == [Framed(1, [b])] + [];
    assert Framed(1, [b]) == [0, b];
  }

  lemma TwoSteps(l: Link, first: Step, second: Step)
    ensures Run(l, [first, second]) == Next(Next(l, first), second)
    ensures !first.Attach? && !second.Attach? ==> RunsInOrder(l, [first, second])
  {
    assert [first, second][1..] == [second] && [second][1..] == [];
    assert Run(Next(l, first), [second]) == Run(Next(Next(l, first), second), []);
    assert RunsInOrder(Next(Next(l, first), second), []);
    assert !second.Attach? ==> RunsInOrder(Next(l, first), [second]);
  }

  lemma PiecesSnoc(messages: seq<bytes>, m: bytes)
    ensures AllPieces(messages + [m]) == AllPieces(messages) + Pieces(m)
  {
    assert (messages + [m])[..|messages|] == messages;
  }

  lemma {:induction false} SomethingToCome(messages: seq<bytes>)
    requires !OnlyEmpty(messages)
    ensures AllPieces(messages) != []
  {
    var init, last := messages[..|messages| - 1], messages[|messages| - 1];
    if last == [] {
      var i :| 0 <= i < |messages| && messages[i] != [];
      assert init[i] != [];
      SomethingToCome(init);
    } else {
      Reassembly(last, FRESH);
      assert |Pieces(last)| > 0;
    }
  }

  /** The shortest such run: a message queued before an already open channel is attached is overtaken. */
  lemma OvertakenIfAttachedOpen(first: byte, second: byte)
    requires first != second
    ensures var l := Run(START, [CallSend([first]), Attach(Open), CallSend([second]), DeliverNext]);
            && l.accepted == [[first], [second]]
            && l.session.emitted == [[second]]
            && l.sender.queue == [[first]]
  {
    var l1 := Next(START, CallSend([first]));
    var l2 := Next(l1, Attach(Open));
    var l3 := Next(l2, CallSend([second]));
    OneByte(second);
    var l4 := Next(l3, DeliverNext);
    assert [0, second][1..] == [second];
    var steps := [CallSend([first]), Attach(Open), CallSend([second]), DeliverNext];
    assert steps[1..][1..][1..][1..] == [];
    assert Run(l1, steps[1..]) == Run(l2, steps[1..][1..]) == Run(l3, steps[1..][1..][1..]) == Run(l4, []);
  }

  /** The channel is open and the queue is not empty: nobody will flush it any more. */
  predicate Stuck(s: Sender) {
    s.channel == Some(Open) && !s.closed && s.queue != []
  }

  /** No channel that is already open is attached over a queue, even one of empty messages. */
  predicate AttachesSafely(l: Link, step: Step) {
    step == Attach(Open) ==> l.sender.queue == [] || l.sender.channel.Some? || l.sender.closed
  }

  ghost predicate RunsSafely(l: Link, steps: seq<Step>)
    decreases |steps|
  {
    steps == [] || (AttachesSafely(l, steps[0]) && RunsSafely(Next(l, steps[0]), steps[1..]))
  }

  ghost predicate NeverStuck(l: Link, steps: seq<Step>)
    decreases |steps|
  {
    !Stuck(l.sender) && (steps == [] || NeverStuck(Next(l, steps[0]), steps[1..]))
  }

  /** No queue is ever stuck over a run exactly when no open channel is attached over a queue in it. */
  lemma {:induction false} NeverStuckIff(l: Link, steps: seq<Step>)
    requires !Stuck(l.sender)
    ensures NeverStuck(l, steps) <==> RunsSafely(l, steps)
    decreases |steps|
  {
    if steps != [] {
      assert Stuck(Next(l, steps[0]).sender) <==> !AttachesSafely(l, steps[0]);
      if AttachesSafely(l, steps[0]) {
        NeverStuckIff(Next(l, steps[0]), steps[1..]);
      }
    }
  }

  /** What is stuck is never sent: over every continuation the queue stays as it was, until closing drops it. */
  lemma {:induction false} AttachedOpenNeverFlushes(l: Link, steps: seq<Step>)
    requires l.sender.channel.Some? && !l.sender.channel.value.Connecting? && !l.sender.closed
    ensures var t := Run(l, steps);
            if t.sender.closed then t.sender.queue == [] else t.sender.queue == l.sender.queue
    decreases |steps|
  {
    if steps != [] {
      var next := Next(l, steps[0]);
      if next.sender.closed {
        ClosedStaysEmpty(next, steps[1..]);
      } else {
        AttachedOpenNeverFlushes(next, steps[1..]);
      }
    }
  }

  lemma {:induction false} ClosedStaysEmpty(l: Link, steps: seq<Step>)
    requires l.sender.closed && l.sender.queue == [] && l.sender.channel != Some(Connecting)
    ensures Run(l, steps).sender.closed && Run(l, steps).sender.queue == []
    decreases |steps|
  {
    if steps != [] {
      ClosedStaysEmpty(Next(l, steps[0]), steps[1..]);
    }
  }
}
