/**
 `class Connection` of `src/connection.js`, field by field, proved against the functions of Transport and Delivery.
 */
module Connection {
  import opened Bytes
  import opened Sequences
  import opened Wrappers
  import opened Transport
  import opened Delivery

  class Connection {
    var reliable: Option<ReadyState>
    var unreliable: Option<ReadyState>
    var promisedSegments: nat
    var buf: Option<bytes>
    var sendQueue: seq<bytes>
    var closed: bool
    // What the outside world has seen of this object.
    var wire: seq<bytes>       // handed to reliable.send
    var emitted: seq<bytes>    // 'encapsulated' events
    var peerCloses: nat        // rtcConnection.close()
    var closeNotices: nat      // nethernet.handleConnectionClosed

    constructor ()
      ensures SenderState() == Sender(None, [], false) && ReceiverState() == IDLE
      ensures unreliable == None && wire == [] && emitted == [] && peerCloses == 0 && closeNotices == 0
    {
      reliable, unreliable, promisedSegments, buf := None, None, 0, None;
      sendQueue, closed, wire, emitted, peerCloses, closeNotices := [], false, [], [], 0, 0;
    }

    ghost function SenderState(): Sender
      reads this
    {
      Sender(reliable, sendQueue, closed)
    }

    ghost function ReceiverState(): Receiver
      reads this
    {
      Receiver(promisedSegments, buf)
    }

    method SetChannels(r: Option<ReadyState>, u: Option<ReadyState>)
      modifies `reliable, `unreliable
      ensures reliable == (if r.Some? then r else old(reliable))
      ensures unreliable == (if u.Some? then u else old(unreliable))
    {
      if r.Some? {
        reliable := r;
      }
      if u.Some? {
        unreliable := u;
      }
    }

    method HandleMessage(message: bytes) returns (outcome: Outcome)
      modifies `promisedSegments, `buf, `emitted
      ensures (ReceiverState(), outcome) == Transport.HandleMessage(old(ReceiverState()), message)
      ensures emitted == if outcome.Emitted? then old(emitted) + [outcome.message] else old(emitted)
    {
      if |message| < 2 {
        return UnexpectedEof;
      }
      var segments: nat := message[0];
      var data := message[1..];
      if promisedSegments > 0 && promisedSegments - 1 != segments {
        return InvalidSegments;
      }
      promisedSegments := segments;
      buf := Some(if buf.Some? then buf.value + data else data);
      if promisedSegments > 0 {
        return Buffered;
      }
      emitted := emitted + [buf.value];
      outcome := Emitted(buf.value);
      buf := None;
    }

    method Send(data: bytes) returns (result: SendResult)
      modifies `sendQueue, `wire
      ensures var (s, out, r) := Delivery.Send(old(SenderState()), data);
              SenderState() == s && wire == old(wire) + out && result == r
    {
      if closed {
        return ConnectionClosed;
      }
      if reliable.None? || reliable.value.Connecting? {
        sendQueue := sendQueue + [data];
        return Queued;
      }
      if reliable.value.Closing? {
        return ChannelNotOpen;
      }
      var n := SendNow(data);
      return Sent(n);
    }

    method SendNow(data: bytes) returns (n: nat)
      modifies `wire
      ensures wire == old(wire) + Fragments(data)
      ensures n == |data|
    {
      n := 0;
      var segments: int := Segments(|data|);
      var i := 0;
      ChunksCover(data);
      assert data[0..] == data;
      while i < |data|
        invariant i <= |data| + MAX_MESSAGE_SIZE && n == Min(i, |data|)
        invariant segments == |Chunks(data[n..])|
        invariant wire + Frame(Chunks(data[n..])) == old(wire) + Fragments(data)
      {
        segments := segments - 1;
        var end := Min(i + MAX_MESSAGE_SIZE, |data|);
        var frag := data[i..end];
        ghost var rest := data[i..];
        assert frag == rest[..Min(MAX_MESSAGE_SIZE, |rest|)] && data[end..] == rest[Min(MAX_MESSAGE_SIZE, |rest|)..];
        assert Chunks(rest) == [frag] + Chunks(data[end..]);
        var message: bytes := [segments % 256] + frag;
        assert Frame(Chunks(rest)) == [message] + Frame(Chunks(data[end..]));
        Associate(wire, [message], Frame(Chunks(data[end..])));
        wire := wire + [message];
        n := n + |frag|;
        i := i + MAX_MESSAGE_SIZE;
      }
      // The source throws here if the count did not come out at zero.
      assert segments == 0;
    }

    /** `onopen`. */
    method ChannelOpened()
      requires reliable == Some(Connecting)
      modifies `reliable, `sendQueue, `wire
      ensures var (s, out) := Opened(old(SenderState()));
              SenderState() == s && wire == old(wire) + out
    {
      reliable := Some(Open);
      FlushQueue();
    }

    method FlushQueue()
      modifies `sendQueue, `wire
      ensures sendQueue == []
      ensures wire == old(wire) + AllFragments(old(sendQueue))
    {
      while |sendQueue| > 0
        invariant wire + AllFragments(sendQueue) == old(wire) + AllFragments(old(sendQueue))
        decreases |sendQueue|
      {
        var data := sendQueue[0];
        AllFragmentsAppend([data], sendQueue[1..]);
        AllFragmentsSnoc([], data);
        assert [] + [data] == [data] && sendQueue == [data] + sendQueue[1..];
        Associate(wire, Fragments(data), AllFragments(sendQueue[1..]));
        sendQueue := sendQueue[1..];
        var _ := SendNow(data);
      }
    }

    /** `onclose` and `onerror` of either channel. */
    method NotifyClosed()
      modifies this
      ensures AfterClose()
      decreases if closed then 0 else 1, 1
    {
      Close();
    }

    /**
     Closing a channel may call its `onclose` before returning, which comes back here. Everything is released and
     the owner is told exactly once all the same.
     */
    method Close()
      modifies this
      ensures AfterClose()
      decreases if closed then 0 else 1, 0
    {
      if closed {
        return;
      }
      closed := true;
      buf := None;
      sendQueue := [];
      if reliable.Some? {
        reliable := Some(Closing);
        NotifyClosed();
      }
      if unreliable.Some? {
        unreliable := Some(Closing);
        NotifyClosed();
      }
      peerCloses := peerCloses + 1;
      closeNotices := closeNotices + 1;
    }

    twostate predicate AfterClose()
      reads this
    {
      && SenderState() == Closed(old(SenderState()))
      && ReceiverState() == (if old(closed) then old(ReceiverState()) else Receiver(old(promisedSegments), None))
      && unreliable == (if old(closed) || old(unreliable).None? then old(unreliable) else Some(Closing))
      && wire == old(wire) && emitted == old(emitted)
      && peerCloses == old(peerCloses) + (if old(closed) then 0 else 1)
      && closeNotices == old(closeNotices) + (if old(closed) then 0 else 1)
    }
  }
}
