/** What the server achieves: how an offer becomes an open connection, when exactly one opens, and what ends it. */
module ServerFlow {
  import opened Sequences
  import opened ServerModel
  import opened ServerProofs

  // ---------------------------------------------------------------------------------------------------------
  // When a connection opens

  /** Both data channels of the protocol are there. */
  predicate HasBoth(c: Conn) {
    Reliable in c.channels && Unreliable in c.channels
  }

  predicate OnlyExpected(c: Conn) {
    forall kind | kind in c.channels :: kind == Reliable || kind == Unreliable
  }

  /** A connection that has opened has both channels, and one that has both and is connected has opened. */
  predicate OpenedInTime(c: Conn) {
    && OnlyExpected(c)
    && (c.announced ==> HasBoth(c))
    && (c.connected && HasBoth(c) ==> c.announced)
  }

  ghost predicate AllInTime(s: State) {
    forall h: Handle | h < |s.w.conns| :: OpenedInTime(s.w.conns[h])
  }

  lemma TwoAreBoth(c: Conn)
    requires OnlyExpected(c)
    ensures |c.channels| == 2 <==> HasBoth(c)
  {
    assert c.channels <= {Reliable, Unreliable};
    if HasBoth(c) {
      assert c.channels == {Reliable, Unreliable};
    } else {
      var missing := if Reliable in c.channels then Unreliable else Reliable;
      var other := if Reliable in c.channels then Reliable else Unreliable;
      assert c.channels <= {other};
      if |c.channels| == 2 {
        SubsetIsSmaller(c.channels, {other});
      }
    }
  }

  lemma SubsetIsSmaller<T>(a: set<T>, b: set<T>)
    requires a <= b
    ensures |a| <= |b|
  {
    assert b == a + (b - a);
  }

  /** The last thing that was missing has come: `c` is what the connection has now. */
  lemma OpensWhenReady(s: State, h: Handle, c: Conn)
    requires h < |s.w.conns| && OnlyExpected(c)
    ensures var t := EmitOpen(Updated(s, h, c), h);
            if !c.announced && HasBoth(c) && c.connected
            then
              t == s.(acceptTimeouts := s.acceptTimeouts - {c.address},
                      w := s.w.(conns := s.w.conns[h := c.(announced := true)], log := s.w.log + [OpenConnection(h)]))
            else t == Updated(s, h, c)
  {
    TwoAreBoth(c);
    assert s.w.conns[h := c][h := c.(announced := true)] == s.w.conns[h := c.(announced := true)];
  }

  lemma CloseStaysInTime(s: State, k: Handle)
    requires AllInTime(s) && k < |s.w.conns|
    ensures AllInTime(Close(s, k)) && OpensNothing(s, Close(s, k))
  {
  }

  /** No connection opens. */
  ghost predicate OpensNothing(s: State, t: State) {
    && s.w.log <= t.w.log
    && forall i | |s.w.log| <= i < |t.w.log| :: t.w.log[i].CloseConnectionEvent?
  }

  lemma GiveUpStaysInTime(s: State, k: Handle, code: nat, respondThrows: bool)
    requires AllInTime(s) && k < |s.w.conns|
    ensures AllInTime(GiveUp(s, k, code, respondThrows)) && OpensNothing(s, GiveUp(s, k, code, respondThrows))
  {
    CloseStaysInTime(Responded(s, Failure(k, code)), k);
  }

  lemma AnswerStaysInTime(s: State, k: Handle, respond: Respond, acceptTimeoutMs: int)
    requires AllInTime(s) && k < |s.w.conns|
    ensures var t := SendAnswer(s, k, respond, acceptTimeoutMs); AllInTime(t) && OpensNothing(s, t)
  {
    GiveUpStaysInTime(Responded(s, Answer(k)), k, SIGNALING_FAILED, respond.ThrowsAlways?);
  }

  lemma ResumeStaysInTime(s: State, k: Handle, ok: bool, respond: Respond, acceptTimeoutMs: int)
    requires AllInTime(s) && k < |s.w.conns| && k in s.w.offers
    ensures var t := ResumeOffer(s, k, ok, respond, acceptTimeoutMs); AllInTime(t) && OpensNothing(s, t)
  {
    GiveUpStaysInTime(Dropped(s, k), k, StageError(s.w.offers[k]), respond != Works);
    AnswerStaysInTime(Dropped(s, k), k, respond, acceptTimeoutMs);
  }

  lemma CandidateStaysInTime(s: State, k: Handle, ok: bool, hasRespond: bool)
    requires AllInTime(s) && k < |s.w.conns|
    ensures var t := ResumeCandidate(s, k, ok, hasRespond); AllInTime(t) && OpensNothing(s, t)
  {
    CloseStaysInTime(s.(w := s.w.(candidates := s.w.candidates - multiset{k})), k);
  }

  lemma TimerStaysInTime(s: State, id: nat)
    requires InScope(s) && AllInTime(s) && id in s.acceptTimeouts
    ensures AllInTime(FireTimer(s, id)) && OpensNothing(s, FireTimer(s, id))
  {
    var t := s.(acceptTimeouts := s.acceptTimeouts - {id});
    GiveUpStaysInTime(t, s.acceptTimeouts[id], WAITING_FOR_ACCEPT, false);
  }

  lemma {:induction false} CloseAllStaysInTime(s: State, ids: seq<nat>)
    requires Scoped(s) && AllInTime(s)
    ensures AllInTime(CloseAll(s, ids)) && OpensNothing(s, CloseAll(s, ids))
    decreases |ids|
  {
    if ids != [] {
      if ids[0] in s.connections {
        var t := Close(s, s.connections[ids[0]]);
        CloseStaysInTime(s, s.connections[ids[0]]);
        CloseAllStaysInTime(t, ids[1..]);
        OpensNothingChains(s, t, CloseAll(t, ids[1..]));
      } else {
        CloseAllStaysInTime(s, ids[1..]);
      }
    }
  }

  lemma OpensNothingChains(s: State, t: State, u: State)
    requires OpensNothing(s, t) && OpensNothing(t, u)
    ensures OpensNothing(s, u)
  {
    assert forall i | |s.w.log| <= i < |t.w.log| :: u.w.log[i] == t.w.log[i];
  }

  /** The step that brings the last of the three conditions: both channels, and a connected peer. */
  predicate Completes(s: State, step: Step, h: Handle) {
    && h < |s.w.conns|
    && var c := s.w.conns[h];
       && !c.announced
       && (|| (step == PeerConnects(h) && c.answered && !c.closed && Reliable in c.channels && Unreliable in c.channels)
           || (step.ChannelArrives? && step.conn == h && c.connected
               && ((step.kind == Reliable && Reliable !in c.channels && Unreliable in c.channels)
                   || (step.kind == Unreliable && Unreliable !in c.channels && Reliable in c.channels))))
  }

  /** Exactly the connections whose conditions the step completes have opened in `t`. */
  ghost predicate OpensExactly(s: State, t: State, step: Step) {
    && s.w.log <= t.w.log
    && (forall h: Handle | Completes(s, step, h) :: t.w.log == s.w.log + [OpenConnection(h)])
    && ((forall h: Handle :: !Completes(s, step, h)) ==> OpensNothing(s, t))
  }

  /** It is enough to look at the connection the step is about. */
  lemma OpensItself(s: State, t: State, step: Step, h: Handle)
    requires (step.ChannelArrives? && step.conn == h) || step == PeerConnects(h)
    requires if Completes(s, step, h) then t.w.log == s.w.log + [OpenConnection(h)] else OpensNothing(s, t)
    ensures OpensExactly(s, t, step)
  {
    assert forall k: Handle | Completes(s, step, k) :: k == h;
  }

  lemma ChannelOpens(s: State, h: Handle, kind: ChannelKind, respondThrows: bool)
    requires AllInTime(s) && h < |s.w.conns|
    ensures var t := OnDataChannel(s, h, kind, respondThrows);
            AllInTime(t) && OpensExactly(s, t, ChannelArrives(h, kind, respondThrows))
  {
    var c := s.w.conns[h];
    assert OpenedInTime(c);
    if kind.Unexpected? || kind in c.channels {
      GiveUpStaysInTime(s, h, CONNECTION_IGNORED, respondThrows);
    } else {
      OpensWhenReady(s, h, c.(channels := c.channels + {kind}));
    }
    OpensItself(s, OnDataChannel(s, h, kind, respondThrows), ChannelArrives(h, kind, respondThrows), h);
  }

  lemma PeerOpens(s: State, h: Handle)
    requires AllInTime(s) && h < |s.w.conns| && s.w.conns[h].answered && !s.w.conns[h].closed
    ensures AllInTime(OnConnected(s, h)) && OpensExactly(s, OnConnected(s, h), PeerConnects(h))
  {
    assert OpenedInTime(s.w.conns[h]);
    OpensWhenReady(s, h, s.w.conns[h].(connected := true));
    OpensItself(s, OnConnected(s, h), PeerConnects(h), h);
  }

  lemma NewOfferStaysInTime(s: State, id: nat, peerMade: bool)
    requires AllInTime(s)
    ensures AllInTime(HandleOffer(s, id, peerMade)) && OpensNothing(s, HandleOffer(s, id, peerMade))
  {
  }

  lemma SignallingStaysInTime(s: State, step: Step, acceptTimeoutMs: int)
    requires InScope(s) && AllInTime(s) && IsSignalling(step)
    ensures AllInTime(Next(s, step, acceptTimeoutMs)) && OpensNothing(s, Next(s, step, acceptTimeoutMs))
  {
    match step
    case ReceiveOffer(id, peerMade) => NewOfferStaysInTime(s, id, peerMade);
    case OfferContinues(h, ok, respond) =>
      if h in s.w.offers { ResumeStaysInTime(s, h, ok, respond, acceptTimeoutMs); }
    case ReceiveCandidate(id) =>
    case CandidateContinues(h, ok, hasRespond) =>
      if h in s.w.candidates { CandidateStaysInTime(s, h, ok, hasRespond); }
    case PeerGathers(h) =>
  }

  lemma ShutdownStaysInTime(s: State, ids: seq<nat>, acceptTimeoutMs: int)
    requires InScope(s) && AllInTime(s)
    ensures var t := Next(s, CallClose(ids), acceptTimeoutMs); AllInTime(t) && OpensNothing(s, t)
  {
    NextIsShutdown(s, ids, acceptTimeoutMs);
    if !s.closed && Lists(s, ids) {
      ShutdownIs(s, ids);
      CloseAllStaysInTime(s.(closed := true), ids);
    }
  }

  lemma ConnectionStaysInTime(s: State, step: Step, acceptTimeoutMs: int)
    requires InScope(s) && AllInTime(s) && !IsSignalling(step) && !step.CallClose?
    ensures AllInTime(Next(s, step, acceptTimeoutMs)) && OpensExactly(s, Next(s, step, acceptTimeoutMs), step)
  {
    ConnectionStepIs(s, step, acceptTimeoutMs);
    match step
    case ChannelArrives(h, kind, respondThrows) =>
      if h < |s.w.conns| { ChannelOpens(s, h, kind, respondThrows); }
    case PeerConnects(h) =>
      if h < |s.w.conns| && s.w.conns[h].answered && !s.w.conns[h].closed { PeerOpens(s, h); }
    case ConnectionCloses(h) => if h < |s.w.conns| { CloseStaysInTime(s, h); }
    case ReceiveError(id) => if id in s.connections { CloseStaysInTime(s, s.connections[id]); }
    case TimerFires(id) => if id in s.acceptTimeouts { TimerStaysInTime(s, id); }
  }

  /** A connection opens in a step exactly when the step completes its conditions. */
  lemma NextOpensExactly(s: State, step: Step, acceptTimeoutMs: int)
    requires Inv(s) && AllInTime(s)
    ensures InScope(s)
    ensures AllInTime(Next(s, step, acceptTimeoutMs)) && OpensExactly(s, Next(s, step, acceptTimeoutMs), step)
  {
    InvInScope(s);
    if IsSignalling(step) {
      SignallingStaysInTime(s, step, acceptTimeoutMs);
    } else if step.CallClose? {
      ShutdownStaysInTime(s, step.ids, acceptTimeoutMs);
    } else {
      ConnectionStaysInTime(s, step, acceptTimeoutMs);
    }
  }

  /**
   Over every run, a connection that has opened has the reliable and the unreliable channel, and one that has both and
   is connected has opened.
   */
  lemma {:induction false} RunOpensInTime(s: State, steps: seq<Step>, acceptTimeoutMs: int)
    requires Inv(s) && AllInTime(s)
    ensures AllInTime(Run(s, steps, acceptTimeoutMs))
    decreases |steps|
  {
    if steps != [] {
      NextKeepsInv(s, steps[0], acceptTimeoutMs);
      NextOpensExactly(s, steps[0], acceptTimeoutMs);
      RunOpensInTime(Next(s, steps[0], acceptTimeoutMs), steps[1..], acceptTimeoutMs);
    }
  }

  // ---------------------------------------------------------------------------------------------------------
  // A connection that comes about

  /** The connection of `s`'s next offer, under `id`: registered, live and not open, its offer at this await. */
  ghost predicate Negotiating(s: State, t: State, id: nat, stage: Stage) {
    var h := |s.w.conns|;
    && Inv(t)
    && h < |t.w.conns| && t.w.conns[h] == Conn(id, false, {}, false, false, false)
    && id in t.connections && t.connections[id] == h
    && h in t.w.offers && t.w.offers[h] == stage
    && id !in t.acceptTimeouts
    && t.w.log == s.w.log && t.w.responses == s.w.responses
  }

  lemma OfferIsTaken(s: State, id: nat, acceptTimeoutMs: int)
    requires Inv(s) && !s.closed && id !in s.connections
    ensures InScope(s)
    ensures Negotiating(s, Next(s, ReceiveOffer(id, true), acceptTimeoutMs), id, SettingRemote)
    ensures Next(s, ReceiveOffer(id, false), acceptTimeoutMs)
         == s.(w := s.w.(responses := s.w.responses + [Refusal(id, 4)]))
  {
    NextKeepsInv(s, ReceiveOffer(id, true), acceptTimeoutMs);
  }

  /** An offer for an id that is in use, or to a closed server, is ignored. */
  lemma OfferIsIgnored(s: State, id: nat, peerMade: bool, acceptTimeoutMs: int)
    requires Inv(s) && (s.closed || id in s.connections)
    ensures InScope(s) && Next(s, ReceiveOffer(id, peerMade), acceptTimeoutMs) == s
  {
    InvInScope(s);
  }

  /** The offer of `s` goes on by one await. */
  function GoOn(s: State): Step {
    OfferContinues(|s.w.conns|, true, Works)
  }

  lemma OfferGoesOn(s: State, t: State, id: nat, acceptTimeoutMs: int)
    requires Negotiating(s, t, id, SettingRemote) || Negotiating(s, t, id, CreatingAnswer)
    ensures InScope(t)
    ensures Negotiating(s, t, id, SettingRemote) ==>
              Negotiating(s, Next(t, GoOn(s), acceptTimeoutMs), id, CreatingAnswer)
    ensures Negotiating(s, t, id, CreatingAnswer) ==>
              Negotiating(s, Next(t, GoOn(s), acceptTimeoutMs), id, SettingLocal)
  {
    NextKeepsInv(t, GoOn(s), acceptTimeoutMs);
  }

  /** The answer was handed to `respond`, once, and a timer bounds what is to come, unless it is switched off. */
  ghost predicate Answered(s: State, t: State, id: nat, acceptTimeoutMs: int, c: Conn) {
    var h := |s.w.conns|;
    && Inv(t)
    && h < |t.w.conns| && t.w.conns[h] == c && c.address == id && !c.closed && c.answered && !c.announced
    && id in t.connections && t.connections[id] == h
    && (if acceptTimeoutMs > 0 then id in t.acceptTimeouts && t.acceptTimeouts[id] == h else id !in t.acceptTimeouts)
    && h !in t.w.offers
    && t.w.log == s.w.log && t.w.responses == s.w.responses + [Answer(h)]
  }

  lemma AnswerIsSent(s: State, t: State, id: nat, acceptTimeoutMs: int)
    requires Negotiating(s, t, id, SettingLocal)
    ensures InScope(t)
    ensures Answered(s, Next(t, GoOn(s), acceptTimeoutMs), id, acceptTimeoutMs, Conn(id, false, {}, false, false, true))
  {
    NextKeepsInv(t, GoOn(s), acceptTimeoutMs);
  }

  lemma PeerComes(s: State, t: State, id: nat, acceptTimeoutMs: int)
    requires Answered(s, t, id, acceptTimeoutMs, Conn(id, false, {}, false, false, true))
    ensures InScope(t)
    ensures Answered(s, Next(t, PeerConnects(|s.w.conns|), acceptTimeoutMs), id, acceptTimeoutMs,
                     Conn(id, false, {}, false, true, true))
  {
    var h, step := |s.w.conns|, PeerConnects(|s.w.conns|);
    NextKeepsInv(t, step, acceptTimeoutMs);
    ConnectionStepIs(t, step, acceptTimeoutMs);
    OpensWhenReady(t, h, t.w.conns[h].(connected := true));
  }

  lemma FirstChannelComes(s: State, t: State, id: nat, acceptTimeoutMs: int, kind: ChannelKind)
    requires Answered(s, t, id, acceptTimeoutMs, Conn(id, false, {}, false, true, true)) && !kind.Unexpected?
    ensures InScope(t)
    ensures Answered(s, Next(t, ChannelArrives(|s.w.conns|, kind, false), acceptTimeoutMs), id, acceptTimeoutMs,
                     Conn(id, false, {kind}, false, true, true))
  {
    var h, step := |s.w.conns|, ChannelArrives(|s.w.conns|, kind, false);
    NextKeepsInv(t, step, acceptTimeoutMs);
    ConnectionStepIs(t, step, acceptTimeoutMs);
    OpensWhenReady(t, h, t.w.conns[h].(channels := t.w.conns[h].channels + {kind}));
  }

  /** The connection is open: registered, announced once, and without a timer. */
  ghost predicate IsOpen(s: State, t: State, id: nat) {
    var h := |s.w.conns|;
    && Inv(t)
    && h < |t.w.conns| && t.w.conns[h].announced && !t.w.conns[h].closed && t.w.conns[h].address == id
    && id in t.connections && t.connections[id] == h && id !in t.acceptTimeouts
    && t.w.log == s.w.log + [OpenConnection(h)] && t.w.responses == s.w.responses + [Answer(h)]
  }

  lemma SecondChannelComes(s: State, t: State, id: nat, acceptTimeoutMs: int, first: ChannelKind, second: ChannelKind)
    requires Answered(s, t, id, acceptTimeoutMs, Conn(id, false, {first}, false, true, true))
    requires !first.Unexpected? && !second.Unexpected? && first != second
    ensures InScope(t)
    ensures IsOpen(s, Next(t, ChannelArrives(|s.w.conns|, second, false), acceptTimeoutMs), id)
  {
    var h, step := |s.w.conns|, ChannelArrives(|s.w.conns|, second, false);
    NextKeepsInv(t, step, acceptTimeoutMs);
    ConnectionStepIs(t, step, acceptTimeoutMs);
    OpensWhenReady(t, h, t.w.conns[h].(channels := t.w.conns[h].channels + {second}));
  }

  lemma {:induction false} RunAppend(s: State, a: seq<Step>, b: seq<Step>, acceptTimeoutMs: int)
    requires Inv(s)
    ensures Run(s, a + b, acceptTimeoutMs) == Run(Run(s, a, acceptTimeoutMs), b, acceptTimeoutMs)
    decreases |a|
  {
    if a == [] {
      Nothing(b);
    } else {
      RunStep(s, a, acceptTimeoutMs);
      RunStep(s, a + b, acceptTimeoutMs);
      RunAppend(Next(s, a[0], acceptTimeoutMs), a[1..], b, acceptTimeoutMs);
      TailOfAppend(a, b);
    }
  }

  lemma RunStep(s: State, steps: seq<Step>, acceptTimeoutMs: int)
    requires Inv(s) && steps != []
    ensures InScope(s) && Inv(Next(s, steps[0], acceptTimeoutMs))
    ensures Run(s, steps, acceptTimeoutMs) == Run(Next(s, steps[0], acceptTimeoutMs), steps[1..], acceptTimeoutMs)
  {
    NextKeepsInv(s, steps[0], acceptTimeoutMs);
  }

  lemma RunSnoc(s: State, steps: seq<Step>, step: Step, acceptTimeoutMs: int)
    requires Inv(s)
    ensures InScope(Run(s, steps, acceptTimeoutMs))
    ensures Run(s, steps + [step], acceptTimeoutMs) == Next(Run(s, steps, acceptTimeoutMs), step, acceptTimeoutMs)
  {
    var t := Run(s, steps, acceptTimeoutMs);
    RunAppend(s, steps, [step], acceptTimeoutMs);
    RunStep(t, [step], acceptTimeoutMs);
    assert Run(Next(t, step, acceptTimeoutMs), [step][1..], acceptTimeoutMs) == Next(t, step, acceptTimeoutMs);
  }

  /** The steps from an offer to the answer. */
  function Accepting(s: State, id: nat): seq<Step> {
    [] + [ReceiveOffer(id, true)] + [GoOn(s)] + [GoOn(s)] + [GoOn(s)]
  }

  /** Three awaits that succeed hand the answer to `respond`, once, and arm the accept timer. */
  lemma OfferIsAnswered(s: State, id: nat, acceptTimeoutMs: int)
    requires Inv(s) && !s.closed && id !in s.connections
    ensures Answered(s, Run(s, Accepting(s, id), acceptTimeoutMs), id, acceptTimeoutMs,
                     Conn(id, false, {}, false, false, true))
  {
    var offer := [] + [ReceiveOffer(id, true)];
    OfferIsTaken(s, id, acceptTimeoutMs);
    RunSnoc(s, [], ReceiveOffer(id, true), acceptTimeoutMs);
    OfferGoesOn(s, Run(s, offer, acceptTimeoutMs), id, acceptTimeoutMs);
    RunSnoc(s, offer, GoOn(s), acceptTimeoutMs);
    OfferGoesOn(s, Run(s, offer + [GoOn(s)], acceptTimeoutMs), id, acceptTimeoutMs);
    RunSnoc(s, offer + [GoOn(s)], GoOn(s), acceptTimeoutMs);
    AnswerIsSent(s, Run(s, offer + [GoOn(s)] + [GoOn(s)], acceptTimeoutMs), id, acceptTimeoutMs);
    RunSnoc(s, offer + [GoOn(s)] + [GoOn(s)], GoOn(s), acceptTimeoutMs);
  }

  /**
   From every state of an open server, an offer under a free id is answered and becomes an open connection once its peer
   has connected and both channels have arrived, in either order.
   */
  lemma OfferOpens(s: State, id: nat, acceptTimeoutMs: int, first: ChannelKind, second: ChannelKind)
    requires Inv(s) && !s.closed && id !in s.connections
    requires !first.Unexpected? && !second.Unexpected? && first != second
    ensures var h := |s.w.conns|;
            var steps := Accepting(s, id) + [PeerConnects(h)] + [ChannelArrives(h, first, false)]
                         + [ChannelArrives(h, second, false)];
            IsOpen(s, Run(s, steps, acceptTimeoutMs), id)
  {
    var h, steps := |s.w.conns|, Accepting(s, id);
    OfferIsAnswered(s, id, acceptTimeoutMs);
    PeerComes(s, Run(s, steps, acceptTimeoutMs), id, acceptTimeoutMs);
    RunSnoc(s, steps, PeerConnects(h), acceptTimeoutMs);
    var connected := steps + [PeerConnects(h)];
    FirstChannelComes(s, Run(s, connected, acceptTimeoutMs), id, acceptTimeoutMs, first);
    RunSnoc(s, connected, ChannelArrives(h, first, false), acceptTimeoutMs);
    var half := connected + [ChannelArrives(h, first, false)];
    SecondChannelComes(s, Run(s, half, acceptTimeoutMs), id, acceptTimeoutMs, first, second);
    RunSnoc(s, half, ChannelArrives(h, second, false), acceptTimeoutMs);
  }

  // ---------------------------------------------------------------------------------------------------------
  // What ends a live connection

  /** The connection has been closed and taken out of the table, and this was sent for it meanwhile. */
  ghost predicate EndsIt(s: State, t: State, h: Handle, sent: seq<Response>)
    requires h < |s.w.conns|
  {
    && h < |t.w.conns| && t.w.conns[h].closed && s.w.conns[h].address !in t.connections
    && t.w.log == s.w.log + [CloseConnectionEvent(h)]
    && t.w.responses == s.w.responses + sent
  }

  lemma CloseEndsIt(s: State, h: Handle)
    requires Inv(s) && h < |s.w.conns| && !s.w.conns[h].closed
    ensures EndsIt(s, Close(s, h), h, [])
  {
    assert IsRegistered(s, h);
    Nothing(s.w.responses);
  }

  /** A candidate is added to the connection registered under its id; without one nothing happens. */
  lemma CandidateIsAdded(s: State, id: nat, acceptTimeoutMs: int)
    requires Inv(s)
    ensures InScope(s)
    ensures Next(s, ReceiveCandidate(id), acceptTimeoutMs)
         == if id in s.connections
            then s.(w := s.w.(candidates := s.w.candidates + multiset{s.connections[id]})) else s
  {
    InvInScope(s);
  }

  /** A candidate that fails ends its live connection, which is told 8; one that was added changes nothing. */
  lemma FailedCandidateEnds(s: State, h: Handle, hasRespond: bool, acceptTimeoutMs: int)
    requires Inv(s) && h in s.w.candidates && !s.w.conns[h].closed
    ensures InScope(s)
    ensures EndsIt(s, Next(s, CandidateContinues(h, false, hasRespond), acceptTimeoutMs), h,
                   if hasRespond then [Failure(h, 8)] else [])
    ensures Next(s, CandidateContinues(h, true, hasRespond), acceptTimeoutMs)
         == s.(w := s.w.(candidates := s.w.candidates - multiset{h}))
  {
    InvInScope(s);
    var t := s.(w := s.w.(candidates := s.w.candidates - multiset{h}));
    CandidatesKeepInv(s, t.w.candidates);
    CloseEndsIt(t, h);
    Nothing(s.w.responses);
  }

  /** A channel that is unknown or there already is told 16 and ends its live connection, unless telling throws. */
  lemma RefusedChannelEnds(s: State, h: Handle, kind: ChannelKind, respondThrows: bool, acceptTimeoutMs: int)
    requires Inv(s) && h < |s.w.conns| && !s.w.conns[h].closed
    requires kind.Unexpected? || kind in s.w.conns[h].channels
    ensures InScope(s)
    ensures var t := Next(s, ChannelArrives(h, kind, respondThrows), acceptTimeoutMs);
            if respondThrows then t == s.(w := s.w.(responses := s.w.responses + [Failure(h, 16)]))
            else EndsIt(s, t, h, [Failure(h, 16)])
  {
    InvInScope(s);
    ConnectionStepIs(s, ChannelArrives(h, kind, respondThrows), acceptTimeoutMs);
    RespondKeepsInv(s, Failure(h, CONNECTION_IGNORED));
    CloseEndsIt(Responded(s, Failure(h, CONNECTION_IGNORED)), h);
    Nothing(s.w.responses + [Failure(h, 16)]);
  }

  /** A final state of the peer, a channel that closes, the application, or an error signal end it silently. */
  lemma ClosingEnds(s: State, h: Handle, acceptTimeoutMs: int)
    requires Inv(s) && h < |s.w.conns| && !s.w.conns[h].closed
    ensures InScope(s)
    ensures EndsIt(s, Next(s, ConnectionCloses(h), acceptTimeoutMs), h, [])
    ensures EndsIt(s, Next(s, ReceiveError(s.w.conns[h].address), acceptTimeoutMs), h, [])
  {
    InvInScope(s);
    CloseEndsIt(s, h);
    assert IsRegistered(s, h);
  }
}
