/** What every run of the client keeps, and what follows for attempts, events and timers. */
module ClientProofs {
  import opened Wrappers
  import opened ClientModel

  // ---------------------------------------------------------------------------------------------------------
  // The invariant

  /** Connection and peer are both absent or the same open pair, and a current pair is connecting or connected. */
  ghost predicate Paired(s: State) {
    && s.connection == s.rtcConnection
    && (s.connection.Some? ==>
          var p := s.connection.value;
          && p < |s.w.addressOf| && p !in s.w.closedConnections && p !in s.w.closedPeers
          && s.w.addressOf[p] == s.connectionId
          && !s.closed
          && (s.connecting <==> !s.hasEmittedConnected))
  }

  /** What the flags say about each other, and that only a real attempt has a timer. */
  ghost predicate Flags(s: State) {
    && (s.pendingConnect ==> s.connecting && s.connection.None?)
    && (s.connecting ==> s.attempted && !s.hasEmittedConnected && !s.closed)
    && (s.timer.Some? ==> s.connecting)
    && (s.connection.Some? ==> s.attempted)
    && (s.attempted || !s.hasEmittedConnected)
  }

  /** Every abort controller but the latest is aborted, and the latest is live only during an attempt. */
  ghost predicate Controllers(s: State) {
    && s.offerController == (if s.w.controllers == 0 then None else Some(s.w.controllers - 1))
    && (forall c: nat | c < s.w.controllers && c !in s.w.aborted :: c == s.w.controllers - 1 && s.connecting)
    && (forall c | c in s.w.aborted :: c < s.w.controllers)
  }

  function PeerOf(stage: Stage): Option<Peer> {
    match stage
    case LookingUp => None
    case Offering(p) => Some(p)
    case Describing(p) => Some(p)
    case Exchanging(p) => Some(p)
  }

  /** A live lookup belongs to an attempt without a connection; a current peer belongs to the latest offer. */
  ghost predicate Offers(s: State) {
    && (forall c | c in s.w.offers :: c < s.w.controllers)
    && (forall c | c in s.w.offers && s.w.offers[c].LookingUp? && c !in s.w.aborted ::
          s.connecting && s.connection.None? && !s.pendingConnect)
    && (forall c | c in s.w.offers && PeerOf(s.w.offers[c]).Some? ::
          && PeerOf(s.w.offers[c]).value < |s.w.addressOf|
          && (s.connection == PeerOf(s.w.offers[c]) ==> c == s.w.controllers - 1))
    && (forall call | call in s.w.calls :: call.peer < |s.w.addressOf|)
  }

  /** Nothing leaks: a peer that was ever created is current, or it and its connection have been closed. */
  ghost predicate NoLeak(s: State) {
    forall p: Peer | p < |s.w.addressOf| ::
      s.connection == Some(p) || (p in s.w.closedPeers && p in s.w.closedConnections)
  }

  ghost predicate Fresh(s: State) {
    forall p: Peer | p in s.w.closedPeers || p in s.w.closedConnections :: p < |s.w.addressOf|
  }

  ghost predicate Inv(s: State) {
    Paired(s) && Flags(s) && Controllers(s) && Offers(s) && NoLeak(s) && Fresh(s) && s.connectionId in s.w.usedIds
  }

  // ---------------------------------------------------------------------------------------------------------
  // How an attempt ends

  /** The one way an attempt or a connection ends: the pair is closed, the flags cleared, one disconnect emitted. */
  function Ended(s: State, reason: Reason): State {
    var pair := if s.connection.Some? then {s.connection.value} else {};
    s.(timer := None, pendingConnect := false, connecting := false, connection := None, rtcConnection := None,
       w := s.w.(aborted := Aborts(s),
                 closedConnections := s.w.closedConnections + pair, closedPeers := s.w.closedPeers + pair,
                 log := s.w.log + [Disconnect(s.connectionId, reason)]))
  }

  lemma FailEnds(s: State, named: bool, code: nat)
    requires Paired(s)
    ensures Fail(s, named, code) == SignalError(Ended(s, ConnectError(code)), named, code)
  {
    AbortsTwice(s);
    if s.connection.None? {
      NothingToClose(s);
    }
  }

  lemma CloseEnds(s: State, p: Peer, reason: Reason)
    requires Paired(s) && NoLeak(s) && p < |s.w.addressOf|
    ensures CloseConnection(s, p, reason) == if s.connection == Some(p) then Ended(s, reason) else s
  {
  }

  lemma AbortsTwice(s: State)
    ensures s.offerController.Some? ==> Aborts(s) + {s.offerController.value} == Aborts(s)
  {
  }

  lemma NothingToClose(s: State)
    ensures s.w.closedConnections + {} == s.w.closedConnections && s.w.closedPeers + {} == s.w.closedPeers
  {
  }

  lemma EndedKeepsInv(s: State, reason: Reason)
    requires Inv(s)
    ensures Inv(Ended(s, reason))
  {
  }

  lemma SentKeepsInv(s: State, signal: Outgoing)
    requires Inv(s)
    ensures Inv(Sent(s, signal))
  {
  }

  lemma FailKeepsInv(s: State, named: bool, code: nat)
    requires Inv(s)
    ensures Inv(Fail(s, named, code))
  {
    FailEnds(s, named, code);
    EndedKeepsInv(s, ConnectError(code));
    SentKeepsInv(Ended(s, ConnectError(code)), ErrorSignal(s.connectionId, code));
  }

  lemma ClearKeepsInv(s: State)
    requires Inv(s)
    ensures Inv(ClearTimeouts(s))
  {
  }

  lemma ArmKeepsInv(s: State, code: nat, timeoutMs: int)
    requires Inv(s) && s.connecting
    ensures Inv(ArmTimeout(s, code, timeoutMs))
  {
  }

  // ---------------------------------------------------------------------------------------------------------
  // Every step keeps the invariant

  lemma MakePeerKeepsInv(s: State, c: nat, making: Making)
    requires Inv(s) && s.connecting && s.connection.None? && !s.pendingConnect
    requires c < s.w.controllers && c == s.w.controllers - 1 && c !in s.w.offers
    requires forall d | d in s.w.offers && s.w.offers[d].LookingUp? :: d in s.w.aborted
    ensures Inv(MakePeer(s, c, making))
  {
    if making.PeerThrows? {
      FailKeepsInv(s, true, FAILED_TO_CREATE_PEER);
    }
  }

  lemma NewControllerKeepsInv(s: State)
    requires Inv(s) && s.connecting && s.connection.None?
    ensures Inv(NewController(s))
    ensures forall d | d in s.w.offers && s.w.offers[d].LookingUp? :: d in Aborts(s)
  {
  }

  lemma CreateOfferKeepsInv(cfg: Config, s: State, valid: bool, making: Making)
    requires Inv(s) && s.connecting && s.connection.None? && !s.pendingConnect
    ensures Inv(CreateOffer(cfg, s, valid, making))
  {
    var c := s.w.controllers;
    var t := NewController(s);
    NewControllerKeepsInv(s);
    if !valid {
      FailKeepsInv(t, true, FAILED_TO_CREATE_PEER);
    } else if !cfg.looksUpIceServers {
      MakePeerKeepsInv(t, c, making);
    }
  }

  lemma ConnectKeepsInv(cfg: Config, s: State, newId: nat, valid: bool, making: Making)
    requires Inv(s)
    ensures Inv(Connect(cfg, s, newId, valid, making))
  {
    if !s.closed && !s.connecting && s.connection.None? {
      var id := if s.attempted then newId else s.connectionId;
      var t := Started(s, id);
      assert Inv(t);
      ArmKeepsInv(t, WAITING_FOR_RESPONSE, cfg.responseTimeoutMs);
      var u := ArmTimeout(t, WAITING_FOR_RESPONSE, cfg.responseTimeoutMs);
      if u.externalSignaling || u.hasAddress {
        CreateOfferKeepsInv(cfg, u, valid, making);
      }
    }
  }

  lemma ResponseKeepsInv(cfg: Config, s: State, sender: nat, valid: bool, making: Making)
    requires Inv(s)
    ensures Inv(HandleResponse(cfg, s, sender, valid, making))
  {
    if !s.closed && s.pendingConnect && sender == cfg.serverNetworkId {
      var t := s.(hasAddress := true, pendingConnect := false);
      assert Inv(t);
      ArmKeepsInv(t, WAITING_FOR_RESPONSE, cfg.responseTimeoutMs);
      CreateOfferKeepsInv(cfg, ArmTimeout(t, WAITING_FOR_RESPONSE, cfg.responseTimeoutMs), valid, making);
    }
  }

  lemma AnswerKeepsInv(s: State, named: bool)
    requires Inv(s)
    ensures Inv(HandleAnswer(s, named))
  {
    ClearKeepsInv(s);
    FailKeepsInv(ClearTimeouts(s), named, FAILED_TO_SET_REMOTE);
  }

  /** Closing the client is the end of its connection, if it has one, and for good. */
  lemma CloseIs(s: State, why: string)
    requires Inv(s) && !s.closed
    ensures Close(s, why) ==
            if s.connection.Some? then Ended(s, Other(why)).(closed := true)
            else ClearTimeouts(s).(closed := true, pendingConnect := false, connecting := false)
  {
    AbortsTwice(s);
  }

  lemma CloseKeepsInv(s: State, why: string)
    requires Inv(s)
    ensures Inv(Close(s, why))
  {
    if !s.closed {
      CloseIs(s, why);
      EndedKeepsInv(s, Other(why));
      ClearKeepsInv(s);
    }
  }

  lemma SignalKeepsInv(cfg: Config, s: State, signal: Signal)
    requires Inv(s)
    ensures Inv(HandleSignal(cfg, s, signal))
  {
    if !s.closed && IsExpected(cfg, s.connectionId, signal) {
      match signal.kind
      case ConnectResponse => AnswerKeepsInv(s, signal.networkId.Some?);
      case CandidateAdd =>
      case ConnectErrorSignal(data) =>
        if s.connection.Some? {
          ClosingKeepsInv(s, s.connection.value, RemoteError(data));
        }
      case _ =>
    }
  }

  lemma DropOfferKeepsInv(s: State, c: nat)
    requires Inv(s)
    ensures Inv(Dropped(s, c))
  {
  }

  lemma DropCallKeepsInv(s: State, call: Call)
    requires Inv(s)
    ensures Inv(Settled(s, call))
  {
  }

  lemma LookupKeepsInv(s: State, c: nat, outcome: Outcome, making: Making)
    requires Inv(s) && c in s.w.offers && s.w.offers[c].LookingUp?
    ensures Inv(AfterLookup(s, c, outcome, making))
  {
    DropOfferKeepsInv(s, c);
    if c !in s.w.aborted && !s.closed {
      if outcome.Throws? {
        FailKeepsInv(Dropped(s, c), true, FAILED_TO_CREATE_PEER);
      } else {
        MakePeerKeepsInv(Dropped(s, c), c, making);
      }
    }
  }

  lemma NextStageKeepsInv(s: State, c: nat, p: Peer, stage: Stage)
    requires Inv(s) && c < s.w.controllers && PeerOf(stage) == Some(p)
    requires c in s.w.offers && PeerOf(s.w.offers[c]) == Some(p)
    ensures Inv(Suspended(Dropped(s, c), c, stage))
  {
  }

  lemma LocalKeepsInv(cfg: Config, s: State, c: nat, p: Peer, outcome: Outcome)
    requires Inv(s) && c in s.w.offers && s.w.offers[c] == Describing(p)
    ensures Inv(AfterLocal(cfg, s, c, p, outcome))
  {
    DropOfferKeepsInv(s, c);
    if outcome.Throws? {
      FailKeepsInv(Dropped(s, c), true, FAILED_TO_SET_LOCAL);
    } else if cfg.http {
      NextStageKeepsInv(s, c, p, Exchanging(p));
    } else {
      SendOfferKeepsInv(Dropped(s, c), outcome);
    }
  }

  lemma SendOfferKeepsInv(s: State, outcome: Outcome)
    requires Inv(s)
    ensures Inv(SendOffer(s, outcome))
  {
    FailKeepsInv(s, true, SIGNALING_FAILED);
    SentKeepsInv(s, Request(s.connectionId));
    FailKeepsInv(Sent(s, Request(s.connectionId)), true, SIGNALING_FAILED);
  }

  lemma OfferKeepsInv(s: State, c: nat, p: Peer, outcome: Outcome)
    requires Inv(s) && c in s.w.offers && s.w.offers[c] == Offering(p)
    ensures Inv(AfterOffer(s, c, p, outcome))
  {
    DropOfferKeepsInv(s, c);
    if outcome.Throws? {
      FailKeepsInv(Dropped(s, c), true, FAILED_TO_CREATE_OFFER);
    } else {
      NextStageKeepsInv(s, c, p, Describing(p));
    }
  }

  lemma ExchangeKeepsInv(s: State, c: nat, p: Peer, outcome: Outcome)
    requires Inv(s)
    ensures Inv(AfterExchange(s, c, p, outcome))
  {
    DropOfferKeepsInv(s, c);
    if outcome.Throws? {
      CloseKeepsInv(Dropped(s, c), "HTTP signalling failed");
    } else {
      AnswerKeepsInv(Dropped(s, c), true);
    }
  }

  lemma ResumeOfferKeepsInv(cfg: Config, s: State, c: nat, outcome: Outcome, making: Making)
    requires Inv(s) && c in s.w.offers
    ensures Inv(ResumeOffer(cfg, s, c, outcome, making))
  {
    match s.w.offers[c]
    case LookingUp => LookupKeepsInv(s, c, outcome, making);
    case Offering(p) => OfferKeepsInv(s, c, p, outcome);
    case Describing(p) => LocalKeepsInv(cfg, s, c, p, outcome);
    case Exchanging(p) => ExchangeKeepsInv(s, c, p, outcome);
  }

  lemma ResumeCallKeepsInv(cfg: Config, s: State, call: Call, ok: bool)
    requires Inv(s) && call in s.w.calls
    ensures Inv(ResumeCall(cfg, s, call, ok))
  {
    var t := Settled(s, call);
    DropCallKeepsInv(s, call);
    if !s.closed && s.rtcConnection == Some(call.peer) {
      if !ok {
        FailKeepsInv(t, call.named, if call.Answering? then FAILED_TO_SET_REMOTE else CANDIDATE_ADD);
      } else if !s.hasEmittedConnected {
        ArmKeepsInv(t, INACTIVITY_TIMEOUT, cfg.inactivityTimeoutMs);
      }
    }
  }

  lemma PeerConnectedKeepsInv(s: State, p: Peer)
    requires Inv(s) && p < |s.w.addressOf|
    ensures Inv(PeerConnected(s, p))
  {
  }

  lemma ClosingKeepsInv(s: State, p: Peer, reason: Reason)
    requires Inv(s) && p < |s.w.addressOf|
    ensures Inv(CloseConnection(s, p, reason))
  {
    CloseEnds(s, p, reason);
    EndedKeepsInv(s, reason);
  }

  lemma NextKeepsInv(cfg: Config, s: State, step: Step)
    requires Inv(s)
    ensures Inv(Next(cfg, s, step))
  {
    match step
    case CallConnect(newId, valid, making) => ConnectKeepsInv(cfg, s, newId, valid, making);
    case CallClose(why) => CloseKeepsInv(s, why);
    case SetSignalHandler =>
    case ReceiveResponse(sender, valid, making) => ResponseKeepsInv(cfg, s, sender, valid, making);
    case ReceiveSignal(signal) => SignalKeepsInv(cfg, s, signal);
    case OfferContinues(c, outcome, making) =>
      if c in s.w.offers { ResumeOfferKeepsInv(cfg, s, c, outcome, making); }
    case CallContinues(call, ok) => if call in s.w.calls { ResumeCallKeepsInv(cfg, s, call, ok); }
    case PeerGathers(p) => SentKeepsInv(s, LocalCandidate(s.connectionId));
    case PeerConnects(p) => if p < |s.w.addressOf| { PeerConnectedKeepsInv(s, p); }
    case PeerFails(p) => if p < |s.w.addressOf| { ClosingKeepsInv(s, p, Disconnected); }
    case ConnectionCloses(p, reason) => if p < |s.w.addressOf| { ClosingKeepsInv(s, p, reason); }
    case TimerFires => if s.timer.Some? { FailKeepsInv(s, true, s.timer.value); }
  }

  lemma InitialInv(cfg: Config, connectionId: nat)
    ensures Inv(Initial(cfg, connectionId))
  {
  }

  ghost function Run(cfg: Config, s: State, steps: seq<Step>): (t: State)
    requires Inv(s)
    ensures Inv(t)
    decreases |steps|
  {
    if steps == [] then s
    else
      NextKeepsInv(cfg, s, steps[0]);
      Run(cfg, Next(cfg, s, steps[0]), steps[1..])
  }

  // ---------------------------------------------------------------------------------------------------------
  // Superseded work is inert

  /** An offer that is not the latest, a lookup that was aborted, or an offer whose peer is gone only disappears. */
  lemma SupersededOfferIsInert(cfg: Config, s: State, c: nat, outcome: Outcome, making: Making)
    requires Inv(s) && c in s.w.offers
    requires || c < s.w.controllers - 1
             || (if s.w.offers[c].LookingUp? then c in s.w.aborted else s.connection != PeerOf(s.w.offers[c]))
    ensures Next(cfg, s, OfferContinues(c, outcome, making)) == Dropped(s, c)
  {
  }

  /** So does an answer or a candidate for a peer that has been replaced or closed. */
  lemma SupersededCallIsInert(cfg: Config, s: State, call: Call, ok: bool)
    requires Inv(s) && call in s.w.calls && s.connection != Some(call.peer)
    ensures Next(cfg, s, CallContinues(call, ok)) == Settled(s, call)
  {
  }

  /** Nothing that happens to an old peer is heard. */
  lemma OldPeerIsInert(cfg: Config, s: State, p: Peer, reason: Reason)
    requires Inv(s) && s.connection != Some(p)
    ensures Next(cfg, s, PeerGathers(p)) == s
    ensures Next(cfg, s, PeerConnects(p)) == s
    ensures Next(cfg, s, PeerFails(p)) == s
    ensures Next(cfg, s, ConnectionCloses(p, reason)) == s
  {
  }
}
