/**
 The negotiation of `src/client.js` as functions on a state. One run of synchronous code is one function; every call
 suspended at an await is a record (`offers`, `calls`) that a later step resumes, in any order.
 */
module ClientModel {
  import opened Wrappers

  /** Peers are numbered as they are created; the Connection made for a peer goes by the same number. */
  type Peer = nat

  const CANDIDATE_ADD := 8
  const INACTIVITY_TIMEOUT := 9
  const FAILED_TO_CREATE_PEER := 4
  const FAILED_TO_CREATE_OFFER := 10
  const FAILED_TO_SET_LOCAL := 12
  const FAILED_TO_SET_REMOTE := 13
  const WAITING_FOR_RESPONSE := 14
  const SIGNALING_FAILED := 26

  datatype Reason = ConnectError(code: nat) | RemoteError(data: string) | Disconnected | Other(reason: string)

  /** What listeners see, with a mark where `connect` starts an attempt. */
  datatype Event = Attempt(id: nat) | Connected(id: nat) | Disconnect(id: nat, reason: Reason)

  /** A signal handed to the signal handler, which may throw all the same; it is addressed to the server. */
  datatype Outgoing =
    | Request(id: nat)                  // CONNECTREQUEST
    | LocalCandidate(id: nat)           // CANDIDATEADD of the client's own peer
    | ErrorSignal(id: nat, code: nat)   // CONNECTERROR

  /** The await a `createOffer` call is suspended at. */
  datatype Stage =
    | LookingUp                // resolveIceServers
    | Offering(peer: Peer)     // createOffer of the peer
    | Describing(peer: Peer)   // setLocalDescription
    | Exchanging(peer: Peer)   // exchangeOffer over HTTP

  /**
   A suspended `handleAnswer` or `handleCandidate` call, with the peer it captured, and whether its signal named the
   server's network: if it did not, a failure is not signalled.
   */
  datatype Call = Answering(peer: Peer, named: bool) | AddingCandidate(peer: Peer, named: bool)

  datatype Config = Config(
    responseTimeoutMs: int,
    inactivityTimeoutMs: int,
    http: bool,
    looksUpIceServers: bool,  // the backend has resolveIceServers
    serverNetworkId: nat)

  datatype State = State(
    closed: bool,
    connecting: bool,
    attempted: bool,
    pendingConnect: bool,
    hasEmittedConnected: bool,
    externalSignaling: bool,
    hasAddress: bool,                 // addresses.has(serverNetworkId)
    connectionId: nat,
    connection: Option<Peer>,
    rtcConnection: Option<Peer>,
    offerController: Option<nat>,
    timer: Option<nat>,               // the negotiation timer and its error code
    w: World)

  /** What the client has created, suspended, emitted and sent so far. */
  datatype World = World(
    controllers: nat,                 // abort controllers created
    aborted: set<nat>,
    addressOf: seq<nat>,              // Connection.address of every peer created
    closedConnections: set<Peer>,
    closedPeers: set<Peer>,
    offers: map<nat, Stage>,          // suspended createOffer calls, by their controller
    calls: multiset<Call>,
    usedIds: set<nat>,
    log: seq<Event>,
    sent: seq<Outgoing>,
    armed: nat)                       // how often a negotiation timer was set

  predicate IsCurrent(s: State, p: Peer) {
    !s.closed && s.connection == Some(p) && p !in s.w.closedConnections
  }

  /** The peer handles in the fields are of peers that exist. */
  predicate Scoped(s: State) {
    s.connection.Some? ==> s.connection.value < |s.w.addressOf|
  }

  // ---------------------------------------------------------------------------------------------------------
  // Helpers of the class

  /** `_offerController?.abort()` */
  function Aborts(s: State): set<nat> {
    if s.offerController.Some? then s.w.aborted + {s.offerController.value} else s.w.aborted
  }

  function ClearTimeouts(s: State): State {
    s.(w := s.w.(aborted := Aborts(s)), timer := None)
  }

  function ArmTimeout(s: State, code: nat, timeoutMs: int): State {
    if timeoutMs <= 0 then ClearTimeouts(s)
    else s.(w := s.w.(aborted := Aborts(s), armed := s.w.armed + 1), timer := Some(code))
  }

  function Sent(s: State, signal: Outgoing): State {
    s.(w := s.w.(sent := s.w.sent + [signal]))
  }

  /** `signalError`, which sends nothing without a network to send to. */
  function SignalError(s: State, named: bool, code: nat): State {
    if named then Sent(s, ErrorSignal(s.connectionId, code)) else s
  }

  /** The connection's owner learns that it has closed. */
  function HandleConnectionClosed(s: State, p: Peer, reason: Reason): State
    requires p < |s.w.addressOf|
  {
    if s.connection != Some(p) then s
    else
      s.(timer := None, connecting := false, pendingConnect := false, connection := None,
         rtcConnection := if s.rtcConnection == Some(p) then None else s.rtcConnection,
         w := s.w.(aborted := Aborts(s), log := s.w.log + [Disconnect(s.w.addressOf[p], reason)]))
  }

  /** `Connection.close`; the events the peer and its channels fire meanwhile find the connection closed. */
  function CloseConnection(s: State, p: Peer, reason: Reason): State
    requires p < |s.w.addressOf|
  {
    if p in s.w.closedConnections then s
    else
      var t := s.(w := s.w.(closedConnections := s.w.closedConnections + {p}, closedPeers := s.w.closedPeers + {p}));
      HandleConnectionClosed(t, p, reason)
  }

  function Fail(s: State, named: bool, code: nat): State
    requires Scoped(s)
  {
    EndFailed(SignalError(ClearTimeouts(s).(pendingConnect := false, connecting := false), named, code), code)
  }

  /** A connection is closed, which tells its owner; a peer without one is closed and the owner told here. */
  function EndFailed(s: State, code: nat): State
    requires Scoped(s)
  {
    if s.connection.Some? then CloseConnection(s, s.connection.value, ConnectError(code))
    else
      s.(rtcConnection := None,
         w := s.w.(closedPeers := if s.rtcConnection.Some? then s.w.closedPeers + {s.rtcConnection.value}
                                  else s.w.closedPeers,
                   log := s.w.log + [Disconnect(s.connectionId, ConnectError(code))]))
  }

  /** The suspended call is resumed, so its record goes. */
  function Dropped(s: State, controller: nat): State {
    s.(w := s.w.(offers := s.w.offers - {controller}))
  }

  function Suspended(s: State, controller: nat, stage: Stage): State {
    s.(w := s.w.(offers := s.w.offers[controller := stage]))
  }

  /** What the environment does when a peer connection is made: the constructor or createDataChannel may throw. */
  datatype Making = PeerThrows | ChannelsThrow | Made

  function MakePeer(s: State, controller: nat, making: Making): State
    requires Scoped(s)
  {
    if making.PeerThrows? then Fail(s, true, FAILED_TO_CREATE_PEER)
    else
      var p := |s.w.addressOf|;
      var t := s.(rtcConnection := Some(p), connection := Some(p),
                  w := s.w.(addressOf := s.w.addressOf + [s.connectionId]));
      if making.ChannelsThrow? then t else Suspended(t, controller, Offering(p))
  }

  function NewController(s: State): State {
    s.(offerController := Some(s.w.controllers),
       w := s.w.(aborted := Aborts(s), controllers := s.w.controllers + 1))
  }

  /** `createOffer` up to its first await. `valid`: the ICE servers pass validation. */
  function CreateOffer(cfg: Config, s: State, valid: bool, making: Making): State
    requires Scoped(s)
  {
    if s.closed then s
    else
      var c := s.w.controllers;
      var t := NewController(s);
      if !valid then Fail(t, true, FAILED_TO_CREATE_PEER)
      else if cfg.looksUpIceServers then Suspended(t, c, LookingUp)
      else MakePeer(t, c, making)
  }

  /** A call is suspended, and resumed. */
  function Called(s: State, call: Call): State {
    s.(w := s.w.(calls := s.w.calls + multiset{call}))
  }

  function Settled(s: State, call: Call): State {
    s.(w := s.w.(calls := s.w.calls - multiset{call}))
  }

  function HandleAnswer(s: State, named: bool): State
    requires Scoped(s)
  {
    var t := ClearTimeouts(s);
    if s.rtcConnection.Some? then Called(t, Answering(s.rtcConnection.value, named))
    // null.setRemoteDescription throws, and the peer is still the null that was captured
    else if s.closed then t
    else Fail(t, named, FAILED_TO_SET_REMOTE)
  }

  function HandleCandidate(s: State, named: bool): State {
    if s.rtcConnection.None? then s
    else Called(s, AddingCandidate(s.rtcConnection.value, named))
  }

  /** The flags and the timer of a client that is being closed. */
  function Shut(s: State): State {
    s.(closed := true, pendingConnect := false, connecting := false, timer := None,
       w := s.w.(aborted := Aborts(s)))
  }

  function Close(s: State, reason: string): State
    requires Scoped(s)
  {
    if s.closed then s
    else
      var t := Shut(s);
      var u := if t.connection.Some? then CloseConnection(t, t.connection.value, Other(reason)) else t;
      u.(connection := None, rtcConnection := None)
  }

  // ---------------------------------------------------------------------------------------------------------
  // Entry points

  /** A new attempt has begun. */
  function Started(s: State, id: nat): State {
    s.(connectionId := id, attempted := true, connecting := true, hasEmittedConnected := false,
       w := s.w.(usedIds := s.w.usedIds + {id}, log := s.w.log + [Attempt(id)]))
  }

  function Connect(cfg: Config, s: State, newId: nat, valid: bool, making: Making): State
    requires Scoped(s)
  {
    if s.closed || s.connecting || s.connection.Some? then s
    else
      var id := if s.attempted then newId else s.connectionId;
      var t := ArmTimeout(Started(s, id), WAITING_FOR_RESPONSE, cfg.responseTimeoutMs);
      if t.externalSignaling || t.hasAddress then CreateOffer(cfg, t, valid, making) else t.(pendingConnect := true)
  }

  /** A pending attempt has found the server. */
  function Discovered(cfg: Config, s: State): State {
    ArmTimeout(s.(pendingConnect := false), WAITING_FOR_RESPONSE, cfg.responseTimeoutMs)
  }

  function HandleResponse(cfg: Config, s: State, sender: nat, valid: bool, making: Making): State
    requires Scoped(s)
  {
    if s.closed then s
    else
      var t := if sender == cfg.serverNetworkId then s.(hasAddress := true) else s;
      if t.pendingConnect && sender == cfg.serverNetworkId then CreateOffer(cfg, Discovered(cfg, t), valid, making)
      else t
  }

  datatype SignalKind = ConnectRequest | ConnectResponse | CandidateAdd | ConnectErrorSignal(data: string) | Unknown

  datatype Signal = Signal(kind: SignalKind, connectionId: nat, networkId: Option<nat>)

  predicate IsExpected(cfg: Config, connectionId: nat, signal: Signal) {
    signal.connectionId == connectionId
    && (signal.networkId.Some? ==> signal.networkId.value == cfg.serverNetworkId)
  }

  function HandleSignal(cfg: Config, s: State, signal: Signal): State
    requires Scoped(s)
  {
    if s.closed || !IsExpected(cfg, s.connectionId, signal) then s
    else
      match signal.kind
      case ConnectResponse => HandleAnswer(s, signal.networkId.Some?)
      case CandidateAdd => HandleCandidate(s, signal.networkId.Some?)
      case ConnectErrorSignal(data) =>
        if s.connection.Some? then CloseConnection(s, s.connection.value, RemoteError(data)) else s
      case _ => s
  }

  /**
   How an awaited operation settles, and what happens to the offer behind it: attaching the identity fails, so that
   nothing is sent, or the signal handler throws.
   */
  datatype Outcome = Succeeds | Throws | IdentityThrows | SignalThrows

  /** `createOffer` continues after `resolveIceServers`. */
  function AfterLookup(s: State, controller: nat, outcome: Outcome, making: Making): State
    requires Scoped(s)
  {
    var t := Dropped(s, controller);
    if controller in s.w.aborted || s.closed then t
    else if outcome.Throws? then Fail(t, true, FAILED_TO_CREATE_PEER)
    else MakePeer(t, controller, making)
  }

  /** ... after the peer's `createOffer`. */
  function AfterOffer(s: State, controller: nat, p: Peer, outcome: Outcome): State
    requires Scoped(s)
  {
    var t := Dropped(s, controller);
    if !IsCurrent(s, p) then t
    else if outcome.Throws? then Fail(t, true, FAILED_TO_CREATE_OFFER)
    else Suspended(t, controller, Describing(p))
  }

  /** ... after `setLocalDescription`: over to HTTP, or the offer is signed and signalled. */
  function AfterLocal(cfg: Config, s: State, controller: nat, p: Peer, outcome: Outcome): State
    requires Scoped(s)
  {
    var t := Dropped(s, controller);
    if !IsCurrent(s, p) then t
    else if outcome.Throws? then Fail(t, true, FAILED_TO_SET_LOCAL)
    else if cfg.http then Suspended(t, controller, Exchanging(p))
    else SendOffer(t, outcome)
  }

  function SendOffer(s: State, outcome: Outcome): State
    requires Scoped(s)
  {
    if outcome.IdentityThrows? then Fail(s, true, SIGNALING_FAILED)
    else
      var t := Sent(s, Request(s.connectionId));
      if outcome.SignalThrows? then Fail(t, true, SIGNALING_FAILED) else t
  }

  /** ... after `exchangeOffer`. */
  function AfterExchange(s: State, controller: nat, p: Peer, outcome: Outcome): State
    requires Scoped(s)
  {
    var t := Dropped(s, controller);
    if !IsCurrent(s, p) then t
    else if !outcome.Throws? then HandleAnswer(t, true)
    else if controller in s.w.aborted then t
    else Close(t, "HTTP signalling failed")
  }

  function ResumeOffer(cfg: Config, s: State, controller: nat, outcome: Outcome, making: Making): State
    requires controller in s.w.offers
    requires Scoped(s)
  {
    match s.w.offers[controller]
    case LookingUp => AfterLookup(s, controller, outcome, making)
    case Offering(p) => AfterOffer(s, controller, p, outcome)
    case Describing(p) => AfterLocal(cfg, s, controller, p, outcome)
    case Exchanging(p) => AfterExchange(s, controller, p, outcome)
  }

  /** A `handleAnswer` or `handleCandidate` call continues after its await. */
  function ResumeCall(cfg: Config, s: State, call: Call, ok: bool): State
    requires call in s.w.calls
    requires Scoped(s)
  {
    var t := Settled(s, call);
    if s.closed || s.rtcConnection != Some(call.peer) then t
    else
      match call
      case Answering(_, named) =>
        if !ok then Fail(t, named, FAILED_TO_SET_REMOTE)
        else if !s.hasEmittedConnected then ArmTimeout(t, INACTIVITY_TIMEOUT, cfg.inactivityTimeoutMs)
        else t
      case AddingCandidate(_, named) => if ok then t else Fail(t, named, CANDIDATE_ADD)
  }

  /** The peer reports that it is connected. */
  function PeerConnected(s: State, p: Peer): State
    requires p < |s.w.addressOf|
  {
    if !IsCurrent(s, p) || s.hasEmittedConnected then s
    else
      s.(hasEmittedConnected := true, connecting := false, timer := None,
         w := s.w.(aborted := Aborts(s), log := s.w.log + [Connected(s.w.addressOf[p])]))
  }

  function FireTimer(s: State): State
    requires Scoped(s)
  {
    if s.timer.None? then s else Fail(s, true, s.timer.value)
  }

  /** The peer has gathered a candidate, which goes to the server unless HTTP carries the signals. */
  function PeerGathered(cfg: Config, s: State, p: Peer): State {
    if !cfg.http && IsCurrent(s, p) then Sent(s, LocalCandidate(s.connectionId)) else s
  }

  // ---------------------------------------------------------------------------------------------------------
  // Runs

  datatype Step =
    | CallConnect(newId: nat, valid: bool, making: Making)
    | CallClose(why: string)
    | SetSignalHandler
    | ReceiveResponse(sender: nat, valid: bool, making: Making)
    | ReceiveSignal(signal: Signal)
    | OfferContinues(controller: nat, outcome: Outcome, making: Making)
    | CallContinues(call: Call, ok: bool)
    | PeerGathers(peer: Peer)
    | PeerConnects(peer: Peer)
    | PeerFails(peer: Peer)                        // connection or ICE state: only heeded while current
    | ConnectionCloses(peer: Peer, reason: Reason) // channel onclose or onerror, or the application
    | TimerFires

  /** A step that is not enabled changes nothing. Ids from `getRandomUint64` are assumed fresh. */
  function Next(cfg: Config, s: State, step: Step): State
    requires Scoped(s)
  {
    match step
    case CallConnect(newId, valid, making) =>
      if s.attempted && newId in s.w.usedIds then s else Connect(cfg, s, newId, valid, making)
    case CallClose(why) => Close(s, why)
    case SetSignalHandler => s.(externalSignaling := true)
    case ReceiveResponse(sender, valid, making) => HandleResponse(cfg, s, sender, valid, making)
    case ReceiveSignal(signal) => HandleSignal(cfg, s, signal)
    case OfferContinues(c, outcome, making) =>
      if c in s.w.offers then ResumeOffer(cfg, s, c, outcome, making) else s
    case CallContinues(call, ok) => if call in s.w.calls then ResumeCall(cfg, s, call, ok) else s
    case PeerGathers(p) => PeerGathered(cfg, s, p)
    case PeerConnects(p) => if p < |s.w.addressOf| then PeerConnected(s, p) else s
    case PeerFails(p) =>
      if p < |s.w.addressOf| && IsCurrent(s, p) then CloseConnection(s, p, Disconnected) else s
    case ConnectionCloses(p, reason) => if p < |s.w.addressOf| then CloseConnection(s, p, reason) else s
    case TimerFires => FireTimer(s)
  }

  /** A new client: options may give it a connection id, and HTTP counts as external signalling. */
  function Initial(cfg: Config, connectionId: nat): State {
    State(false, false, false, false, false, cfg.http, false, connectionId, None, None, None, None,
          World(0, {}, [], {}, {}, map[], multiset{}, {connectionId}, [], [], 0))
  }
}
