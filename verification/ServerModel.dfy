/**
 The connection table of `src/server.js` as functions on a state. One run of synchronous code is one function; a
 suspended `handleOffer` or `handleCandidate` call is a record (`offers`, `candidates`) that a later step resumes.
 */
module ServerModel {
  /** Connection objects are numbered as `handleOffer` creates them. */
  type Handle = nat

  const CANDIDATE_ADD := 8
  const FAILED_TO_CREATE_PEER := 4
  const FAILED_TO_CREATE_ANSWER := 11
  const FAILED_TO_SET_LOCAL := 12
  const FAILED_TO_SET_REMOTE := 13
  const WAITING_FOR_ACCEPT := 15
  const CONNECTION_IGNORED := 16
  const SIGNALING_FAILED := 26

  datatype ChannelKind = Reliable | Unreliable | Unexpected

  /** The await a `handleOffer` call is suspended at. */
  datatype Stage = SettingRemote | CreatingAnswer | SettingLocal

  /**
   A connection object with its peer: `channels` and `announced` are the closure's `registeredChannels` and
   `hasEmittedOpen`; `connected` is whether the peer's state reads 'connected'; `answered` records that the answer
   was handed to `respond`.
   */
  datatype Conn = Conn(
    address: nat,
    closed: bool,
    channels: set<ChannelKind>,
    announced: bool,
    connected: bool,
    answered: bool)

  datatype Event = OpenConnection(conn: Handle) | CloseConnectionEvent(conn: Handle)

  /** A signal handed to `respond`, which may throw all the same. */
  datatype Response =
    | Answer(conn: Handle)               // CONNECTRESPONSE
    | Failure(conn: Handle, code: nat)   // CONNECTERROR
    | LocalCandidate(conn: Handle)       // CANDIDATEADD
    | Refusal(id: nat, code: nat)        // CONNECTERROR for an offer that got no connection

  /** What the server has created, suspended, emitted and handed to `respond` so far. */
  datatype World = World(
    conns: seq<Conn>,
    offers: map<Handle, Stage>,
    candidates: multiset<Handle>,
    log: seq<Event>,
    responses: seq<Response>)

  datatype State = State(
    closed: bool,
    connections: map<nat, Handle>,
    acceptTimeouts: map<nat, Handle>,  // an armed timer per connection id, with the connection it closes over
    w: World)

  const INITIAL := State(false, map[], map[], World([], map[], multiset{}, [], []))

  function Updated(s: State, h: Handle, c: Conn): State
    requires h < |s.w.conns|
  {
    s.(w := s.w.(conns := s.w.conns[h := c]))
  }

  function Responded(s: State, r: Response): State {
    s.(w := s.w.(responses := s.w.responses + [r]))
  }

  // ---------------------------------------------------------------------------------------------------------
  // Connections

  predicate IsRegistered(s: State, h: Handle)
    requires h < |s.w.conns|
  {
    var id := s.w.conns[h].address;
    id in s.connections && s.connections[id] == h
  }

  function HandleConnectionClosed(s: State, h: Handle): State
    requires h < |s.w.conns|
  {
    if !IsRegistered(s, h) then s
    else
      var id := s.w.conns[h].address;
      s.(acceptTimeouts := s.acceptTimeouts - {id}, connections := s.connections - {id},
         w := s.w.(log := s.w.log + [CloseConnectionEvent(h)]))
  }

  /** `Connection.close`. A closed peer no longer reads 'connected'. */
  function Close(s: State, h: Handle): State
    requires h < |s.w.conns|
  {
    var c := s.w.conns[h];
    if c.closed then s else HandleConnectionClosed(Updated(s, h, c.(closed := true, connected := false)), h)
  }

  function EmitOpen(s: State, h: Handle): State
    requires h < |s.w.conns|
  {
    var c := s.w.conns[h];
    if c.announced || |c.channels| != 2 || !c.connected then s
    else
      s.(acceptTimeouts := s.acceptTimeouts - {c.address},
         w := s.w.(conns := s.w.conns[h := c.(announced := true)], log := s.w.log + [OpenConnection(h)]))
  }

  function ArmAcceptTimeout(s: State, h: Handle, acceptTimeoutMs: int): State
    requires h < |s.w.conns|
  {
    var id := s.w.conns[h].address;
    s.(acceptTimeouts := if acceptTimeoutMs <= 0 then s.acceptTimeouts - {id} else s.acceptTimeouts[id := h])
  }

  // ---------------------------------------------------------------------------------------------------------
  // Entry points

  /** What the `respond` callback does when it is called once or twice in the same run of code. */
  datatype Respond = Works | ThrowsOnce | ThrowsAlways

  function HandleOffer(s: State, id: nat, peerMade: bool): State {
    if s.closed || id in s.connections then s
    else if !peerMade then Responded(s, Refusal(id, FAILED_TO_CREATE_PEER))
    else
      var h := |s.w.conns|;
      s.(connections := s.connections[id := h],
         w := s.w.(conns := s.w.conns + [Conn(id, false, {}, false, false, false)],
                   offers := s.w.offers[h := SettingRemote]))
  }

  function Dropped(s: State, h: Handle): State {
    s.(w := s.w.(offers := s.w.offers - {h}))
  }

  function Suspended(s: State, h: Handle, stage: Stage): State {
    s.(w := s.w.(offers := s.w.offers[h := stage]))
  }

  /** A step of `handleOffer` failed: the peer is told, then the connection closed. A throw skips the close. */
  function GiveUp(s: State, h: Handle, code: nat, respondThrows: bool): State
    requires h < |s.w.conns|
  {
    var t := Responded(s, Failure(h, code));
    if respondThrows then t else Close(t, h)
  }

  /** The error reported when an await throws. */
  function StageError(stage: Stage): nat {
    match stage
    case SettingRemote => FAILED_TO_SET_REMOTE
    case CreatingAnswer => FAILED_TO_CREATE_ANSWER
    case SettingLocal => FAILED_TO_SET_LOCAL
  }

  /** The answer is handed to `respond`. */
  function SendAnswer(s: State, h: Handle, respond: Respond, acceptTimeoutMs: int): State
    requires h < |s.w.conns|
  {
    var t := Responded(s, Answer(h));
    if respond.Works? then ArmAcceptTimeout(Updated(t, h, s.w.conns[h].(answered := true)), h, acceptTimeoutMs)
    else GiveUp(t, h, SIGNALING_FAILED, respond.ThrowsAlways?)
  }

  /** `handleOffer` continues after an await that succeeded (`ok`) or threw. */
  function ResumeOffer(s: State, h: Handle, ok: bool, respond: Respond, acceptTimeoutMs: int): State
    requires h in s.w.offers && h < |s.w.conns|
  {
    var t := Dropped(s, h);
    var c := s.w.conns[h];
    if c.closed then t
    else if !ok then GiveUp(t, h, StageError(s.w.offers[h]), respond != Works)
    else
      match s.w.offers[h]
      case SettingRemote => Suspended(t, h, CreatingAnswer)
      case CreatingAnswer => Suspended(t, h, SettingLocal)
      case SettingLocal => SendAnswer(t, h, respond, acceptTimeoutMs)
  }

  function HandleCandidate(s: State, id: nat): State {
    if id in s.connections then s.(w := s.w.(candidates := s.w.candidates + multiset{s.connections[id]})) else s
  }

  /** Here the connection is closed before the peer is told, so a throw skips nothing. */
  function ResumeCandidate(s: State, h: Handle, ok: bool, hasRespond: bool): State
    requires h < |s.w.conns|
  {
    var t := s.(w := s.w.(candidates := s.w.candidates - multiset{h}));
    if ok then t
    else if hasRespond then Responded(Close(t, h), Failure(h, CANDIDATE_ADD))
    else Close(t, h)
  }

  function OnDataChannel(s: State, h: Handle, kind: ChannelKind, respondThrows: bool): State
    requires h < |s.w.conns|
  {
    var c := s.w.conns[h];
    if kind.Unexpected? || kind in c.channels then GiveUp(s, h, CONNECTION_IGNORED, respondThrows)
    else EmitOpen(Updated(s, h, c.(channels := c.channels + {kind})), h)
  }

  /** `onconnectionstatechange` with state 'connected'. */
  function OnConnected(s: State, h: Handle): State
    requires h < |s.w.conns|
  {
    EmitOpen(Updated(s, h, s.w.conns[h].(connected := true)), h)
  }

  /** The callback of the accept timer of connection id `id`. */
  function FireTimer(s: State, id: nat): State
    requires id in s.acceptTimeouts && s.acceptTimeouts[id] < |s.w.conns|
  {
    var h := s.acceptTimeouts[id];
    var t := s.(acceptTimeouts := s.acceptTimeouts - {id});
    if IsRegistered(t, h) then Close(Responded(t, Failure(h, WAITING_FOR_ACCEPT)), h) else t
  }

  /** The loop of `Server.close`: entries that are gone when the iterator gets to them are not visited. */
  function CloseAll(s: State, ids: seq<nat>): State
    requires Scoped(s)
    decreases |ids|
  {
    if ids == [] then s
    else if ids[0] in s.connections then CloseAll(Close(s, s.connections[ids[0]]), ids[1..])
    else CloseAll(s, ids[1..])
  }

  predicate Scoped(s: State) {
    forall id | id in s.connections :: s.connections[id] < |s.w.conns|
  }

  /** `ids` lists the keys of the connection map, in the order the iterator visits them. */
  ghost predicate Lists(s: State, ids: seq<nat>) {
    (forall id | id in s.connections :: id in ids) && forall i | 0 <= i < |ids| :: ids[i] in s.connections
  }

  /** `Server.close` */
  ghost function Shutdown(s: State, ids: seq<nat>): State
    requires Scoped(s)
  {
    if s.closed || !Lists(s, ids) then s else CloseAll(s.(closed := true), ids)
  }

  // ---------------------------------------------------------------------------------------------------------
  // Runs

  datatype Step =
    | ReceiveOffer(id: nat, peerMade: bool)
    | OfferContinues(conn: Handle, ok: bool, respond: Respond)
    | ReceiveCandidate(id: nat)
    | CandidateContinues(conn: Handle, ok: bool, hasRespond: bool)
    | PeerGathers(conn: Handle)  // onicecandidate of the connection's own peer
    | ChannelArrives(conn: Handle, kind: ChannelKind, respondThrows: bool)
    | PeerConnects(conn: Handle)  // only after its answer was sent, and not once closed
    | ConnectionCloses(conn: Handle)  // final peer state, channel onclose or onerror, or the application
    | ReceiveError(id: nat)
    | TimerFires(id: nat)
    | CallClose(ids: seq<nat>)

  /** What the proofs need to know to take a step: the handles in the tables are of connections that exist. */
  ghost predicate InScope(s: State) {
    && Scoped(s)
    && (forall id | id in s.acceptTimeouts :: s.acceptTimeouts[id] < |s.w.conns|)
    && (forall h | h in s.w.offers :: h < |s.w.conns|)
    && (forall h | h in s.w.candidates :: h < |s.w.conns|)
  }

  /** A step that is not enabled changes nothing. */
  ghost function Next(s: State, step: Step, acceptTimeoutMs: int): State
    requires InScope(s)
  {
    match step
    case ReceiveOffer(id, peerMade) => HandleOffer(s, id, peerMade)
    case OfferContinues(h, ok, respond) =>
      if h in s.w.offers then ResumeOffer(s, h, ok, respond, acceptTimeoutMs) else s
    case ReceiveCandidate(id) => HandleCandidate(s, id)
    case CandidateContinues(h, ok, hasRespond) =>
      if h in s.w.candidates then ResumeCandidate(s, h, ok, hasRespond) else s
    case PeerGathers(h) => if h < |s.w.conns| then Responded(s, LocalCandidate(h)) else s
    case ChannelArrives(h, kind, respondThrows) =>
      if h < |s.w.conns| then OnDataChannel(s, h, kind, respondThrows) else s
    case PeerConnects(h) =>
      if h < |s.w.conns| && s.w.conns[h].answered && !s.w.conns[h].closed then OnConnected(s, h) else s
    case ConnectionCloses(h) => if h < |s.w.conns| then Close(s, h) else s
    case ReceiveError(id) => if id in s.connections then Close(s, s.connections[id]) else s
    case TimerFires(id) => if id in s.acceptTimeouts then FireTimer(s, id) else s
    case CallClose(ids) => Shutdown(s, ids)
  }
}
