/**
 `class Client` of `src/client.js`: its fields and its methods, statement by statement. Each method is proved to do what
 the function of ClientModel says, and each that the environment calls keeps the invariant of ClientProofs. `Dispatch`
 is every step of a run as such a call, so what is proved about runs holds of this object.
 Parameters named `valid`, `making`, `outcome` and `ok` are what the environment does during the call.
 */
module Client {
  import opened Wrappers
  import M = ClientModel
  import P = ClientProofs

  class Client {
    const cfg: M.Config
    var closed: bool
    var connecting: bool
    var attempted: bool
    var pendingConnect: bool
    var hasEmittedConnected: bool
    var externalSignaling: bool
    var addresses: set<nat>              // the keys of the address map
    var connectionId: nat
    var connection: Option<M.Peer>
    var rtcConnection: Option<M.Peer>
    var offerController: Option<nat>
    var negotiationTimeout: Option<nat>
    var w: M.World                       // what it has created, suspended and emitted

    ghost function View(): M.State
      reads this
    {
      M.State(closed, connecting, attempted, pendingConnect, hasEmittedConnected, externalSignaling,
              cfg.serverNetworkId in addresses, connectionId, connection, rtcConnection, offerController,
              negotiationTimeout, w)
    }

    ghost predicate Valid()
      reads this
    {
      P.Inv(View())
    }

    constructor (cfg: M.Config, connectionId: nat)
      ensures Valid()
      ensures this.cfg == cfg && View() == M.Initial(cfg, connectionId)
    {
      this.cfg := cfg;
      closed, connecting, attempted, pendingConnect, hasEmittedConnected := false, false, false, false, false;
      externalSignaling, addresses, this.connectionId := cfg.http, {}, connectionId;
      connection, rtcConnection, offerController, negotiationTimeout := None, None, None, None;
      w := M.World(0, {}, [], {}, {}, map[], multiset{}, {connectionId}, [], [], 0);
      new;
      P.InitialInv(cfg, connectionId);
    }

    /** The setter of `signalHandler`. */
    method SetSignalHandler()
      requires Valid()
      modifies `externalSignaling
      ensures Valid() && externalSignaling
      ensures View() == old(View()).(externalSignaling := true)
    {
      externalSignaling := true;
    }

    method Emit(event: M.Event)
      modifies `w
      ensures w == old(w).(log := old(w.log) + [event])
    {
      w := w.(log := w.log + [event]);
    }

    /** The call of the signal handler itself. Whether it throws is up to the caller of this. */
    method Send(signal: M.Outgoing)
      modifies `w
      ensures w == old(w).(sent := old(w.sent) + [signal])
    {
      w := w.(sent := w.sent + [signal]);
    }

    method SignalError(named: bool, code: nat)
      modifies `w
      ensures View() == M.SignalError(old(View()), named, code)
    {
      if !named {
        return;
      }
      Send(M.ErrorSignal(connectionId, code));
    }

    method AbortOffer()
      modifies `w
      ensures w == old(w).(aborted := M.Aborts(old(View())))
    {
      if offerController.Some? {
        w := w.(aborted := w.aborted + {offerController.value});
      }
    }

    method ClearNegotiationTimeouts()
      modifies `w, `negotiationTimeout
      ensures w == old(w).(aborted := M.Aborts(old(View())))
      ensures negotiationTimeout == None
    {
      AbortOffer();
      if negotiationTimeout.Some? {
        negotiationTimeout := None;
      }
    }

    method ArmNegotiationTimeout(code: nat, timeoutMs: int)
      modifies `w, `negotiationTimeout
      ensures View() == M.ArmTimeout(old(View()), code, timeoutMs)
    {
      ClearNegotiationTimeouts();
      if timeoutMs <= 0 {
        return;
      }
      negotiationTimeout := Some(code);
      w := w.(armed := w.armed + 1);
    }

    method HandleConnectionClosed(p: M.Peer, reason: M.Reason)
      requires p < |w.addressOf|
      modifies `w, `negotiationTimeout, `connecting, `pendingConnect, `connection, `rtcConnection
      ensures View() == M.HandleConnectionClosed(old(View()), p, reason)
    {
      if connection != Some(p) {
        return;
      }
      ClearNegotiationTimeouts();
      connecting := false;
      pendingConnect := false;
      if connection == Some(p) {
        connection := None;
      }
      if rtcConnection == Some(p) {
        rtcConnection := None;
      }
      Emit(M.Disconnect(w.addressOf[p], reason));
    }

    /** `onclose` and `onerror` of the channels of peer `p`. */
    method NotifyClosed(p: M.Peer)
      requires p < |w.addressOf|
      modifies `w, `negotiationTimeout, `connecting, `pendingConnect, `connection, `rtcConnection
      ensures View() == M.CloseConnection(old(View()), p, M.Disconnected)
      ensures old(Valid()) ==> Valid()
      decreases if p in w.closedConnections then 0 else 1, 1
    {
      CloseConnection(p, M.Disconnected);
    }

    /** `Connection.close` of the connection made for peer `p`, which its channels may call again meanwhile. */
    method CloseConnection(p: M.Peer, reason: M.Reason)
      requires p < |w.addressOf|
      modifies `w, `negotiationTimeout, `connecting, `pendingConnect, `connection, `rtcConnection
      ensures View() == M.CloseConnection(old(View()), p, reason)
      ensures old(Valid()) ==> Valid()
      decreases if p in w.closedConnections then 0 else 1, 0
    {
      if Valid() {
        P.ClosingKeepsInv(View(), p, reason);
      }
      if p in w.closedConnections {
        return;
      }
      w := w.(closedConnections := w.closedConnections + {p}, closedPeers := w.closedPeers + {p});
      NotifyClosed(p);
      HandleConnectionClosed(p, reason);
    }

    /** An exception of the signal handler is caught, so it makes no difference. */
    method FailNegotiation(named: bool, code: nat)
      requires M.Scoped(View())
      modifies `w, `negotiationTimeout, `connecting, `pendingConnect, `connection, `rtcConnection
      ensures View() == M.Fail(old(View()), named, code)
    {
      ClearNegotiationTimeouts();
      pendingConnect := false;
      connecting := false;
      SignalError(named, code);
      EndFailed(code);
    }

    /** The end of `failNegotiation`: the connection is closed, or the peer that has none. */
    method EndFailed(code: nat)
      requires M.Scoped(View())
      modifies `w, `negotiationTimeout, `connecting, `pendingConnect, `connection, `rtcConnection
      ensures View() == M.EndFailed(old(View()), code)
    {
      if connection.Some? {
        CloseConnection(connection.value, M.ConnectError(code));
        return;
      }
      if rtcConnection.Some? {
        w := w.(closedPeers := w.closedPeers + {rtcConnection.value});
      }
      rtcConnection := None;
      Emit(M.Disconnect(connectionId, M.ConnectError(code)));
    }

    /** The middle of `createOffer`: the peer, the connection and the channels are made without an await. */
    method MakePeer(controller: nat, making: M.Making)
      requires M.Scoped(View())
      modifies this
      ensures View() == M.MakePeer(old(View()), controller, making)
    {
      if making.PeerThrows? {
        FailNegotiation(true, M.FAILED_TO_CREATE_PEER);
        return;
      }
      var p := |w.addressOf|;
      rtcConnection := Some(p);
      connection := Some(p);
      w := w.(addressOf := w.addressOf + [connectionId]);
      if making.ChannelsThrow? {
        return;
      }
      w := w.(offers := w.offers[controller := M.Offering(p)]);
    }

    method CreateOffer(valid: bool, making: M.Making)
      requires M.Scoped(View())
      modifies this
      ensures View() == M.CreateOffer(cfg, old(View()), valid, making)
    {
      if closed {
        return;
      }
      AbortOffer();
      var controller := w.controllers;
      w := w.(controllers := w.controllers + 1);
      offerController := Some(controller);
      assert View() == M.NewController(old(View()));
      if !valid {
        FailNegotiation(true, M.FAILED_TO_CREATE_PEER);
        return;
      }
      if cfg.looksUpIceServers {
        w := w.(offers := w.offers[controller := M.LookingUp]);
        return;
      }
      MakePeer(controller, making);
    }

    /** The guard the closures of `createOffer` share. */
    predicate IsCurrent(p: M.Peer)
      reads this
      ensures IsCurrent(p) == M.IsCurrent(View(), p)
    {
      !closed && connection == Some(p) && p !in w.closedConnections
    }

    /** `createOffer` continues after `resolveIceServers`. */
    method ResumeAfterLookup(controller: nat, outcome: M.Outcome, making: M.Making)
      requires Valid() && controller in w.offers && w.offers[controller].LookingUp?
      modifies this
      ensures Valid()
      ensures View() == M.AfterLookup(old(View()), controller, outcome, making)
    {
      P.LookupKeepsInv(View(), controller, outcome, making);
      w := w.(offers := w.offers - {controller});
      if controller in w.aborted || closed {
        return;
      }
      if outcome.Throws? {
        FailNegotiation(true, M.FAILED_TO_CREATE_PEER);
      } else {
        MakePeer(controller, making);
      }
    }

    /** ... after the peer's `createOffer`. */
    method ResumeAfterOffer(controller: nat, p: M.Peer, outcome: M.Outcome)
      requires Valid() && controller in w.offers && w.offers[controller] == M.Offering(p)
      modifies this
      ensures Valid()
      ensures View() == M.AfterOffer(old(View()), controller, p, outcome)
    {
      P.OfferKeepsInv(View(), controller, p, outcome);
      w := w.(offers := w.offers - {controller});
      if !IsCurrent(p) {
        return;
      }
      if outcome.Throws? {
        FailNegotiation(true, M.FAILED_TO_CREATE_OFFER);
      } else {
        w := w.(offers := w.offers[controller := M.Describing(p)]);
      }
    }

    /** ... after `setLocalDescription`. */
    method ResumeAfterLocal(controller: nat, p: M.Peer, outcome: M.Outcome)
      requires Valid() && controller in w.offers && w.offers[controller] == M.Describing(p)
      modifies this
      ensures Valid()
      ensures View() == M.AfterLocal(cfg, old(View()), controller, p, outcome)
    {
      P.LocalKeepsInv(cfg, View(), controller, p, outcome);
      w := w.(offers := w.offers - {controller});
      if !IsCurrent(p) {
        return;
      }
      if outcome.Throws? {
        FailNegotiation(true, M.FAILED_TO_SET_LOCAL);
      } else if cfg.http {
        w := w.(offers := w.offers[controller := M.Exchanging(p)]);
      } else {
        SendOffer(outcome);
      }
    }

    /** The last part of `createOffer`. */
    method SendOffer(outcome: M.Outcome)
      requires M.Scoped(View())
      modifies this
      ensures View() == M.SendOffer(old(View()), outcome)
    {
      if outcome.IdentityThrows? {
        FailNegotiation(true, M.SIGNALING_FAILED);
        return;
      }
      Send(M.Request(connectionId));
      if outcome.SignalThrows? {
        FailNegotiation(true, M.SIGNALING_FAILED);
      }
    }

    /** ... after `exchangeOffer`. */
    method ResumeAfterExchange(controller: nat, p: M.Peer, outcome: M.Outcome)
      requires Valid() && controller in w.offers && w.offers[controller] == M.Exchanging(p)
      modifies this
      ensures Valid()
      ensures View() == M.AfterExchange(old(View()), controller, p, outcome)
    {
      P.ExchangeKeepsInv(View(), controller, p, outcome);
      P.DropOfferKeepsInv(View(), controller);
      w := w.(offers := w.offers - {controller});
      if !outcome.Throws? {
        if IsCurrent(p) {
          HandleAnswer(true);
        }
      } else if IsCurrent(p) && controller !in w.aborted {
        Close("HTTP signalling failed");
      }
    }

    method HandleAnswer(named: bool)
      requires M.Scoped(View())
      modifies this
      ensures View() == M.HandleAnswer(old(View()), named)
    {
      var rtc := rtcConnection;
      ClearNegotiationTimeouts();
      if rtc.None? {
        // null.setRemoteDescription throws at once
        if closed || rtcConnection != rtc {
          return;
        }
        FailNegotiation(named, M.FAILED_TO_SET_REMOTE);
      } else {
        w := w.(calls := w.calls + multiset{M.Answering(rtc.value, named)});
      }
    }

    method ResumeAnswer(rtc: M.Peer, named: bool, ok: bool)
      requires M.Answering(rtc, named) in w.calls && Valid()
      modifies this
      ensures Valid()
      ensures View() == M.ResumeCall(cfg, old(View()), M.Answering(rtc, named), ok)
    {
      P.ResumeCallKeepsInv(cfg, View(), M.Answering(rtc, named), ok);
      w := w.(calls := w.calls - multiset{M.Answering(rtc, named)});
      if closed || rtcConnection != Some(rtc) {
        return;
      }
      if !ok {
        FailNegotiation(named, M.FAILED_TO_SET_REMOTE);
      } else if !hasEmittedConnected {
        ArmNegotiationTimeout(M.INACTIVITY_TIMEOUT, cfg.inactivityTimeoutMs);
      }
    }

    method HandleCandidate(named: bool)
      modifies `w
      ensures View() == M.HandleCandidate(old(View()), named)
    {
      if rtcConnection.None? {
        return;
      }
      w := w.(calls := w.calls + multiset{M.AddingCandidate(rtcConnection.value, named)});
    }

    method ResumeCandidate(rtc: M.Peer, named: bool, ok: bool)
      requires M.AddingCandidate(rtc, named) in w.calls && Valid()
      modifies this
      ensures Valid()
      ensures View() == M.ResumeCall(cfg, old(View()), M.AddingCandidate(rtc, named), ok)
    {
      P.ResumeCallKeepsInv(cfg, View(), M.AddingCandidate(rtc, named), ok);
      w := w.(calls := w.calls - multiset{M.AddingCandidate(rtc, named)});
      if !ok {
        if closed || rtcConnection != Some(rtc) {
          return;
        }
        FailNegotiation(named, M.CANDIDATE_ADD);
      }
    }

    method HandleResponse(sender: nat, valid: bool, making: M.Making)
      requires Valid()
      modifies this
      ensures Valid()
      ensures View() == M.HandleResponse(cfg, old(View()), sender, valid, making)
    {
      P.ResponseKeepsInv(cfg, View(), sender, valid, making);
      if closed {
        return;
      }
      addresses := addresses + {sender};
      var serverIdMatches := sender == cfg.serverNetworkId;
      if pendingConnect && serverIdMatches {
        BeginWaiting();
        CreateOffer(valid, making);
      }
    }

    method BeginWaiting()
      modifies `w, `negotiationTimeout, `pendingConnect
      ensures View() == M.Discovered(cfg, old(View()))
    {
      pendingConnect := false;
      ArmNegotiationTimeout(M.WAITING_FOR_RESPONSE, cfg.responseTimeoutMs);
    }

    method HandleSignal(signal: M.Signal)
      requires Valid()
      modifies this
      ensures Valid()
      ensures View() == M.HandleSignal(cfg, old(View()), signal)
    {
      P.SignalKeepsInv(cfg, View(), signal);
      if closed || !M.IsExpected(cfg, connectionId, signal) {
        return;
      }
      match signal.kind {
        case ConnectResponse => HandleAnswer(signal.networkId.Some?);
        case CandidateAdd => HandleCandidate(signal.networkId.Some?);
        case ConnectErrorSignal(data) =>
          if connection.Some? {
            CloseConnection(connection.value, M.RemoteError(data));
          }
        case ConnectRequest =>
        case Unknown =>
      }
    }

    /** `connect`; `newId` is what `getRandomUint64` returns. A closed client throws. */
    method Connect(newId: nat, valid: bool, making: M.Making) returns (throws: bool)
      requires Valid()
      modifies this
      ensures Valid()
      ensures throws == old(closed)
      ensures View() == M.Connect(cfg, old(View()), newId, valid, making)
      ensures throws ==> View() == old(View())
    {
      P.ConnectKeepsInv(cfg, View(), newId, valid, making);
      if closed {
        return true;
      }
      throws := false;
      if connecting || connection.Some? {
        return;
      }
      BeginAttempt(newId);
      ArmNegotiationTimeout(M.WAITING_FOR_RESPONSE, cfg.responseTimeoutMs);
      var hasAddress := cfg.serverNetworkId in addresses;
      if externalSignaling || hasAddress {
        CreateOffer(valid, making);
      } else {
        pendingConnect := true;
      }
    }

    method BeginAttempt(newId: nat)
      modifies this
      ensures View() == M.Started(old(View()), if old(attempted) then newId else old(connectionId))
    {
      if attempted {
        connectionId := newId;
      }
      w := w.(usedIds := w.usedIds + {connectionId});
      attempted := true;
      connecting := true;
      hasEmittedConnected := false;
      Emit(M.Attempt(connectionId));
    }

    method Shut()
      modifies `w, `negotiationTimeout, `closed, `pendingConnect, `connecting
      ensures View() == M.Shut(old(View()))
    {
      closed := true;
      pendingConnect := false;
      connecting := false;
      ClearNegotiationTimeouts();
    }

    method Close(reason: string)
      requires Valid()
      modifies this
      ensures Valid()
      ensures View() == M.Close(old(View()), reason)
      ensures closed && connection.None? && rtcConnection.None? && negotiationTimeout.None?
      ensures forall p: M.Peer | p < |w.addressOf| :: p in w.closedPeers && p in w.closedConnections
    {
      P.CloseKeepsInv(View(), reason);
      if closed {
        return;
      }
      Shut();
      if connection.Some? {
        CloseConnection(connection.value, M.Other(reason));
      }
      connection := None;
      rtcConnection := None;
    }

    /** `onconnectionstatechange` of peer `p`, in state 'connected' or in one of the final states. */
    method OnConnectionStateChange(p: M.Peer, connected: bool)
      requires p < |w.addressOf|
      requires Valid()
      modifies this
      ensures Valid()
      ensures connected ==> View() == M.PeerConnected(old(View()), p)
      ensures !connected ==>
                View() == if old(IsCurrent(p)) then M.CloseConnection(old(View()), p, M.Disconnected) else old(View())
    {
      P.PeerConnectedKeepsInv(View(), p);
      P.ClosingKeepsInv(View(), p, M.Disconnected);
      if !IsCurrent(p) {
        return;
      }
      if connected && !hasEmittedConnected {
        ClearNegotiationTimeouts();
        hasEmittedConnected := true;
        connecting := false;
        Emit(M.Connected(w.addressOf[p]));
      }
      if !connected {
        CloseConnection(p, M.Disconnected);
      }
    }

    /** `onicecandidate` of peer `p`. */
    method OnIceCandidate(p: M.Peer)
      requires Valid()
      modifies `w
      ensures Valid()
      ensures View() == M.PeerGathered(cfg, old(View()), p)
    {
      P.SentKeepsInv(View(), M.LocalCandidate(connectionId));
      if !cfg.http && IsCurrent(p) {
        Send(M.LocalCandidate(connectionId));
      }
    }

    /** The callback of the negotiation timer. */
    method OnNegotiationTimeout()
      requires negotiationTimeout.Some? && Valid()
      modifies this
      ensures Valid()
      ensures View() == M.FireTimer(old(View()))
      ensures !connecting && connection.None? && rtcConnection.None? && negotiationTimeout.None?
      ensures w.log == old(w.log) + [M.Disconnect(connectionId, M.ConnectError(old(negotiationTimeout).value))]
    {
      P.FailKeepsInv(View(), true, negotiationTimeout.value);
      P.FailEnds(View(), true, negotiationTimeout.value);
      FailNegotiation(true, negotiationTimeout.value);
    }

    /** One step of a run, as the call that the event loop makes. */
    method Dispatch(step: M.Step)
      requires Valid()
      modifies this
      ensures Valid()
      ensures View() == M.Next(cfg, old(View()), step)
    {
      match step {
        case CallConnect(newId, valid, making) =>
          if !(attempted && newId in w.usedIds) {
            var _ := Connect(newId, valid, making);
          }
        case CallClose(why) => Close(why);
        case SetSignalHandler => SetSignalHandler();
        case ReceiveResponse(sender, valid, making) => HandleResponse(sender, valid, making);
        case ReceiveSignal(signal) => HandleSignal(signal);
        case OfferContinues(controller, outcome, making) =>
          if controller in w.offers {
            ResumeOffer(controller, outcome, making);
          }
        case CallContinues(call, ok) =>
          if call in w.calls {
            ResumeCall(call, ok);
          }
        case PeerGathers(p) => OnIceCandidate(p);
        case PeerConnects(p) =>
          if p < |w.addressOf| {
            OnConnectionStateChange(p, true);
          }
        case PeerFails(p) =>
          if p < |w.addressOf| {
            OnConnectionStateChange(p, false);
          }
        case ConnectionCloses(p, reason) =>
          if p < |w.addressOf| {
            CloseConnection(p, reason);
          }
        case TimerFires =>
          if negotiationTimeout.Some? {
            OnNegotiationTimeout();
          }
      }
    }

    /** A suspended `createOffer` goes on from the await it is at. */
    method ResumeOffer(controller: nat, outcome: M.Outcome, making: M.Making)
      requires Valid() && controller in w.offers
      modifies this
      ensures Valid()
      ensures View() == M.ResumeOffer(cfg, old(View()), controller, outcome, making)
    {
      match w.offers[controller] {
        case LookingUp => ResumeAfterLookup(controller, outcome, making);
        case Offering(p) => ResumeAfterOffer(controller, p, outcome);
        case Describing(p) => ResumeAfterLocal(controller, p, outcome);
        case Exchanging(p) => ResumeAfterExchange(controller, p, outcome);
      }
    }

    method ResumeCall(call: M.Call, ok: bool)
      requires Valid() && call in w.calls
      modifies this
      ensures Valid()
      ensures View() == M.ResumeCall(cfg, old(View()), call, ok)
    {
      match call {
        case Answering(p, named) => ResumeAnswer(p, named, ok);
        case AddingCandidate(p, named) => ResumeCandidate(p, named, ok);
      }
    }
  }
}
