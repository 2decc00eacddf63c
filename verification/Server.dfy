/**
 `class Server` of `src/server.js`: its maps and its methods, statement by statement, each proved to do what the
 function of ServerModel says; those that the environment calls keep the invariant of ServerProofs, and `Dispatch` is
 every step of a run as such a call. Parameters named `ok`, `respond` and `respondThrows` are what the environment does.
 */
module Server {
  import M = ServerModel
  import P = ServerProofs

  class Server {
    const acceptTimeoutMs: int
    var closed: bool
    var connections: map<nat, M.Handle>
    var acceptTimeouts: map<nat, M.Handle>
    var w: M.World  // the connections and their closures, the suspended calls, the events

    ghost function View(): M.State
      reads this
    {
      M.State(closed, connections, acceptTimeouts, w)
    }

    ghost predicate Valid()
      reads this
    {
      P.Inv(View())
    }

    constructor (acceptTimeoutMs: int)
      ensures Valid()
      ensures this.acceptTimeoutMs == acceptTimeoutMs && View() == M.INITIAL
    {
      this.acceptTimeoutMs := acceptTimeoutMs;
      closed, connections, acceptTimeouts := false, map[], map[];
      w := M.World([], map[], multiset{}, [], []);
      new;
      P.InitialInv();
    }

    method Emit(event: M.Event)
      modifies `w
      ensures w == old(w).(log := old(w.log) + [event])
    {
      w := w.(log := w.log + [event]);
    }

    /** The call of `respond` itself. Whether it throws is up to the caller of this. */
    method Respond(response: M.Response)
      modifies `w
      ensures w == old(w).(responses := old(w.responses) + [response])
    {
      w := w.(responses := w.responses + [response]);
    }

    method ClearAcceptTimeout(id: nat)
      modifies `acceptTimeouts
      ensures acceptTimeouts == old(acceptTimeouts) - {id}
    {
      if id !in acceptTimeouts {
        assert acceptTimeouts - {id} == acceptTimeouts;
        return;
      }
      acceptTimeouts := acceptTimeouts - {id};
    }

    method ArmAcceptTimeout(h: M.Handle)
      requires h < |w.conns|
      modifies `acceptTimeouts
      ensures View() == M.ArmAcceptTimeout(old(View()), h, acceptTimeoutMs)
    {
      var id := w.conns[h].address;
      ClearAcceptTimeout(id);
      if acceptTimeoutMs <= 0 {
        return;
      }
      acceptTimeouts := acceptTimeouts[id := h];
      assert acceptTimeouts == old(acceptTimeouts)[id := h];
    }

    method HandleConnectionClosed(h: M.Handle)
      requires h < |w.conns|
      modifies `connections, `acceptTimeouts, `w
      ensures View() == M.HandleConnectionClosed(old(View()), h)
    {
      var id := w.conns[h].address;
      if !(id in connections && connections[id] == h) {
        return;
      }
      ClearAcceptTimeout(id);
      connections := connections - {id};
      Emit(M.CloseConnectionEvent(h));
    }

    /** What a channel's `onclose` or the peer's state change does when `close` fires it synchronously. */
    method NotifyClosed(h: M.Handle)
      requires h < |w.conns|
      modifies `connections, `acceptTimeouts, `w
      ensures View() == M.Close(old(View()), h)
      ensures old(Valid()) ==> Valid()
      decreases if w.conns[h].closed then 0 else 1, 1
    {
      CloseConnection(h);
    }

    /** `Connection.close`, which comes back here through every channel it closes and through the peer. */
    method CloseConnection(h: M.Handle)
      requires h < |w.conns|
      modifies `connections, `acceptTimeouts, `w
      ensures View() == M.Close(old(View()), h)
      ensures old(Valid()) ==> Valid()
      decreases if w.conns[h].closed then 0 else 1, 0
    {
      if Valid() {
        P.CloseKeepsInv(View(), h);
      }
      if w.conns[h].closed {
        return;
      }
      w := w.(conns := w.conns[h := w.conns[h].(closed := true, connected := false)]);
      if M.Reliable in w.conns[h].channels {
        NotifyClosed(h);
      }
      if M.Unreliable in w.conns[h].channels {
        NotifyClosed(h);
      }
      NotifyClosed(h);  // rtcConnection.close()
      HandleConnectionClosed(h);
    }

    /** `emitOpenConnection`, the closure of `handleOffer`. */
    method EmitOpenConnection(h: M.Handle)
      requires h < |w.conns|
      modifies `acceptTimeouts, `w
      ensures View() == M.EmitOpen(old(View()), h)
    {
      var c := w.conns[h];
      if c.announced || |c.channels| != 2 {
        return;
      }
      if !c.connected {
        return;
      }
      ClearAcceptTimeout(c.address);
      w := w.(conns := w.conns[h := c.(announced := true)]);
      Emit(M.OpenConnection(h));
    }

    method HandleOffer(id: nat, peerMade: bool)
      requires Valid()
      modifies `connections, `w
      ensures Valid()
      ensures View() == M.HandleOffer(old(View()), id, peerMade)
    {
      P.NewOfferKeepsInv(View(), id, peerMade);
      if closed || id in connections {
        return;
      }
      if !peerMade {
        Respond(M.Refusal(id, M.FAILED_TO_CREATE_PEER));
        return;
      }
      var h := |w.conns|;
      connections := connections[id := h];
      w := w.(conns := w.conns + [M.Conn(id, false, {}, false, false, false)],
              offers := w.offers[h := M.SettingRemote]);
    }

    /** The error path of `handleOffer`: a `respond` that throws leaves the connection as it is. */
    method GiveUp(h: M.Handle, code: nat, respondThrows: bool)
      requires h < |w.conns|
      modifies `connections, `acceptTimeouts, `w
      ensures View() == M.GiveUp(old(View()), h, code, respondThrows)
    {
      Respond(M.Failure(h, code));
      if respondThrows {
        return;
      }
      CloseConnection(h);
    }

    /** `handleOffer` continues after the await at which it was suspended. */
    method ResumeOffer(h: M.Handle, ok: bool, respond: M.Respond)
      requires Valid() && h in w.offers && h < |w.conns|
      modifies `connections, `acceptTimeouts, `w
      ensures Valid()
      ensures View() == M.ResumeOffer(old(View()), h, ok, respond, acceptTimeoutMs)
    {
      P.ResumeKeepsInv(View(), h, ok, respond, acceptTimeoutMs);
      var stage := w.offers[h];
      w := w.(offers := w.offers - {h});
      if w.conns[h].closed {
        return;
      }
      if !ok {
        var code := match stage
          case SettingRemote => M.FAILED_TO_SET_REMOTE
          case CreatingAnswer => M.FAILED_TO_CREATE_ANSWER
          case SettingLocal => M.FAILED_TO_SET_LOCAL;
        GiveUp(h, code, respond != M.Works);
        return;
      }
      match stage {
        case SettingRemote => w := w.(offers := w.offers[h := M.CreatingAnswer]);
        case CreatingAnswer => w := w.(offers := w.offers[h := M.SettingLocal]);
        case SettingLocal => SendAnswer(h, respond);
      }
    }

    /** The end of `handleOffer`. */
    method SendAnswer(h: M.Handle, respond: M.Respond)
      requires h < |w.conns|
      modifies `connections, `acceptTimeouts, `w
      ensures View() == M.SendAnswer(old(View()), h, respond, acceptTimeoutMs)
    {
      Respond(M.Answer(h));
      if respond.Works? {
        w := w.(conns := w.conns[h := w.conns[h].(answered := true)]);
        ArmAcceptTimeout(h);
      } else {
        GiveUp(h, M.SIGNALING_FAILED, respond.ThrowsAlways?);
      }
    }

    method HandleCandidate(id: nat)
      requires Valid()
      modifies `w
      ensures Valid()
      ensures View() == M.HandleCandidate(old(View()), id)
    {
      P.NextKeepsInv(View(), M.ReceiveCandidate(id), acceptTimeoutMs);
      if id in connections {
        w := w.(candidates := w.candidates + multiset{connections[id]});
      }
    }

    method ResumeCandidate(h: M.Handle, ok: bool, hasRespond: bool)
      requires Valid() && h in w.candidates && h < |w.conns|
      modifies `connections, `acceptTimeouts, `w
      ensures Valid()
      ensures View() == M.ResumeCandidate(old(View()), h, ok, hasRespond)
    {
      P.CandidateKeepsInv(View(), h, ok, hasRespond);
      w := w.(candidates := w.candidates - multiset{h});
      if !ok {
        CloseConnection(h);
        if hasRespond {
          Respond(M.Failure(h, M.CANDIDATE_ADD));
        }
      }
    }

    method OnDataChannel(h: M.Handle, kind: M.ChannelKind, respondThrows: bool)
      requires Valid() && h < |w.conns|
      modifies `connections, `acceptTimeouts, `w
      ensures Valid()
      ensures View() == M.OnDataChannel(old(View()), h, kind, respondThrows)
    {
      P.ChannelKeepsInv(View(), h, kind, respondThrows);
      if kind.Unexpected? {
        GiveUp(h, M.CONNECTION_IGNORED, respondThrows);
        return;
      }
      if kind in w.conns[h].channels {
        GiveUp(h, M.CONNECTION_IGNORED, respondThrows);
        return;
      }
      w := w.(conns := w.conns[h := w.conns[h].(channels := w.conns[h].channels + {kind})]);
      EmitOpenConnection(h);
    }

    /** `onconnectionstatechange`, in state 'connected' or in one of the final states. */
    method OnConnectionStateChange(h: M.Handle, connected: bool)
      requires Valid() && h < |w.conns|
      requires connected ==> w.conns[h].answered && !w.conns[h].closed
      modifies `connections, `acceptTimeouts, `w
      ensures Valid()
      ensures connected ==> View() == M.OnConnected(old(View()), h)
      ensures !connected ==> View() == M.Close(old(View()), h)
    {
      if connected {
        P.ConnectedKeepsInv(View(), h);
        w := w.(conns := w.conns[h := w.conns[h].(connected := true)]);
        EmitOpenConnection(h);
      } else {
        NotifyClosed(h);
      }
    }

    /** The callback of an accept timer; an exception of `respond` is caught here. */
    method OnAcceptTimeout(id: nat)
      requires Valid() && id in acceptTimeouts && acceptTimeouts[id] < |w.conns|
      modifies `connections, `acceptTimeouts, `w
      ensures Valid()
      ensures View() == M.FireTimer(old(View()), id)
      ensures w.conns[old(acceptTimeouts[id])].closed
    {
      P.TimerKeepsInv(View(), id);
      P.TimerLeavesItClosed(View(), id);
      var h := acceptTimeouts[id];
      acceptTimeouts := acceptTimeouts - {id};
      var address := w.conns[h].address;
      if !(address in connections && connections[address] == h) {
        return;
      }
      Respond(M.Failure(h, M.WAITING_FOR_ACCEPT));
      CloseConnection(h);
    }

    /** `onicecandidate` of the connection's own peer. */
    method OnIceCandidate(h: M.Handle)
      requires Valid() && h < |w.conns|
      modifies `w
      ensures Valid()
      ensures View() == M.Responded(old(View()), M.LocalCandidate(h))
    {
      P.RespondKeepsInv(View(), M.LocalCandidate(h));
      Respond(M.LocalCandidate(h));
    }

    /** `close`, with the keys of the map in the order its iterator visits them. */
    method Close(ids: seq<nat>)
      requires Valid() && (!closed ==> M.Lists(View(), ids))
      modifies `closed, `connections, `acceptTimeouts, `w
      ensures Valid()
      ensures M.Scoped(old(View()))
      ensures View() == if old(closed) then old(View()) else M.CloseAll(old(View()).(closed := true), ids)
      ensures closed && connections == map[] && acceptTimeouts == map[]
      ensures forall h: M.Handle | h < |w.conns| :: w.conns[h].closed
    {
      ShutdownEmpties(ids);
      if closed {
        return;
      }
      closed := true;
      ghost var start := View();
      var i := 0;
      assert ids[0..] == ids;
      while i < |ids|
        invariant 0 <= i <= |ids|
        invariant M.Scoped(View()) && M.Scoped(start)
        invariant M.CloseAll(View(), ids[i..]) == M.CloseAll(start, ids)
      {
        assert ids[i..][1..] == ids[i + 1..];
        if ids[i] in connections {
          CloseConnection(connections[ids[i]]);
        }
        i := i + 1;
      }
    }

    lemma ShutdownEmpties(ids: seq<nat>)
      requires Valid() && (!closed ==> M.Lists(View(), ids))
      ensures M.Scoped(View())
      ensures var t := if closed then View() else M.CloseAll(View().(closed := true), ids);
              && P.Inv(t) && t.closed && t.connections == map[] && t.acceptTimeouts == map[]
              && forall h: M.Handle | h < |t.w.conns| :: t.w.conns[h].closed
    {
      if closed {
        assert forall h: M.Handle | h < |w.conns| :: w.conns[h].closed || M.IsRegistered(View(), h);
        assert acceptTimeouts.Keys == {};
      } else {
        P.CloseEmptiesTables(View(), ids);
        P.CloseAllRemoves(View().(closed := true), ids);
      }
    }

    /** A CONNECTERROR signal. */
    method HandleError(id: nat)
      requires Valid()
      modifies `connections, `acceptTimeouts, `w
      ensures Valid()
      ensures View() == if id in old(connections) then M.Close(old(View()), old(connections[id])) else old(View())
    {
      if id in connections {
        CloseConnection(connections[id]);
      }
    }

    /** One step of a run, as the call that the event loop makes. */
    method Dispatch(step: M.Step)
      requires Valid() && (step.CallClose? && !closed ==> M.Lists(View(), step.ids))
      modifies `closed, `connections, `acceptTimeouts, `w
      ensures Valid()
      ensures M.InScope(old(View()))
      ensures View() == M.Next(old(View()), step, acceptTimeoutMs)
    {
      P.InvInScope(View());
      if P.IsSignalling(step) {
        DispatchSignal(step);
      } else {
        DispatchEvent(step);
      }
    }

    method DispatchSignal(step: M.Step)
      requires Valid() && P.IsSignalling(step)
      requires M.InScope(View())
      modifies `closed, `connections, `acceptTimeouts, `w
      ensures Valid()
      ensures View() == M.Next(old(View()), step, acceptTimeoutMs)
    {
      match step {
        case ReceiveOffer(id, peerMade) => HandleOffer(id, peerMade);
        case OfferContinues(h, ok, respond) =>
          if h in w.offers {
            ResumeOffer(h, ok, respond);
          }
        case ReceiveCandidate(id) => HandleCandidate(id);
        case CandidateContinues(h, ok, hasRespond) =>
          if h in w.candidates {
            ResumeCandidate(h, ok, hasRespond);
          }
        case PeerGathers(h) =>
          if h < |w.conns| {
            OnIceCandidate(h);
          }
      }
    }

    method DispatchEvent(step: M.Step)
      requires Valid() && !P.IsSignalling(step) && (step.CallClose? && !closed ==> M.Lists(View(), step.ids))
      requires M.InScope(View())
      modifies `closed, `connections, `acceptTimeouts, `w
      ensures Valid()
      ensures View() == M.Next(old(View()), step, acceptTimeoutMs)
    {
      match step {
        case ChannelArrives(h, kind, respondThrows) =>
          if h < |w.conns| {
            OnDataChannel(h, kind, respondThrows);
          }
        case PeerConnects(h) =>
          if h < |w.conns| && w.conns[h].answered && !w.conns[h].closed {
            OnConnectionStateChange(h, true);
          }
        case ConnectionCloses(h) =>
          if h < |w.conns| {
            CloseConnection(h);
          }
        case ReceiveError(id) => HandleError(id);
        case TimerFires(id) =>
          if id in acceptTimeouts {
            OnAcceptTimeout(id);
          }
        case CallClose(ids) => Close(ids);
      }
    }
  }
}
