/**
 What the client achieves: how an attempt gets from `connect` to a connection, and what each report, signal and failure
 does, said of steps and fields.
 */
module ClientFlow {
  import opened Wrappers
  import opened Sequences
  import opened ClientModel
  import opened ClientProofs
  import opened ClientEvents

  // ---------------------------------------------------------------------------------------------------------
  // An attempt that goes well

  /** The attempt under `id` that `s` began: under way in `t`, with nothing emitted but its beginning. */
  ghost predicate UnderWay(cfg: Config, s: State, t: State, id: nat) {
    && Inv(t)
    && t.connecting && !t.pendingConnect && !t.hasEmittedConnected && !t.closed
    && t.connectionId == id
    && t.w.log == s.w.log + [Attempt(id)]
    && t.timer == if cfg.responseTimeoutMs > 0 then Some(14) else None
  }

  /** Its offer, the one with controller `c`, is at this await; controller and peer are the next ones there were. */
  ghost predicate OfferAt(cfg: Config, s: State, t: State, id: nat, stage: Stage) {
    var c := s.w.controllers;
    && UnderWay(cfg, s, t, id)
    && t.w.sent == s.w.sent
    && t.w.controllers == c + 1 && c !in t.w.aborted
    && c in t.w.offers && t.w.offers[c] == stage
    && (if stage.LookingUp? then t.connection.None? && |t.w.addressOf| == |s.w.addressOf|
        else t.connection == Some(|s.w.addressOf|))
  }

  /** A client that can begin an attempt: open, idle, and given a fresh id if it needs one. */
  predicate CanBegin(s: State, newId: nat) {
    !s.closed && !s.connecting && s.connection.None? && (s.attempted ==> newId !in s.w.usedIds)
  }

  /** The id the attempt goes by. */
  function IdOf(s: State, newId: nat): nat {
    if s.attempted then newId else s.connectionId
  }

  function FirstStage(cfg: Config, s: State): Stage {
    if cfg.looksUpIceServers then LookingUp else Offering(|s.w.addressOf|)
  }

  lemma ConnectBegins(cfg: Config, s: State, newId: nat)
    requires Inv(s) && CanBegin(s, newId) && (s.externalSignaling || s.hasAddress)
    ensures OfferAt(cfg, s, Next(cfg, s, CallConnect(newId, true, Made)), IdOf(s, newId), FirstStage(cfg, s))
  {
    NextKeepsInv(cfg, s, CallConnect(newId, true, Made));
  }

  /** Without an address the attempt waits for the server to be discovered. */
  lemma ConnectWaits(cfg: Config, s: State, newId: nat)
    requires Inv(s) && CanBegin(s, newId) && !s.externalSignaling && !s.hasAddress
    ensures var t := Next(cfg, s, CallConnect(newId, true, Made));
            && Inv(t) && t.connecting && t.pendingConnect && !t.closed
            && t.connectionId == IdOf(s, newId)
            && t.w.log == s.w.log + [Attempt(t.connectionId)] && t.w.sent == s.w.sent
            && t.timer == (if cfg.responseTimeoutMs > 0 then Some(14) else None)
            && t.w.controllers == s.w.controllers && t.w.addressOf == s.w.addressOf
  {
    NextKeepsInv(cfg, s, CallConnect(newId, true, Made));
  }

  lemma DiscoveryBegins(cfg: Config, s: State, newId: nat)
    requires Inv(s) && CanBegin(s, newId) && !s.externalSignaling && !s.hasAddress
    ensures var t := Next(cfg, s, CallConnect(newId, true, Made));
            && Inv(t)
            && OfferAt(cfg, s, Next(cfg, t, ReceiveResponse(cfg.serverNetworkId, true, Made)), IdOf(s, newId),
                       FirstStage(cfg, s))
  {
    var t := Next(cfg, s, CallConnect(newId, true, Made));
    ConnectWaits(cfg, s, newId);
    NextKeepsInv(cfg, t, ReceiveResponse(cfg.serverNetworkId, true, Made));
  }

  /** The offer of `s` goes on by one await. */
  function GoOn(s: State): Step {
    OfferContinues(s.w.controllers, Succeeds, Made)
  }

  lemma LookupGoesOn(cfg: Config, s: State, t: State, id: nat)
    requires OfferAt(cfg, s, t, id, LookingUp)
    ensures OfferAt(cfg, s, Next(cfg, t, GoOn(s)), id, Offering(|s.w.addressOf|))
  {
    NextKeepsInv(cfg, t, GoOn(s));
  }

  lemma OfferGoesOn(cfg: Config, s: State, t: State, id: nat)
    requires OfferAt(cfg, s, t, id, Offering(|s.w.addressOf|))
    ensures OfferAt(cfg, s, Next(cfg, t, GoOn(s)), id, Describing(|s.w.addressOf|))
  {
    NextKeepsInv(cfg, t, GoOn(s));
  }

  /** The request has been sent and the client waits for the answer. */
  ghost predicate Requested(cfg: Config, s: State, t: State, id: nat) {
    && UnderWay(cfg, s, t, id)
    && t.w.sent == s.w.sent + [Request(id)]
    && t.connection == Some(|s.w.addressOf|)
    && s.w.controllers !in t.w.offers
  }

  lemma DescriptionGoesOn(cfg: Config, s: State, t: State, id: nat)
    requires OfferAt(cfg, s, t, id, Describing(|s.w.addressOf|))
    ensures !cfg.http ==> Requested(cfg, s, Next(cfg, t, GoOn(s)), id)
    ensures cfg.http ==> OfferAt(cfg, s, Next(cfg, t, GoOn(s)), id, Exchanging(|s.w.addressOf|))
  {
    NextKeepsInv(cfg, t, GoOn(s));
  }

  /** The steps that begin an attempt: `connect`, the response that discovers the server, and the lookup. */
  function Beginning(cfg: Config, s: State, newId: nat): seq<Step> {
    [CallConnect(newId, true, Made)]
    + (if s.externalSignaling || s.hasAddress then [] else [ReceiveResponse(cfg.serverNetworkId, true, Made)])
    + (if cfg.looksUpIceServers then [GoOn(s)] else [])
  }

  lemma {:induction false} RunAppend(cfg: Config, s: State, a: seq<Step>, b: seq<Step>)
    requires Inv(s)
    ensures Run(cfg, s, a + b) == Run(cfg, Run(cfg, s, a), b)
    decreases |a|
  {
    if a == [] {
      Nothing(b);
    } else {
      RunStep(cfg, s, a);
      RunStep(cfg, s, a + b);
      RunAppend(cfg, Next(cfg, s, a[0]), a[1..], b);
      TailOfAppend(a, b);
    }
  }

  lemma RunStep(cfg: Config, s: State, steps: seq<Step>)
    requires Inv(s) && steps != []
    ensures Inv(Next(cfg, s, steps[0])) && Run(cfg, s, steps) == Run(cfg, Next(cfg, s, steps[0]), steps[1..])
  {
    NextKeepsInv(cfg, s, steps[0]);
  }

  lemma RunOne(cfg: Config, s: State, step: Step)
    requires Inv(s)
    ensures Run(cfg, s, [step]) == Next(cfg, s, step)
  {
    NextKeepsInv(cfg, s, step);
    assert [step][1..] == [];
    assert Run(cfg, Next(cfg, s, step), []) == Next(cfg, s, step);
  }

  lemma RunSnoc(cfg: Config, s: State, steps: seq<Step>, step: Step)
    requires Inv(s)
    ensures Run(cfg, s, steps + [step]) == Next(cfg, Run(cfg, s, steps), step)
  {
    RunAppend(cfg, s, steps, [step]);
    RunOne(cfg, Run(cfg, s, steps), step);
  }

  lemma BeginningOffers(cfg: Config, s: State, newId: nat)
    requires Inv(s) && CanBegin(s, newId)
    ensures OfferAt(cfg, s, Run(cfg, s, Beginning(cfg, s, newId)), IdOf(s, newId), Offering(|s.w.addressOf|))
  {
    var first, response := [CallConnect(newId, true, Made)], ReceiveResponse(cfg.serverNetworkId, true, Made);
    RunOne(cfg, s, first[0]);
    var steps := first;
    if s.externalSignaling || s.hasAddress {
      ConnectBegins(cfg, s, newId);
      Nothing(first);
    } else {
      DiscoveryBegins(cfg, s, newId);
      RunSnoc(cfg, s, first, response);
      steps := first + [response];
    }
    if cfg.looksUpIceServers {
      LookupGoesOn(cfg, s, Run(cfg, s, steps), IdOf(s, newId));
      RunSnoc(cfg, s, steps, GoOn(s));
    } else {
      Nothing(steps);
    }
  }

  /**
   From every state in which an attempt can begin, `connect` and the awaits it leads to, all succeeding, send exactly
   one request, under the attempt's id, and leave the attempt under way with its new peer.
   */
  lemma ConnectSendsRequest(cfg: Config, s: State, newId: nat)
    requires Inv(s) && CanBegin(s, newId) && !cfg.http
    ensures Requested(cfg, s, Run(cfg, s, Beginning(cfg, s, newId) + [GoOn(s)] + [GoOn(s)]), IdOf(s, newId))
  {
    var steps := Beginning(cfg, s, newId);
    BeginningOffers(cfg, s, newId);
    OfferGoesOn(cfg, s, Run(cfg, s, steps), IdOf(s, newId));
    RunSnoc(cfg, s, steps, GoOn(s));
    DescriptionGoesOn(cfg, s, Run(cfg, s, steps + [GoOn(s)]), IdOf(s, newId));
    RunSnoc(cfg, s, steps + [GoOn(s)], GoOn(s));
  }

  /** An answer for the attempt's peer is being applied, and it has taken the timer and the controllers with it. */
  ghost predicate AnswerApplied(s: State, t: State, id: nat, named: bool) {
    && Inv(t)
    && t.connecting && !t.hasEmittedConnected && !t.closed
    && t.connectionId == id && t.connection == Some(|s.w.addressOf|)
    && t.w.log == s.w.log + [Attempt(id)]
    && t.timer.None?
    && (forall c: nat | c < t.w.controllers :: c in t.w.aborted)
    && t.w.calls[Answering(|s.w.addressOf|, named)] > 0
  }

  /** Over HTTP the same run exchanges the offer instead, and a successful exchange is an answer. */
  lemma ConnectExchanges(cfg: Config, s: State, newId: nat)
    requires Inv(s) && CanBegin(s, newId) && cfg.http
    ensures var steps := Beginning(cfg, s, newId) + [GoOn(s)] + [GoOn(s)];
            && OfferAt(cfg, s, Run(cfg, s, steps), IdOf(s, newId), Exchanging(|s.w.addressOf|))
            && var t := Run(cfg, s, steps + [GoOn(s)]);
               AnswerApplied(s, t, IdOf(s, newId), true) && t.w.sent == s.w.sent
  {
    var steps := Beginning(cfg, s, newId);
    BeginningOffers(cfg, s, newId);
    OfferGoesOn(cfg, s, Run(cfg, s, steps), IdOf(s, newId));
    RunSnoc(cfg, s, steps, GoOn(s));
    DescriptionGoesOn(cfg, s, Run(cfg, s, steps + [GoOn(s)]), IdOf(s, newId));
    RunSnoc(cfg, s, steps + [GoOn(s)], GoOn(s));
    ExchangeAnswers(cfg, s, Run(cfg, s, steps + [GoOn(s)] + [GoOn(s)]), IdOf(s, newId));
    RunSnoc(cfg, s, steps + [GoOn(s)] + [GoOn(s)], GoOn(s));
  }

  lemma ExchangeAnswers(cfg: Config, s: State, t: State, id: nat)
    requires OfferAt(cfg, s, t, id, Exchanging(|s.w.addressOf|))
    ensures AnswerApplied(s, Next(cfg, t, GoOn(s)), id, true) && Next(cfg, t, GoOn(s)).w.sent == s.w.sent
  {
    NextKeepsInv(cfg, t, GoOn(s));
  }

  lemma SignalAnswers(cfg: Config, s: State, t: State, id: nat, networkId: Option<nat>)
    requires Requested(cfg, s, t, id) && (networkId.Some? ==> networkId.value == cfg.serverNetworkId)
    ensures var u := Next(cfg, t, ReceiveSignal(Signal(ConnectResponse, id, networkId)));
            AnswerApplied(s, u, id, networkId.Some?) && u.w.sent == t.w.sent
  {
    NextKeepsInv(cfg, t, ReceiveSignal(Signal(ConnectResponse, id, networkId)));
  }

  /** Once the answer has been applied, the peer has the inactivity timeout to connect. */
  lemma AnswerArmsTimer(cfg: Config, s: State, t: State, id: nat, named: bool)
    requires AnswerApplied(s, t, id, named)
    ensures var u := Next(cfg, t, CallContinues(Answering(|s.w.addressOf|, named), true));
            && Inv(u) && u.connecting && u.connectionId == id && u.connection == t.connection
            && u.w.log == t.w.log && u.w.sent == t.w.sent
            && u.timer == if cfg.inactivityTimeoutMs > 0 then Some(9) else None
  {
    NextKeepsInv(cfg, t, CallContinues(Answering(|s.w.addressOf|, named), true));
  }

  /** The attempt has succeeded: its new peer is connected, it was reported once, and nothing is left to end it. */
  ghost predicate Succeeded(s: State, t: State, id: nat) {
    && Inv(t)
    && !t.connecting && t.hasEmittedConnected && !t.closed && t.timer.None?
    && t.connectionId == id
    && t.connection == Some(|s.w.addressOf|) && t.rtcConnection == Some(|s.w.addressOf|)
    && t.w.log == s.w.log + [Attempt(id), Connected(id)]
  }

  lemma AppliedSucceeds(cfg: Config, s: State, t: State, id: nat, named: bool)
    requires AnswerApplied(s, t, id, named)
    ensures var p := |s.w.addressOf|;
            var u := Run(cfg, t, [CallContinues(Answering(p, named), true)] + [PeerConnects(p)]);
            Succeeded(s, u, id) && u.w.sent == t.w.sent
  {
    var p, first := |s.w.addressOf|, CallContinues(Answering(|s.w.addressOf|, named), true);
    RunOne(cfg, t, first);
    AnswerArmsTimer(cfg, s, t, id, named);
    PeerConnectsReports(cfg, Next(cfg, t, first), p);
    RunSnoc(cfg, t, [first], PeerConnects(p));
    assert s.w.log + [Attempt(id)] + [Connected(id)] == s.w.log + [Attempt(id), Connected(id)];
  }

  /** The steps from the beginning to the local description. */
  function Offer(cfg: Config, s: State, newId: nat): seq<Step> {
    Beginning(cfg, s, newId) + [GoOn(s)] + [GoOn(s)]
  }

  /** The steps that apply an answer and connect the peer. */
  function Connection(s: State, named: bool): seq<Step> {
    [CallContinues(Answering(|s.w.addressOf|, named), true)] + [PeerConnects(|s.w.addressOf|)]
  }

  /** From every state in which an attempt can begin, a client whose server answers gets its connection. */
  lemma AttemptSucceeds(cfg: Config, s: State, newId: nat, networkId: Option<nat>)
    requires Inv(s) && CanBegin(s, newId) && !cfg.http
    requires networkId.Some? ==> networkId.value == cfg.serverNetworkId
    ensures var id := IdOf(s, newId);
            var answer := ReceiveSignal(Signal(ConnectResponse, id, networkId));
            var t := Run(cfg, s, Offer(cfg, s, newId) + [answer] + Connection(s, networkId.Some?));
            Succeeded(s, t, id) && t.w.sent == s.w.sent + [Request(id)]
  {
    var id := IdOf(s, newId);
    var answer := ReceiveSignal(Signal(ConnectResponse, id, networkId));
    var offered := Offer(cfg, s, newId);
    ConnectSendsRequest(cfg, s, newId);
    SignalAnswers(cfg, s, Run(cfg, s, offered), id, networkId);
    RunSnoc(cfg, s, offered, answer);
    AppliedSucceeds(cfg, s, Run(cfg, s, offered + [answer]), id, networkId.Some?);
    RunAppend(cfg, s, offered + [answer], Connection(s, networkId.Some?));
  }

  /** So does one that exchanges its offer over HTTP. */
  lemma HttpAttemptSucceeds(cfg: Config, s: State, newId: nat)
    requires Inv(s) && CanBegin(s, newId) && cfg.http
    ensures var id := IdOf(s, newId);
            var t := Run(cfg, s, Offer(cfg, s, newId) + [GoOn(s)] + Connection(s, true));
            Succeeded(s, t, id) && t.w.sent == s.w.sent
  {
    var answered := Offer(cfg, s, newId) + [GoOn(s)];
    ConnectExchanges(cfg, s, newId);
    AppliedSucceeds(cfg, s, Run(cfg, s, answered), IdOf(s, newId), true);
    RunAppend(cfg, s, answered, Connection(s, true));
  }

  /** A new client uses the id it was given, and over HTTP it needs no discovery. */
  lemma NewClientBegins(cfg: Config, id: nat, newId: nat)
    ensures Inv(Initial(cfg, id)) && CanBegin(Initial(cfg, id), newId) && IdOf(Initial(cfg, id), newId) == id
    ensures var t := Next(cfg, Initial(cfg, id), CallConnect(newId, true, Made));
            if cfg.http then OfferAt(cfg, Initial(cfg, id), t, id, FirstStage(cfg, Initial(cfg, id)))
            else t.pendingConnect && t.connecting && t.connectionId == id
  {
    InitialInv(cfg, id);
    if cfg.http {
      ConnectBegins(cfg, Initial(cfg, id), newId);
    } else {
      ConnectWaits(cfg, Initial(cfg, id), newId);
    }
  }

  // ---------------------------------------------------------------------------------------------------------
  // Reporting the connection

  /** A client that is connecting reports its current peer connected, once, and its timer is gone. */
  lemma PeerConnectsReports(cfg: Config, s: State, p: Peer)
    requires Inv(s) && s.connecting && s.connection == Some(p)
    ensures var t := Next(cfg, s, PeerConnects(p));
            && Inv(t)
            && t.w.log == s.w.log + [Connected(s.connectionId)] && t.w.sent == s.w.sent
            && !t.connecting && t.hasEmittedConnected && t.timer.None?
            && t.connection == Some(p) && t.rtcConnection == Some(p) && t.connectionId == s.connectionId
            && (forall c: nat | c < t.w.controllers :: c in t.w.aborted)
  {
    NextKeepsInv(cfg, s, PeerConnects(p));
  }

  /** Only the report of a peer sets the flag. */
  lemma OnlyPeersConnect(cfg: Config, s: State, step: Step)
    requires Inv(s) && !step.PeerConnects?
    ensures Next(cfg, s, step).hasEmittedConnected ==> s.hasEmittedConnected
  {
    match step
    case CallConnect(newId, valid, making) => ConnectKeepsFlag(cfg, s, newId, valid, making);
    case CallClose(_) =>
    case SetSignalHandler =>
    case ReceiveResponse(sender, valid, making) => ResponseKeepsFlag(cfg, s, sender, valid, making);
    case ReceiveSignal(signal) => SignalKeepsFlag(cfg, s, signal);
    case OfferContinues(c, outcome, making) =>
      if c in s.w.offers { OfferKeepsFlag(cfg, s, c, outcome, making); }
    case CallContinues(call, ok) => if call in s.w.calls { CallKeepsFlag(cfg, s, call, ok); }
    case PeerGathers(_) =>
    case PeerFails(_) =>
    case ConnectionCloses(_, _) =>
    case TimerFires =>
  }

  lemma FailKeepsFlag(s: State, named: bool, code: nat)
    requires Inv(s)
    ensures Fail(s, named, code).hasEmittedConnected == s.hasEmittedConnected
    ensures Fail(s, named, code).hasAddress == s.hasAddress
  {
    FailEnds(s, named, code);
  }

  lemma AnswerKeepsFlag(s: State, named: bool)
    requires Inv(s)
    ensures HandleAnswer(s, named).hasEmittedConnected == s.hasEmittedConnected
  {
    ClearKeepsInv(s);
    FailKeepsFlag(ClearTimeouts(s), named, FAILED_TO_SET_REMOTE);
  }

  lemma SignalKeepsFlag(cfg: Config, s: State, signal: Signal)
    requires Inv(s)
    ensures HandleSignal(cfg, s, signal).hasEmittedConnected == s.hasEmittedConnected
  {
    AnswerKeepsFlag(s, signal.networkId.Some?);
    if s.connection.Some? && signal.kind.ConnectErrorSignal? {
      CloseEnds(s, s.connection.value, RemoteError(signal.kind.data));
    }
  }

  lemma OfferKeepsFlag(cfg: Config, s: State, c: nat, outcome: Outcome, making: Making)
    requires Inv(s) && c in s.w.offers
    ensures ResumeOffer(cfg, s, c, outcome, making).hasEmittedConnected == s.hasEmittedConnected
  {
    DropOfferKeepsInv(s, c);
    match s.w.offers[c]
    case LookingUp => LookupKeepsFlag(s, c, outcome, making);
    case Offering(p) => FailKeepsFlag(Dropped(s, c), true, FAILED_TO_CREATE_OFFER);
    case Describing(p) => LocalKeepsFlag(cfg, s, c, p, outcome);
    case Exchanging(p) => ExchangeKeepsFlag(s, c, p, outcome);
  }

  lemma LookupKeepsFlag(s: State, c: nat, outcome: Outcome, making: Making)
    requires Inv(s)
    ensures AfterLookup(s, c, outcome, making).hasEmittedConnected == s.hasEmittedConnected
  {
    DropOfferKeepsInv(s, c);
    FailKeepsFlag(Dropped(s, c), true, FAILED_TO_CREATE_PEER);
  }

  lemma LocalKeepsFlag(cfg: Config, s: State, c: nat, p: Peer, outcome: Outcome)
    requires Inv(s)
    ensures AfterLocal(cfg, s, c, p, outcome).hasEmittedConnected == s.hasEmittedConnected
  {
    var t := Dropped(s, c);
    DropOfferKeepsInv(s, c);
    FailKeepsFlag(t, true, FAILED_TO_SET_LOCAL);
    FailKeepsFlag(t, true, SIGNALING_FAILED);
    SentKeepsInv(t, Request(s.connectionId));
    FailKeepsFlag(Sent(t, Request(s.connectionId)), true, SIGNALING_FAILED);
  }

  lemma ExchangeKeepsFlag(s: State, c: nat, p: Peer, outcome: Outcome)
    requires Inv(s)
    ensures AfterExchange(s, c, p, outcome).hasEmittedConnected == s.hasEmittedConnected
  {
    DropOfferKeepsInv(s, c);
    AnswerKeepsFlag(Dropped(s, c), true);
    if !s.closed {
      CloseIs(Dropped(s, c), "HTTP signalling failed");
    }
  }

  lemma CallKeepsFlag(cfg: Config, s: State, call: Call, ok: bool)
    requires Inv(s) && call in s.w.calls
    ensures ResumeCall(cfg, s, call, ok).hasEmittedConnected == s.hasEmittedConnected
  {
    DropCallKeepsInv(s, call);
    FailKeepsFlag(Settled(s, call), call.named, if call.Answering? then FAILED_TO_SET_REMOTE else CANDIDATE_ADD);
  }

  lemma CreateOfferKeepsFlag(cfg: Config, s: State, valid: bool, making: Making)
    requires Inv(s) && s.connecting && s.connection.None?
    ensures CreateOffer(cfg, s, valid, making).hasEmittedConnected == s.hasEmittedConnected
    ensures CreateOffer(cfg, s, valid, making).hasAddress == s.hasAddress
  {
    NewControllerKeepsInv(s);
    FailKeepsFlag(NewController(s), true, FAILED_TO_CREATE_PEER);
  }

  lemma ConnectKeepsFlag(cfg: Config, s: State, newId: nat, valid: bool, making: Making)
    requires Inv(s)
    ensures Connect(cfg, s, newId, valid, making).hasEmittedConnected ==> s.hasEmittedConnected
  {
    if !s.closed && !s.connecting && s.connection.None? {
      var id := if s.attempted then newId else s.connectionId;
      StartedInv(s, id, cfg);
      CreateOfferKeepsFlag(cfg, ArmTimeout(Started(s, id), WAITING_FOR_RESPONSE, cfg.responseTimeoutMs), valid, making);
    }
  }

  lemma DiscoveredInv(cfg: Config, s: State)
    requires Inv(s) && s.pendingConnect
    ensures Inv(Discovered(cfg, s.(hasAddress := true)))
  {
    var t := s.(hasAddress := true, pendingConnect := false);
    assert Inv(t);
    ArmKeepsInv(t, WAITING_FOR_RESPONSE, cfg.responseTimeoutMs);
  }

  lemma ResponseKeepsFlag(cfg: Config, s: State, sender: nat, valid: bool, making: Making)
    requires Inv(s)
    ensures HandleResponse(cfg, s, sender, valid, making).hasEmittedConnected == s.hasEmittedConnected
  {
    if s.pendingConnect {
      DiscoveredInv(cfg, s);
      CreateOfferKeepsFlag(cfg, Discovered(cfg, s.(hasAddress := true)), valid, making);
    }
  }

  /** The step reports a connection: its attempt is under way, and the peer is the current one. */
  predicate Reports(s: State, step: Step) {
    step.PeerConnects? && s.connecting && s.connection == Some(step.peer)
  }

  /** A connection is reported by exactly the steps that report one. */
  lemma ConnectedIff(cfg: Config, s: State, step: Step)
    requires Inv(s)
    ensures var t := Next(cfg, s, step);
            && s.w.log <= t.w.log
            && ((exists i | |s.w.log| <= i < |t.w.log| :: t.w.log[i].Connected?) <==> Reports(s, step))
  {
    var t := Next(cfg, s, step);
    if s.closed {
      ClosedIsSilent(cfg, s, step);
    } else {
      var m := NextDoes(cfg, s, step);
      assert forall i | |s.w.log| <= i < |t.w.log| :: t.w.log[i] == Emits(s, m)[i - |s.w.log|];
      if Reports(s, step) {
        PeerConnectsReports(cfg, s, step.peer);
        assert t.w.log[|s.w.log|].Connected?;
      } else if m.GoesUp? {
        NextKeepsInv(cfg, s, step);
        if !step.PeerConnects? {
          OnlyPeersConnect(cfg, s, step);
        }
        assert false;
      }
    }
  }

  // ---------------------------------------------------------------------------------------------------------
  // What else each step does

  /** A signal with another id, from another network, or to a closed client is not heard. */
  lemma UnheardIsInert(cfg: Config, s: State, signal: Signal)
    requires Inv(s)
    requires s.closed || signal.connectionId != s.connectionId
             || (signal.networkId.Some? && signal.networkId.value != cfg.serverNetworkId)
    ensures Next(cfg, s, ReceiveSignal(signal)) == s
  {
  }

  /** A signal under the current id, from the server or from no network in particular. */
  predicate IsHeard(cfg: Config, s: State, signal: Signal) {
    && !s.closed && signal.connectionId == s.connectionId
    && (signal.networkId == None || signal.networkId == Some(cfg.serverNetworkId))
  }

  /** An answer that is heard is applied to the current peer, with the timer stopped meanwhile. */
  lemma AnswerIsApplied(cfg: Config, s: State, signal: Signal)
    requires Inv(s) && IsHeard(cfg, s, signal) && signal.kind.ConnectResponse? && s.connection.Some?
    ensures var t := Next(cfg, s, ReceiveSignal(signal));
            && t.w.calls == s.w.calls + multiset{Answering(s.connection.value, signal.networkId.Some?)}
            && t.timer.None? && (forall c: nat | c < t.w.controllers :: c in t.w.aborted)
            && t.w.log == s.w.log && t.w.sent == s.w.sent
            && t.connection == s.connection && t.connecting == s.connecting
  {
  }

  /** A candidate that is heard is added to the current peer, and nothing else changes. */
  lemma CandidateIsAdded(cfg: Config, s: State, signal: Signal)
    requires Inv(s) && IsHeard(cfg, s, signal) && signal.kind.CandidateAdd?
    ensures Next(cfg, s, ReceiveSignal(signal))
         == if s.connection.None? then s
            else s.(w := s.w.(calls := s.w.calls
                                       + multiset{AddingCandidate(s.connection.value, signal.networkId.Some?)}))
  {
  }

  /** An error that is heard ends the attempt or connection for the reason it gives; requests are not for clients. */
  lemma ErrorEndsIt(cfg: Config, s: State, signal: Signal, data: string)
    requires Inv(s) && IsHeard(cfg, s, signal)
    ensures signal.kind == ConnectErrorSignal(data) ==>
              Next(cfg, s, ReceiveSignal(signal)) == if s.connection.Some? then Ended(s, RemoteError(data)) else s
    ensures signal.kind.ConnectRequest? || signal.kind.Unknown? ==> Next(cfg, s, ReceiveSignal(signal)) == s
  {
    if s.connection.Some? {
      CloseEnds(s, s.connection.value, RemoteError(data));
    }
  }

  /** The current peer's failure ends the attempt or the connection, and so does its closing for a given reason. */
  lemma CurrentPeerEndsIt(cfg: Config, s: State, p: Peer, reason: Reason)
    requires Inv(s) && s.connection == Some(p)
    ensures Next(cfg, s, PeerFails(p)) == Ended(s, Disconnected)
    ensures Next(cfg, s, ConnectionCloses(p, reason)) == Ended(s, reason)
  {
    CloseEnds(s, p, Disconnected);
    CloseEnds(s, p, reason);
  }

  /** Ending leaves the client idle with the pair closed, and says why, once. */
  lemma EndedSaysWhy(s: State, reason: Reason)
    requires Inv(s)
    ensures var t := Ended(s, reason);
            && !t.connecting && !t.pendingConnect && t.connection.None? && t.rtcConnection.None? && t.timer.None?
            && t.w.log == s.w.log + [Disconnect(s.connectionId, reason)] && t.w.sent == s.w.sent
            && t.closed == s.closed && t.connectionId == s.connectionId
            && (s.connection.Some? ==>
                  s.connection.value in t.w.closedPeers && s.connection.value in t.w.closedConnections)
            && (forall c: nat | c < t.w.controllers :: c in t.w.aborted)
  {
  }

  /** The attempt has begun and failed at once under code 4. */
  ghost predicate FailedToCreate(s: State, t: State, id: nat) {
    && !t.connecting && t.connection.None? && t.timer.None?
    && t.w.log == s.w.log + [Attempt(id), Disconnect(id, ConnectError(4))]
    && t.w.sent == s.w.sent + [ErrorSignal(id, 4)]
  }

  /** ICE servers that do not pass, or a peer that cannot be made, end the attempt in the call of `connect`. */
  lemma ConnectFails(cfg: Config, s: State, newId: nat, valid: bool, making: Making)
    requires Inv(s) && CanBegin(s, newId) && (s.externalSignaling || s.hasAddress)
    requires !valid || (!cfg.looksUpIceServers && making.PeerThrows?)
    ensures FailedToCreate(s, Next(cfg, s, CallConnect(newId, valid, making)), IdOf(s, newId))
  {
    var id := IdOf(s, newId);
    var begun := ArmTimeout(Started(s, id), WAITING_FOR_RESPONSE, cfg.responseTimeoutMs);
    StartedInv(s, id, cfg);
    NewControllerKeepsInv(begun);
    FailEnds(NewController(begun), true, FAILED_TO_CREATE_PEER);
    Associate(s.w.log, [Attempt(id)], [Disconnect(id, ConnectError(4))]);
    assert [Attempt(id)] + [Disconnect(id, ConnectError(4))] == [Attempt(id), Disconnect(id, ConnectError(4))];
  }

  /** A peer without channels is kept, with no offer to go on with, until the timer ends the attempt. */
  lemma ChannelsFail(cfg: Config, s: State, newId: nat)
    requires Inv(s) && CanBegin(s, newId) && (s.externalSignaling || s.hasAddress) && !cfg.looksUpIceServers
    ensures var t := Next(cfg, s, CallConnect(newId, true, ChannelsThrow));
            && UnderWay(cfg, s, t, IdOf(s, newId))
            && t.connection == Some(|s.w.addressOf|) && t.w.offers == s.w.offers && t.w.sent == s.w.sent
  {
    NextKeepsInv(cfg, s, CallConnect(newId, true, ChannelsThrow));
  }

  /** An exchange that fails closes the client, unless the offer was aborted. */
  lemma ExchangeFailureCloses(cfg: Config, s: State, c: nat, p: Peer, making: Making)
    requires Inv(s) && c in s.w.offers && s.w.offers[c] == Exchanging(p) && s.connection == Some(p)
    ensures var t := Next(cfg, s, OfferContinues(c, Throws, making));
            if c in s.w.aborted then t == Dropped(s, c)
            else
              && t.closed && t.connection.None? && t.timer.None? && t.w.sent == s.w.sent
              && t.w.log == s.w.log + [Disconnect(s.connectionId, Other("HTTP signalling failed"))]
  {
    DropOfferKeepsInv(s, c);
    CloseIs(Dropped(s, c), "HTTP signalling failed");
  }

  /** A response is remembered if it is the server's, and otherwise ignored. */
  lemma ResponseIsRemembered(cfg: Config, s: State, sender: nat, valid: bool, making: Making)
    requires Inv(s)
    ensures var t := Next(cfg, s, ReceiveResponse(sender, valid, making));
            if s.closed || sender != cfg.serverNetworkId then t == s
            else t.hasAddress && (!s.pendingConnect ==> t == s.(hasAddress := true))
  {
    if !s.closed && s.pendingConnect && sender == cfg.serverNetworkId {
      DiscoveredInv(cfg, s);
      CreateOfferKeepsFlag(cfg, Discovered(cfg, s.(hasAddress := true)), valid, making);
    }
  }

  /** A candidate is sent exactly for the current peer of a client that does not signal over HTTP. */
  lemma GatheringSendsIff(cfg: Config, s: State, p: Peer)
    requires Inv(s)
    ensures Next(cfg, s, PeerGathers(p))
         == if !cfg.http && s.connection == Some(p)
            then s.(w := s.w.(sent := s.w.sent + [LocalCandidate(s.connectionId)])) else s
  {
  }

  /** A client that is closed, connecting or connected ignores `connect`; a new signal handler is taken at any time. */
  lemma BusyIgnoresConnect(cfg: Config, s: State, newId: nat, valid: bool, making: Making)
    requires Inv(s)
    ensures !CanBegin(s, newId) ==> Next(cfg, s, CallConnect(newId, valid, making)) == s
    ensures Next(cfg, s, SetSignalHandler) == s.(externalSignaling := true)
  {
  }

  /** A candidate that was added changes nothing, and neither does an answer that was applied to a connected peer. */
  lemma SuccessIsQuiet(cfg: Config, s: State, call: Call)
    requires Inv(s) && call in s.w.calls && (call.AddingCandidate? || s.hasEmittedConnected)
    ensures Next(cfg, s, CallContinues(call, true)) == Settled(s, call)
  {
  }
}
