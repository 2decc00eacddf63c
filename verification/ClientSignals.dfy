/** What the client sends over every run: requests, candidates and errors, and under which ids. */
module ClientSignals {
  import opened Wrappers
  import opened ClientModel
  import opened ClientProofs
  import opened ClientEvents

  /** The current attempt has nothing left that could send its request. */
  ghost predicate Spent(s: State) {
    && !s.pendingConnect
    && forall c | c in s.w.offers ::
         if s.w.offers[c].LookingUp? then c in s.w.aborted
         else s.w.offers[c].Exchanging? || s.connection != PeerOf(s.w.offers[c])
  }

  ghost predicate Requested(s: State, id: nat) {
    exists i | 0 <= i < |s.w.sent| :: s.w.sent[i] == Request(id)
  }

  /** Every signal bears an id that was in use; no id has two requests, and each is that of an attempt. */
  ghost predicate Accounted(s: State) {
    && (forall i | 0 <= i < |s.w.sent| :: s.w.sent[i].id in s.w.usedIds)
    && (forall i, j | 0 <= i < j < |s.w.sent| && s.w.sent[i].Request? && s.w.sent[j].Request? ::
          s.w.sent[i].id != s.w.sent[j].id)
    && (forall i | 0 <= i < |s.w.sent| && s.w.sent[i].Request? :: Attempt(s.w.sent[i].id) in s.w.log)
    && (s.attempted ==> Attempt(s.connectionId) in s.w.log)
    && (!s.attempted ==> forall i | 0 <= i < |s.w.sent| :: !s.w.sent[i].Request?)
    && (Requested(s, s.connectionId) ==> Spent(s))
  }

  // ---------------------------------------------------------------------------------------------------------
  // One step

  /** The step that sends the request: the current offer has its local description, and signals are not over HTTP. */
  predicate SendsRequest(cfg: Config, s: State, step: Step) {
    && step.OfferContinues? && step.controller in s.w.offers
    && s.w.offers[step.controller].Describing? && IsCurrent(s, s.w.offers[step.controller].peer)
    && !cfg.http && (step.outcome.Succeeds? || step.outcome.SignalThrows?)
  }

  /** A step adds at most a request, and then an error or a candidate, under the current id. */
  ghost predicate Adds(s: State, t: State, requests: bool) {
    && s.w.sent <= t.w.sent
    && (forall i | |s.w.sent| <= i < |t.w.sent| :: t.w.sent[i].id == t.connectionId)
    && (forall i | |s.w.sent| <= i < |t.w.sent| && t.w.sent[i].Request? :: requests && i == |s.w.sent|)
    && (requests ==> |t.w.sent| > |s.w.sent| && t.w.sent[|s.w.sent|] == Request(s.connectionId))
  }

  lemma FailAdds(s: State, named: bool, code: nat)
    requires Inv(s)
    ensures Adds(s, Fail(s, named, code), false) && Fail(s, named, code).connectionId == s.connectionId
  {
    FailEnds(s, named, code);
  }

  lemma MakePeerAdds(s: State, c: nat, making: Making)
    requires Inv(s)
    ensures Adds(s, MakePeer(s, c, making), false) && MakePeer(s, c, making).connectionId == s.connectionId
  {
    FailAdds(s, true, FAILED_TO_CREATE_PEER);
  }

  lemma CreateOfferAdds(cfg: Config, s: State, valid: bool, making: Making)
    requires Inv(s) && s.connecting && s.connection.None?
    ensures Adds(s, CreateOffer(cfg, s, valid, making), false)
    ensures CreateOffer(cfg, s, valid, making).connectionId == s.connectionId
  {
    NewControllerKeepsInv(s);
    FailAdds(NewController(s), true, FAILED_TO_CREATE_PEER);
    MakePeerAdds(NewController(s), s.w.controllers, making);
  }

  lemma ConnectAdds(cfg: Config, s: State, newId: nat, valid: bool, making: Making)
    requires Inv(s)
    ensures Adds(s, Connect(cfg, s, newId, valid, making), false)
  {
    if !s.closed && !s.connecting && s.connection.None? {
      var id := if s.attempted then newId else s.connectionId;
      StartedInv(s, id, cfg);
      CreateOfferAdds(cfg, ArmTimeout(Started(s, id), WAITING_FOR_RESPONSE, cfg.responseTimeoutMs), valid, making);
    }
  }

  lemma ResponseAdds(cfg: Config, s: State, sender: nat, valid: bool, making: Making)
    requires Inv(s)
    ensures Adds(s, HandleResponse(cfg, s, sender, valid, making), false)
  {
    if !s.closed && s.pendingConnect && sender == cfg.serverNetworkId {
      var t := s.(hasAddress := true, pendingConnect := false);
      assert Inv(t);
      ArmKeepsInv(t, WAITING_FOR_RESPONSE, cfg.responseTimeoutMs);
      CreateOfferAdds(cfg, ArmTimeout(t, WAITING_FOR_RESPONSE, cfg.responseTimeoutMs), valid, making);
    }
  }

  lemma AnswerAdds(s: State, named: bool)
    requires Inv(s)
    ensures Adds(s, HandleAnswer(s, named), false) && HandleAnswer(s, named).connectionId == s.connectionId
  {
    ClearKeepsInv(s);
    FailAdds(ClearTimeouts(s), named, FAILED_TO_SET_REMOTE);
  }

  lemma ClosingAdds(s: State, p: Peer, reason: Reason)
    requires Inv(s) && p < |s.w.addressOf|
    ensures Adds(s, CloseConnection(s, p, reason), false)
  {
    CloseEnds(s, p, reason);
  }

  lemma SignalAdds(cfg: Config, s: State, signal: Signal)
    requires Inv(s)
    ensures Adds(s, HandleSignal(cfg, s, signal), false)
  {
    AnswerAdds(s, signal.networkId.Some?);
    if s.connection.Some? && signal.kind.ConnectErrorSignal? {
      ClosingAdds(s, s.connection.value, RemoteError(signal.kind.data));
    }
  }

  lemma SendOfferAdds(s: State, outcome: Outcome)
    requires Inv(s) && !outcome.Throws?
    ensures Adds(s, SendOffer(s, outcome), !outcome.IdentityThrows?)
  {
    FailAdds(s, true, SIGNALING_FAILED);
    SentKeepsInv(s, Request(s.connectionId));
    FailAdds(Sent(s, Request(s.connectionId)), true, SIGNALING_FAILED);
  }

  lemma LocalAdds(cfg: Config, s: State, c: nat, p: Peer, outcome: Outcome)
    requires Inv(s)
    ensures Adds(s, AfterLocal(cfg, s, c, p, outcome),
                 IsCurrent(s, p) && !cfg.http && (outcome.Succeeds? || outcome.SignalThrows?))
  {
    DropOfferKeepsInv(s, c);
    FailAdds(Dropped(s, c), true, FAILED_TO_SET_LOCAL);
    if !outcome.Throws? {
      SendOfferAdds(Dropped(s, c), outcome);
    }
  }

  lemma LookupAdds(s: State, c: nat, outcome: Outcome, making: Making)
    requires Inv(s)
    ensures Adds(s, AfterLookup(s, c, outcome, making), false)
  {
    DropOfferKeepsInv(s, c);
    FailAdds(Dropped(s, c), true, FAILED_TO_CREATE_PEER);
    MakePeerAdds(Dropped(s, c), c, making);
  }

  lemma MadeOfferAdds(s: State, c: nat, p: Peer, outcome: Outcome)
    requires Inv(s)
    ensures Adds(s, AfterOffer(s, c, p, outcome), false)
  {
    DropOfferKeepsInv(s, c);
    FailAdds(Dropped(s, c), true, FAILED_TO_CREATE_OFFER);
  }

  lemma ExchangeAdds(s: State, c: nat, p: Peer, outcome: Outcome)
    requires Inv(s)
    ensures Adds(s, AfterExchange(s, c, p, outcome), false)
  {
    DropOfferKeepsInv(s, c);
    AnswerAdds(Dropped(s, c), true);
    if !s.closed {
      CloseIs(Dropped(s, c), "HTTP signalling failed");
    }
  }

  lemma CallAdds(cfg: Config, s: State, call: Call, ok: bool)
    requires Inv(s) && call in s.w.calls
    ensures Adds(s, ResumeCall(cfg, s, call, ok), false)
  {
    DropCallKeepsInv(s, call);
    FailAdds(Settled(s, call), call.named, if call.Answering? then FAILED_TO_SET_REMOTE else CANDIDATE_ADD);
  }

  lemma OfferAdds(cfg: Config, s: State, c: nat, outcome: Outcome, making: Making)
    requires Inv(s) && c in s.w.offers
    ensures Adds(s, ResumeOffer(cfg, s, c, outcome, making), SendsRequest(cfg, s, OfferContinues(c, outcome, making)))
  {
    match s.w.offers[c]
    case LookingUp => LookupAdds(s, c, outcome, making);
    case Offering(p) => MadeOfferAdds(s, c, p, outcome);
    case Describing(p) => LocalAdds(cfg, s, c, p, outcome);
    case Exchanging(p) => ExchangeAdds(s, c, p, outcome);
  }

  lemma NextAdds(cfg: Config, s: State, step: Step)
    requires Inv(s)
    ensures Adds(s, Next(cfg, s, step), SendsRequest(cfg, s, step))
  {
    match step
    case CallConnect(newId, valid, making) => ConnectAdds(cfg, s, newId, valid, making);
    case CallClose(why) => if !s.closed { CloseIs(s, why); }
    case SetSignalHandler =>
    case ReceiveResponse(sender, valid, making) => ResponseAdds(cfg, s, sender, valid, making);
    case ReceiveSignal(signal) => SignalAdds(cfg, s, signal);
    case OfferContinues(c, outcome, making) => if c in s.w.offers { OfferAdds(cfg, s, c, outcome, making); }
    case CallContinues(call, ok) => if call in s.w.calls { CallAdds(cfg, s, call, ok); }
    case PeerGathers(p) =>
    case PeerConnects(p) =>
    case PeerFails(p) => if p < |s.w.addressOf| { ClosingAdds(s, p, Disconnected); }
    case ConnectionCloses(p, reason) => if p < |s.w.addressOf| { ClosingAdds(s, p, reason); }
    case TimerFires => if s.timer.Some? { FailAdds(s, true, s.timer.value); }
  }

  // ---------------------------------------------------------------------------------------------------------
  // What is spent stays spent

  /** Ending an attempt leaves nothing that could send. */
  lemma FailSpends(s: State, named: bool, code: nat)
    requires Inv(s)
    ensures Spent(Fail(s, named, code))
  {
    FailEnds(s, named, code);
  }

  lemma ClosingKeepsSpent(s: State, p: Peer, reason: Reason)
    requires Inv(s) && Spent(s) && p < |s.w.addressOf|
    ensures Spent(CloseConnection(s, p, reason))
  {
    CloseEnds(s, p, reason);
  }

  lemma SignalKeepsSpent(cfg: Config, s: State, signal: Signal)
    requires Inv(s) && Spent(s)
    ensures Spent(HandleSignal(cfg, s, signal))
  {
    AnswerKeepsSpent(s, signal.networkId.Some?);
    if s.connection.Some? && signal.kind.ConnectErrorSignal? {
      ClosingKeepsSpent(s, s.connection.value, RemoteError(signal.kind.data));
    }
  }

  /** A spent attempt has only superseded offers and an exchange left to resume. */
  lemma OfferKeepsSpent(cfg: Config, s: State, c: nat, outcome: Outcome, making: Making)
    requires Inv(s) && Spent(s) && c in s.w.offers
    ensures Spent(ResumeOffer(cfg, s, c, outcome, making))
  {
    if s.w.offers[c].Exchanging? {
      ExchangeKeepsSpent(s, c, s.w.offers[c].peer, outcome);
    } else {
      SpentIsSuperseded(cfg, s, c, outcome, making);
      DropKeepsSpent(s, c);
    }
  }

  lemma SpentIsSuperseded(cfg: Config, s: State, c: nat, outcome: Outcome, making: Making)
    requires Inv(s) && Spent(s) && c in s.w.offers && !s.w.offers[c].Exchanging?
    ensures ResumeOffer(cfg, s, c, outcome, making) == Dropped(s, c)
  {
    SupersededOfferIsInert(cfg, s, c, outcome, making);
  }

  lemma DropKeepsSpent(s: State, c: nat)
    requires Spent(s)
    ensures Spent(Dropped(s, c))
  {
  }

  lemma ExchangeKeepsSpent(s: State, c: nat, p: Peer, outcome: Outcome)
    requires Inv(s) && Spent(s)
    ensures Spent(AfterExchange(s, c, p, outcome))
  {
    var t := Dropped(s, c);
    DropOfferKeepsInv(s, c);
    if outcome.Throws? {
      if !s.closed {
        CloseIs(t, "HTTP signalling failed");
      }
    } else {
      AnswerKeepsSpent(t, true);
    }
  }

  lemma AnswerKeepsSpent(s: State, named: bool)
    requires Inv(s) && Spent(s)
    ensures Spent(HandleAnswer(s, named))
  {
    ClearKeepsInv(s);
    FailSpends(ClearTimeouts(s), named, FAILED_TO_SET_REMOTE);
  }

  lemma CallKeepsSpent(cfg: Config, s: State, call: Call, ok: bool)
    requires Inv(s) && Spent(s) && call in s.w.calls
    ensures Spent(ResumeCall(cfg, s, call, ok))
  {
    DropCallKeepsInv(s, call);
    FailSpends(Settled(s, call), call.named, if call.Answering? then FAILED_TO_SET_REMOTE else CANDIDATE_ADD);
  }

  lemma NextKeepsSpent(cfg: Config, s: State, step: Step)
    requires Inv(s) && Spent(s) && !step.CallConnect?
    ensures Spent(Next(cfg, s, step)) && !SendsRequest(cfg, s, step)
  {
    match step
    case CallClose(why) => if !s.closed { CloseIs(s, why); }
    case SetSignalHandler =>
    case ReceiveResponse(sender, valid, making) =>
    case ReceiveSignal(signal) => SignalKeepsSpent(cfg, s, signal);
    case OfferContinues(c, outcome, making) => if c in s.w.offers { OfferKeepsSpent(cfg, s, c, outcome, making); }
    case CallContinues(call, ok) => if call in s.w.calls { CallKeepsSpent(cfg, s, call, ok); }
    case PeerGathers(p) =>
    case PeerConnects(p) =>
    case PeerFails(p) => if p < |s.w.addressOf| { ClosingKeepsSpent(s, p, Disconnected); }
    case ConnectionCloses(p, reason) => if p < |s.w.addressOf| { ClosingKeepsSpent(s, p, reason); }
    case TimerFires => if s.timer.Some? { FailSpends(s, true, s.timer.value); }
  }

  /** Sending the request leaves nothing that could send another. */
  lemma RequestSpends(cfg: Config, s: State, step: Step)
    requires Inv(s) && SendsRequest(cfg, s, step)
    ensures Spent(Next(cfg, s, step))
  {
    var c := step.controller;
    var t := Dropped(s, c);
    DropOfferKeepsInv(s, c);
    SentKeepsInv(t, Request(s.connectionId));
    FailSpends(Sent(t, Request(s.connectionId)), true, SIGNALING_FAILED);
  }

  // ---------------------------------------------------------------------------------------------------------
  // Runs

  lemma LogKeepsAttempts(s: State, t: State)
    requires s.w.log <= t.w.log
    ensures forall id | Attempt(id) in s.w.log :: Attempt(id) in t.w.log
  {
  }

  /** How the accounts go on from one step to the next, given what the step did. */
  lemma AccountsGoOn(s: State, t: State, requests: bool)
    requires Accounted(s) && Adds(s, t, requests) && s.w.log <= t.w.log
    requires s.w.usedIds <= t.w.usedIds && t.connectionId in t.w.usedIds
    requires t.attempted ==> Attempt(t.connectionId) in t.w.log
    requires s.attempted ==> t.attempted
    requires requests ==> t.connectionId == s.connectionId && t.attempted && !Requested(s, s.connectionId) && Spent(t)
    requires !requests && Requested(s, t.connectionId) ==> Spent(t)
    ensures Accounted(t)
  {
    LogKeepsAttempts(s, t);
    assert forall i | 0 <= i < |s.w.sent| :: t.w.sent[i] == s.w.sent[i];
    if Requested(t, t.connectionId) && !requests {
      var i :| 0 <= i < |t.w.sent| && t.w.sent[i] == Request(t.connectionId);
      assert i < |s.w.sent| && s.w.sent[i] == Request(t.connectionId);
    }
  }

  lemma NextKeepsAccounts(cfg: Config, s: State, step: Step)
    requires Inv(s) && Accounted(s)
    ensures Accounted(Next(cfg, s, step))
  {
    var t := Next(cfg, s, step);
    NextKeepsInv(cfg, s, step);
    NextAdds(cfg, s, step);
    if s.closed {
      ClosedIsSilent(cfg, s, step);
    } else {
      var m := NextDoes(cfg, s, step);
      if m.Begins? || m.BeginsAndEnds? {
        assert t.w.log[|s.w.log|] == Attempt(t.connectionId);
        assert !Requested(s, t.connectionId);
      }
      LogKeepsAttempts(s, t);
    }
    if Requested(s, t.connectionId) && t.connectionId == s.connectionId {
      StaysSpent(cfg, s, step);
    }
    if SendsRequest(cfg, s, step) {
      RequestSpends(cfg, s, step);
    }
    AccountsGoOn(s, t, SendsRequest(cfg, s, step));
  }

  lemma StaysSpent(cfg: Config, s: State, step: Step)
    requires Inv(s) && Accounted(s) && Requested(s, s.connectionId)
    requires Next(cfg, s, step).connectionId == s.connectionId
    ensures Spent(Next(cfg, s, step)) && !SendsRequest(cfg, s, step)
  {
    if step.CallConnect? {
      ReconnectIsNothing(cfg, s, step);
    } else {
      NextKeepsSpent(cfg, s, step);
    }
  }

  /** A call of `connect` that leaves the id as it is, after a request under that id, does nothing. */
  lemma ReconnectIsNothing(cfg: Config, s: State, step: Step)
    requires Inv(s) && s.attempted && step.CallConnect?
    requires Next(cfg, s, step).connectionId == s.connectionId
    ensures Next(cfg, s, step) == s
  {
    if !(s.closed || s.connecting || s.connection.Some? || step.newId in s.w.usedIds) {
      StartedInv(s, step.newId, cfg);
      CreateOfferAdds(cfg, ArmTimeout(Started(s, step.newId), WAITING_FOR_RESPONSE, cfg.responseTimeoutMs), step.valid,
                      step.making);
    }
  }

  /**
   Over every run, each attempt sends at most one request, under its own id; and every candidate and error bears an id
   the client has used.
   */
  lemma {:induction false} RunKeepsAccounts(cfg: Config, s: State, steps: seq<Step>)
    requires Inv(s) && Accounted(s)
    ensures Accounted(Run(cfg, s, steps))
    decreases |steps|
  {
    if steps != [] {
      NextKeepsInv(cfg, s, steps[0]);
      NextKeepsAccounts(cfg, s, steps[0]);
      RunKeepsAccounts(cfg, Next(cfg, s, steps[0]), steps[1..]);
    }
  }

  /** The same of a new client, said of what it sends. */
  lemma OneRequestPerAttempt(cfg: Config, id: nat, steps: seq<Step>)
    ensures Inv(Initial(cfg, id))
    ensures var s := Run(cfg, Initial(cfg, id), steps);
            && (forall i, j | 0 <= i < j < |s.w.sent| && s.w.sent[i].Request? && s.w.sent[j].Request? ::
                  s.w.sent[i].id != s.w.sent[j].id)
            && (forall i | 0 <= i < |s.w.sent| && s.w.sent[i].Request? :: Attempt(s.w.sent[i].id) in s.w.log)
            && (forall i | 0 <= i < |s.w.sent| :: s.w.sent[i].id in s.w.usedIds)
  {
    InitialInv(cfg, id);
    RunKeepsAccounts(cfg, Initial(cfg, id), steps);
  }

  /** Over every run, a client that has been closed emits nothing, sends nothing and has neither pair nor timer. */
  lemma {:induction false} ClosedForGood(cfg: Config, s: State, steps: seq<Step>)
    requires Inv(s) && s.closed
    ensures var t := Run(cfg, s, steps);
            Silenced(s, t) && t.connection.None? && t.rtcConnection.None? && t.timer.None?
    decreases |steps|
  {
    if steps != [] {
      NextKeepsInv(cfg, s, steps[0]);
      ClosedIsSilent(cfg, s, steps[0]);
      ClosedForGood(cfg, Next(cfg, s, steps[0]), steps[1..]);
    }
  }
}
