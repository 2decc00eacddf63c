/** How attempts come to an end: the timer of every attempt, and how often it can be set again. */
module ClientProgress {
  import opened Wrappers
  import opened ClientModel
  import opened ClientProofs
  import opened ClientEvents

  // ---------------------------------------------------------------------------------------------------------
  // Every attempt has a timer

  /** How many answers for the current peer are being applied. */
  function InFlight(s: State): nat {
    if s.rtcConnection.None? then 0
    else
      var p := s.rtcConnection.value;
      s.w.calls[Answering(p, true)] + s.w.calls[Answering(p, false)]
  }

  /** With positive timeouts an attempt has a timer, or an answer in flight that will set one or end the attempt. */
  ghost predicate Bounded(cfg: Config, s: State) {
    s.connecting && cfg.responseTimeoutMs > 0 && cfg.inactivityTimeoutMs > 0 ==>
      s.timer.Some? || InFlight(s) > 0
  }

  lemma CreateOfferIsBounded(cfg: Config, s: State, valid: bool, making: Making)
    requires Inv(s) && s.connection.None? && s.connecting && s.timer.Some?
    ensures Bounded(cfg, CreateOffer(cfg, s, valid, making))
  {
    FailEnds(NewController(s), true, FAILED_TO_CREATE_PEER);
  }

  lemma FailIsBounded(cfg: Config, s: State, named: bool, code: nat)
    requires Inv(s)
    ensures Bounded(cfg, Fail(s, named, code))
  {
    FailEnds(s, named, code);
  }

  lemma AnswerIsBounded(cfg: Config, s: State, named: bool)
    requires Inv(s)
    ensures Bounded(cfg, HandleAnswer(s, named))
  {
    ClearKeepsInv(s);
    FailIsBounded(cfg, ClearTimeouts(s), named, FAILED_TO_SET_REMOTE);
  }

  lemma SendOfferIsBounded(cfg: Config, s: State, outcome: Outcome)
    requires Inv(s) && Bounded(cfg, s)
    ensures Bounded(cfg, SendOffer(s, outcome))
  {
    FailIsBounded(cfg, s, true, SIGNALING_FAILED);
    SentKeepsInv(s, Request(s.connectionId));
    FailIsBounded(cfg, Sent(s, Request(s.connectionId)), true, SIGNALING_FAILED);
  }

  lemma LocalIsBounded(cfg: Config, s: State, c: nat, p: Peer, outcome: Outcome)
    requires Inv(s) && Bounded(cfg, s) && c in s.w.offers && s.w.offers[c] == Describing(p)
    ensures Bounded(cfg, AfterLocal(cfg, s, c, p, outcome))
  {
    DropOfferKeepsInv(s, c);
    FailIsBounded(cfg, Dropped(s, c), true, FAILED_TO_SET_LOCAL);
    SendOfferIsBounded(cfg, Dropped(s, c), outcome);
  }

  lemma LookupIsBounded(cfg: Config, s: State, c: nat, outcome: Outcome, making: Making)
    requires Inv(s) && Bounded(cfg, s) && c in s.w.offers && s.w.offers[c].LookingUp?
    ensures Bounded(cfg, AfterLookup(s, c, outcome, making))
  {
    DropOfferKeepsInv(s, c);
    FailIsBounded(cfg, Dropped(s, c), true, FAILED_TO_CREATE_PEER);
  }

  lemma OfferIsBounded(cfg: Config, s: State, c: nat, outcome: Outcome, making: Making)
    requires Inv(s) && Bounded(cfg, s) && c in s.w.offers
    ensures Bounded(cfg, ResumeOffer(cfg, s, c, outcome, making))
  {
    var t := Dropped(s, c);
    DropOfferKeepsInv(s, c);
    match s.w.offers[c]
    case LookingUp => LookupIsBounded(cfg, s, c, outcome, making);
    case Offering(p) => FailIsBounded(cfg, t, true, FAILED_TO_CREATE_OFFER);
    case Describing(p) => LocalIsBounded(cfg, s, c, p, outcome);
    case Exchanging(p) => ExchangeIsBounded(cfg, s, c, p, outcome);
  }

  lemma ExchangeIsBounded(cfg: Config, s: State, c: nat, p: Peer, outcome: Outcome)
    requires Inv(s) && Bounded(cfg, s)
    ensures Bounded(cfg, AfterExchange(s, c, p, outcome))
  {
    var t := Dropped(s, c);
    DropOfferKeepsInv(s, c);
    if !outcome.Throws? {
      AnswerIsBounded(cfg, t, true);
    } else if !s.closed {
      CloseIs(t, "HTTP signalling failed");
    }
  }

  lemma CallIsBounded(cfg: Config, s: State, call: Call, ok: bool)
    requires Inv(s) && Bounded(cfg, s) && call in s.w.calls
    ensures Bounded(cfg, ResumeCall(cfg, s, call, ok))
  {
    var t := Settled(s, call);
    FailEnds(t, call.named, if call.Answering? then FAILED_TO_SET_REMOTE else CANDIDATE_ADD);
  }

  lemma ConnectIsBounded(cfg: Config, s: State, newId: nat, valid: bool, making: Making)
    requires Inv(s) && Bounded(cfg, s)
    ensures Bounded(cfg, Connect(cfg, s, newId, valid, making))
  {
    if !s.closed && !s.connecting && s.connection.None? && cfg.responseTimeoutMs > 0 {
      var id := if s.attempted then newId else s.connectionId;
      StartedInv(s, id, cfg);
      CreateOfferIsBounded(cfg, ArmTimeout(Started(s, id), WAITING_FOR_RESPONSE, cfg.responseTimeoutMs), valid, making);
    }
  }

  lemma ResponseIsBounded(cfg: Config, s: State, sender: nat, valid: bool, making: Making)
    requires Inv(s) && Bounded(cfg, s)
    ensures Bounded(cfg, HandleResponse(cfg, s, sender, valid, making))
  {
    if !s.closed && s.pendingConnect && sender == cfg.serverNetworkId && cfg.responseTimeoutMs > 0 {
      var t := s.(hasAddress := true, pendingConnect := false);
      assert Inv(t);
      ArmKeepsInv(t, WAITING_FOR_RESPONSE, cfg.responseTimeoutMs);
      CreateOfferIsBounded(cfg, ArmTimeout(t, WAITING_FOR_RESPONSE, cfg.responseTimeoutMs), valid, making);
    }
  }

  lemma ClosingIsBounded(cfg: Config, s: State, p: Peer, reason: Reason)
    requires Inv(s) && Bounded(cfg, s) && p < |s.w.addressOf|
    ensures Bounded(cfg, CloseConnection(s, p, reason))
  {
    CloseEnds(s, p, reason);
  }

  lemma SignalIsBounded(cfg: Config, s: State, signal: Signal)
    requires Inv(s) && Bounded(cfg, s)
    ensures Bounded(cfg, HandleSignal(cfg, s, signal))
  {
    AnswerIsBounded(cfg, s, signal.networkId.Some?);
    if s.connection.Some? && signal.kind.ConnectErrorSignal? {
      ClosingIsBounded(cfg, s, s.connection.value, RemoteError(signal.kind.data));
    }
  }

  lemma NextIsBounded(cfg: Config, s: State, step: Step)
    requires Inv(s) && Bounded(cfg, s)
    ensures Bounded(cfg, Next(cfg, s, step))
  {
    match step
    case CallConnect(newId, valid, making) => ConnectIsBounded(cfg, s, newId, valid, making);
    case CallClose(why) => if !s.closed { CloseIs(s, why); }
    case SetSignalHandler =>
    case ReceiveResponse(sender, valid, making) => ResponseIsBounded(cfg, s, sender, valid, making);
    case ReceiveSignal(signal) => SignalIsBounded(cfg, s, signal);
    case OfferContinues(c, outcome, making) => if c in s.w.offers { OfferIsBounded(cfg, s, c, outcome, making); }
    case CallContinues(call, ok) => if call in s.w.calls { CallIsBounded(cfg, s, call, ok); }
    case PeerGathers(p) =>
    case PeerConnects(p) =>
    case PeerFails(p) => if p < |s.w.addressOf| { ClosingIsBounded(cfg, s, p, Disconnected); }
    case ConnectionCloses(p, reason) => if p < |s.w.addressOf| { ClosingIsBounded(cfg, s, p, reason); }
    case TimerFires => if s.timer.Some? { FailIsBounded(cfg, s, true, s.timer.value); }
  }

  /** Every state that a run reaches is `Bounded`. */
  lemma {:induction false} RunIsBounded(cfg: Config, s: State, steps: seq<Step>)
    requires Inv(s) && Bounded(cfg, s)
    ensures Bounded(cfg, Run(cfg, s, steps))
    decreases |steps|
  {
    if steps != [] {
      NextKeepsInv(cfg, s, steps[0]);
      NextIsBounded(cfg, s, steps[0]);
      RunIsBounded(cfg, Next(cfg, s, steps[0]), steps[1..]);
    }
  }

  /** An armed timer belongs to an attempt of an open client, and its firing ends that attempt with one disconnect. */
  lemma TimerEndsAnAttempt(cfg: Config, s: State)
    requires Inv(s) && s.timer.Some?
    ensures s.connecting && !s.closed
    ensures var code := s.timer.value;
            Next(cfg, s, TimerFires) == Sent(Ended(s, ConnectError(code)), ErrorSignal(s.connectionId, code))
  {
    FailEnds(s, true, s.timer.value);
  }

  // ---------------------------------------------------------------------------------------------------------
  // How often the timer is set again

  /** What can still set the timer again when no further answer is handled. */
  function Budget(s: State): nat {
    InFlight(s) + if s.pendingConnect then 1 else 0
  }

  /** An answer is handled: from a signal, or from the HTTP exchange. */
  predicate HandlesAnswer(cfg: Config, s: State, step: Step) {
    || (step.ReceiveSignal? && step.signal.kind.ConnectResponse? && IsExpected(cfg, s.connectionId, step.signal))
    || (step.OfferContinues? && step.controller in s.w.offers && s.w.offers[step.controller].Exchanging?
        && !step.outcome.Throws?)
  }

  ghost predicate NoAnswers(cfg: Config, s: State, steps: seq<Step>)
    requires Inv(s)
    decreases |steps|
  {
    steps == [] ||
    (NextKeepsInv(cfg, s, steps[0]);
     !HandlesAnswer(cfg, s, steps[0]) && NoAnswers(cfg, Next(cfg, s, steps[0]), steps[1..]))
  }

  /** The attempt of `s` has been reported connected or disconnected, or the client was closed. */
  predicate IsOver(s: State, t: State) {
    t.closed || t.w.log != s.w.log
  }

  /** Setting the timer is paid for. */
  predicate Pays(s: State, t: State) {
    t.w.armed + Budget(t) <= s.w.armed + Budget(s)
  }

  lemma FailIsOver(s: State, named: bool, code: nat)
    requires Inv(s)
    ensures IsOver(s, Fail(s, named, code))
  {
    FailEnds(s, named, code);
  }

  lemma MakePeerPays(s: State, c: nat, making: Making)
    requires Inv(s) && s.connection.None?
    ensures IsOver(s, MakePeer(s, c, making)) || Pays(s, MakePeer(s, c, making))
  {
    FailIsOver(s, true, FAILED_TO_CREATE_PEER);
  }

  lemma CreateOfferPays(cfg: Config, s: State, valid: bool, making: Making)
    requires Inv(s) && s.connecting && s.connection.None?
    ensures IsOver(s, CreateOffer(cfg, s, valid, making)) || Pays(s, CreateOffer(cfg, s, valid, making))
  {
    NewControllerKeepsInv(s);
    FailIsOver(NewController(s), true, FAILED_TO_CREATE_PEER);
    MakePeerPays(NewController(s), s.w.controllers, making);
  }

  lemma ResponsePays(cfg: Config, s: State, sender: nat, valid: bool, making: Making)
    requires Inv(s)
    ensures var t := HandleResponse(cfg, s, sender, valid, making); IsOver(s, t) || Pays(s, t)
  {
    if !s.closed && s.pendingConnect && sender == cfg.serverNetworkId {
      var t := s.(hasAddress := true, pendingConnect := false);
      assert Inv(t);
      ArmKeepsInv(t, WAITING_FOR_RESPONSE, cfg.responseTimeoutMs);
      CreateOfferPays(cfg, ArmTimeout(t, WAITING_FOR_RESPONSE, cfg.responseTimeoutMs), valid, making);
    }
  }

  lemma OfferPays(cfg: Config, s: State, c: nat, outcome: Outcome, making: Making)
    requires Inv(s) && c in s.w.offers && (s.w.offers[c].Exchanging? ==> outcome.Throws?)
    ensures var t := ResumeOffer(cfg, s, c, outcome, making); IsOver(s, t) || Pays(s, t)
  {
    match s.w.offers[c]
    case LookingUp => LookupPays(s, c, outcome, making);
    case Offering(p) => MadeOfferPays(s, c, p, outcome);
    case Describing(p) => LocalPays(cfg, s, c, p, outcome);
    case Exchanging(p) => ExchangePays(s, c, p, outcome);
  }

  lemma MadeOfferPays(s: State, c: nat, p: Peer, outcome: Outcome)
    requires Inv(s)
    ensures IsOver(s, AfterOffer(s, c, p, outcome)) || Pays(s, AfterOffer(s, c, p, outcome))
  {
    DropOfferKeepsInv(s, c);
    FailIsOver(Dropped(s, c), true, FAILED_TO_CREATE_OFFER);
  }

  lemma LocalPays(cfg: Config, s: State, c: nat, p: Peer, outcome: Outcome)
    requires Inv(s)
    ensures IsOver(s, AfterLocal(cfg, s, c, p, outcome)) || Pays(s, AfterLocal(cfg, s, c, p, outcome))
  {
    DropOfferKeepsInv(s, c);
    FailIsOver(Dropped(s, c), true, FAILED_TO_SET_LOCAL);
    SendOfferPays(Dropped(s, c), outcome);
  }

  /** An exchange that failed sets no timer: the client closes, or nothing happens. */
  lemma ExchangePays(s: State, c: nat, p: Peer, outcome: Outcome)
    requires Inv(s) && outcome.Throws?
    ensures IsOver(s, AfterExchange(s, c, p, outcome)) || Pays(s, AfterExchange(s, c, p, outcome))
  {
  }

  lemma LookupPays(s: State, c: nat, outcome: Outcome, making: Making)
    requires Inv(s) && c in s.w.offers && s.w.offers[c].LookingUp?
    ensures var t := AfterLookup(s, c, outcome, making); IsOver(s, t) || Pays(s, t)
  {
    var t := Dropped(s, c);
    DropOfferKeepsInv(s, c);
    FailIsOver(t, true, FAILED_TO_CREATE_PEER);
    if c !in s.w.aborted {
      MakePeerPays(t, c, making);
    }
  }

  lemma SendOfferPays(s: State, outcome: Outcome)
    requires Inv(s)
    ensures IsOver(s, SendOffer(s, outcome)) || Pays(s, SendOffer(s, outcome))
  {
    FailIsOver(s, true, SIGNALING_FAILED);
    SentKeepsInv(s, Request(s.connectionId));
    FailIsOver(Sent(s, Request(s.connectionId)), true, SIGNALING_FAILED);
  }

  /** An answer that was applied sets the timer again, and is one fewer in flight. */
  lemma CallPays(cfg: Config, s: State, call: Call, ok: bool)
    requires Inv(s) && call in s.w.calls
    ensures IsOver(s, ResumeCall(cfg, s, call, ok)) || Pays(s, ResumeCall(cfg, s, call, ok))
  {
    if ok {
      AppliedPays(cfg, s, call);
    } else {
      DropCallKeepsInv(s, call);
      FailIsOver(Settled(s, call), call.named, if call.Answering? then FAILED_TO_SET_REMOTE else CANDIDATE_ADD);
    }
  }

  lemma AppliedPays(cfg: Config, s: State, call: Call)
    requires Inv(s) && call in s.w.calls
    ensures Pays(s, ResumeCall(cfg, s, call, true))
  {
    SettledCounts(s, call);
  }

  lemma SettledCounts(s: State, call: Call)
    requires call in s.w.calls
    ensures InFlight(Settled(s, call)) + (if call.Answering? && s.rtcConnection == Some(call.peer) then 1 else 0)
         == InFlight(s)
  {
  }

  lemma ClosingPays(s: State, p: Peer, reason: Reason)
    requires Inv(s) && p < |s.w.addressOf|
    ensures IsOver(s, CloseConnection(s, p, reason)) || Pays(s, CloseConnection(s, p, reason))
  {
    CloseEnds(s, p, reason);
  }

  lemma SignalPays(cfg: Config, s: State, signal: Signal)
    requires Inv(s) && !HandlesAnswer(cfg, s, ReceiveSignal(signal))
    ensures IsOver(s, HandleSignal(cfg, s, signal)) || Pays(s, HandleSignal(cfg, s, signal))
  {
    if s.connection.Some? && signal.kind.ConnectErrorSignal? {
      ClosingPays(s, s.connection.value, RemoteError(signal.kind.data));
    }
  }

  lemma NextPays(cfg: Config, s: State, step: Step)
    requires Inv(s) && s.connecting && !HandlesAnswer(cfg, s, step)
    ensures IsOver(s, Next(cfg, s, step)) || Pays(s, Next(cfg, s, step))
  {
    match step
    case CallConnect(_, _, _) =>
    case CallClose(why) => CloseIs(s, why);
    case SetSignalHandler =>
    case ReceiveResponse(sender, valid, making) => ResponsePays(cfg, s, sender, valid, making);
    case ReceiveSignal(signal) => SignalPays(cfg, s, signal);
    case OfferContinues(c, outcome, making) => if c in s.w.offers { OfferPays(cfg, s, c, outcome, making); }
    case CallContinues(call, ok) => if call in s.w.calls { CallPays(cfg, s, call, ok); }
    case PeerGathers(p) =>
    case PeerConnects(p) =>
    case PeerFails(p) => if p < |s.w.addressOf| { ClosingPays(s, p, Disconnected); }
    case ConnectionCloses(p, reason) => if p < |s.w.addressOf| { ClosingPays(s, p, reason); }
    case TimerFires => if s.timer.Some? { FailIsOver(s, true, s.timer.value); }
  }

  /** An attempt that is not over goes on under its id. */
  lemma GoesOn(cfg: Config, s: State, step: Step)
    requires Inv(s) && s.connecting && !IsOver(s, Next(cfg, s, step))
    ensures Next(cfg, s, step).connecting && Next(cfg, s, step).connectionId == s.connectionId
  {
    var m := NextDoes(cfg, s, step);
    assert |Emits(s, m)| == 0;
  }

  /** Closing is for good and the log only grows, so what is over stays over. */
  lemma {:induction false} OverForGood(cfg: Config, s: State, t: State, steps: seq<Step>)
    requires Inv(t) && IsOver(s, t) && s.w.log <= t.w.log
    ensures IsOver(s, Run(cfg, t, steps))
    decreases |steps|
  {
    LogOnlyGrows(cfg, t, steps);
    if steps != [] && t.closed {
      NextKeepsInv(cfg, t, steps[0]);
      ClosedIsSilent(cfg, t, steps[0]);
      OverForGood(cfg, s, Next(cfg, t, steps[0]), steps[1..]);
    }
  }

  lemma NextGrows(cfg: Config, s: State, step: Step)
    requires Inv(s)
    ensures s.w.log <= Next(cfg, s, step).w.log
  {
    if s.closed {
      ClosedIsSilent(cfg, s, step);
    } else {
      var _ := NextDoes(cfg, s, step);
    }
  }

  /** How many answers are handled along a run. */
  ghost function Answers(cfg: Config, s: State, steps: seq<Step>): nat
    requires Inv(s)
    decreases |steps|
  {
    if steps == [] then 0
    else
      NextKeepsInv(cfg, s, steps[0]);
      (if HandlesAnswer(cfg, s, steps[0]) then 1 else 0) + Answers(cfg, Next(cfg, s, steps[0]), steps[1..])
  }

  /** Setting the timer is paid for by the budget and the answers that were handled. */
  predicate PaysWith(s: State, t: State, answers: nat) {
    t.w.armed + Budget(t) <= s.w.armed + Budget(s) + answers
  }

  /** An answer that is handled sets no timer yet, and is one more in flight at most. */
  lemma AnswerAddsOne(s: State, named: bool)
    requires Inv(s)
    ensures IsOver(s, HandleAnswer(s, named)) || PaysWith(s, HandleAnswer(s, named), 1)
  {
    ClearKeepsInv(s);
    FailIsOver(ClearTimeouts(s), named, FAILED_TO_SET_REMOTE);
  }

  lemma ExchangeAddsOne(s: State, c: nat, p: Peer, outcome: Outcome)
    requires Inv(s) && !outcome.Throws?
    ensures IsOver(s, AfterExchange(s, c, p, outcome)) || PaysWith(s, AfterExchange(s, c, p, outcome), 1)
  {
    DropOfferKeepsInv(s, c);
    AnswerAddsOne(Dropped(s, c), true);
  }

  lemma HandledAddsOne(cfg: Config, s: State, step: Step)
    requires Inv(s) && HandlesAnswer(cfg, s, step)
    ensures IsOver(s, Next(cfg, s, step)) || PaysWith(s, Next(cfg, s, step), 1)
  {
    if step.ReceiveSignal? {
      AnswerAddsOne(s, step.signal.networkId.Some?);
    } else {
      ExchangeAddsOne(s, step.controller, s.w.offers[step.controller].peer, step.outcome);
    }
  }

  /**
   Over every run, whatever becomes of the answers in flight, the timer of an attempt is set again at most `Budget`
   times and once more for every further answer that is handled. When the budget is used up the timer is armed, and
   firing ends the attempt.
   */
  lemma {:induction false} RearmsAreCounted(cfg: Config, s: State, steps: seq<Step>)
    requires Inv(s) && Bounded(cfg, s) && s.connecting
    requires cfg.responseTimeoutMs > 0 && cfg.inactivityTimeoutMs > 0
    ensures var t := Run(cfg, s, steps);
            IsOver(s, t) ||
            (&& t.connecting && t.connectionId == s.connectionId
             && PaysWith(s, t, Answers(cfg, s, steps))
             && (Budget(t) == 0 ==> t.timer.Some? && IsOver(s, Next(cfg, t, TimerFires))))
    decreases |steps|
  {
    if steps == [] {
      if s.timer.Some? {
        TimerEndsAnAttempt(cfg, s);
      }
    } else {
      var u := Next(cfg, s, steps[0]);
      NextKeepsInv(cfg, s, steps[0]);
      if IsOver(s, u) {
        NextGrows(cfg, s, steps[0]);
        OverForGood(cfg, s, u, steps[1..]);
      } else {
        if HandlesAnswer(cfg, s, steps[0]) {
          HandledAddsOne(cfg, s, steps[0]);
        } else {
          NextPays(cfg, s, steps[0]);
        }
        GoesOn(cfg, s, steps[0]);
        NextIsBounded(cfg, s, steps[0]);
        RearmsAreCounted(cfg, u, steps[1..]);
      }
    }
  }

  lemma {:induction false} NoAnswersIsNone(cfg: Config, s: State, steps: seq<Step>)
    requires Inv(s)
    ensures NoAnswers(cfg, s, steps) <==> Answers(cfg, s, steps) == 0
    decreases |steps|
  {
    if steps != [] {
      NextKeepsInv(cfg, s, steps[0]);
      NoAnswersIsNone(cfg, Next(cfg, s, steps[0]), steps[1..]);
    }
  }

  /** The case without further answers. */
  lemma RearmsAreBounded(cfg: Config, s: State, steps: seq<Step>)
    requires Inv(s) && Bounded(cfg, s) && s.connecting && NoAnswers(cfg, s, steps)
    requires cfg.responseTimeoutMs > 0 && cfg.inactivityTimeoutMs > 0
    ensures var t := Run(cfg, s, steps);
            IsOver(s, t) ||
            (&& t.connecting && t.connectionId == s.connectionId
             && Pays(s, t)
             && (Budget(t) == 0 ==> t.timer.Some? && IsOver(s, Next(cfg, t, TimerFires))))
  {
    RearmsAreCounted(cfg, s, steps);
    NoAnswersIsNone(cfg, s, steps);
  }

  // ---------------------------------------------------------------------------------------------------------
  // Ending and not ending

  /** An answer for the current peer is handled and applied, `n` times. */
  function Rounds(answer: Signal, p: Peer, n: nat): seq<Step> {
    if n == 0 then []
    else
      [ReceiveSignal(answer), CallContinues(Answering(p, answer.networkId.Some?), true)] + Rounds(answer, p, n - 1)
  }

  /**
   The bound is reached: a remote side that keeps answering keeps the attempt going for as long as it likes, for every
   answer sets the timer again.
   */
  lemma {:induction false} AnswersKeepItGoing(cfg: Config, s: State, answer: Signal, n: nat)
    requires Inv(s) && s.connecting && s.connection.Some?
    requires answer.kind.ConnectResponse? && IsExpected(cfg, s.connectionId, answer)
    requires cfg.inactivityTimeoutMs > 0
    ensures var steps := Rounds(answer, s.connection.value, n);
            Answers(cfg, s, steps) == n && KeptGoing(s, Run(cfg, s, steps), n)
    decreases n
  {
    if n > 0 {
      var rest := Rounds(answer, s.connection.value, n - 1);
      var t := OneRound(cfg, s, answer, rest);
      AnswersKeepItGoing(cfg, t, answer, n - 1);
      KeptGoingChains(s, t, Run(cfg, t, rest), n);
    }
  }

  /** The attempt of `s` is still going in `t`, and its timer was set `n` times. */
  predicate KeptGoing(s: State, t: State, n: nat) {
    && t.connecting && t.connection == s.connection && t.connectionId == s.connectionId
    && t.w.log == s.w.log
    && t.w.armed == s.w.armed + n && Budget(t) == Budget(s)
    && t.timer == (if n > 0 then Some(INACTIVITY_TIMEOUT) else s.timer)
  }

  lemma KeptGoingChains(s: State, t: State, u: State, n: nat)
    requires n > 0 && KeptGoing(s, t, 1) && KeptGoing(t, u, n - 1)
    ensures KeptGoing(s, u, n)
  {
  }

  lemma OneRound(cfg: Config, s: State, answer: Signal, rest: seq<Step>) returns (t: State)
    requires Inv(s) && s.connecting && s.connection.Some?
    requires answer.kind.ConnectResponse? && IsExpected(cfg, s.connectionId, answer)
    requires cfg.inactivityTimeoutMs > 0
    ensures var call := Answering(s.connection.value, answer.networkId.Some?);
            var steps := [ReceiveSignal(answer), CallContinues(call, true)] + rest;
            && Inv(t) && Run(cfg, s, steps) == Run(cfg, t, rest)
            && Answers(cfg, s, steps) == 1 + Answers(cfg, t, rest)
    ensures KeptGoing(s, t, 1)
  {
    var handled := Next(cfg, s, ReceiveSignal(answer));
    var step := CallContinues(Answering(s.connection.value, answer.networkId.Some?), true);
    NextKeepsInv(cfg, s, ReceiveSignal(answer));
    NextKeepsInv(cfg, handled, step);
    t := Next(cfg, handled, step);
    RunTwo(cfg, s, ReceiveSignal(answer), step, rest);
    RoundKeepsGoing(cfg, s, answer);
  }

  lemma RoundKeepsGoing(cfg: Config, s: State, answer: Signal)
    requires Inv(s) && s.connecting && s.connection.Some?
    requires answer.kind.ConnectResponse? && IsExpected(cfg, s.connectionId, answer)
    requires cfg.inactivityTimeoutMs > 0
    ensures var step := CallContinues(Answering(s.connection.value, answer.networkId.Some?), true);
            && HandlesAnswer(cfg, s, ReceiveSignal(answer))
            && Scoped(Next(cfg, s, ReceiveSignal(answer)))
            && KeptGoing(s, Next(cfg, Next(cfg, s, ReceiveSignal(answer)), step), 1)
  {
  }

  lemma RunTwo(cfg: Config, s: State, first: Step, second: Step, rest: seq<Step>)
    requires Inv(s) && Inv(Next(cfg, s, first)) && Inv(Next(cfg, Next(cfg, s, first), second))
    ensures Run(cfg, s, [first, second] + rest) == Run(cfg, Next(cfg, Next(cfg, s, first), second), rest)
    ensures Answers(cfg, s, [first, second] + rest)
         == (if HandlesAnswer(cfg, s, first) then 1 else 0)
            + (if HandlesAnswer(cfg, Next(cfg, s, first), second) then 1 else 0)
            + Answers(cfg, Next(cfg, Next(cfg, s, first), second), rest)
  {
    var steps := [first, second] + rest;
    assert steps[1..] == [second] + rest && ([second] + rest)[1..] == rest;
  }

  /**
   From every state of an attempt in which `Bounded` holds: if the timer is armed, its firing ends the attempt; if it
   is not, an answer is in flight whose failure ends the attempt, and whose success arms the timer.
   */
  lemma AttemptEndsByItself(cfg: Config, s: State)
    requires Inv(s) && Bounded(cfg, s) && s.connecting
    requires cfg.responseTimeoutMs > 0 && cfg.inactivityTimeoutMs > 0
    ensures s.timer.Some? ==> EndsWith(s, Next(cfg, s, TimerFires))
    ensures s.timer.None? ==> exists named :: Answering(s.rtcConnection.value, named) in s.w.calls
    ensures s.timer.None? ==>
              forall named | Answering(s.rtcConnection.value, named) in s.w.calls ::
                var call := Answering(s.rtcConnection.value, named);
                && EndsWith(s, Next(cfg, s, CallContinues(call, false)))
                && var t := Next(cfg, s, CallContinues(call, true));
                   Inv(t) && t.w.log == s.w.log && t.timer.Some? && EndsWith(s, Next(cfg, t, TimerFires))
  {
    if s.timer.Some? {
      TimerEndsAnAttempt(cfg, s);
    } else {
      var p := s.rtcConnection.value;
      assert Answering(p, true) in s.w.calls || Answering(p, false) in s.w.calls;
      forall named | Answering(p, named) in s.w.calls
        ensures var call := Answering(p, named);
                && EndsWith(s, Next(cfg, s, CallContinues(call, false)))
                && var t := Next(cfg, s, CallContinues(call, true));
                   Inv(t) && t.w.log == s.w.log && t.timer.Some? && EndsWith(s, Next(cfg, t, TimerFires))
      {
        CallFailureIsReported(cfg, s, Answering(p, named));
        NextKeepsInv(cfg, s, CallContinues(Answering(p, named), true));
        TimerEndsAnAttempt(cfg, Next(cfg, s, CallContinues(Answering(p, named), true)));
      }
    }
  }

  /** The attempt of `s` has ended in `t`, which says so once. */
  predicate EndsWith(s: State, t: State) {
    && !t.connecting && t.connection.None? && t.timer.None?
    && |t.w.log| == |s.w.log| + 1 && s.w.log <= t.w.log
    && t.w.log[|s.w.log|].Disconnect? && t.w.log[|s.w.log|].id == s.connectionId
  }
}
