/** What the client tells its listeners, and under which ids, over every run. */
module ClientEvents {
  import opened Wrappers
  import opened ClientModel
  import opened ClientProofs

  // ---------------------------------------------------------------------------------------------------------
  // The event grammar

  /** Where a log of events stands: no attempt yet, an attempt, a connection, or neither any more. */
  datatype Phase = Before | Trying(id: nat) | Up(id: nat) | Over | Broken

  /**
   An attempt begins when none is under way; it can be reported connected once, then disconnected once, under its
   own id. Anything else breaks the grammar for good.
   */
  function Follow(phase: Phase, e: Event): Phase {
    match e
    case Attempt(id) => if phase.Before? || phase.Over? then Trying(id) else Broken
    case Connected(id) => if phase == Trying(id) then Up(id) else Broken
    case Disconnect(id, _) => if phase == Trying(id) || phase == Up(id) then Over else Broken
  }

  function PhaseOf(log: seq<Event>): Phase {
    if log == [] then Before else Follow(PhaseOf(log[..|log| - 1]), log[|log| - 1])
  }

  lemma PhaseSnoc(log: seq<Event>, e: Event)
    ensures PhaseOf(log + [e]) == Follow(PhaseOf(log), e)
  {
    assert (log + [e])[..|log|] == log;
  }

  /** The phase the fields of the client stand for. */
  function Status(s: State): Phase {
    if !s.attempted then Before
    else if s.connecting then Trying(s.connectionId)
    else if s.connection.Some? then Up(s.connectionId)
    else Over
  }

  /** An answer is handled while there is neither an attempt nor a connection. */
  predicate IsStray(cfg: Config, s: State, step: Step) {
    && step.ReceiveSignal? && step.signal.kind.ConnectResponse?
    && IsExpected(cfg, s.connectionId, step.signal)
    && !s.closed && !s.connecting && s.connection.None?
  }

  /** What one step amounts to for the listeners. */
  datatype Move =
    | Silent
    | Ends(reason: Reason)
    | GoesUp
    | Begins(id: nat)
    | BeginsAndEnds(id: nat, reason: Reason)
    | Shuts(reason: Reason)
    | Strays

  function Emits(s: State, m: Move): seq<Event> {
    match m
    case Silent => []
    case Ends(reason) => [Disconnect(s.connectionId, reason)]
    case GoesUp => [Connected(s.connectionId)]
    case Begins(id) => [Attempt(id)]
    case BeginsAndEnds(id, reason) => [Attempt(id), Disconnect(id, reason)]
    case Shuts(reason) => if s.connection.Some? then [Disconnect(s.connectionId, reason)] else []
    case Strays => [Disconnect(s.connectionId, ConnectError(FAILED_TO_SET_REMOTE))]
  }

  function StatusAfter(s: State, m: Move): Phase {
    match m
    case Silent => Status(s)
    case Ends(_) => Over
    case GoesUp => Up(s.connectionId)
    case Begins(id) => Trying(id)
    case BeginsAndEnds(_, _) => Over
    case Shuts(_) => if s.attempted then Over else Before
    case Strays => Status(s)
  }

  /** When a move can happen. */
  predicate Allowed(s: State, m: Move) {
    match m
    case Silent => true
    case Ends(_) => Status(s).Trying? || Status(s).Up?
    case GoesUp => Status(s).Trying?
    case Begins(id) => (Status(s).Before? || Status(s).Over?) && StartsWith(s, id)
    case BeginsAndEnds(id, _) => (Status(s).Before? || Status(s).Over?) && StartsWith(s, id)
    case Shuts(_) => true
    case Strays => Status(s).Before? || Status(s).Over?
  }

  /** The first attempt uses the id the client was made with, later ones a fresh id. */
  predicate StartsWith(s: State, id: nat) {
    if s.attempted then id !in s.w.usedIds else id == s.connectionId
  }

  ghost predicate Does(s: State, t: State, m: Move) {
    && t.w.log == s.w.log + Emits(s, m)
    && Status(t) == StatusAfter(s, m)
    && t.closed == (s.closed || m.Shuts?)
    && (if m.Begins? || m.BeginsAndEnds?
        then t.connectionId == m.id && t.attempted && t.w.usedIds == s.w.usedIds + {m.id}
        else t.connectionId == s.connectionId && t.attempted == s.attempted && t.w.usedIds == s.w.usedIds)
  }

  lemma EndedDoes(s: State, reason: Reason)
    requires Inv(s) && (s.connecting || s.connection.Some?)
    ensures Does(s, Ended(s, reason), Ends(reason)) && Allowed(s, Ends(reason))
  {
  }

  lemma FailDoes(s: State, named: bool, code: nat) returns (m: Move)
    requires Inv(s) && (s.connecting || s.connection.Some?)
    ensures m == Ends(ConnectError(code)) && Does(s, Fail(s, named, code), m) && Allowed(s, m)
  {
    FailEnds(s, named, code);
    m := Ends(ConnectError(code));
    EndedDoes(s, ConnectError(code));
  }

  lemma MakePeerDoes(s: State, c: nat, making: Making) returns (m: Move)
    requires Inv(s) && s.connecting && s.connection.None?
    ensures Does(s, MakePeer(s, c, making), m) && Allowed(s, m) && (m.Silent? || m.Ends?)
  {
    if making.PeerThrows? {
      m := FailDoes(s, true, FAILED_TO_CREATE_PEER);
    } else {
      m := Silent;
      assert s.w.log + [] == s.w.log;
    }
  }

  lemma CreateOfferDoes(cfg: Config, s: State, valid: bool, making: Making) returns (m: Move)
    requires Inv(s) && s.connecting && s.connection.None? && !s.pendingConnect
    ensures Does(s, CreateOffer(cfg, s, valid, making), m) && Allowed(s, m) && (m.Silent? || m.Ends?)
  {
    NewControllerKeepsInv(s);
    if !valid {
      m := FailDoes(NewController(s), true, FAILED_TO_CREATE_PEER);
    } else if cfg.looksUpIceServers {
      m := Silent;
      assert s.w.log + [] == s.w.log;
    } else {
      m := MakePeerDoes(NewController(s), s.w.controllers, making);
    }
  }

  lemma StartedInv(s: State, id: nat, cfg: Config)
    requires Inv(s) && !s.closed && !s.connecting && s.connection.None?
    ensures Inv(ArmTimeout(Started(s, id), WAITING_FOR_RESPONSE, cfg.responseTimeoutMs))
  {
    assert Inv(Started(s, id));
    ArmKeepsInv(Started(s, id), WAITING_FOR_RESPONSE, cfg.responseTimeoutMs);
  }

  lemma ConnectDoes(cfg: Config, s: State, newId: nat, valid: bool, making: Making) returns (m: Move)
    requires Inv(s) && !s.closed && !(s.attempted && newId in s.w.usedIds)
    ensures Does(s, Connect(cfg, s, newId, valid, making), m) && Allowed(s, m) && !m.Strays?
  {
    if s.connecting || s.connection.Some? {
      assert s.w.log + [] == s.w.log;
      return Silent;
    }
    var id := if s.attempted then newId else s.connectionId;
    var t := ArmTimeout(Started(s, id), WAITING_FOR_RESPONSE, cfg.responseTimeoutMs);
    StartedInv(s, id, cfg);
    m := AttemptDoes(cfg, s, id, t, valid, making);
  }

  /** The rest of `connect`, from the state in which the attempt has begun. */
  lemma AttemptDoes(cfg: Config, s: State, id: nat, t: State, valid: bool, making: Making) returns (m: Move)
    requires Inv(t) && t.connecting && t.connection.None? && !t.pendingConnect
    requires t.w.log == s.w.log + [Attempt(id)] && t.connectionId == id && t.attempted
    requires t.w.usedIds == s.w.usedIds + {id} && t.closed == s.closed
    ensures var u := if t.externalSignaling || t.hasAddress then CreateOffer(cfg, t, valid, making)
                     else t.(pendingConnect := true);
            Does(s, u, m) && (m == Begins(id) || (m.BeginsAndEnds? && m.id == id))
  {
    if t.externalSignaling || t.hasAddress {
      var after := CreateOfferDoes(cfg, t, valid, making);
      m := ThenDoes(s, id, t, CreateOffer(cfg, t, valid, making), after);
    } else {
      m := ThenDoes(s, id, t, t.(pendingConnect := true), Silent);
    }
  }

  /** An attempt begins, and the same step may already end it. */
  lemma ThenDoes(s: State, id: nat, t: State, u: State, after: Move) returns (m: Move)
    requires t.w.log == s.w.log + [Attempt(id)] && t.connectionId == id && t.attempted && t.connecting
    requires t.w.usedIds == s.w.usedIds + {id} && t.closed == s.closed
    requires (after.Ends? && Does(t, u, after)) || (after.Silent? && u == t.(pendingConnect := true))
             || (after.Silent? && Does(t, u, after))
    ensures m == if after.Ends? then BeginsAndEnds(id, after.reason) else Begins(id)
    ensures Does(s, u, m)
  {
    assert t.w.log + [] == t.w.log;
    if after.Ends? {
      m := BeginsAndEnds(id, after.reason);
      assert t.w.log + [Disconnect(id, after.reason)] == s.w.log + [Attempt(id), Disconnect(id, after.reason)];
    } else {
      m := Begins(id);
    }
  }

  lemma ResponseDoes(cfg: Config, s: State, sender: nat, valid: bool, making: Making) returns (m: Move)
    requires Inv(s) && !s.closed
    ensures Does(s, HandleResponse(cfg, s, sender, valid, making), m) && Allowed(s, m) && !m.Strays?
  {
    if s.pendingConnect && sender == cfg.serverNetworkId {
      var t := s.(hasAddress := true, pendingConnect := false);
      assert Inv(t);
      ArmKeepsInv(t, WAITING_FOR_RESPONSE, cfg.responseTimeoutMs);
      m := CreateOfferDoes(cfg, ArmTimeout(t, WAITING_FOR_RESPONSE, cfg.responseTimeoutMs), valid, making);
    } else {
      m := Silent;
      assert s.w.log + [] == s.w.log;
    }
  }

  lemma AnswerDoes(s: State, named: bool) returns (m: Move)
    requires Inv(s) && !s.closed
    ensures Does(s, HandleAnswer(s, named), m) && Allowed(s, m)
    ensures m.Strays? <==> !s.connecting && s.connection.None?
  {
    ClearKeepsInv(s);
    var t := ClearTimeouts(s);
    assert s.w.log + [] == s.w.log;
    if s.connection.Some? {
      m := Silent;
    } else if s.connecting {
      m := FailDoes(t, named, FAILED_TO_SET_REMOTE);
    } else {
      FailEnds(t, named, FAILED_TO_SET_REMOTE);
      m := Strays;
    }
  }

  lemma ClosingDoes(s: State, p: Peer, reason: Reason) returns (m: Move)
    requires Inv(s) && p < |s.w.addressOf|
    ensures Does(s, CloseConnection(s, p, reason), m) && Allowed(s, m) && !m.Strays?
  {
    CloseEnds(s, p, reason);
    assert s.w.log + [] == s.w.log;
    m := Silent;
    if s.connection == Some(p) {
      m := Ends(reason);
      EndedDoes(s, reason);
    }
  }

  lemma ShutDoes(s: State, why: string) returns (m: Move)
    requires Inv(s) && !s.closed
    ensures Does(s, Close(s, why), m) && m == Shuts(Other(why))
  {
    CloseIs(s, why);
    assert s.w.log + [] == s.w.log;
    m := Shuts(Other(why));
  }

  lemma SignalDoes(cfg: Config, s: State, signal: Signal) returns (m: Move)
    requires Inv(s) && !s.closed
    ensures Does(s, HandleSignal(cfg, s, signal), m) && Allowed(s, m)
    ensures m.Strays? <==> IsStray(cfg, s, ReceiveSignal(signal))
  {
    assert s.w.log + [] == s.w.log;
    m := Silent;
    if IsExpected(cfg, s.connectionId, signal) {
      match signal.kind
      case ConnectResponse => m := AnswerDoes(s, signal.networkId.Some?);
      case ConnectErrorSignal(data) =>
        if s.connection.Some? {
          m := ClosingDoes(s, s.connection.value, RemoteError(data));
        }
      case _ =>
    }
  }

  lemma LookupDoes(s: State, c: nat, outcome: Outcome, making: Making) returns (m: Move)
    requires Inv(s) && !s.closed && c in s.w.offers && s.w.offers[c].LookingUp?
    ensures Does(s, AfterLookup(s, c, outcome, making), m) && Allowed(s, m) && !m.Strays?
  {
    DropOfferKeepsInv(s, c);
    if c in s.w.aborted {
      m := Silent;
      assert s.w.log + [] == s.w.log;
    } else if outcome.Throws? {
      m := FailDoes(Dropped(s, c), true, FAILED_TO_CREATE_PEER);
    } else {
      m := MakePeerDoes(Dropped(s, c), c, making);
    }
  }

  lemma MadeOfferDoes(s: State, c: nat, p: Peer, outcome: Outcome) returns (m: Move)
    requires Inv(s) && !s.closed
    ensures Does(s, AfterOffer(s, c, p, outcome), m) && Allowed(s, m) && !m.Strays?
  {
    DropOfferKeepsInv(s, c);
    if IsCurrent(s, p) && outcome.Throws? {
      m := FailDoes(Dropped(s, c), true, FAILED_TO_CREATE_OFFER);
    } else {
      m := Silent;
      assert s.w.log + [] == s.w.log;
    }
  }

  lemma LocalDoes(cfg: Config, s: State, c: nat, p: Peer, outcome: Outcome) returns (m: Move)
    requires Inv(s) && !s.closed
    ensures Does(s, AfterLocal(cfg, s, c, p, outcome), m) && Allowed(s, m) && !m.Strays?
  {
    DropOfferKeepsInv(s, c);
    if IsCurrent(s, p) && outcome.Throws? {
      m := FailDoes(Dropped(s, c), true, FAILED_TO_SET_LOCAL);
    } else if IsCurrent(s, p) && !cfg.http {
      m := SendOfferDoes(Dropped(s, c), outcome);
    } else {
      m := Silent;
      assert s.w.log + [] == s.w.log;
    }
  }

  lemma SendOfferDoes(s: State, outcome: Outcome) returns (m: Move)
    requires Inv(s) && s.connection.Some?
    ensures Does(s, SendOffer(s, outcome), m) && Allowed(s, m) && !m.Strays?
  {
    assert s.w.log + [] == s.w.log;
    m := Silent;
    if outcome.IdentityThrows? {
      m := FailDoes(s, true, SIGNALING_FAILED);
    } else if outcome.SignalThrows? {
      SentKeepsInv(s, Request(s.connectionId));
      m := FailDoes(Sent(s, Request(s.connectionId)), true, SIGNALING_FAILED);
    }
  }

  lemma ExchangeDoes(s: State, c: nat, p: Peer, outcome: Outcome) returns (m: Move)
    requires Inv(s) && !s.closed
    ensures Does(s, AfterExchange(s, c, p, outcome), m) && Allowed(s, m) && !m.Strays?
  {
    DropOfferKeepsInv(s, c);
    if IsCurrent(s, p) && !outcome.Throws? {
      m := AnswerDoes(Dropped(s, c), true);
    } else if IsCurrent(s, p) && c !in s.w.aborted {
      m := ShutDoes(Dropped(s, c), "HTTP signalling failed");
    } else {
      m := Silent;
      assert s.w.log + [] == s.w.log;
    }
  }

  lemma OfferDoes(cfg: Config, s: State, c: nat, outcome: Outcome, making: Making) returns (m: Move)
    requires Inv(s) && !s.closed && c in s.w.offers
    ensures Does(s, ResumeOffer(cfg, s, c, outcome, making), m) && Allowed(s, m) && !m.Strays?
  {
    match s.w.offers[c]
    case LookingUp => m := LookupDoes(s, c, outcome, making);
    case Offering(p) => m := MadeOfferDoes(s, c, p, outcome);
    case Describing(p) => m := LocalDoes(cfg, s, c, p, outcome);
    case Exchanging(p) => m := ExchangeDoes(s, c, p, outcome);
  }

  lemma CallDoes(cfg: Config, s: State, call: Call, ok: bool) returns (m: Move)
    requires Inv(s) && !s.closed && call in s.w.calls
    ensures Does(s, ResumeCall(cfg, s, call, ok), m) && Allowed(s, m) && !m.Strays?
  {
    var t := Settled(s, call);
    DropCallKeepsInv(s, call);
    if s.rtcConnection == Some(call.peer) && !ok {
      m := FailDoes(t, call.named, if call.Answering? then FAILED_TO_SET_REMOTE else CANDIDATE_ADD);
    } else {
      m := Silent;
      assert s.w.log + [] == s.w.log;
    }
  }

  lemma UpDoes(s: State, p: Peer) returns (m: Move)
    requires Inv(s) && !s.closed && p < |s.w.addressOf|
    ensures Does(s, PeerConnected(s, p), m) && Allowed(s, m) && !m.Strays?
  {
    assert s.w.log + [] == s.w.log;
    m := if IsCurrent(s, p) && !s.hasEmittedConnected then GoesUp else Silent;
  }

  /** Every step of an open client is one of the moves, and it is a stray answer exactly when `IsStray` says so. */
  lemma NextDoes(cfg: Config, s: State, step: Step) returns (m: Move)
    requires Inv(s) && !s.closed
    ensures Does(s, Next(cfg, s, step), m) && Allowed(s, m)
    ensures m.Strays? <==> IsStray(cfg, s, step)
  {
    assert s.w.log + [] == s.w.log;
    m := Silent;
    match step
    case CallConnect(newId, valid, making) =>
      if !(s.attempted && newId in s.w.usedIds) { m := ConnectDoes(cfg, s, newId, valid, making); }
    case CallClose(why) => m := ShutDoes(s, why);
    case SetSignalHandler =>
    case ReceiveResponse(sender, valid, making) => m := ResponseDoes(cfg, s, sender, valid, making);
    case ReceiveSignal(signal) => m := SignalDoes(cfg, s, signal);
    case OfferContinues(c, outcome, making) =>
      if c in s.w.offers { m := OfferDoes(cfg, s, c, outcome, making); }
    case CallContinues(call, ok) => if call in s.w.calls { m := CallDoes(cfg, s, call, ok); }
    case PeerGathers(p) =>
    case PeerConnects(p) => if p < |s.w.addressOf| { m := UpDoes(s, p); }
    case PeerFails(p) => if p < |s.w.addressOf| && IsCurrent(s, p) { m := ClosingDoes(s, p, Disconnected); }
    case ConnectionCloses(p, reason) => if p < |s.w.addressOf| { m := ClosingDoes(s, p, reason); }
    case TimerFires => if s.timer.Some? { m := FailDoes(s, true, s.timer.value); }
  }

  ghost predicate Silenced(s: State, t: State) {
    && t.closed && t.w.log == s.w.log && t.connectionId == s.connectionId && t.attempted == s.attempted
    && t.w.usedIds == s.w.usedIds && t.w.sent == s.w.sent && t.w.armed == s.w.armed
  }

  lemma ClosedOfferIsSilent(cfg: Config, s: State, c: nat, outcome: Outcome, making: Making)
    requires Inv(s) && s.closed && c in s.w.offers
    ensures ResumeOffer(cfg, s, c, outcome, making) == Dropped(s, c)
  {
  }

  /** A closed client emits nothing, sends nothing and sets no timer. */
  lemma ClosedIsSilent(cfg: Config, s: State, step: Step)
    requires Inv(s) && s.closed
    ensures Silenced(s, Next(cfg, s, step))
  {
    match step
    case OfferContinues(c, outcome, making) =>
      if c in s.w.offers { ClosedOfferIsSilent(cfg, s, c, outcome, making); }
    case ConnectionCloses(p, reason) => if p < |s.w.addressOf| { CloseEnds(s, p, reason); }
    case _ =>
  }

  // ---------------------------------------------------------------------------------------------------------
  // Runs

  /** The log is where the fields say it is; a closed client's log has just not gone wrong. */
  ghost predicate Told(s: State) {
    if s.closed then !PhaseOf(s.w.log).Broken? else PhaseOf(s.w.log) == Status(s)
  }

  lemma OneEventTells(s: State, t: State, m: Move)
    requires Inv(s) && !s.closed && Told(s) && Does(s, t, m) && Allowed(s, m) && !m.BeginsAndEnds?
    requires |Emits(s, m)| == 1
    ensures if m.Strays? then PhaseOf(t.w.log) == Broken else Told(t)
  {
    var e := Emits(s, m)[0];
    assert Emits(s, m) == [e];
    PhaseSnoc(s.w.log, e);
  }

  lemma MoveTells(s: State, t: State, m: Move)
    requires Inv(s) && !s.closed && Told(s) && Does(s, t, m) && Allowed(s, m)
    ensures if m.Strays? then PhaseOf(t.w.log) == Broken else Told(t)
  {
    if m.BeginsAndEnds? {
      PhaseSnoc(s.w.log, Attempt(m.id));
      PhaseSnoc(s.w.log + [Attempt(m.id)], Disconnect(m.id, m.reason));
      assert s.w.log + [Attempt(m.id)] + [Disconnect(m.id, m.reason)] == t.w.log;
    } else if |Emits(s, m)| == 1 {
      OneEventTells(s, t, m);
    } else {
      assert s.w.log + [] == s.w.log;
    }
  }

  lemma {:induction false} BrokenForGood(log: seq<Event>, more: seq<Event>)
    requires PhaseOf(log) == Broken
    ensures PhaseOf(log + more) == Broken
    decreases |more|
  {
    if more == [] {
      assert log + more == log;
    } else {
      BrokenForGood(log, more[..|more| - 1]);
      assert (log + more)[..|log + more| - 1] == log + more[..|more| - 1];
    }
  }

  /** No answer is ever handled while there is neither an attempt nor a connection. */
  ghost predicate NoStrays(cfg: Config, s: State, steps: seq<Step>)
    requires Inv(s)
    decreases |steps|
  {
    steps == [] ||
    (NextKeepsInv(cfg, s, steps[0]);
     !IsStray(cfg, s, steps[0]) && NoStrays(cfg, Next(cfg, s, steps[0]), steps[1..]))
  }

  lemma {:induction false} LogOnlyGrows(cfg: Config, s: State, steps: seq<Step>)
    requires Inv(s)
    ensures s.w.log <= Run(cfg, s, steps).w.log
    decreases |steps|
  {
    if steps != [] {
      NextKeepsInv(cfg, s, steps[0]);
      LogOnlyGrows(cfg, Next(cfg, s, steps[0]), steps[1..]);
      if s.closed {
        ClosedIsSilent(cfg, s, steps[0]);
      } else {
        var _ := NextDoes(cfg, s, steps[0]);
      }
    }
  }

  lemma NextTells(cfg: Config, s: State, step: Step)
    requires Inv(s) && Told(s)
    ensures if IsStray(cfg, s, step) then PhaseOf(Next(cfg, s, step).w.log) == Broken else Told(Next(cfg, s, step))
  {
    if s.closed {
      ClosedIsSilent(cfg, s, step);
    } else {
      var m := NextDoes(cfg, s, step);
      MoveTells(s, Next(cfg, s, step), m);
    }
  }

  lemma RunFromBroken(cfg: Config, s: State, steps: seq<Step>)
    requires Inv(s) && PhaseOf(s.w.log) == Broken
    ensures PhaseOf(Run(cfg, s, steps).w.log) == Broken
  {
    LogOnlyGrows(cfg, s, steps);
    var end := Run(cfg, s, steps).w.log;
    BrokenForGood(s.w.log, end[|s.w.log|..]);
    assert end == s.w.log + end[|s.w.log|..];
  }

  lemma {:induction false} RunTells(cfg: Config, s: State, steps: seq<Step>)
    requires Inv(s) && Told(s)
    ensures if NoStrays(cfg, s, steps) then Told(Run(cfg, s, steps)) else PhaseOf(Run(cfg, s, steps).w.log) == Broken
    decreases |steps|
  {
    if steps != [] {
      var t := Next(cfg, s, steps[0]);
      NextKeepsInv(cfg, s, steps[0]);
      NextTells(cfg, s, steps[0]);
      if IsStray(cfg, s, steps[0]) {
        RunFromBroken(cfg, t, steps[1..]);
      } else {
        RunTells(cfg, t, steps[1..]);
      }
    }
  }

  /**
   The event grammar holds over a run exactly when no answer was handled in it while the client was idle; and then
   the log of an open client is always where its fields say: in particular an attempt that is over emitted exactly
   one disconnect.
   */
  lemma EventGrammarIff(cfg: Config, id: nat, steps: seq<Step>)
    ensures Inv(Initial(cfg, id))
    ensures var t := Run(cfg, Initial(cfg, id), steps);
            && (PhaseOf(t.w.log) != Broken <==> NoStrays(cfg, Initial(cfg, id), steps))
            && (NoStrays(cfg, Initial(cfg, id), steps) && !t.closed ==> PhaseOf(t.w.log) == Status(t))
  {
    InitialInv(cfg, id);
    RunTells(cfg, Initial(cfg, id), steps);
  }

  /**
   What a stray answer does: it emits a disconnect nobody waits for, tells the server of a failure if the answer named
   its network, and changes nothing else.
   */
  lemma StrayAnswerOnlyEmits(cfg: Config, s: State, step: Step)
    requires Inv(s) && IsStray(cfg, s, step)
    ensures Next(cfg, s, step)
         == s.(w := s.w.(log := s.w.log + [Disconnect(s.connectionId, ConnectError(13))],
                         sent := if step.signal.networkId.Some? then s.w.sent + [ErrorSignal(s.connectionId, 13)]
                                 else s.w.sent))
  {
    FailEnds(ClearTimeouts(s), step.signal.networkId.Some?, FAILED_TO_SET_REMOTE);
    AbortsTwice(s);
  }

  /** The shortest such run: an answer that reaches a client which has not called connect. */
  lemma StrayAnswerExample(cfg: Config, id: nat)
    ensures var answer := ReceiveSignal(Signal(ConnectResponse, id, None));
            Inv(Initial(cfg, id)) && PhaseOf(Run(cfg, Initial(cfg, id), [answer]).w.log) == Broken
  {
    var s, answer := Initial(cfg, id), ReceiveSignal(Signal(ConnectResponse, id, None));
    InitialInv(cfg, id);
    StrayAnswerOnlyEmits(cfg, s, answer);
    NextKeepsInv(cfg, s, answer);
    assert [answer][1..] == [];
    assert Run(cfg, s, [answer]) == Run(cfg, Next(cfg, s, answer), []);
    PhaseSnoc([], Disconnect(id, ConnectError(FAILED_TO_SET_REMOTE)));
  }

  /** An answer during an attempt that has no peer yet ends that attempt, and may tell the server so. */
  lemma EarlyAnswerEndsAttempt(cfg: Config, s: State, signal: Signal)
    requires Inv(s) && s.connecting && s.connection.None?
    requires signal.kind.ConnectResponse? && IsExpected(cfg, s.connectionId, signal)
    ensures Next(cfg, s, ReceiveSignal(signal))
         == SignalError(Ended(s, ConnectError(13)), signal.networkId.Some?, 13)
  {
    FailEnds(ClearTimeouts(s), signal.networkId.Some?, FAILED_TO_SET_REMOTE);
    AbortsTwice(s);
    NothingToClose(s);
  }

  /** Closing emits one disconnect if there is a connection and none otherwise, and leaves neither pair nor timer. */
  lemma CloseEmits(cfg: Config, s: State, why: string)
    requires Inv(s) && !s.closed
    ensures var t := Next(cfg, s, CallClose(why));
            && t.closed && t.connection.None? && t.rtcConnection.None? && t.timer.None?
            && t.w.log == s.w.log + (if s.connection.Some? then [Disconnect(s.connectionId, Other(why))] else [])
            && t.w.sent == s.w.sent
  {
    CloseIs(s, why);
    assert s.w.log + [] == s.w.log;
  }

  /** The code an offer that fails at this stage reports. */
  function StageError(stage: Stage, outcome: Outcome): nat
    requires !stage.Exchanging?
  {
    match stage
    case LookingUp => 4
    case Offering(_) => 10
    case Describing(_) => if outcome.Throws? then 12 else 26
  }

  /** The offer could not be sent, though it may have been handed over. */
  predicate FailsToSend(cfg: Config, stage: Stage, outcome: Outcome) {
    stage.Describing? && !cfg.http && (outcome.IdentityThrows? || outcome.SignalThrows?)
  }

  /**
   A failure of the current offer ends the attempt and tells the server, under the error code of its stage and of
   nothing else; the request was handed over only if it is the signal handler that threw.
   */
  lemma OfferFailureIsReported(cfg: Config, s: State, c: nat, outcome: Outcome, making: Making)
    requires Inv(s) && c in s.w.offers && !s.closed
    requires if s.w.offers[c].LookingUp? then c !in s.w.aborted else s.connection == PeerOf(s.w.offers[c])
    requires !s.w.offers[c].Exchanging?
    requires outcome.Throws? || FailsToSend(cfg, s.w.offers[c], outcome)
    ensures var code := StageError(s.w.offers[c], outcome);
            var t := if outcome.SignalThrows? then Sent(Dropped(s, c), Request(s.connectionId)) else Dropped(s, c);
            && Next(cfg, s, OfferContinues(c, outcome, making))
               == Sent(Ended(t, ConnectError(code)), ErrorSignal(s.connectionId, code))
  {
    var code := StageError(s.w.offers[c], outcome);
    DropOfferKeepsInv(s, c);
    SentKeepsInv(Dropped(s, c), Request(s.connectionId));
    FailEnds(Dropped(s, c), true, code);
    FailEnds(Sent(Dropped(s, c), Request(s.connectionId)), true, code);
  }

  /** So do a failed answer and a failed candidate for the current peer, if their signal named the server's network. */
  lemma CallFailureIsReported(cfg: Config, s: State, call: Call)
    requires Inv(s) && call in s.w.calls && s.connection == Some(call.peer)
    ensures var code := if call.Answering? then 13 else 8;
            && Next(cfg, s, CallContinues(call, false))
               == SignalError(Ended(Settled(s, call), ConnectError(code)), call.named, code)
  {
    DropCallKeepsInv(s, call);
    FailEnds(Settled(s, call), call.named, if call.Answering? then 13 else 8);
  }

  // ---------------------------------------------------------------------------------------------------------
  // Attempt ids

  function LastAttempt(log: seq<Event>): Option<nat> {
    if log == [] then None
    else if log[|log| - 1].Attempt? then Some(log[|log| - 1].id)
    else LastAttempt(log[..|log| - 1])
  }

  /** No two attempts share an id, and the current id is the last attempt's. */
  ghost predicate DistinctIds(s: State) {
    && (forall i | 0 <= i < |s.w.log| && s.w.log[i].Attempt? :: s.attempted && s.w.log[i].id in s.w.usedIds)
    && (forall i, j | 0 <= i < j < |s.w.log| && s.w.log[i].Attempt? && s.w.log[j].Attempt? ::
          s.w.log[i].id != s.w.log[j].id)
    && (s.attempted ==> LastAttempt(s.w.log) == Some(s.connectionId))
  }

  lemma OneMoreEvent(s: State, t: State, e: Event)
    requires DistinctIds(s) && t.w.log == s.w.log + [e]
    requires if e.Attempt? then t.attempted && t.connectionId == e.id && t.w.usedIds == s.w.usedIds + {e.id}
                                && (s.attempted ==> e.id !in s.w.usedIds)
             else t.attempted == s.attempted && t.connectionId == s.connectionId && t.w.usedIds == s.w.usedIds
    ensures DistinctIds(t)
  {
    assert t.w.log[..|s.w.log|] == s.w.log;
  }

  lemma MoveKeepsIds(s: State, t: State, m: Move)
    requires DistinctIds(s) && Does(s, t, m) && Allowed(s, m)
    ensures DistinctIds(t)
  {
    if m.BeginsAndEnds? {
      var mid := t.(w := t.w.(log := s.w.log + [Attempt(m.id)]));
      OneMoreEvent(s, mid, Attempt(m.id));
      assert t.w.log == mid.w.log + [Disconnect(m.id, m.reason)];
      OneMoreEvent(mid, t, Disconnect(m.id, m.reason));
    } else if |Emits(s, m)| == 1 {
      assert Emits(s, m) == [Emits(s, m)[0]];
      OneMoreEvent(s, t, Emits(s, m)[0]);
    } else {
      assert t.w.log == s.w.log;
    }
  }

  lemma {:induction false} RunKeepsIds(cfg: Config, s: State, steps: seq<Step>)
    requires Inv(s) && DistinctIds(s)
    ensures DistinctIds(Run(cfg, s, steps))
    decreases |steps|
  {
    if steps != [] {
      NextKeepsInv(cfg, s, steps[0]);
      if s.closed {
        ClosedIsSilent(cfg, s, steps[0]);
      } else {
        var m := NextDoes(cfg, s, steps[0]);
        MoveKeepsIds(s, Next(cfg, s, steps[0]), m);
      }
      RunKeepsIds(cfg, Next(cfg, s, steps[0]), steps[1..]);
    }
  }

  /** After any run, a signal that bears the id of an attempt other than the last changes nothing. */
  lemma OlderSignalIsInert(cfg: Config, id: nat, steps: seq<Step>, i: nat, j: nat, signal: Signal)
    ensures Inv(Initial(cfg, id))
    ensures var s := Run(cfg, Initial(cfg, id), steps);
            i < j < |s.w.log| && s.w.log[i].Attempt? && s.w.log[j].Attempt? && signal.connectionId == s.w.log[i].id ==>
              Next(cfg, s, ReceiveSignal(signal)) == s
  {
    InitialInv(cfg, id);
    RunKeepsIds(cfg, Initial(cfg, id), steps);
    var s := Run(cfg, Initial(cfg, id), steps);
    if i < j < |s.w.log| && s.w.log[i].Attempt? && s.w.log[j].Attempt? {
      LastIsLater(s.w.log, i, j);
    }
  }

  lemma {:induction false} LastIsLater(log: seq<Event>, i: nat, j: nat)
    requires i < j < |log| && log[i].Attempt? && log[j].Attempt?
    ensures exists k | i < k < |log| && log[k].Attempt? :: LastAttempt(log) == Some(log[k].id)
  {
    var last := |log| - 1;
    if !log[last].Attempt? {
      LastIsLater(log[..last], i, j);
      var k :| i < k < last && log[..last][k].Attempt? && LastAttempt(log[..last]) == Some(log[..last][k].id);
      assert log[k] == log[..last][k];
    }
  }
}
