/** What every run of the server keeps: the tables agree with the live connections, and nothing stays half open. */
module ServerProofs {
  import opened ServerModel

  // ---------------------------------------------------------------------------------------------------------
  // The invariant

  /** The connection map holds exactly the unclosed connection objects, each under its own address. */
  ghost predicate TableAgrees(s: State) {
    && (forall id | id in s.connections ::
          s.connections[id] < |s.w.conns| && s.w.conns[s.connections[id]].address == id)
    && (forall h: Handle | h < |s.w.conns| :: !s.w.conns[h].closed <==> IsRegistered(s, h))
  }

  /** Every timer is that of a live connection which is not open yet and whose `handleOffer` has finished. */
  ghost predicate TimersAgree(s: State) {
    forall id | id in s.acceptTimeouts ::
      var h := s.acceptTimeouts[id];
      && h < |s.w.conns| && id in s.connections && s.connections[id] == h
      && !s.w.conns[h].announced && h !in s.w.offers
  }

  /** Only what was answered has connected or opened, and a `handleOffer` in flight has not answered. */
  ghost predicate AnsweredFirst(s: State) {
    && (forall h: Handle | h < |s.w.conns| ::
          && (s.w.conns[h].announced || s.w.conns[h].connected ==> s.w.conns[h].answered)
          && (s.w.conns[h].connected ==> !s.w.conns[h].closed)
          && (h in s.w.offers ==> !s.w.conns[h].answered))
    && (forall h | h in s.w.offers :: h < |s.w.conns|)
    && (forall h | h in s.w.candidates :: h < |s.w.conns|)
  }

  /** The events of one connection. */
  function EventsOf(log: seq<Event>, h: Handle): seq<Event> {
    if log == [] then []
    else
      var init := EventsOf(log[..|log| - 1], h);
      if log[|log| - 1].conn == h then init + [log[|log| - 1]] else init
  }

  /** What a connection is to have said by now: that it opened, if it did, and then that it closed, if it did. */
  function Story(s: State, h: Handle): seq<Event> {
    if h >= |s.w.conns| then []
    else if s.w.conns[h].announced then
      if s.w.conns[h].closed then [OpenConnection(h), CloseConnectionEvent(h)] else [OpenConnection(h)]
    else if s.w.conns[h].closed then [CloseConnectionEvent(h)] else []
  }

  ghost predicate LogAgrees(s: State) {
    forall h: Handle :: EventsOf(s.w.log, h) == Story(s, h)
  }

  /** How many answers were handed to `respond` for a connection. */
  function AnswersTo(responses: seq<Response>, h: Handle): nat {
    if responses == [] then 0
    else AnswersTo(responses[..|responses| - 1], h) + (if responses[|responses| - 1] == Answer(h) then 1 else 0)
  }

  /** No connection is answered twice, and none before its `handleOffer` gets there. */
  ghost predicate ResponsesAgree(s: State) {
    forall h: Handle ::
      && AnswersTo(s.w.responses, h) <= 1
      && (h >= |s.w.conns| || h in s.w.offers ==> AnswersTo(s.w.responses, h) == 0)
      && (h < |s.w.conns| && s.w.conns[h].answered ==> AnswersTo(s.w.responses, h) == 1)
  }

  ghost predicate Inv(s: State) {
    && TableAgrees(s) && TimersAgree(s) && AnsweredFirst(s) && LogAgrees(s) && ResponsesAgree(s)
    && (s.closed ==> s.connections == map[])
  }

  lemma EventsSnoc(log: seq<Event>, e: Event, h: Handle)
    ensures EventsOf(log + [e], h) == if e.conn == h then EventsOf(log, h) + [e] else EventsOf(log, h)
  {
    assert (log + [e])[..|log|] == log;
  }

  lemma AnswersSnoc(responses: seq<Response>, r: Response, h: Handle)
    ensures AnswersTo(responses + [r], h) == AnswersTo(responses, h) + (if r == Answer(h) then 1 else 0)
  {
    assert (responses + [r])[..|responses|] == responses;
  }

  // ---------------------------------------------------------------------------------------------------------
  // Every step keeps it

  lemma RespondKeepsInv(s: State, r: Response)
    requires Inv(s)
    requires r.Answer? ==> r.conn < |s.w.conns| && r.conn !in s.w.offers && AnswersTo(s.w.responses, r.conn) == 0
    ensures Inv(Responded(s, r))
  {
    var t := Responded(s, r);
    assert forall k: Handle :: Story(t, k) == Story(s, k);
    forall k: Handle
      ensures AnswersTo(t.w.responses, k) == AnswersTo(s.w.responses, k) + (if r == Answer(k) then 1 else 0)
    {
      AnswersSnoc(s.w.responses, r, k);
    }
  }

  lemma CloseKeepsTables(s: State, h: Handle)
    requires TableAgrees(s) && TimersAgree(s) && AnsweredFirst(s) && h < |s.w.conns|
    ensures TableAgrees(Close(s, h)) && TimersAgree(Close(s, h)) && AnsweredFirst(Close(s, h))
  {
  }

  /** The log grows by an event that continues the story of its connection and of no other. */
  lemma LogGrows(s: State, t: State, e: Event)
    requires LogAgrees(s) && t.w.log == s.w.log + [e]
    requires Story(t, e.conn) == Story(s, e.conn) + [e]
    requires forall k: Handle | k != e.conn :: Story(t, k) == Story(s, k)
    ensures LogAgrees(t)
  {
    forall k: Handle
      ensures EventsOf(t.w.log, k) == Story(t, k)
    {
      EventsSnoc(s.w.log, e, k);
    }
  }

  lemma CloseKeepsLog(s: State, h: Handle)
    requires TableAgrees(s) && LogAgrees(s) && h < |s.w.conns|
    ensures LogAgrees(Close(s, h))
  {
    if !s.w.conns[h].closed {
      LogGrows(s, Close(s, h), CloseConnectionEvent(h));
    }
  }

  lemma CloseKeepsInv(s: State, h: Handle)
    requires Inv(s) && h < |s.w.conns|
    ensures Inv(Close(s, h))
  {
    CloseKeepsTables(s, h);
    CloseKeepsLog(s, h);
  }

  lemma EmitOpenKeepsTables(s: State, h: Handle)
    requires TableAgrees(s) && TimersAgree(s) && AnsweredFirst(s) && h < |s.w.conns|
    ensures TableAgrees(EmitOpen(s, h)) && TimersAgree(EmitOpen(s, h)) && AnsweredFirst(EmitOpen(s, h))
  {
  }

  lemma EmitOpenKeepsInv(s: State, h: Handle)
    requires Inv(s) && h < |s.w.conns|
    ensures Inv(EmitOpen(s, h))
  {
    EmitOpenKeepsTables(s, h);
    var t := EmitOpen(s, h);
    if t != s {
      LogGrows(s, t, OpenConnection(h));
    }
  }

  /** Changing what a connection records about its peer touches no table and no log. */
  lemma UpdateKeepsInv(s: State, h: Handle, c: Conn)
    requires Inv(s) && h < |s.w.conns|
    requires var d := s.w.conns[h];
             && c.address == d.address && c.closed == d.closed && c.announced == d.announced
             && (d.answered ==> c.answered) && (c.connected ==> c.answered && !c.closed)
             && (h in s.w.offers ==> !c.answered)
             && (c.answered ==> AnswersTo(s.w.responses, h) == 1)
    ensures Inv(Updated(s, h, c))
  {
    UpdateKeepsTables(s, h, c);
    assert forall k: Handle :: Story(Updated(s, h, c), k) == Story(s, k);
  }

  lemma UpdateKeepsTables(s: State, h: Handle, c: Conn)
    requires TableAgrees(s) && TimersAgree(s) && AnsweredFirst(s) && h < |s.w.conns|
    requires var d := s.w.conns[h];
             && c.address == d.address && c.closed == d.closed && c.announced == d.announced
             && (d.answered ==> c.answered) && (c.connected ==> c.answered && !c.closed)
             && (h in s.w.offers ==> !c.answered)
    ensures var t := Updated(s, h, c); TableAgrees(t) && TimersAgree(t) && AnsweredFirst(t)
  {
  }

  lemma NewOfferKeepsInv(s: State, id: nat, peerMade: bool)
    requires Inv(s)
    ensures Inv(HandleOffer(s, id, peerMade))
  {
    var t := HandleOffer(s, id, peerMade);
    if !peerMade {
      RespondKeepsInv(s, Refusal(id, FAILED_TO_CREATE_PEER));
    } else if t != s {
      NewOfferKeepsTables(s, id);
      assert forall k: Handle :: Story(t, k) == Story(s, k);
    }
  }

  lemma NewOfferKeepsTables(s: State, id: nat)
    requires TableAgrees(s) && TimersAgree(s) && AnsweredFirst(s)
    ensures var t := HandleOffer(s, id, true); TableAgrees(t) && TimersAgree(t) && AnsweredFirst(t)
  {
    var t := HandleOffer(s, id, true);
    assert forall h: Handle | h < |s.w.conns| :: t.w.conns[h] == s.w.conns[h];
  }

  lemma DropKeepsInv(s: State, h: Handle)
    requires Inv(s)
    ensures Inv(Dropped(s, h))
  {
    assert forall k: Handle :: Story(Dropped(s, h), k) == Story(s, k);
  }

  lemma NextStageKeepsInv(s: State, h: Handle, stage: Stage)
    requires Inv(s) && h in s.w.offers
    ensures Inv(Suspended(Dropped(s, h), h, stage))
  {
    assert forall k: Handle :: Story(Suspended(Dropped(s, h), h, stage), k) == Story(s, k);
  }

  lemma ArmKeepsInv(s: State, h: Handle, acceptTimeoutMs: int)
    requires Inv(s) && h < |s.w.conns| && !s.w.conns[h].closed && !s.w.conns[h].announced && h !in s.w.offers
    ensures Inv(ArmAcceptTimeout(s, h, acceptTimeoutMs))
  {
    assert forall k: Handle :: Story(ArmAcceptTimeout(s, h, acceptTimeoutMs), k) == Story(s, k);
  }

  lemma ResumeKeepsInv(s: State, h: Handle, ok: bool, respond: Respond, acceptTimeoutMs: int)
    requires Inv(s) && h in s.w.offers
    ensures Inv(ResumeOffer(s, h, ok, respond, acceptTimeoutMs))
  {
    DropKeepsInv(s, h);
    if !s.w.conns[h].closed {
      if ok {
        match s.w.offers[h]
        case SettingRemote => NextStageKeepsInv(s, h, CreatingAnswer);
        case CreatingAnswer => NextStageKeepsInv(s, h, SettingLocal);
        case SettingLocal => AnswerKeepsInv(Dropped(s, h), h, respond, acceptTimeoutMs);
      } else {
        GiveUpKeepsInv(Dropped(s, h), h, StageError(s.w.offers[h]), respond != Works);
      }
    }
  }

  lemma GiveUpKeepsInv(s: State, h: Handle, code: nat, respondThrows: bool)
    requires Inv(s) && h < |s.w.conns|
    ensures Inv(GiveUp(s, h, code, respondThrows))
  {
    RespondKeepsInv(s, Failure(h, code));
    CloseKeepsInv(Responded(s, Failure(h, code)), h);
  }

  lemma AnswerKeepsInv(s: State, h: Handle, respond: Respond, acceptTimeoutMs: int)
    requires Inv(s) && h < |s.w.conns| && h !in s.w.offers && AnswersTo(s.w.responses, h) == 0 && !s.w.conns[h].closed
    ensures Inv(SendAnswer(s, h, respond, acceptTimeoutMs))
  {
    var t := Responded(s, Answer(h));
    RespondKeepsInv(s, Answer(h));
    if respond.Works? {
      AnswersSnoc(s.w.responses, Answer(h), h);
      var c := s.w.conns[h].(answered := true);
      UpdateKeepsInv(t, h, c);
      ArmKeepsInv(Updated(t, h, c), h, acceptTimeoutMs);
    } else {
      GiveUpKeepsInv(t, h, SIGNALING_FAILED, respond.ThrowsAlways?);
    }
  }

  lemma CandidatesKeepInv(s: State, candidates: multiset<Handle>)
    requires Inv(s) && forall h | h in candidates :: h < |s.w.conns|
    ensures Inv(s.(w := s.w.(candidates := candidates)))
  {
    var t := s.(w := s.w.(candidates := candidates));
    assert forall k: Handle :: Story(t, k) == Story(s, k);
  }

  lemma CandidateKeepsInv(s: State, h: Handle, ok: bool, hasRespond: bool)
    requires Inv(s) && h in s.w.candidates
    ensures Inv(ResumeCandidate(s, h, ok, hasRespond))
  {
    var t := s.(w := s.w.(candidates := s.w.candidates - multiset{h}));
    CandidatesKeepInv(s, s.w.candidates - multiset{h});
    CloseKeepsInv(t, h);
    RespondKeepsInv(Close(t, h), Failure(h, CANDIDATE_ADD));
  }

  lemma ChannelKeepsInv(s: State, h: Handle, kind: ChannelKind, respondThrows: bool)
    requires Inv(s) && h < |s.w.conns|
    ensures Inv(OnDataChannel(s, h, kind, respondThrows))
  {
    if kind.Unexpected? || kind in s.w.conns[h].channels {
      GiveUpKeepsInv(s, h, CONNECTION_IGNORED, respondThrows);
    } else {
      var c := s.w.conns[h].(channels := s.w.conns[h].channels + {kind});
      UpdateKeepsInv(s, h, c);
      EmitOpenKeepsInv(Updated(s, h, c), h);
    }
  }

  lemma ConnectedKeepsInv(s: State, h: Handle)
    requires Inv(s) && h < |s.w.conns| && s.w.conns[h].answered && !s.w.conns[h].closed
    ensures Inv(OnConnected(s, h))
  {
    var c := s.w.conns[h].(connected := true);
    UpdateKeepsInv(s, h, c);
    EmitOpenKeepsInv(Updated(s, h, c), h);
  }

  lemma TimerKeepsInv(s: State, id: nat)
    requires Inv(s) && id in s.acceptTimeouts
    ensures Inv(FireTimer(s, id))
  {
    var t := s.(acceptTimeouts := s.acceptTimeouts - {id});
    assert forall k: Handle :: Story(t, k) == Story(s, k);
    var r := Failure(s.acceptTimeouts[id], WAITING_FOR_ACCEPT);
    RespondKeepsInv(t, r);
    CloseKeepsInv(Responded(t, r), s.acceptTimeouts[id]);
  }

  /** The part of the invariant that holds while `close` is at work: the server is closed and still has connections. */
  ghost predicate Closing(s: State) {
    TableAgrees(s) && TimersAgree(s) && AnsweredFirst(s) && LogAgrees(s) && ResponsesAgree(s)
  }

  /** Closing one connection takes exactly its entry out of the table. */
  lemma CloseRemoves(s: State, id: nat)
    requires Closing(s) && id in s.connections
    ensures var t := Close(s, s.connections[id]);
            && Closing(t) && t.closed == s.closed && |t.w.conns| == |s.w.conns|
            && t.connections == s.connections - {id}
  {
    CloseKeepsTables(s, s.connections[id]);
    CloseKeepsLog(s, s.connections[id]);
  }

  /**
   The iteration over the map that its own body shrinks: every listed connection is closed and nothing else changes
   in the table.
   */
  lemma {:induction false} CloseAllRemoves(s: State, ids: seq<nat>)
    requires Closing(s)
    ensures var t := CloseAll(s, ids);
            && Closing(t) && t.closed == s.closed && |t.w.conns| == |s.w.conns|
            && t.connections.Keys == s.connections.Keys - (set id | id in ids)
    decreases |ids|
  {
    if ids != [] {
      if ids[0] in s.connections {
        CloseRemoves(s, ids[0]);
        CloseAllRemoves(Close(s, s.connections[ids[0]]), ids[1..]);
      } else {
        CloseAllRemoves(s, ids[1..]);
      }
    }
  }

  /** `Server.close` closes every connection and leaves both maps empty. */
  lemma CloseEmptiesTables(s: State, ids: seq<nat>)
    requires Inv(s) && !s.closed && Lists(s, ids)
    ensures var t := CloseAll(s.(closed := true), ids);
            && Inv(t) && t.closed && t.connections == map[] && t.acceptTimeouts == map[]
            && (forall h: Handle | h < |s.w.conns| :: h < |t.w.conns| && t.w.conns[h].closed)
  {
    var u := s.(closed := true);
    assert forall k: Handle :: Story(u, k) == Story(s, k);
    CloseAllRemoves(u, ids);
    var t := CloseAll(u, ids);
    assert t.connections.Keys == {};
  }

  lemma InvInScope(s: State)
    requires Inv(s)
    ensures InScope(s)
  {
  }

  lemma NextKeepsInv(s: State, step: Step, acceptTimeoutMs: int)
    requires Inv(s)
    ensures InScope(s) && Inv(Next(s, step, acceptTimeoutMs))
  {
    InvInScope(s);
    if IsSignalling(step) {
      SignallingKeepsInv(s, step, acceptTimeoutMs);
    } else if step.CallClose? {
      ShutdownKeepsInv(s, step.ids, acceptTimeoutMs);
    } else {
      ConnectionKeepsInv(s, step, acceptTimeoutMs);
    }
  }

  /** The steps of offers and candidates; the others are those of connections, timers and shutdown. */
  predicate IsSignalling(step: Step) {
    || step.ReceiveOffer? || step.OfferContinues?
    || step.ReceiveCandidate? || step.CandidateContinues? || step.PeerGathers?
  }

  lemma SignallingKeepsInv(s: State, step: Step, acceptTimeoutMs: int)
    requires Inv(s) && InScope(s) && IsSignalling(step)
    ensures Inv(Next(s, step, acceptTimeoutMs))
  {
    match step
    case ReceiveOffer(id, peerMade) => NewOfferKeepsInv(s, id, peerMade);
    case OfferContinues(h, ok, respond) =>
      if h in s.w.offers { ResumeKeepsInv(s, h, ok, respond, acceptTimeoutMs); }
    case ReceiveCandidate(id) =>
      if id in s.connections { CandidatesKeepInv(s, s.w.candidates + multiset{s.connections[id]}); }
    case CandidateContinues(h, ok, hasRespond) =>
      if h in s.w.candidates { CandidateKeepsInv(s, h, ok, hasRespond); }
    case PeerGathers(h) => if h < |s.w.conns| { RespondKeepsInv(s, LocalCandidate(h)); }
  }

  /** What such a step is, so that a proof about it need not look at the others. */
  lemma ConnectionStepIs(s: State, step: Step, acceptTimeoutMs: int)
    requires InScope(s) && !IsSignalling(step) && !step.CallClose?
    ensures var t := Next(s, step, acceptTimeoutMs);
            match step
            case ChannelArrives(h, kind, respondThrows) =>
              t == if h < |s.w.conns| then OnDataChannel(s, h, kind, respondThrows) else s
            case PeerConnects(h) =>
              t == if h < |s.w.conns| && s.w.conns[h].answered && !s.w.conns[h].closed then OnConnected(s, h) else s
            case ConnectionCloses(h) => t == if h < |s.w.conns| then Close(s, h) else s
            case ReceiveError(id) => t == if id in s.connections then Close(s, s.connections[id]) else s
            case TimerFires(id) => t == if id in s.acceptTimeouts then FireTimer(s, id) else s
            case _ => true
  {
  }

  lemma ConnectionKeepsInv(s: State, step: Step, acceptTimeoutMs: int)
    requires Inv(s) && InScope(s) && !IsSignalling(step) && !step.CallClose?
    ensures Inv(Next(s, step, acceptTimeoutMs))
  {
    ConnectionStepIs(s, step, acceptTimeoutMs);
    match step
    case ChannelArrives(h, kind, respondThrows) =>
      if h < |s.w.conns| { ChannelKeepsInv(s, h, kind, respondThrows); }
    case PeerConnects(h) =>
      if h < |s.w.conns| && s.w.conns[h].answered && !s.w.conns[h].closed { ConnectedKeepsInv(s, h); }
    case ConnectionCloses(h) => if h < |s.w.conns| { CloseKeepsInv(s, h); }
    case ReceiveError(id) => if id in s.connections { CloseKeepsInv(s, s.connections[id]); }
    case TimerFires(id) => if id in s.acceptTimeouts { TimerKeepsInv(s, id); }
  }

  lemma ShutdownKeepsInv(s: State, ids: seq<nat>, acceptTimeoutMs: int)
    requires Inv(s) && InScope(s)
    ensures Inv(Next(s, CallClose(ids), acceptTimeoutMs))
  {
    NextIsShutdown(s, ids, acceptTimeoutMs);
    if !s.closed && Lists(s, ids) {
      ShutdownIs(s, ids);
      CloseEmptiesTables(s, ids);
    }
  }

  // ---------------------------------------------------------------------------------------------------------
  // Runs

  lemma InitialInv()
    ensures Inv(INITIAL)
  {
  }

  ghost function Run(s: State, steps: seq<Step>, acceptTimeoutMs: int): (t: State)
    requires Inv(s)
    ensures Inv(t)
    decreases |steps|
  {
    if steps == [] then s
    else
      NextKeepsInv(s, steps[0], acceptTimeoutMs);
      Run(Next(s, steps[0], acceptTimeoutMs), steps[1..], acceptTimeoutMs)
  }

  /**
   After any run the unclosed connections are exactly the values of the map, each under its own address, so no id has
   two of them; each connection has said exactly its story: at most one openConnection, then exactly one
   closeConnection if it has closed; and it was answered at most once, and before it opened.
   */
  lemma TableAndLogAgree(steps: seq<Step>, acceptTimeoutMs: int, g: Handle, h: Handle)
    ensures Inv(INITIAL)
    ensures var s := Run(INITIAL, steps, acceptTimeoutMs);
            && EventsOf(s.w.log, h) == Story(s, h)
            && AnswersTo(s.w.responses, h) <= 1
            && (OpenConnection(h) in EventsOf(s.w.log, h) ==> AnswersTo(s.w.responses, h) == 1)
            && (h < |s.w.conns| ==>
                  (!s.w.conns[h].closed <==> s.w.conns[h].address in s.connections
                                             && s.connections[s.w.conns[h].address] == h))
            && (g < |s.w.conns| && h < |s.w.conns| && !s.w.conns[g].closed && !s.w.conns[h].closed ==>
                  s.w.conns[g].address == s.w.conns[h].address ==> g == h)
  {
    InitialInv();
    var s := Run(INITIAL, steps, acceptTimeoutMs);
    assert h < |s.w.conns| ==> (!s.w.conns[h].closed <==> IsRegistered(s, h));
    assert g < |s.w.conns| ==> (!s.w.conns[g].closed <==> IsRegistered(s, g));
  }

  // ---------------------------------------------------------------------------------------------------------
  // Half-open connections

  /** A live connection that has not opened has its `handleOffer` in flight or an accept timer. */
  ghost predicate NoneHalfOpen(s: State) {
    forall h: Handle | h < |s.w.conns| && !s.w.conns[h].closed && !s.w.conns[h].announced ::
      h in s.w.offers || s.w.conns[h].address in s.acceptTimeouts
  }

  /** A `handleOffer` ends by an exception of `respond` that skips the close of its live connection. */
  predicate Abandons(s: State, step: Step) {
    && step.OfferContinues?
    && step.conn in s.w.offers && step.conn < |s.w.conns| && !s.w.conns[step.conn].closed
    && (if step.ok then s.w.offers[step.conn].SettingLocal? && step.respond.ThrowsAlways? else !step.respond.Works?)
  }

  lemma CloseCovers(s: State, h: Handle)
    requires Inv(s) && NoneHalfOpen(s) && h < |s.w.conns|
    ensures NoneHalfOpen(Close(s, h))
  {
  }

  lemma CloseAllCovers(s: State, ids: seq<nat>)
    requires Inv(s) && !s.closed && Lists(s, ids)
    ensures NoneHalfOpen(CloseAll(s.(closed := true), ids))
  {
    CloseEmptiesTables(s, ids);
    CloseAllRemoves(s.(closed := true), ids);
  }

  /** One continuation of `handleOffer` leaves its connection half open exactly when it abandons it. */
  lemma ResumeCoversIff(s: State, h: Handle, ok: bool, respond: Respond, acceptTimeoutMs: int)
    requires Inv(s) && NoneHalfOpen(s) && acceptTimeoutMs > 0 && h in s.w.offers
    ensures NoneHalfOpen(ResumeOffer(s, h, ok, respond, acceptTimeoutMs))
       <==> !Abandons(s, OfferContinues(h, ok, respond))
  {
    var t := ResumeOffer(s, h, ok, respond, acceptTimeoutMs);
    if Abandons(s, OfferContinues(h, ok, respond)) {
      assert t.w.conns == s.w.conns && t.acceptTimeouts == s.acceptTimeouts;
      assert !t.w.conns[h].closed && !t.w.conns[h].announced && h !in t.w.offers;
      assert IsRegistered(s, h);
    } else {
      ResumeCovers(s, h, ok, respond, acceptTimeoutMs);
    }
  }

  lemma ResumeCovers(s: State, h: Handle, ok: bool, respond: Respond, acceptTimeoutMs: int)
    requires Inv(s) && NoneHalfOpen(s) && acceptTimeoutMs > 0 && h in s.w.offers
    requires !Abandons(s, OfferContinues(h, ok, respond))
    ensures NoneHalfOpen(ResumeOffer(s, h, ok, respond, acceptTimeoutMs))
  {
    ResumeKeepsConns(s, h, ok, respond, acceptTimeoutMs);
    var t := ResumeOffer(s, h, ok, respond, acceptTimeoutMs);
    forall k: Handle | k < |t.w.conns| && !t.w.conns[k].closed && !t.w.conns[k].announced
      ensures k in t.w.offers || t.w.conns[k].address in t.acceptTimeouts
    {
      assert IsRegistered(s, k);
      if k != h {
        ResumeKeepsOthers(s, h, ok, respond, acceptTimeoutMs, k);
      }
    }
  }

  /** It touches nobody else's record and timer either. */
  lemma ResumeKeepsOthers(s: State, h: Handle, ok: bool, respond: Respond, acceptTimeoutMs: int, k: Handle)
    requires Inv(s) && h in s.w.offers && k < |s.w.conns| && k != h && !s.w.conns[k].closed
    ensures var t := ResumeOffer(s, h, ok, respond, acceptTimeoutMs);
            && (k in s.w.offers ==> k in t.w.offers)
            && (s.w.conns[k].address in s.acceptTimeouts ==> s.w.conns[k].address in t.acceptTimeouts)
  {
    assert IsRegistered(s, k);
    if !s.w.conns[h].closed {
      assert IsRegistered(s, h);
    }
  }

  /** A continuation of `handleOffer` opens or reopens nothing. */
  lemma ResumeKeepsConns(s: State, h: Handle, ok: bool, respond: Respond, acceptTimeoutMs: int)
    requires h in s.w.offers && h < |s.w.conns|
    ensures var t := ResumeOffer(s, h, ok, respond, acceptTimeoutMs);
            && |t.w.conns| == |s.w.conns|
            && forall k: Handle | k < |s.w.conns| ::
                 && t.w.conns[k].address == s.w.conns[k].address && t.w.conns[k].announced == s.w.conns[k].announced
                 && (s.w.conns[k].closed ==> t.w.conns[k].closed)
  {
  }

  lemma OpenCovers(s: State, h: Handle, c: Conn)
    requires Inv(s) && NoneHalfOpen(s) && h < |s.w.conns|
    requires c.address == s.w.conns[h].address && c.closed == s.w.conns[h].closed
    requires c.announced == s.w.conns[h].announced && (c.connected ==> !c.closed)
    ensures NoneHalfOpen(EmitOpen(Updated(s, h, c), h))
  {
    var u := Updated(s, h, c);
    var t := EmitOpen(u, h);
    forall k: Handle | k < |t.w.conns| && !t.w.conns[k].closed && !t.w.conns[k].announced
      ensures k in t.w.offers || t.w.conns[k].address in t.acceptTimeouts
    {
      assert !s.w.conns[k].closed && !s.w.conns[k].announced && s.w.conns[k].address == t.w.conns[k].address;
      assert IsRegistered(s, k);
      if t != u {
        assert IsRegistered(s, h);
      }
    }
  }

  lemma ChannelCovers(s: State, h: Handle, kind: ChannelKind, respondThrows: bool)
    requires Inv(s) && NoneHalfOpen(s) && h < |s.w.conns|
    ensures NoneHalfOpen(OnDataChannel(s, h, kind, respondThrows))
  {
    if kind.Unexpected? || kind in s.w.conns[h].channels {
      RespondKeepsInv(s, Failure(h, CONNECTION_IGNORED));
      CloseCovers(Responded(s, Failure(h, CONNECTION_IGNORED)), h);
    } else {
      OpenCovers(s, h, s.w.conns[h].(channels := s.w.conns[h].channels + {kind}));
    }
  }

  lemma CandidateCovers(s: State, h: Handle, ok: bool, hasRespond: bool)
    requires Inv(s) && NoneHalfOpen(s) && h in s.w.candidates
    ensures NoneHalfOpen(ResumeCandidate(s, h, ok, hasRespond))
  {
    CandidatesKeepInv(s, s.w.candidates - multiset{h});
    CloseCovers(s.(w := s.w.(candidates := s.w.candidates - multiset{h})), h);
  }

  lemma OfferCovers(s: State, id: nat, peerMade: bool)
    requires Inv(s) && NoneHalfOpen(s)
    ensures NoneHalfOpen(HandleOffer(s, id, peerMade))
  {
  }

  /** What touches neither connections nor offers nor timers leaves nothing half open. */
  lemma QuietCovers(s: State, t: State)
    requires NoneHalfOpen(s)
    requires t.w.conns == s.w.conns && t.w.offers == s.w.offers && t.acceptTimeouts == s.acceptTimeouts
    ensures NoneHalfOpen(t)
  {
  }

  lemma NextCoversIff(s: State, step: Step, acceptTimeoutMs: int)
    requires Inv(s) && NoneHalfOpen(s) && acceptTimeoutMs > 0
    ensures InScope(s)
    ensures NoneHalfOpen(Next(s, step, acceptTimeoutMs)) <==> !Abandons(s, step)
  {
    InvInScope(s);
    if step.OfferContinues? {
      if step.conn in s.w.offers {
        ResumeCoversIff(s, step.conn, step.ok, step.respond, acceptTimeoutMs);
      }
    } else {
      OtherCovers(s, step, acceptTimeoutMs);
    }
  }

  lemma OtherCovers(s: State, step: Step, acceptTimeoutMs: int)
    requires Inv(s) && InScope(s) && NoneHalfOpen(s) && !step.OfferContinues?
    ensures NoneHalfOpen(Next(s, step, acceptTimeoutMs))
  {
    if IsSignalling(step) {
      SignallingCovers(s, step, acceptTimeoutMs);
    } else if step.CallClose? {
      ShutdownCovers(s, step.ids, acceptTimeoutMs);
    } else {
      ConnectionCovers(s, step, acceptTimeoutMs);
    }
  }

  lemma SignallingCovers(s: State, step: Step, acceptTimeoutMs: int)
    requires Inv(s) && InScope(s) && NoneHalfOpen(s) && IsSignalling(step) && !step.OfferContinues?
    ensures NoneHalfOpen(Next(s, step, acceptTimeoutMs))
  {
    match step
    case ReceiveOffer(id, peerMade) => OfferCovers(s, id, peerMade);
    case ReceiveCandidate(id) => QuietCovers(s, HandleCandidate(s, id));
    case CandidateContinues(h, ok, hasRespond) =>
      if h in s.w.candidates { CandidateCovers(s, h, ok, hasRespond); }
    case PeerGathers(h) => QuietCovers(s, Responded(s, LocalCandidate(h)));
  }

  lemma ConnectionCovers(s: State, step: Step, acceptTimeoutMs: int)
    requires Inv(s) && InScope(s) && NoneHalfOpen(s) && !IsSignalling(step) && !step.CallClose?
    ensures NoneHalfOpen(Next(s, step, acceptTimeoutMs))
  {
    ConnectionStepIs(s, step, acceptTimeoutMs);
    match step
    case ChannelArrives(h, kind, respondThrows) =>
      if h < |s.w.conns| { ChannelCovers(s, h, kind, respondThrows); }
    case PeerConnects(h) => if h < |s.w.conns| && !s.w.conns[h].closed { ConnectedCovers(s, h); }
    case ConnectionCloses(h) => if h < |s.w.conns| { CloseCovers(s, h); }
    case ReceiveError(id) => if id in s.connections { CloseCovers(s, s.connections[id]); }
    case TimerFires(id) => if id in s.acceptTimeouts { TimerCovers(s, id); }
  }

  lemma TimerLeavesItClosed(s: State, id: nat)
    requires Inv(s) && id in s.acceptTimeouts
    ensures s.acceptTimeouts[id] < |s.w.conns| == |FireTimer(s, id).w.conns|
    ensures FireTimer(s, id).w.conns[s.acceptTimeouts[id]].closed
  {
    TimerCloses(s, id);
  }

  lemma TimerCovers(s: State, id: nat)
    requires Inv(s) && NoneHalfOpen(s) && id in s.acceptTimeouts
    ensures NoneHalfOpen(FireTimer(s, id))
  {
    TimerCloses(s, id);
  }

  lemma ShutdownCovers(s: State, ids: seq<nat>, acceptTimeoutMs: int)
    requires Inv(s) && InScope(s) && NoneHalfOpen(s)
    ensures NoneHalfOpen(Next(s, CallClose(ids), acceptTimeoutMs))
  {
    NextIsShutdown(s, ids, acceptTimeoutMs);
    if !s.closed && Lists(s, ids) {
      ShutdownIs(s, ids);
      CloseAllCovers(s, ids);
    }
  }

  lemma NextIsShutdown(s: State, ids: seq<nat>, acceptTimeoutMs: int)
    requires InScope(s)
    ensures Next(s, CallClose(ids), acceptTimeoutMs) == Shutdown(s, ids)
  {
  }

  lemma ShutdownIs(s: State, ids: seq<nat>)
    requires Scoped(s) && !s.closed && Lists(s, ids)
    ensures Shutdown(s, ids) == CloseAll(s.(closed := true), ids)
  {
  }

  lemma ConnectedCovers(s: State, h: Handle)
    requires Inv(s) && NoneHalfOpen(s) && h < |s.w.conns| && !s.w.conns[h].closed
    ensures NoneHalfOpen(OnConnected(s, h))
  {
    OpenCovers(s, h, s.w.conns[h].(connected := true));
  }

  /** An accept timer fires for a live connection that has not opened, and closes it with one closeConnection. */
  lemma TimerCloses(s: State, id: nat)
    requires Inv(s) && id in s.acceptTimeouts
    ensures var h := s.acceptTimeouts[id];
            && !s.w.conns[h].closed && !s.w.conns[h].announced
            && FireTimer(s, id) == Close(Responded(s, Failure(h, 15)), h)
            && FireTimer(s, id).w.log == s.w.log + [CloseConnectionEvent(h)]
    ensures NoneHalfOpen(s) ==> NoneHalfOpen(FireTimer(s, id))
  {
    var h := s.acceptTimeouts[id];
    assert IsRegistered(s, h);
    var t := s.(acceptTimeouts := s.acceptTimeouts - {id});
    assert t.acceptTimeouts - {id} == s.acceptTimeouts - {id};
    if NoneHalfOpen(s) {
      RespondKeepsInv(s, Failure(h, WAITING_FOR_ACCEPT));
      CloseCovers(Responded(s, Failure(h, WAITING_FOR_ACCEPT)), h);
    }
  }

  ghost predicate NeverAbandons(s: State, steps: seq<Step>, acceptTimeoutMs: int)
    requires Inv(s)
    decreases |steps|
  {
    steps == [] ||
    (NextKeepsInv(s, steps[0], acceptTimeoutMs);
     !Abandons(s, steps[0]) && NeverAbandons(Next(s, steps[0], acceptTimeoutMs), steps[1..], acceptTimeoutMs))
  }

  ghost predicate NeverHalfOpen(s: State, steps: seq<Step>, acceptTimeoutMs: int)
    requires Inv(s)
    decreases |steps|
  {
    NoneHalfOpen(s) &&
    (steps == [] ||
     (NextKeepsInv(s, steps[0], acceptTimeoutMs);
      NeverHalfOpen(Next(s, steps[0], acceptTimeoutMs), steps[1..], acceptTimeoutMs)))
  }

  /**
   With a positive accept timeout no connection is ever left half open over a run, exactly when no `handleOffer` in
   it ended by an exception of `respond` that skipped the close.
   */
  lemma {:induction false} NeverHalfOpenIff(s: State, steps: seq<Step>, acceptTimeoutMs: int)
    requires Inv(s) && NoneHalfOpen(s) && acceptTimeoutMs > 0
    ensures NeverHalfOpen(s, steps, acceptTimeoutMs) <==> NeverAbandons(s, steps, acceptTimeoutMs)
    decreases |steps|
  {
    if steps != [] {
      NextKeepsInv(s, steps[0], acceptTimeoutMs);
      NextCoversIff(s, steps[0], acceptTimeoutMs);
      if !Abandons(s, steps[0]) {
        NeverHalfOpenIff(Next(s, steps[0], acceptTimeoutMs), steps[1..], acceptTimeoutMs);
      }
    }
  }

  /** The shortest run that leaves one: the offer cannot be applied and the error cannot be sent. */
  lemma HalfOpenExample(id: nat, acceptTimeoutMs: int)
    requires acceptTimeoutMs > 0
    ensures Inv(INITIAL) && NoneHalfOpen(INITIAL)
    ensures !NeverHalfOpen(INITIAL, [ReceiveOffer(id, true), OfferContinues(0, false, ThrowsAlways)], acceptTimeoutMs)
  {
    InitialInv();
    var steps := [ReceiveOffer(id, true), OfferContinues(0, false, ThrowsAlways)];
    NextKeepsInv(INITIAL, steps[0], acceptTimeoutMs);
    var s := Next(INITIAL, steps[0], acceptTimeoutMs);
    assert steps[1..] == [OfferContinues(0, false, ThrowsAlways)];
    assert Abandons(s, steps[1]);
    assert !NeverAbandons(s, steps[1..], acceptTimeoutMs);
    NeverHalfOpenIff(INITIAL, steps, acceptTimeoutMs);
  }

  // ---------------------------------------------------------------------------------------------------------
  // Shutdown and late continuations

  /** Whatever happens to its id meanwhile, a `handleOffer` whose own connection has closed sends and arms nothing. */
  lemma ClosedOfferIsInert(s: State, h: Handle, ok: bool, respond: Respond, acceptTimeoutMs: int)
    requires Inv(s) && h in s.w.offers && s.w.conns[h].closed
    ensures InScope(s)
    ensures var t := Next(s, OfferContinues(h, ok, respond), acceptTimeoutMs);
            && t == Dropped(s, h)
            && t.w.responses == s.w.responses && t.acceptTimeouts == s.acceptTimeouts
  {
    NextKeepsInv(s, OfferContinues(h, ok, respond), acceptTimeoutMs);
  }

  /**
   What may still be sent once a connection has closed, by events of its own that nobody guards: the failure of a
   candidate in flight, a channel of the closed peer that is refused, and candidates that peer gathers.
   */
  predicate IsLate(r: Response) {
    r.LocalCandidate? || (r.Failure? && (r.code == 8 || r.code == 16))
  }

  /** The code each failure of a live connection is reported under, before it is closed. */
  lemma FailureIsReported(s: State, h: Handle, acceptTimeoutMs: int)
    requires Inv(s) && h in s.w.offers && !s.w.conns[h].closed
    ensures var code := match s.w.offers[h] case SettingRemote => 13 case CreatingAnswer => 11 case SettingLocal => 12;
            ResumeOffer(s, h, false, Works, acceptTimeoutMs) == Close(Responded(Dropped(s, h), Failure(h, code)), h)
    ensures s.w.offers[h].SettingLocal? ==>
              ResumeOffer(s, h, true, ThrowsOnce, acceptTimeoutMs).w.responses
              == s.w.responses + [Answer(h), Failure(h, 26)]
  {
    assert s.w.responses + [Answer(h)] + [Failure(h, 26)] == s.w.responses + [Answer(h), Failure(h, 26)];
  }

  /** A closed server has nothing but connections that have closed. */
  ghost predicate AllClosed(s: State) {
    && s.closed && s.connections == map[] && s.acceptTimeouts == map[]
    && forall h: Handle | h < |s.w.conns| :: s.w.conns[h].closed && !s.w.conns[h].connected
  }

  lemma ClosedMeansAllClosed(s: State)
    requires Inv(s) && s.closed
    ensures AllClosed(s)
  {
    forall h: Handle | h < |s.w.conns|
      ensures s.w.conns[h].closed && !s.w.conns[h].connected
    {
      assert s.w.conns[h].closed || IsRegistered(s, h);
    }
    assert s.acceptTimeouts.Keys == {};
  }

  lemma ClosedNext(s: State, step: Step, acceptTimeoutMs: int)
    requires Inv(s) && s.closed
    ensures InScope(s)
    ensures var t := Next(s, step, acceptTimeoutMs);
            && t.closed && t.connections == map[] && t.acceptTimeouts == map[] && t.w.log == s.w.log
            && AllLate(s.w.responses, t.w.responses)
  {
    InvInScope(s);
    ClosedMeansAllClosed(s);
    AllClosedNext(s, step, acceptTimeoutMs);
  }

  lemma AllClosedNext(s: State, step: Step, acceptTimeoutMs: int)
    requires InScope(s) && AllClosed(s)
    ensures var t := Next(s, step, acceptTimeoutMs);
            && t.closed && t.connections == map[] && t.acceptTimeouts == map[] && t.w.log == s.w.log
            && AllLate(s.w.responses, t.w.responses)
  {
  }

  ghost predicate AllLate(before: seq<Response>, after: seq<Response>) {
    before <= after && forall i | |before| <= i < |after| :: IsLate(after[i])
  }

  /** Once closed the server stays closed and empty, emits nothing, and sends only what is late, over every run. */
  lemma {:induction false} ClosedForGood(s: State, steps: seq<Step>, acceptTimeoutMs: int)
    requires Inv(s) && s.closed
    ensures var t := Run(s, steps, acceptTimeoutMs);
            && t.closed && t.connections == map[] && t.acceptTimeouts == map[] && t.w.log == s.w.log
            && AllLate(s.w.responses, t.w.responses)
    decreases |steps|
  {
    assert s.acceptTimeouts.Keys == {};
    if steps != [] {
      var u := Next(s, steps[0], acceptTimeoutMs);
      ClosedNext(s, steps[0], acceptTimeoutMs);
      NextKeepsInv(s, steps[0], acceptTimeoutMs);
      ClosedForGood(u, steps[1..], acceptTimeoutMs);
      assert forall i | |s.w.responses| <= i < |u.w.responses| ::
          Run(s, steps, acceptTimeoutMs).w.responses[i] == u.w.responses[i];
    }
  }
}
