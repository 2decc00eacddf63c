/** What a server sends for a connection that has closed: exactly what, by which steps, and when nothing. */
module ServerResponses {
  import opened Sequences
  import opened ServerModel
  import opened ServerProofs

  predicate Concerns(r: Response, h: Handle) {
    !r.Refusal? && r.conn == h
  }

  /** All that was sent for a connection after `before` is late. */
  ghost predicate OnlyLate(before: seq<Response>, after: seq<Response>, h: Handle) {
    && before <= after
    && forall i | |before| <= i < |after| && Concerns(after[i], h) :: IsLate(after[i])
  }

  lemma OnlyLateChains(a: seq<Response>, b: seq<Response>, c: seq<Response>, h: Handle)
    requires OnlyLate(a, b, h) && OnlyLate(b, c, h)
    ensures OnlyLate(a, c, h)
  {
    assert forall i | |a| <= i < |b| :: c[i] == b[i];
  }

  /** What was handed to `respond` for one connection. */
  function ResponsesTo(responses: seq<Response>, h: Handle): seq<Response> {
    if responses == [] then []
    else
      var init, last := ResponsesTo(responses[..|responses| - 1], h), responses[|responses| - 1];
      if Concerns(last, h) then init + [last] else init
  }

  lemma ResponsesSnoc(responses: seq<Response>, r: Response, h: Handle)
    ensures ResponsesTo(responses + [r], h)
         == ResponsesTo(responses, h) + if Concerns(r, h) then [r] else []
  {
    assert (responses + [r])[..|responses|] == responses;
    Nothing(ResponsesTo(responses, h));
  }

  // ---------------------------------------------------------------------------------------------------------
  // One step

  /** One step of the server, seen from a connection that has closed: exactly `late` is sent for it. */
  ghost predicate LeavesClosed(s: State, t: State, h: Handle, late: seq<Response>) {
    && h < |t.w.conns| && t.w.conns[h].closed
    && OnlyLate(s.w.responses, t.w.responses, h)
    && ResponsesTo(t.w.responses, h) == ResponsesTo(s.w.responses, h) + late
  }

  lemma QuietLeavesClosed(s: State, t: State, h: Handle)
    requires h < |t.w.conns| && t.w.conns[h].closed && t.w.responses == s.w.responses
    ensures LeavesClosed(s, t, h, [])
  {
    Nothing(ResponsesTo(s.w.responses, h));
  }

  lemma RespondLeavesClosed(s: State, r: Response, h: Handle)
    requires h < |s.w.conns| && s.w.conns[h].closed && (Concerns(r, h) ==> IsLate(r))
    ensures LeavesClosed(s, Responded(s, r), h, if Concerns(r, h) then [r] else [])
  {
    ResponsesSnoc(s.w.responses, r, h);
  }

  lemma CloseLeavesClosed(s: State, k: Handle, h: Handle)
    requires h < |s.w.conns| && s.w.conns[h].closed && k < |s.w.conns|
    ensures Close(s, k).w.responses == s.w.responses
    ensures |Close(s, k).w.conns| == |s.w.conns| && Close(s, k).w.conns[h].closed
  {
  }

  lemma ClosingLeavesClosed(s: State, k: Handle, h: Handle)
    requires h < |s.w.conns| && s.w.conns[h].closed && k < |s.w.conns|
    ensures LeavesClosed(s, Close(s, k), h, [])
  {
    CloseLeavesClosed(s, k, h);
    QuietLeavesClosed(s, Close(s, k), h);
  }

  lemma GiveUpLeavesClosed(s: State, k: Handle, code: nat, respondThrows: bool, h: Handle)
    requires h < |s.w.conns| && s.w.conns[h].closed && k < |s.w.conns|
    requires k == h ==> IsLate(Failure(h, code))
    ensures LeavesClosed(s, GiveUp(s, k, code, respondThrows), h, if k == h then [Failure(h, code)] else [])
  {
    var r := Failure(k, code);
    RespondLeavesClosed(s, r, h);
    CloseLeavesClosed(Responded(s, r), k, h);
  }

  lemma AnswerLeavesClosed(s: State, k: Handle, respond: Respond, acceptTimeoutMs: int, h: Handle)
    requires h < |s.w.conns| && s.w.conns[h].closed && k < |s.w.conns| && k != h
    ensures LeavesClosed(s, SendAnswer(s, k, respond, acceptTimeoutMs), h, [])
  {
    var t := Responded(s, Answer(k));
    RespondLeavesClosed(s, Answer(k), h);
    if !respond.Works? {
      GiveUpLeavesClosed(t, k, SIGNALING_FAILED, respond.ThrowsAlways?, h);
      var u := SendAnswer(s, k, respond, acceptTimeoutMs);
      OnlyLateChains(s.w.responses, t.w.responses, u.w.responses, h);
      Nothing(ResponsesTo(s.w.responses, h));
    }
  }

  lemma ResumeLeavesClosed(s: State, k: Handle, ok: bool, respond: Respond, acceptTimeoutMs: int, h: Handle)
    requires h < |s.w.conns| && s.w.conns[h].closed && k < |s.w.conns| && k in s.w.offers
    ensures LeavesClosed(s, ResumeOffer(s, k, ok, respond, acceptTimeoutMs), h, [])
  {
    Nothing(ResponsesTo(s.w.responses, h));
    if !s.w.conns[k].closed {
      if !ok {
        GiveUpLeavesClosed(Dropped(s, k), k, StageError(s.w.offers[k]), respond != Works, h);
      } else if s.w.offers[k].SettingLocal? {
        AnswerLeavesClosed(Dropped(s, k), k, respond, acceptTimeoutMs, h);
      }
    }
  }

  lemma CandidateLeavesClosed(s: State, k: Handle, ok: bool, hasRespond: bool, h: Handle)
    requires h < |s.w.conns| && s.w.conns[h].closed && k < |s.w.conns|
    ensures LeavesClosed(s, ResumeCandidate(s, k, ok, hasRespond), h,
                         if k == h && !ok && hasRespond then [Failure(h, CANDIDATE_ADD)] else [])
  {
    var t := s.(w := s.w.(candidates := s.w.candidates - multiset{k}));
    CloseLeavesClosed(t, k, h);
    if !ok && hasRespond {
      RespondLeavesClosed(Close(t, k), Failure(k, CANDIDATE_ADD), h);
    } else {
      QuietLeavesClosed(s, ResumeCandidate(s, k, ok, hasRespond), h);
    }
  }

  lemma TimerLeavesClosed(s: State, id: nat, h: Handle)
    requires Inv(s) && h < |s.w.conns| && s.w.conns[h].closed && id in s.acceptTimeouts
    ensures LeavesClosed(s, FireTimer(s, id), h, [])
  {
    var k := s.acceptTimeouts[id];
    var t := s.(acceptTimeouts := s.acceptTimeouts - {id});
    assert IsRegistered(s, k) && k != h;
    GiveUpLeavesClosed(t, k, WAITING_FOR_ACCEPT, false, h);
  }

  /** The steps that send something for a connection which has closed. */
  predicate SendsLate(s: State, step: Step, h: Handle)
    requires h < |s.w.conns|
  {
    || (step == CandidateContinues(h, false, true) && h in s.w.candidates)
    || step == PeerGathers(h)
    || (step.ChannelArrives? && step.conn == h && (step.kind.Unexpected? || step.kind in s.w.conns[h].channels))
  }

  /** What they send. */
  function Late(s: State, step: Step, h: Handle): seq<Response>
    requires h < |s.w.conns|
  {
    if !SendsLate(s, step, h) then []
    else if step.PeerGathers? then [LocalCandidate(h)]
    else [Failure(h, if step.CandidateContinues? then 8 else 16)]
  }

  /** One step of a closed connection sends exactly what is late, so something if and only if the step sends late. */
  lemma ClosedConnNext(s: State, step: Step, acceptTimeoutMs: int, h: Handle)
    requires Inv(s) && h < |s.w.conns| && s.w.conns[h].closed
    ensures InScope(s)
    ensures LeavesClosed(s, Next(s, step, acceptTimeoutMs), h, Late(s, step, h))
  {
    InvInScope(s);
    if step.TimerFires? {
      TimerStepLeavesClosed(s, step.id, acceptTimeoutMs, h);
    } else if step.CallClose? {
      ShutdownStepLeavesClosed(s, step.ids, acceptTimeoutMs, h);
    } else {
      OtherLeavesClosed(s, step, acceptTimeoutMs, h);
    }
  }

  lemma TimerStepLeavesClosed(s: State, id: nat, acceptTimeoutMs: int, h: Handle)
    requires Inv(s) && InScope(s) && h < |s.w.conns| && s.w.conns[h].closed
    ensures LeavesClosed(s, Next(s, TimerFires(id), acceptTimeoutMs), h, [])
  {
    if id in s.acceptTimeouts {
      TimerLeavesClosed(s, id, h);
    } else {
      QuietLeavesClosed(s, s, h);
    }
  }

  lemma ShutdownStepLeavesClosed(s: State, ids: seq<nat>, acceptTimeoutMs: int, h: Handle)
    requires InScope(s) && h < |s.w.conns| && s.w.conns[h].closed
    ensures LeavesClosed(s, Next(s, CallClose(ids), acceptTimeoutMs), h, [])
  {
    if !s.closed && Lists(s, ids) {
      ShutdownLeavesClosed(s, ids, h);
    } else {
      QuietLeavesClosed(s, s, h);
    }
  }

  lemma OfferLeavesClosed(s: State, id: nat, peerMade: bool, h: Handle)
    requires h < |s.w.conns| && s.w.conns[h].closed
    ensures LeavesClosed(s, HandleOffer(s, id, peerMade), h, [])
  {
    Nothing(ResponsesTo(s.w.responses, h));
    RespondLeavesClosed(s, Refusal(id, FAILED_TO_CREATE_PEER), h);
  }

  lemma OpenLeavesClosed(s: State, k: Handle, c: Conn, h: Handle)
    requires h < |s.w.conns| && s.w.conns[h].closed && k < |s.w.conns| && c.closed == s.w.conns[k].closed
    ensures LeavesClosed(s, EmitOpen(Updated(s, k, c), k), h, [])
  {
    QuietLeavesClosed(s, EmitOpen(Updated(s, k, c), k), h);
  }

  lemma ChannelLeavesClosed(s: State, k: Handle, kind: ChannelKind, respondThrows: bool, h: Handle)
    requires h < |s.w.conns| && s.w.conns[h].closed && k < |s.w.conns|
    ensures LeavesClosed(s, OnDataChannel(s, k, kind, respondThrows), h,
                         if k == h && (kind.Unexpected? || kind in s.w.conns[h].channels)
                         then [Failure(h, CONNECTION_IGNORED)] else [])
  {
    if kind.Unexpected? || kind in s.w.conns[k].channels {
      GiveUpLeavesClosed(s, k, CONNECTION_IGNORED, respondThrows, h);
    } else {
      OpenLeavesClosed(s, k, s.w.conns[k].(channels := s.w.conns[k].channels + {kind}), h);
    }
  }

  /** A candidate that settles, on any connection. */
  lemma CandidateStepLeavesClosed(s: State, k: Handle, ok: bool, hasRespond: bool, acceptTimeoutMs: int, h: Handle)
    requires InScope(s) && h < |s.w.conns| && s.w.conns[h].closed
    ensures var step := CandidateContinues(k, ok, hasRespond);
            LeavesClosed(s, Next(s, step, acceptTimeoutMs), h, Late(s, step, h))
  {
    CandidateStepIs(s, k, ok, hasRespond, acceptTimeoutMs, h);
    if k in s.w.candidates {
      CandidateLeavesClosed(s, k, ok, hasRespond, h);
    } else {
      QuietLeavesClosed(s, s, h);
    }
  }

  lemma CandidateStepIs(s: State, k: Handle, ok: bool, hasRespond: bool, acceptTimeoutMs: int, h: Handle)
    requires InScope(s) && h < |s.w.conns|
    ensures Next(s, CandidateContinues(k, ok, hasRespond), acceptTimeoutMs)
         == if k in s.w.candidates then ResumeCandidate(s, k, ok, hasRespond) else s
    ensures Late(s, CandidateContinues(k, ok, hasRespond), h)
         == if k in s.w.candidates && k == h && !ok && hasRespond then [Failure(h, CANDIDATE_ADD)] else []
  {
  }

  lemma GatheringLeavesClosed(s: State, k: Handle, acceptTimeoutMs: int, h: Handle)
    requires InScope(s) && h < |s.w.conns| && s.w.conns[h].closed
    ensures LeavesClosed(s, Next(s, PeerGathers(k), acceptTimeoutMs), h, Late(s, PeerGathers(k), h))
  {
    if k < |s.w.conns| {
      RespondLeavesClosed(s, LocalCandidate(k), h);
    } else {
      QuietLeavesClosed(s, s, h);
    }
  }

  lemma ChannelStepLeavesClosed(s: State, k: Handle, kind: ChannelKind, respondThrows: bool, acceptTimeoutMs: int,
                                h: Handle)
    requires InScope(s) && h < |s.w.conns| && s.w.conns[h].closed
    ensures var step := ChannelArrives(k, kind, respondThrows);
            LeavesClosed(s, Next(s, step, acceptTimeoutMs), h, Late(s, step, h))
  {
    ChannelStepIs(s, k, kind, respondThrows, acceptTimeoutMs, h);
    if k < |s.w.conns| {
      ChannelLeavesClosed(s, k, kind, respondThrows, h);
    } else {
      QuietLeavesClosed(s, s, h);
    }
  }

  lemma ChannelStepIs(s: State, k: Handle, kind: ChannelKind, respondThrows: bool, acceptTimeoutMs: int, h: Handle)
    requires InScope(s) && h < |s.w.conns|
    ensures Next(s, ChannelArrives(k, kind, respondThrows), acceptTimeoutMs)
         == if k < |s.w.conns| then OnDataChannel(s, k, kind, respondThrows) else s
    ensures Late(s, ChannelArrives(k, kind, respondThrows), h)
         == if k == h && (kind.Unexpected? || kind in s.w.conns[h].channels) then [Failure(h, CONNECTION_IGNORED)]
            else []
  {
  }

  lemma OtherLeavesClosed(s: State, step: Step, acceptTimeoutMs: int, h: Handle)
    requires InScope(s) && h < |s.w.conns| && s.w.conns[h].closed
    requires !step.TimerFires? && !step.CallClose?
    ensures LeavesClosed(s, Next(s, step, acceptTimeoutMs), h, Late(s, step, h))
  {
    QuietLeavesClosed(s, s, h);
    match step
    case ReceiveOffer(id, peerMade) => OfferLeavesClosed(s, id, peerMade, h);
    case OfferContinues(k, ok, respond) =>
      if k in s.w.offers { ResumeLeavesClosed(s, k, ok, respond, acceptTimeoutMs, h); }
    case ReceiveCandidate(id) => QuietLeavesClosed(s, HandleCandidate(s, id), h);
    case CandidateContinues(k, ok, hasRespond) =>
      CandidateStepLeavesClosed(s, k, ok, hasRespond, acceptTimeoutMs, h);
    case PeerGathers(k) => GatheringLeavesClosed(s, k, acceptTimeoutMs, h);
    case ChannelArrives(k, kind, respondThrows) =>
      ChannelStepLeavesClosed(s, k, kind, respondThrows, acceptTimeoutMs, h);
    case PeerConnects(k) =>
      if k < |s.w.conns| { OpenLeavesClosed(s, k, s.w.conns[k].(connected := true), h); }
    case ConnectionCloses(k) => if k < |s.w.conns| { ClosingLeavesClosed(s, k, h); }
    case ReceiveError(id) => if id in s.connections { ClosingLeavesClosed(s, s.connections[id], h); }
  }

  lemma ShutdownLeavesClosed(s: State, ids: seq<nat>, h: Handle)
    requires Scoped(s) && h < |s.w.conns| && s.w.conns[h].closed
    ensures LeavesClosed(s, CloseAll(s.(closed := true), ids), h, [])
  {
    CloseAllLeavesClosed(s.(closed := true), ids, h);
    QuietLeavesClosed(s, CloseAll(s.(closed := true), ids), h);
  }

  lemma {:induction false} CloseAllLeavesClosed(s: State, ids: seq<nat>, h: Handle)
    requires Scoped(s) && h < |s.w.conns| && s.w.conns[h].closed
    ensures var t := CloseAll(s, ids);
            t.w.responses == s.w.responses && |t.w.conns| == |s.w.conns| && t.w.conns[h].closed
    decreases |ids|
  {
    if ids != [] {
      if ids[0] in s.connections {
        CloseLeavesClosed(s, s.connections[ids[0]], h);
        CloseAllLeavesClosed(Close(s, s.connections[ids[0]]), ids[1..], h);
      } else {
        CloseAllLeavesClosed(s, ids[1..], h);
      }
    }
  }

  // ---------------------------------------------------------------------------------------------------------
  // Runs

  /** Over every run, a connection that has closed stays closed and is neither answered nor told of a failed offer. */
  lemma {:induction false} ClosedIsNotAnswered(s: State, steps: seq<Step>, acceptTimeoutMs: int, h: Handle)
    requires Inv(s) && h < |s.w.conns| && s.w.conns[h].closed
    ensures var t := Run(s, steps, acceptTimeoutMs);
            && h < |t.w.conns| && t.w.conns[h].closed
            && OnlyLate(s.w.responses, t.w.responses, h)
            && AnswersTo(t.w.responses, h) == AnswersTo(s.w.responses, h)
    decreases |steps|
  {
    if steps != [] {
      var u := Next(s, steps[0], acceptTimeoutMs);
      ClosedConnNext(s, steps[0], acceptTimeoutMs, h);
      NextKeepsInv(s, steps[0], acceptTimeoutMs);
      ClosedIsNotAnswered(u, steps[1..], acceptTimeoutMs, h);
      LateIsNoAnswer(s.w.responses, u.w.responses, h);
      OnlyLateChains(s.w.responses, u.w.responses, Run(s, steps, acceptTimeoutMs).w.responses, h);
    }
  }

  lemma {:induction false} LateIsNoAnswer(before: seq<Response>, after: seq<Response>, h: Handle)
    requires OnlyLate(before, after, h)
    ensures AnswersTo(after, h) == AnswersTo(before, h)
    decreases |after|
  {
    if |after| > |before| {
      LateIsNoAnswer(before, after[..|after| - 1], h);
    } else {
      assert after == before;
    }
  }

  /** What is sent along a run for a connection that has closed. */
  ghost function LateAlong(s: State, steps: seq<Step>, acceptTimeoutMs: int, h: Handle): seq<Response>
    requires Inv(s) && h < |s.w.conns| && s.w.conns[h].closed
    decreases |steps|
  {
    if steps == [] then []
    else
      NextKeepsInv(s, steps[0], acceptTimeoutMs);
      ClosedConnNext(s, steps[0], acceptTimeoutMs, h);
      Late(s, steps[0], h) + LateAlong(Next(s, steps[0], acceptTimeoutMs), steps[1..], acceptTimeoutMs, h)
  }

  ghost predicate NeverLate(s: State, steps: seq<Step>, acceptTimeoutMs: int, h: Handle)
    requires Inv(s) && h < |s.w.conns| && s.w.conns[h].closed
    decreases |steps|
  {
    steps == [] ||
    (NextKeepsInv(s, steps[0], acceptTimeoutMs);
     ClosedConnNext(s, steps[0], acceptTimeoutMs, h);
     !SendsLate(s, steps[0], h) && NeverLate(Next(s, steps[0], acceptTimeoutMs), steps[1..], acceptTimeoutMs, h))
  }

  /** Over every run, exactly what is late is sent for a connection that has closed, in order. */
  lemma {:induction false} ClosedSendsLate(s: State, steps: seq<Step>, acceptTimeoutMs: int, h: Handle)
    requires Inv(s) && h < |s.w.conns| && s.w.conns[h].closed
    ensures ResponsesTo(Run(s, steps, acceptTimeoutMs).w.responses, h)
         == ResponsesTo(s.w.responses, h) + LateAlong(s, steps, acceptTimeoutMs, h)
    decreases |steps|
  {
    if steps == [] {
      Nothing(ResponsesTo(s.w.responses, h));
    } else {
      var u := Next(s, steps[0], acceptTimeoutMs);
      NextKeepsInv(s, steps[0], acceptTimeoutMs);
      ClosedConnNext(s, steps[0], acceptTimeoutMs, h);
      ClosedSendsLate(u, steps[1..], acceptTimeoutMs, h);
      Associate(ResponsesTo(s.w.responses, h), Late(s, steps[0], h), LateAlong(u, steps[1..], acceptTimeoutMs, h));
    }
  }

  lemma EmptySum<T>(a: seq<T>, b: seq<T>)
    ensures a + b == [] <==> a == [] && b == []
  {
    assert |a + b| == |a| + |b|;
  }

  lemma {:induction false} NothingLateIff(s: State, steps: seq<Step>, acceptTimeoutMs: int, h: Handle)
    requires Inv(s) && h < |s.w.conns| && s.w.conns[h].closed
    ensures LateAlong(s, steps, acceptTimeoutMs, h) == [] <==> NeverLate(s, steps, acceptTimeoutMs, h)
    decreases |steps|
  {
    if steps != [] {
      NextKeepsInv(s, steps[0], acceptTimeoutMs);
      ClosedConnNext(s, steps[0], acceptTimeoutMs, h);
      var u, rest := Next(s, steps[0], acceptTimeoutMs), steps[1..];
      NothingLateIff(u, rest, acceptTimeoutMs, h);
      EmptySum(Late(s, steps[0], h), LateAlong(u, rest, acceptTimeoutMs, h));
      LateIff(s, steps[0], h);
      assert LateAlong(s, steps, acceptTimeoutMs, h) == Late(s, steps[0], h) + LateAlong(u, rest, acceptTimeoutMs, h);
      assert NeverLate(s, steps, acceptTimeoutMs, h)
        <==> !SendsLate(s, steps[0], h) && NeverLate(u, rest, acceptTimeoutMs, h);
    }
  }

  /** A step sends something late exactly when it is one of those that do, and then one signal. */
  lemma LateIff(s: State, step: Step, h: Handle)
    requires h < |s.w.conns|
    ensures |Late(s, step, h)| == if SendsLate(s, step, h) then 1 else 0
  {
  }

  /** Nothing is sent for a connection after it has closed exactly when no step of the run sends late. */
  lemma ClosedIsSilentIff(s: State, steps: seq<Step>, acceptTimeoutMs: int, h: Handle)
    requires Inv(s) && h < |s.w.conns| && s.w.conns[h].closed
    ensures ResponsesTo(Run(s, steps, acceptTimeoutMs).w.responses, h) == ResponsesTo(s.w.responses, h)
       <==> NeverLate(s, steps, acceptTimeoutMs, h)
  {
    ClosedSendsLate(s, steps, acceptTimeoutMs, h);
    NothingLateIff(s, steps, acceptTimeoutMs, h);
  }

  /** The shortest run that sends late: a candidate is still being added when its connection closes, and fails. */
  lemma LateExample(id: nat, acceptTimeoutMs: int)
    ensures Inv(INITIAL)
    ensures var s := Run(INITIAL, [ReceiveOffer(id, true), ReceiveCandidate(id), ConnectionCloses(0)], acceptTimeoutMs);
            && |s.w.conns| == 1 && s.w.conns[0].closed
            && s.w.responses == []
            && Next(s, CandidateContinues(0, false, true), acceptTimeoutMs).w.responses == [Failure(0, 8)]
  {
    InitialInv();
    ThreeSteps(INITIAL, ReceiveOffer(id, true), ReceiveCandidate(id), ConnectionCloses(0), acceptTimeoutMs);
    ClosedWhileAdding(id, acceptTimeoutMs);
    var s := Run(INITIAL, [ReceiveOffer(id, true), ReceiveCandidate(id), ConnectionCloses(0)], acceptTimeoutMs);
    LateCandidate(s, acceptTimeoutMs);
  }

  lemma ClosedWhileAdding(id: nat, acceptTimeoutMs: int)
    requires InScope(INITIAL)
    requires InScope(Next(INITIAL, ReceiveOffer(id, true), acceptTimeoutMs))
    requires InScope(Next(Next(INITIAL, ReceiveOffer(id, true), acceptTimeoutMs), ReceiveCandidate(id),
                          acceptTimeoutMs))
    ensures var s := Next(Next(Next(INITIAL, ReceiveOffer(id, true), acceptTimeoutMs), ReceiveCandidate(id),
                               acceptTimeoutMs), ConnectionCloses(0), acceptTimeoutMs);
            |s.w.conns| == 1 && s.w.conns[0].closed && s.w.responses == [] && 0 in s.w.candidates
  {
  }

  lemma LateCandidate(s: State, acceptTimeoutMs: int)
    requires Inv(s) && |s.w.conns| == 1 && s.w.conns[0].closed && s.w.responses == [] && 0 in s.w.candidates
    ensures Next(s, CandidateContinues(0, false, true), acceptTimeoutMs).w.responses == [Failure(0, 8)]
  {
  }

  lemma ThreeSteps(s: State, a: Step, b: Step, c: Step, acceptTimeoutMs: int)
    requires Inv(s)
    ensures Inv(Next(s, a, acceptTimeoutMs)) && Inv(Next(Next(s, a, acceptTimeoutMs), b, acceptTimeoutMs))
    ensures Run(s, [a, b, c], acceptTimeoutMs)
         == Next(Next(Next(s, a, acceptTimeoutMs), b, acceptTimeoutMs), c, acceptTimeoutMs)
  {
    RunCons(s, a, [b, c], acceptTimeoutMs);
    var t := Next(s, a, acceptTimeoutMs);
    RunCons(t, b, [c], acceptTimeoutMs);
    RunCons(Next(t, b, acceptTimeoutMs), c, [], acceptTimeoutMs);
    assert [a] + [b, c] == [a, b, c] && [b] + [c] == [b, c];
    Nothing([c]);
  }

  lemma RunCons(s: State, step: Step, rest: seq<Step>, acceptTimeoutMs: int)
    requires Inv(s)
    ensures InScope(s) && Inv(Next(s, step, acceptTimeoutMs))
    ensures Run(s, [step] + rest, acceptTimeoutMs) == Run(Next(s, step, acceptTimeoutMs), rest, acceptTimeoutMs)
  {
    NextKeepsInv(s, step, acceptTimeoutMs);
    FrontAndBack([step], rest);
  }
}
