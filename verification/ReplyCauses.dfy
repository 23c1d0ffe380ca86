/** Why a request fails, and when: the error replies of a run, and its deadlines
    (src/klf200/connection.rs). */
module ReplyCauses {
  import opened Base
  import opened SessionIds
  import opened Protocol
  import opened Actor
  import ReplyOrigins
  import Reports
  import SessionLedger

  // ----- The causes -----

  /** Why a request is never written: it has no confirmation, its session is running, or it cannot be
      encoded; the first that applies. */
  predicate Refused(sessions: map<SessionId, Instant>, request: Request, e: KlfError) {
    if ExpectedConfirmation(request.command).None? then e == MissingConfirmation(request.command)
    else if request.sessionId.Some? && request.sessionId.value in sessions then
      e == SessionIdInUse(request.sessionId.value)
    else RequestBytes(request) == Err(e)
  }

  predicate IsPending(s: State, ticket: nat) {
    s.pending.Some? && s.pending.value.ticket == ticket
  }

  /** The turn's tick is at or after the deadline of the written request. */
  predicate TimesOut(ready: Dispatched, turn: Turn, ticket: nat) {
    && ready.failure.None? && turn.input.Tick?
    && IsPending(ready.state, ticket) && ready.state.pending.value.deadline <= turn.input.requestNow
  }

  /** The turn takes in the confirmation of the written request, but cannot decode it. */
  predicate Garbles(ready: Dispatched, cfg: Settings, turn: Turn, ticket: nat, e: KlfError) {
    && ready.failure.None? && turn.input.Incoming?
    && IsPending(ready.state, ticket) && Expects(ready.state, turn.input.frame)
    && Decode(cfg.others, turn.input.frame) == Err(e)
  }

  /** How a turn can make the request with the ticket fail. */
  predicate Fails(s: State, cfg: Settings, turn: Turn, ticket: nat, request: Request, e: KlfError) {
    var ready := Ready(s, cfg, turn);
    || (s.pending.None? && Refused(s.sessions, request, e))
    || (ready.failure == Some(Io) && !turn.writeOk && e == ConnectionClosed)
    || (TimesOut(ready, turn, ticket) && e == RequestTimeout(request.command))
    || Garbles(ready, cfg, turn, ticket, e)
  }

  /** Of the replies a dispatch gives, each is a refusal, but for that to the request it could not write. */
  ghost predicate RefusesOnly(s: State, done: Dispatched, writeOk: bool) {
    && s.replies <= done.state.replies && done.state.arrivals == s.arrivals && |done.state.replies| <= |s.arrivals|
    && forall k :: |s.replies| <= k < |done.state.replies| ==>
         var outcome := done.state.replies[k].outcome;
         && outcome.Err?
         && (Refused(s.sessions, s.arrivals[k], outcome.error)
             || (done.failure == Some(Io) && !writeOk && outcome.error == ConnectionClosed))
  }

  lemma RefusalIsRefused(sessions: map<SessionId, Instant>, request: Request)
    ensures Refusal(sessions, request).Some? ==> Refused(sessions, request, Refusal(sessions, request).value)
    ensures Refusal(sessions, request).None? ==> forall e :: !Refused(sessions, request, e)
  {
    hide RequestBytes, ExpectedConfirmation;
  }

  lemma HeadIsNextArrival(s: State, cfg: Settings)
    requires Inv(s, cfg) && s.pending.None? && s.queue != []
    ensures |s.replies| < |s.arrivals| && s.queue[0].request == s.arrivals[|s.replies|]
  {
    hide Confirms, Replay, RequestBytes, ExpectedConfirmation;
  }

  lemma RepliesWithinArrivals(s: State, cfg: Settings)
    requires Inv(s, cfg)
    ensures |s.replies| <= |s.arrivals|
    ensures s.pending.Some? ==> s.pending.value.ticket == |s.replies| < |s.arrivals|
    ensures s.pending.Some? ==> s.pending.value.command == s.arrivals[|s.replies|].command
  {
    hide Confirms, Replay, RequestBytes, ExpectedConfirmation;
  }

  lemma RefusingOn(s: State, next: State, done: Dispatched, writeOk: bool, e: KlfError)
    requires |s.replies| < |s.arrivals| && Refused(s.sessions, s.arrivals[|s.replies|], e)
    requires next.replies == s.replies + [Reply(|s.replies|, Err(e))]
    requires next.arrivals == s.arrivals && next.sessions == s.sessions
    requires RefusesOnly(next, done, writeOk)
    ensures RefusesOnly(s, done, writeOk)
  {
    hide Refused;
    assert done.state.replies[|s.replies|] == next.replies[|s.replies|];
  }

  lemma {:induction false} DispatchRefuses(s: State, cfg: Settings, now: Instant, writeOk: bool)
    requires Inv(s, cfg) && s.pending.None?
    ensures RefusesOnly(s, Dispatch(s, cfg, now, writeOk), writeOk)
    decreases |s.queue|
  {
    hide Inv, Refused, Refusal;
    RepliesWithinArrivals(s, cfg);
    if s.queue != [] {
      HeadIsNextArrival(s, cfg);
      RefusalIsRefused(s.sessions, s.queue[0].request);
      HeadHasTicket(s, cfg);
      match Refusal(s.sessions, s.queue[0].request)
      case Some(e) =>
        var next := Answer(s.(queue := s.queue[1..]), s.queue[0].ticket, Err(e));
        AnswerHeadKeeps(s, cfg, e);
        DispatchRefuses(next, cfg, now, writeOk);
        RefusingOn(s, next, Dispatch(next, cfg, now, writeOk), writeOk, e);
      case None =>
    }
  }

  lemma HeadHasTicket(s: State, cfg: Settings)
    requires Inv(s, cfg) && s.pending.None? && s.queue != []
    ensures s.queue[0].ticket == |s.replies|
  {
    hide Confirms, Replay, RequestBytes, ExpectedConfirmation;
  }

  // ----- One pass -----

  /** Every error that a pass replies with has its cause in it. */
  ghost predicate FailsForCause(s: State, after: State, cfg: Settings, turn: Turn) {
    && s.replies <= after.replies && s.arrivals <= after.arrivals && |after.replies| <= |after.arrivals|
    && forall k :: |s.replies| <= k < |after.replies| && after.replies[k].outcome.Err? ==>
         Fails(s, cfg, turn, k, after.arrivals[k], after.replies[k].outcome.error)
  }

  /** A selected input gives at most one reply, to the pending request; an error for one of two causes. */
  ghost predicate SelectsForCause(ready: State, after: State, cfg: Settings, turn: Turn) {
    && ready.replies <= after.replies && ready.arrivals <= after.arrivals
    && |after.replies| <= |ready.replies| + PendingCount(ready)
    && forall k :: |ready.replies| <= k < |after.replies| && after.replies[k].outcome.Err? ==>
         || (TimesOut(Dispatched(ready, None), turn, k)
             && after.replies[k].outcome.error == RequestTimeout(ready.pending.value.command))
         || Garbles(Dispatched(ready, None), cfg, turn, k, after.replies[k].outcome.error)
  }

  lemma FrameSelectsForCause(s: State, cfg: Settings, now: Instant, turn: Turn)
    requires s.pending.Some? ==> s.pending.value.ticket == |s.replies|
    requires turn.input.Incoming?
    ensures SelectsForCause(s, HandleFrame(s, cfg, now, turn.input.frame), cfg, turn)
  {
    hide Decode, IsNotification, SessionWasAccepted, ConfirmationMatches;
  }

  lemma TickSelectsForCause(s: State, cfg: Settings, turn: Turn)
    requires s.pending.Some? ==> s.pending.value.ticket == |s.replies|
    requires turn.input.Tick?
    ensures SelectsForCause(s, Select(s, cfg, turn).state, cfg, turn)
  {
    hide ExpireSessions;
    var waited := ExpireRequest(s, turn.input.requestNow);
    ExpiryKeepsReplies(waited, turn.input.sessionNow, turn.input.order);
    ExpiryKeepsArrivals(waited, turn.input.sessionNow, turn.input.order);
  }

  lemma SelectForCause(s: State, cfg: Settings, turn: Turn)
    requires s.pending.Some? ==> s.pending.value.ticket == |s.replies|
    ensures SelectsForCause(s, Select(s, cfg, turn).state, cfg, turn)
  {
    hide HandleFrame, ExpireSessions, ExpireRequest, TimesOut, Garbles;
    match turn.input
    case Incoming(now, frame) => FrameSelectsForCause(s, cfg, now, turn);
    case Tick(_, _, _) => TickSelectsForCause(s, cfg, turn);
    case _ =>
  }

  lemma PassFailsForCause(s: State, cfg: Settings, turn: Turn)
    requires Inv(s, cfg) && Possible(s, cfg, turn)
    ensures FailsForCause(s, Pass(s, cfg, turn).state, cfg, turn)
  {
    hide Inv, Dispatch, Select, Refused, TimesOut, Garbles;
    RepliesWithinArrivals(s, cfg);
    PassKeeps(s, cfg, turn);
    var ready := Ready(s, cfg, turn);
    var after := Pass(s, cfg, turn).state;
    if s.pending.None? {
      DispatchKeeps(s, cfg, turn.at, turn.writeOk);
      DispatchRefuses(s, cfg, turn.at, turn.writeOk);
    }
    RepliesWithinArrivals(ready.state, cfg) by { ReadyKeeps(s, cfg, turn); }
    RepliesWithinArrivals(after, cfg);
    if ready.failure.None? {
      SelectForCause(ready.state, cfg, turn);
    }
    forall k | |s.replies| <= k < |after.replies| && after.replies[k].outcome.Err?
      ensures Fails(s, cfg, turn, k, after.arrivals[k], after.replies[k].outcome.error)
    {
      if k < |ready.state.replies| {
        assert after.replies[k] == ready.state.replies[k];
        assert after.arrivals[k] == s.arrivals[k];
      } else {
        assert after.arrivals[k] == ready.state.arrivals[k];
      }
    }
  }

  lemma ReadyKeeps(s: State, cfg: Settings, turn: Turn)
    requires Inv(s, cfg)
    ensures Inv(Ready(s, cfg, turn).state, cfg)
  {
    hide Inv, Dispatch;
    if s.pending.None? {
      DispatchKeeps(s, cfg, turn.at, turn.writeOk);
    }
  }

  // ----- Every run -----

  /** The n-th turn of a run makes the request fail. */
  ghost predicate FailedBy(cfg: Settings, turns: seq<Turn>, n: nat, ticket: nat, request: Request, e: KlfError)
    requires n < |turns|
  {
    var before := Loop(INITIAL, cfg, turns[..n]);
    before.running && Fails(before.state, cfg, turns[n], ticket, request, e)
  }

  lemma {:induction false} ErrorsHaveTheirTurn(cfg: Settings, turns: seq<Turn>, k: nat) returns (n: nat)
    requires AllPossible(INITIAL, cfg, turns)
    requires k < |Loop(INITIAL, cfg, turns).state.replies| && Loop(INITIAL, cfg, turns).state.replies[k].outcome.Err?
    ensures k < |Loop(INITIAL, cfg, turns).state.arrivals|
    ensures n < |turns| && FailedBy(cfg, turns, n, k, Loop(INITIAL, cfg, turns).state.arrivals[k],
                                    Loop(INITIAL, cfg, turns).state.replies[k].outcome.error)
    decreases |turns|
  {
    hide Pass, Possible, Inv, Fails, Loop, AllPossible;
    LoopNothing(INITIAL, cfg);
    ReplyOrigins.NothingAnsweredYet();
    var last := |turns| - 1;
    var front, turn := turns[..last], turns[last];
    assert turns == front + [turn];
    var before := Loop(INITIAL, cfg, front);
    if !before.running {
      LoopEnds(INITIAL, cfg, front, turn);
      n := ErrorsHaveTheirTurn(cfg, front, k);
      assert front[..n] == turns[..n];
    } else {
      LoopSnoc(INITIAL, cfg, front, turn);
      InitialInv(cfg);
      LoopKeeps(INITIAL, cfg, front);
      PassFailsForCause(before.state, cfg, turn);
      if k < |before.state.replies| {
        assert before.state.replies[k] == Loop(INITIAL, cfg, turns).state.replies[k];
        n := ErrorsHaveTheirTurn(cfg, front, k);
        assert before.state.arrivals[k] == Loop(INITIAL, cfg, turns).state.arrivals[k];
        assert front[..n] == turns[..n];
      } else {
        n := last;
      }
    }
  }

  ghost predicate OnlyClosed(before: State, after: State) {
    && before.replies <= after.replies && before.arrivals <= after.arrivals
    && forall k :: |before.replies| <= k < |after.replies| ==> after.replies[k].outcome == Err(ConnectionClosed)
  }

  lemma ClosedOn(a: State, b: State, c: State)
    requires OnlyClosed(a, b) && OnlyClosed(b, c)
    ensures OnlyClosed(a, c)
  {
    forall k | |a.replies| <= k < |c.replies|
      ensures c.replies[k].outcome == Err(ConnectionClosed)
    {
      assert k < |b.replies| ==> c.replies[k] == b.replies[k];
    }
  }

  lemma {:induction false} FailingCloses(s: State)
    ensures OnlyClosed(s, FailQueue(s))
    decreases |s.queue|
  {
    if s.queue != [] {
      var next := Answer(s.(queue := s.queue[1..]), s.queue[0].ticket, Err(ConnectionClosed));
      FailingCloses(next);
      ClosedOn(s, next, FailQueue(next));
    }
  }

  lemma {:induction false} DrainingCloses(s: State, late: seq<Request>)
    ensures OnlyClosed(s, Drain(s, late))
    decreases |late|
  {
    if late != [] {
      var next := Answer(s.(arrivals := s.arrivals + [late[0]]), |s.arrivals|, Err(ConnectionClosed));
      DrainingCloses(next, late[1..]);
      ClosedOn(s, next, Drain(next, late[1..]));
    }
  }

  lemma StoppingCloses(p: Progress, late: seq<Request>)
    ensures OnlyClosed(p.state, Stop(p, late))
  {
    hide FailQueue, Drain;
    var s := p.state;
    var first := if s.pending.Some? then
                   Answer(s.(pending := None), s.pending.value.ticket, Err(ConnectionClosed))
                 else s;
    FailingCloses(first);
    ClosedOn(s, first, FailQueue(first));
    DrainingCloses(FailQueue(first), late);
    ClosedOn(s, FailQueue(first), Drain(FailQueue(first), late));
  }

  /** Over whole runs, whatever ends them: an error reply has its cause. Either the loop gave it, in a turn
      that refused the request, failed to write it, found its deadline passed or could not decode its
      confirmation; or the request was still open when the loop ended, and the reply says so. */
  lemma EveryErrorHasItsCause(cfg: Settings, turns: seq<Turn>, late: seq<Request>, k: nat)
    requires AllPossible(INITIAL, cfg, turns)
    requires k < |Stop(Loop(INITIAL, cfg, turns), late).replies|
    requires Stop(Loop(INITIAL, cfg, turns), late).replies[k].outcome.Err?
    ensures var end := Loop(INITIAL, cfg, turns).state;
            var stopped := Stop(Loop(INITIAL, cfg, turns), late);
            var e := stopped.replies[k].outcome.error;
            && k < |stopped.arrivals|
            && if k < |end.replies| then
                 exists n :: 0 <= n < |turns| && FailedBy(cfg, turns, n, k, stopped.arrivals[k], e)
               else e == ConnectionClosed
  {
    hide Loop, Stop, AllPossible, FailedBy, Inv;
    var end := Loop(INITIAL, cfg, turns);
    InitialInv(cfg);
    LoopKeeps(INITIAL, cfg, turns);
    StoppingCloses(end, late);
    StopAnswersAll(end, cfg, late);
    if k < |end.state.replies| {
      assert end.state.replies[k] == Stop(end, late).replies[k];
      var n := ErrorsHaveTheirTurn(cfg, turns, k);
      assert end.state.arrivals[k] == Stop(end, late).arrivals[k];
    }
  }

  /** A request that is on the wire is none that would have been refused. */
  lemma WrittenIsNotRefused(s: State, cfg: Settings, e: KlfError)
    requires Inv(s, cfg) && s.pending.Some?
    ensures |s.replies| < |s.arrivals| && !Refused(s.sessions, s.arrivals[|s.replies|], e)
  {
    hide Confirms, Replay, RequestBytes, ExpectedConfirmation;
  }

  // ----- Deadlines -----

  /** The turn takes in the confirmation that accepts the session of the request on the wire. */
  predicate Accepting(ready: State, cfg: Settings, turn: Turn, id: SessionId) {
    && turn.input.Incoming? && Expects(ready, turn.input.frame) && ready.pending.value.sessionId == Some(id)
    && var decoded := Decode(cfg.others, turn.input.frame);
       decoded.Ok? && ConfirmationMatches(Some(id), decoded.value) && SessionWasAccepted(decoded.value)
  }

  /** The session is new, due one session timeout after its confirmation. */
  predicate Begins(ready: State, cfg: Settings, turn: Turn, l: Lifetime) {
    l.Accept? && Accepting(ready, cfg, turn, l.id) && l.deadline == turn.input.now + cfg.sessionTimeout
  }

  /** A pass that writes a request gives it the request timeout from then on, and one that accepts a
      session gives it the session timeout from the confirmation on. */
  ghost predicate SetsDeadlines(s: State, ready: State, after: State, cfg: Settings, turn: Turn) {
    && (after.pending.Some? && after.pending != s.pending ==>
          s.pending.None? && after.pending.value.deadline == turn.at + cfg.requestTimeout)
    && s.lifetimes <= after.lifetimes
    && forall i :: |s.lifetimes| <= i < |after.lifetimes| && after.lifetimes[i].Accept? ==>
         Begins(ready, cfg, turn, after.lifetimes[i])
  }

  lemma {:induction false} DispatchSetsDeadline(s: State, cfg: Settings, now: Instant, writeOk: bool)
    requires s.pending.None?
    ensures var done := Dispatch(s, cfg, now, writeOk).state;
            && done.lifetimes == s.lifetimes
            && (done.pending.Some? ==> done.pending.value.deadline == now + cfg.requestTimeout)
    decreases |s.queue|
  {
    hide Refusal, RequestBytes, ExpectedConfirmation;
    if s.queue != [] && Refusal(s.sessions, s.queue[0].request).Some? {
      DispatchSetsDeadline(Answer(s.(queue := s.queue[1..]), s.queue[0].ticket,
                                  Err(Refusal(s.sessions, s.queue[0].request).value)), cfg, now, writeOk);
    }
  }

  lemma FrameSetsDeadlines(s: State, cfg: Settings, now: Instant, turn: Turn)
    requires turn.input.Incoming? && turn.input.now == now
    ensures var after := HandleFrame(s, cfg, now, turn.input.frame);
            SetsDeadlines(s, s, after, cfg, turn) && (after.pending.Some? ==> after.pending == s.pending)
  {
    hide Decode, IsNotification, SessionWasAccepted, ResponseSession;
  }

  lemma {:induction false} ExpiryAcceptsNothing(s: State, now: Instant, order: seq<SessionId>)
    ensures var after := ExpireSessions(s, now, order);
            && after.pending == s.pending && s.lifetimes <= after.lifetimes
            && forall i :: |s.lifetimes| <= i < |after.lifetimes| ==> !after.lifetimes[i].Accept?
    decreases |order|
  {
    if order != [] {
      var id := order[0];
      var next := s.(sessions := s.sessions - {id}, events := s.events + [SessionTimedOut(id)],
                     lifetimes := s.lifetimes + [Expire(id, now)]);
      ExpiryAcceptsNothing(next, now, order[1..]);
      assert ExpireSessions(s, now, order).lifetimes[|s.lifetimes|] == next.lifetimes[|s.lifetimes|];
    }
  }

  lemma SelectSetsDeadlines(s: State, cfg: Settings, turn: Turn)
    ensures var after := Select(s, cfg, turn).state;
            SetsDeadlines(s, s, after, cfg, turn) && (after.pending.Some? ==> after.pending == s.pending)
  {
    hide HandleFrame, ExpireSessions, Begins;
    match turn.input
    case Incoming(now, frame) => FrameSetsDeadlines(s, cfg, now, turn);
    case Tick(requestNow, sessionNow, order) =>
      ExpiryAcceptsNothing(ExpireRequest(s, requestNow), sessionNow, order);
    case _ =>
  }

  lemma PassSetsDeadlines(s: State, cfg: Settings, turn: Turn)
    ensures SetsDeadlines(s, Ready(s, cfg, turn).state, Pass(s, cfg, turn).state, cfg, turn)
  {
    hide Dispatch, Select, Begins;
    if s.pending.None? {
      DispatchSetsDeadline(s, cfg, turn.at, turn.writeOk);
    }
    SelectSetsDeadlines(Ready(s, cfg, turn).state, cfg, turn);
  }

  /** The n-th turn of a run wrote the pending request. */
  ghost predicate WrittenBy(cfg: Settings, turns: seq<Turn>, n: nat, p: Pending)
    requires n < |turns|
  {
    var before := Loop(INITIAL, cfg, turns[..n]);
    && before.running && before.state.pending.None?
    && Ready(before.state, cfg, turns[n]).state.pending == Some(p)
    && p.deadline == turns[n].at + cfg.requestTimeout
  }

  /** The n-th turn of a run took in the confirmation with which the session begins. */
  ghost predicate BegunBy(cfg: Settings, turns: seq<Turn>, n: nat, l: Lifetime)
    requires n < |turns|
  {
    var before := Loop(INITIAL, cfg, turns[..n]);
    before.running && Begins(Ready(before.state, cfg, turns[n]).state, cfg, turns[n], l)
  }

  lemma PendingIsFromDispatch(s: State, cfg: Settings, turn: Turn)
    ensures var after := Pass(s, cfg, turn).state;
            after.pending.Some? && after.pending != s.pending ==>
              && s.pending.None? && Ready(s, cfg, turn).state.pending == after.pending
              && after.pending.value.deadline == turn.at + cfg.requestTimeout
  {
    hide Dispatch, Select;
    PassSetsDeadlines(s, cfg, turn);
    SelectSetsDeadlines(Ready(s, cfg, turn).state, cfg, turn);
  }

  /** In every state a run reaches, the pending request was written one request timeout before its
      deadline, in a turn of the run; and every session was accepted, in a turn that took in its
      confirmation, one session timeout before its deadline. */
  lemma {:induction false} DeadlinesFollowTheClock(cfg: Settings, turns: seq<Turn>)
    ensures var s := Loop(INITIAL, cfg, turns).state;
            && (s.pending.Some? ==> exists n :: 0 <= n < |turns| && WrittenBy(cfg, turns, n, s.pending.value))
            && forall i :: 0 <= i < |s.lifetimes| && s.lifetimes[i].Accept? ==>
                 exists n :: 0 <= n < |turns| && BegunBy(cfg, turns, n, s.lifetimes[i])
    decreases |turns|
  {
    hide Pass, Loop, Ready, Begins;
    LoopNothing(INITIAL, cfg);
    NothingBegunYet();
    if turns != [] {
      var last := |turns| - 1;
      var front, turn := turns[..last], turns[last];
      assert turns == front + [turn];
      DeadlinesFollowTheClock(cfg, front);
      var before := Loop(INITIAL, cfg, front);
      var s := Loop(INITIAL, cfg, turns).state;
      if before.running {
        LoopSnoc(INITIAL, cfg, front, turn);
        PassSetsDeadlines(before.state, cfg, turn);
        PendingIsFromDispatch(before.state, cfg, turn);
      } else {
        LoopEnds(INITIAL, cfg, front, turn);
      }
      if s.pending.Some? {
        if s.pending == before.state.pending {
          var n :| 0 <= n < last && WrittenBy(cfg, front, n, s.pending.value);
          assert front[..n] == turns[..n];
          assert WrittenBy(cfg, turns, n, s.pending.value);
        } else {
          assert WrittenBy(cfg, turns, last, s.pending.value);
        }
      }
      forall i | 0 <= i < |s.lifetimes| && s.lifetimes[i].Accept?
        ensures exists n :: 0 <= n < |turns| && BegunBy(cfg, turns, n, s.lifetimes[i])
      {
        if i < |before.state.lifetimes| {
          assert s.lifetimes[i] == before.state.lifetimes[i];
          var n :| 0 <= n < last && BegunBy(cfg, front, n, s.lifetimes[i]);
          assert front[..n] == turns[..n];
          assert BegunBy(cfg, turns, n, s.lifetimes[i]);
        } else {
          assert BegunBy(cfg, turns, last, s.lifetimes[i]);
        }
      }
    }
  }

  lemma NothingBegunYet()
    ensures INITIAL.pending.None? && INITIAL.lifetimes == []
  {
  }

  /** A request whose deadline a tick finds passed was written at least the request timeout before, in a
      turn of the run no later than the tick's. */
  lemma TimeoutsComeLate(cfg: Settings, turns: seq<Turn>, m: nat, ticket: nat) returns (n: nat)
    requires m < |turns| && Loop(INITIAL, cfg, turns[..m]).running
    requires TimesOut(Ready(Loop(INITIAL, cfg, turns[..m]).state, cfg, turns[m]), turns[m], ticket)
    ensures n <= m && turns[m].input.Tick? && turns[n].at + cfg.requestTimeout <= turns[m].input.requestNow
    ensures Loop(INITIAL, cfg, turns[..n]).running && Loop(INITIAL, cfg, turns[..n]).state.pending.None?
    ensures IsPending(Ready(Loop(INITIAL, cfg, turns[..n]).state, cfg, turns[n]).state, ticket)
  {
    hide Loop, Dispatch;
    var before := Loop(INITIAL, cfg, turns[..m]).state;
    if before.pending.None? {
      DispatchSetsDeadline(before, cfg, turns[m].at, turns[m].writeOk);
      n := m;
    } else {
      DeadlinesFollowTheClock(cfg, turns[..m]);
      n :| 0 <= n < m && WrittenBy(cfg, turns[..m], n, before.pending.value);
      assert turns[..m][..n] == turns[..n];
    }
  }
}
