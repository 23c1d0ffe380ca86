/** Where the successful replies of a run come from (src/klf200/connection.rs). */
module ReplyOrigins {
  import opened Base
  import opened SessionIds
  import opened Protocol
  import opened Actor
  import SessionLedger

  /** The turn takes in, while the request is on the wire, the frame that is its confirmation. */
  predicate Confirming(ready: Dispatched, cfg: Settings, turn: Turn, ticket: nat, r: Response) {
    && ready.failure.None?
    && turn.input.Incoming?
    && Expects(ready.state, turn.input.frame)
    && ready.state.pending.value.ticket == ticket
    && Decode(cfg.others, turn.input.frame) == Ok(r)
    && ConfirmationMatches(ready.state.pending.value.sessionId, r)
  }

  /** The request has been received and its frame written, as the last one so far. */
  ghost predicate OnTheWire(s: State, ticket: nat) {
    && ticket < |s.arrivals| && |s.writes| > 0
    && s.writes[|s.writes| - 1].ticket == ticket
    && RequestBytes(s.arrivals[ticket]) == Ok(s.writes[|s.writes| - 1].envelope)
  }

  /** The n-th turn of a run is the one, the request having been written before. */
  ghost predicate ConfirmedBy(cfg: Settings, turns: seq<Turn>, n: nat, ticket: nat, r: Response)
    requires n < |turns|
  {
    var before := Loop(INITIAL, cfg, turns[..n]);
    var ready := Ready(before.state, cfg, turns[n]);
    before.running && Confirming(ready, cfg, turns[n], ticket, r) && OnTheWire(ready.state, ticket)
  }

  // ----- One pass -----

  lemma PendingIsOnTheWire(s: State, cfg: Settings)
    requires Inv(s, cfg) && s.pending.Some?
    ensures OnTheWire(s, s.pending.value.ticket) && s.pending.value.ticket == |s.replies|
  {
    hide Replay, Confirms, ExpectedConfirmation, RequestBytes;
  }

  /** A pass only appends replies, and an Ok one only by taking in its confirmation. */
  ghost predicate AppendsJustified(s: State, after: State, ready: Dispatched, cfg: Settings, turn: Turn) {
    && s.replies <= after.replies
    && forall k :: |s.replies| <= k < |after.replies| && after.replies[k].outcome.Ok? ==>
         Confirming(ready, cfg, turn, k, after.replies[k].outcome.value) && OnTheWire(ready.state, k)
  }

  lemma FrameAppendsJustified(s: State, cfg: Settings, now: Instant, turn: Turn)
    requires Inv(s, cfg) && turn.input.Incoming?
    ensures AppendsJustified(s, HandleFrame(s, cfg, now, turn.input.frame), Dispatched(s, None), cfg, turn)
  {
    hide Inv, HandleFrame, Decode, ConfirmationMatches, OnTheWire;
    OneOutcomePerFrame(s, cfg, now, turn.input.frame);
    if s.pending.Some? {
      PendingIsOnTheWire(s, cfg);
    }
  }

  lemma TickAppendsErrors(s: State, requestNow: Instant, sessionNow: Instant, order: seq<SessionId>)
    ensures var after := ExpireSessions(ExpireRequest(s, requestNow), sessionNow, order);
            && s.replies <= after.replies
            && forall k :: |s.replies| <= k < |after.replies| ==> after.replies[k].outcome.Err?
  {
    ExpiryKeepsReplies(ExpireRequest(s, requestNow), sessionNow, order);
  }

  lemma PassAppendsJustified(s: State, cfg: Settings, turn: Turn)
    requires Inv(s, cfg) && Possible(s, cfg, turn)
    ensures AppendsJustified(s, Pass(s, cfg, turn).state, Ready(s, cfg, turn), cfg, turn)
  {
    hide Inv, HandleFrame, ExpireSessions, ExpireRequest, Dispatch, Confirming, OnTheWire;
    SessionLedger.DispatchProgresses(s, cfg, turn.at, turn.writeOk);
    if s.pending.None? {
      DispatchKeeps(s, cfg, turn.at, turn.writeOk);
    }
    var ready := Ready(s, cfg, turn);
    var after := Pass(s, cfg, turn).state;
    if ready.failure.None? {
      match turn.input
      case Incoming(now, frame) => FrameAppendsJustified(ready.state, cfg, now, turn);
      case Tick(requestNow, sessionNow, order) => TickAppendsErrors(ready.state, requestNow, sessionNow, order);
      case _ =>
    }
    assert ready.state.replies <= after.replies;
    forall k | |s.replies| <= k < |ready.state.replies|
      ensures after.replies[k].outcome.Err?
    {
      assert after.replies[k] == ready.state.replies[k];
    }
  }

  // ----- Every run -----

  /** Every successful reply the loop has sent carries the decoding of a frame the run took in after it
      had written the request, with the command and the session the request expects. */
  lemma {:induction false} OkRepliesCarryReceivedFrames(cfg: Settings, turns: seq<Turn>, k: nat) returns (n: nat)
    requires AllPossible(INITIAL, cfg, turns)
    requires k < |Loop(INITIAL, cfg, turns).state.replies| && Loop(INITIAL, cfg, turns).state.replies[k].outcome.Ok?
    ensures n < |turns| && ConfirmedBy(cfg, turns, n, k, Loop(INITIAL, cfg, turns).state.replies[k].outcome.value)
    decreases |turns|
  {
    hide Pass, Ready, Possible, Inv, Confirming, OnTheWire, Loop, AllPossible;
    LoopNothing(INITIAL, cfg);
    NothingAnsweredYet();
    var last := |turns| - 1;
    var front, turn := turns[..last], turns[last];
    assert turns == front + [turn];
    var before := Loop(INITIAL, cfg, front);
    if !before.running {
      LoopEnds(INITIAL, cfg, front, turn);
      n := OkRepliesCarryReceivedFrames(cfg, front, k);
      assert front[..n] == turns[..n];
    } else {
      LoopSnoc(INITIAL, cfg, front, turn);
      InitialInv(cfg);
      LoopKeeps(INITIAL, cfg, front);
      PassAppendsJustified(before.state, cfg, turn);
      if k < |before.state.replies| {
        assert before.state.replies[k] == Loop(INITIAL, cfg, turns).state.replies[k];
        n := OkRepliesCarryReceivedFrames(cfg, front, k);
        assert front[..n] == turns[..n];
      } else {
        n := last;
      }
    }
  }

  lemma NothingAnsweredYet()
    ensures INITIAL.replies == []
  {
  }

  /** The same after any exit: the epilogue only adds errors. */
  lemma EveryOkReplyHasItsFrame(cfg: Settings, turns: seq<Turn>, late: seq<Request>, k: nat)
    requires AllPossible(INITIAL, cfg, turns)
    requires k < |Stop(Loop(INITIAL, cfg, turns), late).replies|
    requires Stop(Loop(INITIAL, cfg, turns), late).replies[k].outcome.Ok?
    ensures var r := Stop(Loop(INITIAL, cfg, turns), late).replies[k].outcome.value;
            exists n :: 0 <= n < |turns| && ConfirmedBy(cfg, turns, n, k, r)
  {
    hide Loop, Stop, AllPossible, ConfirmedBy;
    var end := Loop(INITIAL, cfg, turns);
    SessionLedger.EpilogueCloses(end, late);
    assert k < |end.state.replies|;
    assert end.state.replies[k] == Stop(end, late).replies[k];
    var n := OkRepliesCarryReceivedFrames(cfg, turns, k);
  }
}
