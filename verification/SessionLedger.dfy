/** The bridge's session-ID allocator and the actor's session map together, over the life of one
    gateway connection (src/bridge.rs, src/klf200/connection.rs). */
module SessionLedger {
  import opened Base
  import opened SessionIds
  import opened Protocol
  import opened Actor
  import Bridge
  import Frames

  /** The request the bridge is waiting for, numbered once it has reached the actor. */
  datatype Waiting = Waiting(id: SessionId, request: Request, ticket: Option<nat>)

  /** Open says that the bridge still holds the gateway, stopped that the actor has ended. */
  datatype Joint = Joint(actor: State, read: nat, ids: Allocator, waiting: Option<Waiting>, open: bool, stopped: bool)

  const START: Joint := Joint(INITIAL, 0, EMPTY, None, true, false)

  datatype Step =
    | Ask(request: Request)
    | Play(turn: Turn, late: seq<Request>)
    | Collect
    | Read
    | NoMore
    | GiveUp

  // ----- Steps -----

  predicate IsAnswered(j: Joint) {
    j.waiting.Some? && j.waiting.value.ticket.Some? && j.waiting.value.ticket.value < |j.actor.replies|
  }

  /** The reply to the awaited request; one that never reached the actor fails. */
  function AnswerOf(j: Joint): Bridge.GatewayAnswer
    requires j.waiting.Some?
  {
    if IsAnswered(j) then j.actor.replies[j.waiting.value.ticket.value].outcome else Err(ConnectionClosed)
  }

  ghost predicate Enabled(j: Joint, cfg: Settings, s: Step) {
    match s
    case Ask(request) =>
      && j.open && j.waiting.None? && request.sessionId.Some?
      && Perform(j.ids, Allocate).result == Ok(request.sessionId.value)
    case Play(turn, _) =>
      && !j.stopped && Actor.Possible(j.actor, cfg, turn)
      && (turn.input.Command? && turn.input.request.sessionId.Some? ==>
            j.waiting.Some? && j.waiting.value.ticket.None? && j.waiting.value.request == turn.input.request)
    case Collect => IsAnswered(j) || (j.waiting.Some? && j.stopped && j.waiting.value.ticket.None?)
    case Read => j.open && j.waiting.None? && j.read < |j.actor.events|
    case NoMore => j.open && j.waiting.None? && j.stopped && j.read == |j.actor.events|
    case GiveUp => j.open && j.waiting.None?
  }

  function GivenUp(j: Joint): Joint {
    j.(ids := EMPTY, open := false)
  }

  function Released(j: Joint, id: SessionId): Joint {
    j.(ids := Perform(j.ids, Operation.Release(id)).allocator)
  }

  function Asked(j: Joint, request: Request): Joint
    requires request.sessionId.Some?
  {
    j.(ids := Perform(j.ids, Allocate).allocator, waiting := Some(Waiting(request.sessionId.value, request, None)))
  }

  function Played(j: Joint, cfg: Settings, turn: Turn, late: seq<Request>): Joint {
    var p := Pass(j.actor, cfg, turn);
    if !p.running then j.(actor := Stop(p, late), stopped := true)
    else if turn.input.Command? && turn.input.request.sessionId.Some? && j.waiting.Some? then
      j.(actor := p.state, waiting := Some(j.waiting.value.(ticket := Some(|j.actor.arrivals|))))
    else j.(actor := p.state)
  }

  function Heard(j: Joint, e: Event): Joint {
    match e
    case Notification(r) => if r.SessionFinished? then Released(j, r.sessionId) else j
    case SessionTimedOut(id) => Released(j, id)
    case Disconnected(_) => GivenUp(j)
    case _ => j
  }

  function After(j: Joint, cfg: Settings, s: Step): Joint {
    match s
    case Ask(request) =>
      if request.sessionId.None? then j else Asked(j, request)
    case Play(turn, late) => Played(j, cfg, turn, late)
    case Collect =>
      if j.waiting.None? then j
      else
        var w := j.waiting.value;
        var done := j.(waiting := None);
        if Bridge.Kept(w.request.command, w.id, AnswerOf(j)) then done else Released(done, w.id)
    case Read => if j.read < |j.actor.events| then Heard(j.(read := j.read + 1), j.actor.events[j.read]) else j
    case NoMore => GivenUp(j)
    case GiveUp => GivenUp(j)
  }

  // ----- Coverage -----

  predicate Ends(e: Event, id: SessionId) {
    e == Notification(SessionFinished(id)) || e == SessionTimedOut(id)
  }

  ghost predicate EndsAhead(j: Joint, id: SessionId) {
    exists i :: j.read <= i < |j.actor.events| && Ends(j.actor.events[i], id)
  }

  /** The ID of a request whose answer is still out or will give the ID back. */
  predicate Pledged(j: Joint, id: SessionId) {
    && j.waiting.Some? && j.waiting.value.id == id
    && !(IsAnswered(j) && Bridge.Kept(j.waiting.value.request.command, id, AnswerOf(j)))
  }

  ghost predicate CoveredId(j: Joint, id: SessionId) {
    id in j.actor.sessions || EndsAhead(j, id) || Pledged(j, id)
  }

  /** Every active ID belongs to a session of the actor, is about to be released by an unread event, or
      belongs to the awaited request. */
  ghost predicate Covered(j: Joint) {
    forall id :: id in j.ids.active ==> CoveredId(j, id)
  }

  ghost predicate Linked(j: Joint, cfg: Settings) {
    && Inv(j.actor, cfg)
    && j.read <= |j.actor.events|
    && (!j.open ==> j.ids.active == {} && j.waiting.None?)
    && (j.waiting.Some? ==>
          var w := j.waiting.value;
          && w.id in j.ids.active && w.request.sessionId == Some(w.id)
          && (w.ticket.Some? ==> w.ticket.value < |j.actor.arrivals| && j.actor.arrivals[w.ticket.value] == w.request))
  }

  /** The turn takes in a wink completion for an ID that a session of another kind is using: it ends the
      actor's session without an event that makes the bridge release the ID. */
  ghost predicate Leaks(j: Joint, cfg: Settings, turn: Turn) {
    exists id :: LeaksId(j, cfg, turn, id)
  }

  ghost predicate LeaksId(j: Joint, cfg: Settings, turn: Turn, id: SessionId) {
    && WinkEnds(j.actor, cfg, turn, id)
    && id in j.ids.active && id in j.actor.sessions && !EndsAhead(j, id) && !Pledged(j, id)
  }

  predicate WinkEnds(s: State, cfg: Settings, turn: Turn, id: SessionId) {
    && turn.input.Incoming?
    && Ready(s, cfg, turn).failure.None?
    && !Expects(Ready(s, cfg, turn).state, turn.input.frame)
    && IsNotification(turn.input.frame.command)
    && Decode(cfg.others, turn.input.frame) == Ok(WinkFinished(id))
  }

  // ----- What one pass of the actor does to sessions, events and replies -----

  ghost predicate NewEnd(before: State, after: State, id: SessionId) {
    exists i :: |before.events| <= i < |after.events| && Ends(after.events[i], id)
  }

  /** Logs only grow; a session stays or is ended by a new event, unless it is the given one; and a
      request newly answered as accepted has its session. */
  ghost predicate Progresses(before: State, after: State, lost: Option<SessionId>) {
    && before.events <= after.events && before.replies <= after.replies && before.arrivals <= after.arrivals
    && (forall id :: id in before.sessions && lost != Some(id) ==> id in after.sessions || NewEnd(before, after, id))
    && (forall t :: |before.replies| <= t < |after.replies| && t < |after.arrivals| && after.arrivals[t].sessionId.Some?
                    && after.replies[t].outcome.Ok? && SessionWasAccepted(after.replies[t].outcome.value) ==>
          after.arrivals[t].sessionId.value in after.sessions)
  }

  lemma {:induction false} DispatchProgresses(s: State, cfg: Settings, now: Instant, writeOk: bool)
    ensures var after := Dispatch(s, cfg, now, writeOk).state;
            && after.events == s.events && s.replies <= after.replies && after.arrivals == s.arrivals
            && after.sessions == s.sessions
            && (forall t :: |s.replies| <= t < |after.replies| ==> after.replies[t].outcome.Err?)
    decreases |s.queue|
  {
    hide Refusal;
    if s.queue != [] && Refusal(s.sessions, s.queue[0].request).Some? {
      DispatchProgresses(Answer(s.(queue := s.queue[1..]), s.queue[0].ticket,
                                Err(Refusal(s.sessions, s.queue[0].request).value)), cfg, now, writeOk);
    }
  }

  function LostTo(cfg: Settings, s: State, frame: Frames.Frame): Option<SessionId> {
    if Expects(s, frame) || !IsNotification(frame.command) then None
    else
      match Decode(cfg.others, frame)
      case Ok(WinkFinished(id)) => Some(id)
      case _ => None
  }

  lemma NotifyProgresses(s: State, r: Response)
    ensures Progresses(s, Notify(s, r), if r.WinkFinished? then Some(r.sessionId) else None)
    ensures r.WinkFinished? ==>
              r.sessionId !in Notify(s, r).sessions && Notify(s, r).events == s.events + [Notification(r)]
    ensures Notify(s, r).pending == s.pending && Notify(s, r).replies == s.replies
  {
    var after := Notify(s, r);
    if r.SessionFinished? {
      assert Ends(after.events[|s.events|], r.sessionId);
    }
  }

  lemma ConfirmProgresses(s: State, cfg: Settings, now: Instant, r: Response)
    requires Inv(s, cfg) && s.pending.Some?
    ensures Progresses(s, Confirm(s, cfg, now, s.pending.value, r), None)
  {
    hide Replay, Confirms, SessionWasAccepted, ExpectedConfirmation, RequestBytes;
    DropIsHarmless(s);
    assert s.replies[..|s.replies|] == s.replies;
  }

  lemma HandleFrameProgresses(s: State, cfg: Settings, now: Instant, frame: Frames.Frame)
    requires Inv(s, cfg)
    ensures Progresses(s, HandleFrame(s, cfg, now, frame), LostTo(cfg, s, frame))
  {
    hide Inv, Decode, Confirm, Notify, ConfirmationMatches, IsNotification, SessionWasAccepted;
    var decoded := Decode(cfg.others, frame);
    if Expects(s, frame) {
      if decoded.Ok? {
        if ConfirmationMatches(s.pending.value.sessionId, decoded.value) {
          ConfirmProgresses(s, cfg, now, decoded.value);
        }
      } else {
        DropIsHarmless(s) by { InvTracks(s, cfg); }
      }
    } else if decoded.Ok? && IsNotification(frame.command) {
      NotifyProgresses(s, decoded.value);
    }
  }

  lemma InvTracks(s: State, cfg: Settings)
    requires Inv(s, cfg)
    ensures SessionsTracked(s)
  {
  }

  lemma TickProgresses(s: State, cfg: Settings, requestNow: Instant, sessionNow: Instant, order: seq<SessionId>)
    requires Inv(s, cfg) && Enumerates(order, Expired(s.sessions, sessionNow))
    ensures Progresses(s, Actor.ExpireSessions(Actor.ExpireRequest(s, requestNow), sessionNow, order), None)
  {
    hide Inv, SessionWasAccepted;
    ExpireRequestKeeps(s, cfg, requestNow);
    var waited := Actor.ExpireRequest(s, requestNow);
    ExpireSessionsKeeps(waited, cfg, sessionNow, order);
    ExpiryKeepsReplies(waited, sessionNow, order);
    ExpiryKeepsArrivals(waited, sessionNow, order);
    var after := Actor.ExpireSessions(waited, sessionNow, order);
    forall id | id in s.sessions && id !in after.sessions
      ensures NewEnd(s, after, id)
    {
      assert id in Expired(s.sessions, sessionNow);
      var k :| 0 <= k < |order| && order[k] == id;
      assert after.events[|s.events| + k] == TimedOut(order)[k] == SessionTimedOut(id);
      assert Ends(after.events[|s.events| + k], id);
    }
  }

  function LostIn(s: State, cfg: Settings, turn: Turn): Option<SessionId> {
    if turn.input.Incoming? then LostTo(cfg, Ready(s, cfg, turn).state, turn.input.frame) else None
  }

  lemma PassProgresses(s: State, cfg: Settings, turn: Turn)
    requires Inv(s, cfg) && Actor.Possible(s, cfg, turn) && Pass(s, cfg, turn).running
    ensures Progresses(s, Pass(s, cfg, turn).state, LostIn(s, cfg, turn))
    ensures turn.input.Command? ==> Pass(s, cfg, turn).state.arrivals == s.arrivals + [turn.input.request]
  {
    hide Inv, HandleFrame, Actor.ExpireSessions, Actor.ExpireRequest, Dispatch, SessionWasAccepted, LostTo, NewEnd;
    DispatchProgresses(s, cfg, turn.at, turn.writeOk);
    if s.pending.None? {
      DispatchKeeps(s, cfg, turn.at, turn.writeOk);
    }
    var ready := Ready(s, cfg, turn).state;
    var after := Pass(s, cfg, turn).state;
    match turn.input {
      case Command(request) => EnqueueAdds(ready, request);
      case Incoming(now, frame) => HandleFrameProgresses(ready, cfg, now, frame);
      case Malformed(e) =>
      case Tick(requestNow, sessionNow, order) => TickProgresses(ready, cfg, requestNow, sessionNow, order);
    }
    assert Progresses(ready, after, LostIn(s, cfg, turn));
    ReadyThen(s, ready, after, LostIn(s, cfg, turn));
  }

  lemma EnqueueAdds(s: State, request: Request)
    ensures Enqueue(s, request).arrivals == s.arrivals + [request]
  {
  }

  lemma ReadyThen(s: State, ready: State, after: State, lost: Option<SessionId>)
    requires ready.events == s.events && s.replies <= ready.replies
    requires ready.arrivals == s.arrivals && ready.sessions == s.sessions
    requires forall t :: |s.replies| <= t < |ready.replies| ==> ready.replies[t].outcome.Err?
    requires Progresses(ready, after, lost)
    ensures Progresses(s, after, lost)
  {
    hide SessionWasAccepted;
    forall t | |s.replies| <= t < |ready.replies|
      ensures after.replies[t].outcome.Err?
    {
      assert after.replies[t] == ready.replies[t];
    }
    forall id | id in s.sessions && lost != Some(id) && id !in after.sessions
      ensures NewEnd(s, after, id)
    {
      assert NewEnd(ready, after, id);
    }
  }

  // ----- Each step keeps coverage -----

  lemma PlayedIsLinked(j: Joint, cfg: Settings, turn: Turn, late: seq<Request>)
    requires Linked(j, cfg) && Enabled(j, cfg, Play(turn, late))
    ensures Linked(Played(j, cfg, turn, late), cfg)
  {
    hide Inv, Pass, Stop;
    PassKeeps(j.actor, cfg, turn);
    var p := Pass(j.actor, cfg, turn);
    if p.running {
      PassProgresses(j.actor, cfg, turn);
    } else {
      StopAnswersAll(p, cfg, late);
      StopCloses(j.actor, cfg, turn, late);
    }
  }

  /** Logs only grow, the sessions stay, no new event ends one, and every new reply is an error. */
  ghost predicate Closes(before: State, after: State) {
    && before.events <= after.events && before.replies <= after.replies && before.arrivals <= after.arrivals
    && after.sessions == before.sessions
    && (forall id :: !NewEnd(before, after, id))
    && (forall t :: |before.replies| <= t < |after.replies| ==> after.replies[t].outcome.Err?)
  }

  lemma ClosesOn(a: State, b: State, c: State)
    requires Closes(a, b) && Closes(b, c)
    ensures Closes(a, c)
  {
    forall t | |a.replies| <= t < |c.replies|
      ensures c.replies[t].outcome.Err?
    {
      assert t < |b.replies| ==> c.replies[t] == b.replies[t];
    }
    forall id
      ensures !NewEnd(a, c, id)
    {
      if NewEnd(a, c, id) {
        var i :| |a.events| <= i < |c.events| && Ends(c.events[i], id);
        assert i < |b.events| ==> NewEnd(a, b, id);
        assert i >= |b.events| ==> NewEnd(b, c, id);
      }
    }
  }

  /** Stopping loses no session and answers nothing but errors. */
  lemma StopCloses(s: State, cfg: Settings, turn: Turn, late: seq<Request>)
    requires !Pass(s, cfg, turn).running
    ensures Closes(s, Stop(Pass(s, cfg, turn), late))
  {
    hide Inv, Dispatch, HandleFrame, Actor.ExpireSessions, Actor.ExpireRequest, FailQueue, Drain;
    DispatchProgresses(s, cfg, turn.at, turn.writeOk);
    var p := Pass(s, cfg, turn);
    assert p.state == Ready(s, cfg, turn).state;
    assert Closes(s, p.state);
    EpilogueCloses(p, late);
    ClosesOn(s, p.state, Stop(p, late));
  }

  lemma EpilogueCloses(p: Progress, late: seq<Request>)
    ensures Closes(p.state, Stop(p, late))
  {
    hide Closes, FailQueue, Drain;
    var s := p.state;
    var first := if s.pending.Some? then
                   Answer(s.(pending := None), s.pending.value.ticket, Err(ConnectionClosed))
                 else s;
    AnsweringAnErrorCloses(s, first);
    FailQueueCloses(first);
    ClosesOn(s, first, FailQueue(first));
    DrainCloses(FailQueue(first), late);
    var drained := Drain(FailQueue(first), late);
    ClosesOn(s, FailQueue(first), drained);
    if p.reason.Some? {
      DisconnectingCloses(drained, p.reason.value);
      ClosesOn(s, drained, Emit(drained, Disconnected(p.reason.value)));
    }
  }

  lemma DisconnectingCloses(s: State, reason: KlfError)
    ensures Closes(s, Emit(s, Disconnected(reason)))
  {
  }

  lemma {:induction false} FailQueueCloses(s: State)
    ensures Closes(s, FailQueue(s))
    decreases |s.queue|
  {
    hide Closes;
    if s.queue != [] {
      var next := Answer(s.(queue := s.queue[1..]), s.queue[0].ticket, Err(ConnectionClosed));
      AnsweringAnErrorCloses(s, next);
      FailQueueCloses(next);
      ClosesOn(s, next, FailQueue(next));
    } else {
      AnsweringAnErrorCloses(s, s);
    }
  }

  lemma AnsweringAnErrorCloses(s: State, next: State)
    requires next.events == s.events && next.sessions == s.sessions && s.arrivals <= next.arrivals
    requires next.replies == s.replies || exists ticket, e :: next.replies == s.replies + [Reply(ticket, Err(e))]
    ensures Closes(s, next)
  {
  }

  lemma {:induction false} DrainCloses(s: State, late: seq<Request>)
    ensures Closes(s, Drain(s, late))
    decreases |late|
  {
    hide Closes;
    if late != [] {
      var next := Answer(s.(arrivals := s.arrivals + [late[0]]), |s.arrivals|, Err(ConnectionClosed));
      AnsweringAnErrorCloses(s, next);
      DrainCloses(next, late[1..]);
      ClosesOn(s, next, Drain(next, late[1..]));
    } else {
      AnsweringAnErrorCloses(s, s);
    }
  }

  /** An actor that ends keeps every ID covered: its sessions stay in its map, and the awaited request
      is answered with an error, which gives its ID back. */
  lemma StoppingKeepsId(j: Joint, cfg: Settings, turn: Turn, late: seq<Request>, id: SessionId)
    requires Linked(j, cfg) && Enabled(j, cfg, Play(turn, late)) && !Pass(j.actor, cfg, turn).running
    requires CoveredId(j, id)
    ensures CoveredId(Played(j, cfg, turn, late), id)
  {
    hide Inv, Pass, Stop;
    var after := Played(j, cfg, turn, late);
    StopCloses(j.actor, cfg, turn, late);
    if EndsAhead(j, id) {
      var i :| j.read <= i < |j.actor.events| && Ends(j.actor.events[i], id);
      assert Ends(after.actor.events[i], id);
    }
    if Pledged(j, id) && IsAnswered(after) {
      assert !IsAnswered(j) ==> AnswerOf(after).Err?;
    }
  }

  lemma AnswersStay(j: Joint, cfg: Settings, turn: Turn, late: seq<Request>)
    requires Linked(j, cfg) && Enabled(j, cfg, Play(turn, late)) && Pass(j.actor, cfg, turn).running && IsAnswered(j)
    ensures var after := Played(j, cfg, turn, late);
            after.waiting == j.waiting && IsAnswered(after) && AnswerOf(after) == AnswerOf(j)
  {
    hide Inv, Pass;
    PassProgresses(j.actor, cfg, turn);
  }

  lemma KeptIsAccepted(command: u16, id: SessionId, answer: Bridge.GatewayAnswer)
    requires Bridge.Kept(command, id, answer)
    ensures answer.Ok? && SessionWasAccepted(answer.value)
  {
  }

  /** An ID stays covered unless the turn is a leak of that ID. */
  lemma PlayedKeepsId(j: Joint, cfg: Settings, turn: Turn, late: seq<Request>, id: SessionId)
    requires Linked(j, cfg) && Enabled(j, cfg, Play(turn, late)) && Pass(j.actor, cfg, turn).running
    requires CoveredId(j, id) && id in j.ids.active && !LeaksId(j, cfg, turn, id)
    ensures CoveredId(Played(j, cfg, turn, late), id)
  {
    hide Inv, Pass, Bridge.Kept, SessionWasAccepted, WinkEnds, LostIn;
    var after := Played(j, cfg, turn, late);
    PassProgresses(j.actor, cfg, turn);
    if EndsAhead(j, id) {
      var i :| j.read <= i < |j.actor.events| && Ends(j.actor.events[i], id);
      assert Ends(after.actor.events[i], id);
    } else if Pledged(j, id) {
      PledgeHolds(j, cfg, turn, late, id);
    } else {
      LostIsWink(j.actor, cfg, turn, id);
      if id !in after.actor.sessions {
        var i :| |j.actor.events| <= i < |after.actor.events| && Ends(after.actor.events[i], id);
      }
    }
  }

  lemma LostIsWink(s: State, cfg: Settings, turn: Turn, id: SessionId)
    requires Pass(s, cfg, turn).running
    ensures LostIn(s, cfg, turn) == Some(id) <==> WinkEnds(s, cfg, turn, id)
  {
    hide Decode, Dispatch, HandleFrame, Actor.ExpireSessions, Actor.ExpireRequest;
  }

  /** A request that gets an answer to keep its ID for gets its session with it. */
  lemma PledgeHolds(j: Joint, cfg: Settings, turn: Turn, late: seq<Request>, id: SessionId)
    requires Linked(j, cfg) && Enabled(j, cfg, Play(turn, late)) && Pass(j.actor, cfg, turn).running
    requires Pledged(j, id)
    ensures var after := Played(j, cfg, turn, late); Pledged(after, id) || id in after.actor.sessions
  {
    hide Inv, Pass, Bridge.Kept, SessionWasAccepted, NewEnd;
    var after := Played(j, cfg, turn, late);
    PassProgresses(j.actor, cfg, turn);
    if IsAnswered(j) {
      AnswersStay(j, cfg, turn, late);
    } else if !Pledged(after, id) {
      PlayedIsLinked(j, cfg, turn, late);
      KeptIsAccepted(after.waiting.value.request.command, id, AnswerOf(after));
      NotYetAnswered(j, cfg, after.waiting.value.ticket.value);
    }
  }

  lemma NotYetAnswered(j: Joint, cfg: Settings, t: nat)
    requires Linked(j, cfg) && !IsAnswered(j) && j.waiting.Some?
    requires j.waiting.value.ticket == Some(t) || t == |j.actor.arrivals|
    ensures t >= |j.actor.replies|
  {
    hide Replay, Confirms, ExpectedConfirmation, RequestBytes;
  }

  /** Exactly the leaking turns break coverage. */
  lemma PlayKeepsCoverageUnlessItLeaks(j: Joint, cfg: Settings, turn: Turn, late: seq<Request>)
    requires Linked(j, cfg) && Covered(j) && Enabled(j, cfg, Play(turn, late))
    ensures Covered(Played(j, cfg, turn, late)) <==> !Leaks(j, cfg, turn)
  {
    hide Linked, Enabled, Pass, CoveredId, LeaksId, Stop;
    var after := Played(j, cfg, turn, late);
    if !Pass(j.actor, cfg, turn).running {
      WinkGoesOn(j, cfg, turn);
      forall id | id in j.ids.active
        ensures CoveredId(after, id)
      {
        StoppingKeepsId(j, cfg, turn, late, id);
      }
    } else {
      forall id | id in j.ids.active && !LeaksId(j, cfg, turn, id)
        ensures CoveredId(after, id)
      {
        PlayedKeepsId(j, cfg, turn, late, id);
      }
      forall id | LeaksId(j, cfg, turn, id)
        ensures id in after.ids.active && !CoveredId(after, id)
      {
        LeakUncovers(j, cfg, turn, late, id);
      }
    }
  }

  lemma WinkGoesOn(j: Joint, cfg: Settings, turn: Turn)
    ensures Leaks(j, cfg, turn) ==> Pass(j.actor, cfg, turn).running
  {
    hide Decode, Dispatch, HandleFrame;
  }

  lemma LeakUncovers(j: Joint, cfg: Settings, turn: Turn, late: seq<Request>, id: SessionId)
    requires Linked(j, cfg) && Enabled(j, cfg, Play(turn, late)) && LeaksId(j, cfg, turn, id)
    ensures var after := Played(j, cfg, turn, late); id in after.ids.active && !CoveredId(after, id)
  {
    hide Inv, Decode, Dispatch, Notify, Bridge.Kept;
    DispatchProgresses(j.actor, cfg, turn.at, turn.writeOk);
    var ready := Ready(j.actor, cfg, turn).state;
    NotifyProgresses(ready, WinkFinished(id));
    var after := Played(j, cfg, turn, late);
    assert after.actor == Notify(ready, WinkFinished(id));
    assert after.actor.events == j.actor.events + [Notification(WinkFinished(id))];
    assert j.waiting.Some? && j.waiting.value.id == id ==> IsAnswered(j) && after.waiting == j.waiting;
  }

  lemma StepIsLinked(j: Joint, cfg: Settings, s: Step)
    requires Linked(j, cfg) && Enabled(j, cfg, s)
    ensures Linked(After(j, cfg, s), cfg)
  {
    hide Inv, Played, Actor.Possible, Bridge.Kept, FreeOffset;
    match s
    case Play(turn, late) => PlayedIsLinked(j, cfg, turn, late);
    case _ =>
  }

  lemma ReadKeepsCoverage(j: Joint)
    requires Covered(j) && j.waiting.None? && j.read < |j.actor.events|
    ensures Covered(Heard(j.(read := j.read + 1), j.actor.events[j.read]))
  {
    var e := j.actor.events[j.read];
    var after := Heard(j.(read := j.read + 1), e);
    forall id | id in after.ids.active
      ensures CoveredId(after, id)
    {
      assert CoveredId(j, id);
      if EndsAhead(j, id) {
        var i :| j.read <= i < |j.actor.events| && Ends(j.actor.events[i], id);
        assert i != j.read;
        assert Ends(after.actor.events[i], id);
      }
    }
  }

  lemma StepKeepsCoverage(j: Joint, cfg: Settings, s: Step)
    requires Linked(j, cfg) && Covered(j) && Enabled(j, cfg, s)
    requires s.Play? ==> !Leaks(j, cfg, s.turn)
    ensures Covered(After(j, cfg, s))
  {
    hide Inv, Played, Actor.Possible, Bridge.Kept, FreeOffset, Leaks, Heard;
    match s
    case Play(turn, late) => PlayKeepsCoverageUnlessItLeaks(j, cfg, turn, late);
    case Read => ReadKeepsCoverage(j);
    case Ask(request) => AskKeepsCoverage(j, request);
    case Collect => CollectKeepsCoverage(j);
    case _ =>
  }

  lemma AskKeepsCoverage(j: Joint, request: Request)
    requires Covered(j) && j.waiting.None? && request.sessionId.Some?
    requires Perform(j.ids, Allocate).result == Ok(request.sessionId.value)
    ensures Covered(Asked(j, request))
  {
    hide Bridge.Kept, FreeOffset;
    var after := Asked(j, request);
    forall id | id in after.ids.active
      ensures CoveredId(after, id)
    {
      if id != request.sessionId.value {
        assert CoveredId(j, id);
        assert EndsAhead(j, id) ==> EndsAhead(after, id);
      }
    }
  }

  lemma CollectKeepsCoverage(j: Joint)
    requires Covered(j) && j.waiting.Some?
    requires IsAnswered(j) || (j.stopped && j.waiting.value.ticket.None?)
    ensures var w := j.waiting.value;
            var done := j.(waiting := None);
            Covered(if Bridge.Kept(w.request.command, w.id, AnswerOf(j)) then done else Released(done, w.id))
  {
    var w := j.waiting.value;
    var done := j.(waiting := None);
    var after := if Bridge.Kept(w.request.command, w.id, AnswerOf(j)) then done else Released(done, w.id);
    forall id | id in after.ids.active
      ensures CoveredId(after, id)
    {
      assert CoveredId(j, id);
      assert EndsAhead(j, id) ==> EndsAhead(after, id);
    }
  }

  // ----- Every run -----

  /** The state after a run, unless a step was not possible when it came. */
  ghost function Run(j: Joint, cfg: Settings, steps: seq<Step>): Option<Joint>
    decreases |steps|
  {
    if steps == [] then Some(j)
    else
      match Run(j, cfg, steps[..|steps| - 1])
      case None => None
      case Some(before) =>
        if Enabled(before, cfg, steps[|steps| - 1]) then Some(After(before, cfg, steps[|steps| - 1])) else None
  }

  /** No step of the run takes in a wink completion for a live session of another kind. */
  ghost predicate WinksBehave(j: Joint, cfg: Settings, steps: seq<Step>) {
    forall n :: 0 <= n < |steps| && steps[n].Play? && Run(j, cfg, steps[..n]).Some? ==>
      !Leaks(Run(j, cfg, steps[..n]).value, cfg, steps[n].turn)
  }

  /** No run loses a session ID between the bridge and the actor. */
  lemma {:induction false} RunKeepsCoverage(cfg: Settings, steps: seq<Step>)
    requires Run(START, cfg, steps).Some? && WinksBehave(START, cfg, steps)
    ensures Linked(Run(START, cfg, steps).value, cfg) && Covered(Run(START, cfg, steps).value)
    decreases |steps|
  {
    hide Linked, Covered, Enabled, After, Leaks;
    if steps == [] {
      StartIsCovered(cfg);
    } else {
      var n := |steps| - 1;
      assert forall m :: 0 <= m < n ==> steps[..n][..m] == steps[..m];
      RunKeepsCoverage(cfg, steps[..n]);
      var before := Run(START, cfg, steps[..n]).value;
      StepIsLinked(before, cfg, steps[n]);
      StepKeepsCoverage(before, cfg, steps[n]);
    }
  }

  lemma {:induction false} RunPrefixes(cfg: Settings, steps: seq<Step>, n: nat)
    requires Run(START, cfg, steps).Some? && n <= |steps|
    ensures Run(START, cfg, steps[..n]).Some?
    ensures n < |steps| ==>
              && Enabled(Run(START, cfg, steps[..n]).value, cfg, steps[n])
              && Run(START, cfg, steps[..n + 1]) == Some(After(Run(START, cfg, steps[..n]).value, cfg, steps[n]))
    decreases |steps|
  {
    hide Enabled, After;
    var last := |steps| - 1;
    if n == |steps| {
      assert steps[..n] == steps;
    } else if n == last {
      assert steps[..n + 1] == steps;
    } else {
      assert steps[..last][..n] == steps[..n] && steps[..last][..n + 1] == steps[..n + 1];
      RunPrefixes(cfg, steps[..last], n);
    }
  }

  /** Over whole runs: every state is covered if and only if the winks behave. */
  lemma RunIsCoveredUnlessItLeaks(cfg: Settings, steps: seq<Step>)
    requires Run(START, cfg, steps).Some?
    ensures (forall n :: 0 <= n <= |steps| && Run(START, cfg, steps[..n]).Some? ==>
               Covered(Run(START, cfg, steps[..n]).value))
       <==> WinksBehave(START, cfg, steps)
  {
    hide Linked, Covered, Enabled, After, Leaks, Run;
    if WinksBehave(START, cfg, steps) {
      forall n | 0 <= n <= |steps| && Run(START, cfg, steps[..n]).Some?
        ensures Covered(Run(START, cfg, steps[..n]).value)
      {
        assert forall m :: 0 <= m < n ==> steps[..n][..m] == steps[..m];
        RunKeepsCoverage(cfg, steps[..n]);
      }
    }
    if forall n :: 0 <= n <= |steps| && Run(START, cfg, steps[..n]).Some? ==>
         Covered(Run(START, cfg, steps[..n]).value)
    {
      forall n | 0 <= n < |steps| && steps[n].Play?
        ensures Run(START, cfg, steps[..n]).Some?
        ensures !Leaks(Run(START, cfg, steps[..n]).value, cfg, steps[n].turn)
      {
        RunPrefixes(cfg, steps, n);
        RunPrefixes(cfg, steps, n + 1);
        LinkedAlongRuns(cfg, steps[..n]);
        PlayedIsAfter(Run(START, cfg, steps[..n]).value, cfg, steps[n]);
        PlayKeepsCoverageUnlessItLeaks(Run(START, cfg, steps[..n]).value, cfg, steps[n].turn, steps[n].late);
      }
    }
  }

  lemma PlayedIsAfter(j: Joint, cfg: Settings, s: Step)
    requires s.Play?
    ensures After(j, cfg, s) == Played(j, cfg, s.turn, s.late)
  {
    hide Played;
  }

  lemma {:induction false} LinkedAlongRuns(cfg: Settings, steps: seq<Step>)
    requires Run(START, cfg, steps).Some?
    ensures Linked(Run(START, cfg, steps).value, cfg)
    decreases |steps|
  {
    hide Linked, Enabled, After;
    if steps == [] {
      StartIsCovered(cfg);
    } else {
      LinkedAlongRuns(cfg, steps[..|steps| - 1]);
      StepIsLinked(Run(START, cfg, steps[..|steps| - 1]).value, cfg, steps[|steps| - 1]);
    }
  }

  lemma StartIsCovered(cfg: Settings)
    ensures Linked(START, cfg) && Covered(START)
  {
    InitialInv(cfg);
  }

  // ----- Draining -----

  /** The bridge reads whatever there is to read. */
  function ReadAll(j: Joint): Joint
    decreases if j.read <= |j.actor.events| then |j.actor.events| - j.read else 0
  {
    if j.read < |j.actor.events| then ReadAll(Heard(j.(read := j.read + 1), j.actor.events[j.read])) else j
  }

  lemma {:induction false} ReadAllKeepsCoverage(j: Joint)
    requires Covered(j) && j.waiting.None? && j.read <= |j.actor.events|
    ensures var after := ReadAll(j);
            && Covered(after) && after.waiting.None? && after.read == |after.actor.events|
            && after.actor == j.actor && after.stopped == j.stopped
    decreases |j.actor.events| - j.read
  {
    hide Covered;
    if j.read < |j.actor.events| {
      ReadKeepsCoverage(j);
      ReadAllKeepsCoverage(Heard(j.(read := j.read + 1), j.actor.events[j.read]));
    }
  }

  /** Once a tick has come that is later than every deadline and the bridge has read every event, no
      session ID is in use. */
  lemma DrainedAllocatorIsEmpty(cfg: Settings, steps: seq<Step>, tick: Turn, late: seq<Request>)
    requires Run(START, cfg, steps).Some? && WinksBehave(START, cfg, steps)
    requires var j := Run(START, cfg, steps).value;
             && j.waiting.None?
             && tick.input.Tick? && Enabled(j, cfg, Play(tick, late)) && Pass(j.actor, cfg, tick).running
             && forall id :: id in j.actor.sessions ==> j.actor.sessions[id] <= tick.input.sessionNow
    ensures ReadAll(Played(Run(START, cfg, steps).value, cfg, tick, late)).ids.active == {}
  {
    hide Linked, Covered, Leaks, Run, WinksBehave, Pass, ReadAll;
    var j := Run(START, cfg, steps).value;
    RunKeepsCoverage(cfg, steps);
    TicksDoNotLeak(j, cfg, tick);
    PlayKeepsCoverageUnlessItLeaks(j, cfg, tick, late);
    PlayedIsLinked(j, cfg, tick, late);
    var after := Played(j, cfg, tick, late);
    AllSessionsExpire(j, cfg, tick, late);
    LinkedReads(after, cfg);
    ReadAllKeepsCoverage(after);
    NothingLeftNothingActive(ReadAll(after));
  }

  lemma TicksDoNotLeak(j: Joint, cfg: Settings, tick: Turn)
    requires tick.input.Tick?
    ensures !Leaks(j, cfg, tick)
  {
  }

  lemma LinkedReads(j: Joint, cfg: Settings)
    requires Linked(j, cfg)
    ensures j.read <= |j.actor.events|
  {
  }

  lemma AllSessionsExpire(j: Joint, cfg: Settings, tick: Turn, late: seq<Request>)
    requires Linked(j, cfg) && tick.input.Tick? && Enabled(j, cfg, Play(tick, late)) && Pass(j.actor, cfg, tick).running
    requires forall id :: id in j.actor.sessions ==> j.actor.sessions[id] <= tick.input.sessionNow
    ensures Played(j, cfg, tick, late).actor.sessions == map[]
    ensures Played(j, cfg, tick, late).waiting == j.waiting && !Played(j, cfg, tick, late).stopped
  {
    hide Inv, Dispatch, Actor.ExpireSessions, Actor.ExpireRequest;
    DispatchProgresses(j.actor, cfg, tick.at, tick.writeOk);
    if j.actor.pending.None? {
      DispatchKeeps(j.actor, cfg, tick.at, tick.writeOk);
    }
    var ready := Ready(j.actor, cfg, tick).state;
    ExpireRequestKeeps(ready, cfg, tick.input.requestNow);
    var waited := Actor.ExpireRequest(ready, tick.input.requestNow);
    ExpireSessionsKeeps(waited, cfg, tick.input.sessionNow, tick.input.order);
  }

  lemma NothingLeftNothingActive(j: Joint)
    requires Covered(j) && j.waiting.None? && j.read == |j.actor.events| && j.actor.sessions == map[]
    ensures j.ids.active == {}
  {
    assert forall id :: !CoveredId(j, id);
  }

  // ----- The one way to lose an ID -----

  function WinkFrame(id: SessionId): Frames.Frame {
    Frames.Frame(Frames.KLF_PROTOCOL_ID, WINK_SEND_NTF, BigEndian16(id))
  }

  /** With every event read and no request out, a wink completion for a running session, whatever its
      kind, makes its ID unusable: it stays active although the actor has forgotten it. */
  lemma WinkCompletionLosesTheId(j: Joint, cfg: Settings, id: SessionId, turn: Turn, late: seq<Request>)
    requires Linked(j, cfg) && !j.stopped && j.waiting.None? && j.read == |j.actor.events|
    requires id in j.ids.active && id in j.actor.sessions
    requires turn.input.Incoming? && turn.input.frame == WinkFrame(id) && Ready(j.actor, cfg, turn).failure.None?
    ensures var after := ReadAll(Played(j, cfg, turn, late));
            id in after.ids.active && id !in after.actor.sessions && !EndsAhead(after, id)
  {
    hide Inv, Dispatch, Notify, Bridge.Kept, Decode;
    WinkFrameDecodes(cfg, id);
    DispatchProgresses(j.actor, cfg, turn.at, turn.writeOk);
    if j.actor.pending.None? {
      DispatchKeeps(j.actor, cfg, turn.at, turn.writeOk);
    }
    var ready := Ready(j.actor, cfg, turn).state;
    assert Inv(ready, cfg);
    WinkIsNotAwaited(ready, cfg, id);
    NotifyProgresses(ready, WinkFinished(id));
    var after := Played(j, cfg, turn, late);
    assert after.actor == Notify(ready, WinkFinished(id));
    assert after.actor.events[j.read] == Notification(WinkFinished(id));
    assert ReadAll(after) == ReadAll(after.(read := j.read + 1));
  }

  lemma WinkFrameDecodes(cfg: Settings, id: SessionId)
    ensures Decode(cfg.others, WinkFrame(id)) == Ok(WinkFinished(id))
    ensures IsNotification(WinkFrame(id).command)
  {
  }

  /** No confirmation has a notification's command. */
  lemma WinkIsNotAwaited(s: State, cfg: Settings, id: SessionId)
    requires Inv(s, cfg)
    ensures !Expects(s, WinkFrame(id))
  {
    hide Replay, Confirms, RequestBytes;
    if s.pending.Some? {
      ConfirmationsAreDistinct(s.arrivals[|s.replies|].command, s.arrivals[|s.replies|].command);
    }
  }
}
