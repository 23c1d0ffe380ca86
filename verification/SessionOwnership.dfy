/** What the bridge's handlers do to its session IDs is what the ledger says, and the converse of its
    coverage: the actor never holds a session whose ID the bridge could hand out again, unless the end
    of a session overtook its confirmation (src/bridge.rs, src/klf200/connection.rs). */
module SessionOwnership {
  import opened Base
  import opened Values
  import opened SessionIds
  import opened Protocol
  import opened Actor
  import opened SessionLedger
  import Backoff
  import Bridge
  import Frames
  import Nodes

  // ----- The ledger's bridge is the bridge -----

  lemma GroupsAndNodesLeaveIds(b: Bridge.BridgeState, r: Response)
    ensures Bridge.ApplyNode(Bridge.ApplyGroup(b, r), r).ids == b.ids
  {
    hide Nodes.Apply, Bridge.DiscoveryMessages, Bridge.KnownAfter;
  }

  /** An event does to the bridge's session IDs what reading it does in the ledger. */
  lemma EventsReleaseAsInTheLedger(b: Bridge.BridgeState, j: Joint, e: Event, now: Instant, jitter: nat)
    requires b.gateway && b.ids == j.ids && jitter <= Backoff.JitterLimit(b.reconnect.current)
    ensures Bridge.HandleEvent(b, e, now, jitter).ids == Heard(j, e).ids
  {
    hide Perform, Bridge.ApplyNode, Bridge.ApplyGroup;
    if e.Notification? {
      var released := if e.response.SessionFinished? then Bridge.Release(b, e.response.sessionId) else b;
      GroupsAndNodesLeaveIds(released, e.response);
    }
  }

  /** The bridge waits for the request it has just allocated an ID for, and now gets this answer. */
  ghost predicate Answers(j: Joint, request: Request, answer: Bridge.GatewayAnswer, k: Joint) {
    && request.sessionId.Some? && Perform(j.ids, Allocate).result == Ok(request.sessionId.value)
    && k.ids == Asked(j, request).ids
    && k.waiting.Some? && k.waiting.value.id == request.sessionId.value && k.waiting.value.request == request
    && AnswerOf(k) == answer
  }

  /** A status request is Ask, then Collect; and it is the request the gateway is handed. */
  lemma StatusIsAskThenCollect(b: Bridge.BridgeState, j: Joint, k: Joint, cfg: Settings, node: NodeId, id: SessionId,
                               answer: Bridge.GatewayAnswer)
    requires b.ids == j.ids && Answers(j, StatusRequest(id, node), answer, k)
    ensures var after := Bridge.AskStatus(b, node, answer);
            after.ids == After(k, cfg, Collect).ids && after.asked == b.asked + [StatusRequest(id, node)]
  {
    hide FreeOffset;
  }

  /** A cover command that is sent is Ask, then Collect. */
  lemma CoverIsAskThenCollect(b: Bridge.BridgeState, j: Joint, k: Joint, cfg: Settings, node: NodeId,
                              action: Nodes.CoverAction, request: Request, answer: Bridge.GatewayAnswer)
    requires b.ids == j.ids && Answers(j, request, answer, k)
    requires node in b.view.cache
    requires Nodes.CoverCommand(b.view.cache[node], request.sessionId.value, action) == Ok(request)
    ensures var after := Bridge.CoverAsked(b, node, action, answer);
            after.ids == After(k, cfg, Collect).ids && after.asked == b.asked + [request]
  {
    hide FreeOffset, Nodes.Resolve, Nodes.Confirmed;
  }

  /** A group command is Ask, then Collect. */
  lemma GroupIsAskThenCollect(b: Bridge.BridgeState, j: Joint, k: Joint, cfg: Settings, group: GroupId,
                              action: Bridge.GroupAction, id: SessionId, request: Request, answer: Bridge.GatewayAnswer)
    requires b.ids == j.ids && group in b.view.groups
    requires request == ActivateGroup(id, group, Bridge.GroupPosition(action), b.view.groups[group].velocity)
    requires Answers(j, request, answer, k)
    ensures var after := Bridge.GroupAsked(b, group, action, answer);
            after.ids == After(k, cfg, Collect).ids && after.asked == b.asked + [request]
  {
    hide FreeOffset;
  }

  // ----- Ownership -----

  /** The commands of the bridge's session requests. */
  predicate BridgeCommand(command: u16) {
    command == COMMAND_SEND_REQ || command == STATUS_REQUEST_REQ || command == ACTIVATE_PRODUCTGROUP_REQ
  }

  /** Only the awaited request can be an unanswered one with a session. */
  ghost predicate OnlyAwaited(j: Joint) {
    forall t :: |j.actor.replies| <= t < |j.actor.arrivals| && j.actor.arrivals[t].sessionId.Some? ==>
      j.waiting.Some? && j.waiting.value.ticket == Some(t)
  }

  /** Every session of the actor has an ID that is active in the bridge and whose end is not among the
      unread events; and the ID of a request without its session is not in the session map. */
  ghost predicate Owned(j: Joint) {
    && (j.open ==> forall id :: id in j.actor.sessions ==> id in j.ids.active && !EndsAhead(j, id))
    && (j.waiting.Some? ==>
          && BridgeCommand(j.waiting.value.request.command)
          && (Pledged(j, j.waiting.value.id) ==> j.waiting.value.id !in j.actor.sessions))
    && OnlyAwaited(j)
    && (j.stopped ==> |j.actor.replies| == |j.actor.arrivals|)
  }

  /** The turn takes in the confirmation that starts the session of the pending request. */
  predicate AcceptsId(s: State, cfg: Settings, turn: Turn, id: SessionId) {
    && turn.input.Incoming?
    && Ready(s, cfg, turn).failure.None?
    && Expects(Ready(s, cfg, turn).state, turn.input.frame)
    && Ready(s, cfg, turn).state.pending.value.sessionId == Some(id)
    && Decode(cfg.others, turn.input.frame).Ok?
    && ConfirmationMatches(Some(id), Decode(cfg.others, turn.input.frame).value)
    && SessionWasAccepted(Decode(cfg.others, turn.input.frame).value)
  }

  /** The turn confirms a session whose end the bridge has yet to read: the end overtook it. */
  ghost predicate Overtaken(j: Joint, cfg: Settings, turn: Turn) {
    j.open && exists id :: AcceptsId(j.actor, cfg, turn, id) && EndsAhead(j, id)
  }

  /** A new reply accepts the session of its request. */
  ghost predicate NewlyAccepted(before: State, after: State, id: SessionId) {
    exists t ::
      && |before.replies| <= t < |after.replies| && t < |after.arrivals| && t < |before.arrivals|
      && after.arrivals[t].sessionId == Some(id)
      && after.replies[t].outcome.Ok? && SessionWasAccepted(after.replies[t].outcome.value)
  }

  /** Sessions only come with a newly accepted request, and no new event ends one that is there. */
  ghost predicate Owns(before: State, after: State, accepted: Option<SessionId>) {
    && (forall id :: id in after.sessions ==> id in before.sessions || accepted == Some(id))
    && (accepted.Some? ==> accepted.value in after.sessions && NewlyAccepted(before, after, accepted.value))
    && (forall id :: id in after.sessions ==> !NewEnd(before, after, id))
  }

  /** The session that a matching confirmation starts. */
  function Started(s: State, r: Response): Option<SessionId>
    requires s.pending.Some?
  {
    if SessionWasAccepted(r) then s.pending.value.sessionId else None
  }

  function AcceptedBy(s: State, cfg: Settings, frame: Frames.Frame): Option<SessionId> {
    if !Expects(s, frame) then None
    else
      match Decode(cfg.others, frame)
      case Ok(r) =>
        if ConfirmationMatches(s.pending.value.sessionId, r) then Started(s, r) else None
      case Err(_) => None
  }

  lemma ConfirmOwns(s: State, cfg: Settings, now: Instant, r: Response)
    requires Inv(s, cfg) && s.pending.Some?
    ensures Owns(s, Confirm(s, cfg, now, s.pending.value, r), Started(s, r))
  {
    hide Replay, Confirms, SessionWasAccepted, ExpectedConfirmation, RequestBytes;
    var after := Confirm(s, cfg, now, s.pending.value, r);
    assert after.replies[|s.replies|].outcome == Ok(r);
  }

  lemma NotifyOwns(s: State, r: Response)
    ensures Owns(s, Notify(s, r), None)
  {
  }

  lemma NothingNewOwns(s: State, after: State)
    requires after.sessions.Keys <= s.sessions.Keys
    requires after.events == s.events || exists e: Event :: after.events == s.events + [e] && forall id :: !Ends(e, id)
    ensures Owns(s, after, None)
  {
  }

  lemma HandleFrameOwns(s: State, cfg: Settings, now: Instant, frame: Frames.Frame)
    requires Inv(s, cfg)
    ensures Owns(s, HandleFrame(s, cfg, now, frame), AcceptedBy(s, cfg, frame))
  {
    hide Inv, Decode, Confirm, Notify, ConfirmationMatches, IsNotification, SessionWasAccepted, Owns;
    var decoded := Decode(cfg.others, frame);
    var after := HandleFrame(s, cfg, now, frame);
    if Expects(s, frame) {
      if decoded.Ok? && ConfirmationMatches(s.pending.value.sessionId, decoded.value) {
        ConfirmOwns(s, cfg, now, decoded.value);
      } else if decoded.Ok? {
        assert forall id :: !Ends(UnexpectedResponse(decoded.value), id);
        NothingNewOwns(s, after);
      } else {
        NothingNewOwns(s, after);
      }
    } else if decoded.Ok? && IsNotification(frame.command) {
      NotifyOwns(s, decoded.value);
    } else {
      assert forall id :: decoded.Ok? ==> !Ends(UnexpectedResponse(decoded.value), id);
      assert forall id :: decoded.Err? ==> !Ends(ProtocolError(decoded.error), id);
      NothingNewOwns(s, after);
    }
  }

  lemma TickOwns(s: State, cfg: Settings, requestNow: Instant, sessionNow: Instant, order: seq<SessionId>)
    requires Inv(s, cfg) && Enumerates(order, Expired(s.sessions, sessionNow))
    ensures Owns(s, Actor.ExpireSessions(Actor.ExpireRequest(s, requestNow), sessionNow, order), None)
  {
    hide Inv;
    ExpireRequestKeeps(s, cfg, requestNow);
    var waited := Actor.ExpireRequest(s, requestNow);
    ExpireSessionsKeeps(waited, cfg, sessionNow, order);
    var after := Actor.ExpireSessions(waited, sessionNow, order);
    forall i | |s.events| <= i < |after.events|
      ensures after.events[i].SessionTimedOut? && after.events[i].id !in after.sessions
    {
      var k := i - |waited.events|;
      assert after.events[i] == TimedOut(order)[k] == SessionTimedOut(order[k]);
      assert order[k] in order;
      assert order[k] in Expired(s.sessions, sessionNow);
    }
  }

  function AcceptedIn(s: State, cfg: Settings, turn: Turn): Option<SessionId> {
    if turn.input.Incoming? then AcceptedBy(Ready(s, cfg, turn).state, cfg, turn.input.frame) else None
  }

  lemma PassOwns(s: State, cfg: Settings, turn: Turn)
    requires Inv(s, cfg) && Actor.Possible(s, cfg, turn) && Pass(s, cfg, turn).running
    ensures Owns(s, Pass(s, cfg, turn).state, AcceptedIn(s, cfg, turn))
  {
    hide Inv, HandleFrame, Actor.ExpireSessions, Actor.ExpireRequest, Dispatch, AcceptedBy, Owns;
    DispatchProgresses(s, cfg, turn.at, turn.writeOk);
    if s.pending.None? {
      DispatchKeeps(s, cfg, turn.at, turn.writeOk);
    }
    var ready := Ready(s, cfg, turn).state;
    var after := Pass(s, cfg, turn).state;
    match turn.input {
      case Command(request) => NothingNewOwns(ready, after);
      case Incoming(now, frame) => HandleFrameOwns(ready, cfg, now, frame);
      case Malformed(e) =>
        assert forall id :: !Ends(ProtocolError(e), id);
        NothingNewOwns(ready, after);
      case Tick(requestNow, sessionNow, order) => TickOwns(ready, cfg, requestNow, sessionNow, order);
    }
    ReadyOwns(s, ready, after, AcceptedIn(s, cfg, turn));
  }

  lemma ReadyOwns(s: State, ready: State, after: State, accepted: Option<SessionId>)
    requires ready.events == s.events && s.replies <= ready.replies
    requires ready.arrivals == s.arrivals && ready.sessions == s.sessions
    requires Owns(ready, after, accepted)
    ensures Owns(s, after, accepted)
  {
    hide SessionWasAccepted;
    if accepted.Some? {
      var id := accepted.value;
      assert NewlyAccepted(s, after, id) by {
        var t :| |ready.replies| <= t < |after.replies| && t < |after.arrivals| && t < |ready.arrivals|
                 && after.arrivals[t].sessionId == Some(id)
                 && after.replies[t].outcome.Ok? && SessionWasAccepted(after.replies[t].outcome.value);
        assert |s.replies| <= t;
      }
    }
    forall id | id in after.sessions
      ensures !NewEnd(s, after, id)
    {
      assert !NewEnd(ready, after, id);
    }
  }

  lemma AcceptedIsAccepts(s: State, cfg: Settings, turn: Turn, id: SessionId)
    requires Pass(s, cfg, turn).running
    ensures AcceptedIn(s, cfg, turn) == Some(id) <==> AcceptsId(s, cfg, turn, id)
  {
    hide Decode, Dispatch, HandleFrame, Actor.ExpireSessions, Actor.ExpireRequest, SessionWasAccepted;
  }

  /** An accepted answer to one of the bridge's requests is one to keep the ID for. */
  lemma AcceptedIsKept(cfg: Settings, request: Request, id: SessionId, r: Response)
    requires BridgeCommand(request.command) && request.sessionId == Some(id)
    requires Confirms(cfg, request, r) && SessionWasAccepted(r)
    ensures Bridge.Kept(request.command, id, Ok(r))
  {
    var frame: Frames.Frame :| Decode(cfg.others, frame) == Ok(r)
                               && ExpectedConfirmation(request.command) == Some(frame.command)
                               && ConfirmationMatches(request.sessionId, r);
  }

  lemma ReplyIsJustified(s: State, cfg: Settings, t: nat)
    requires Inv(s, cfg) && t < |s.replies| && t < |s.arrivals| && s.replies[t].outcome.Ok?
    ensures Confirms(cfg, s.arrivals[t], s.replies[t].outcome.value)
  {
  }

  /** A newly accepted session is that of the awaited request, whose answer will keep its ID. */
  lemma AcceptedIsAwaited(j: Joint, cfg: Settings, turn: Turn, late: seq<Request>, id: SessionId)
    requires Linked(j, cfg) && Owned(j) && Enabled(j, cfg, Play(turn, late)) && Pass(j.actor, cfg, turn).running
    requires AcceptsId(j.actor, cfg, turn, id)
    ensures j.waiting.Some? && j.waiting.value.id == id && id in j.ids.active
    ensures id in Played(j, cfg, turn, late).actor.sessions
    ensures !Pledged(Played(j, cfg, turn, late), id)
  {
    var incoming := turn.input.Incoming?;
    hide Inv, Pass, Bridge.Kept, SessionWasAccepted, AcceptsId, AcceptedIn, LostIn, Progresses;
    assert incoming by { AcceptsTakesAFrame(j.actor, cfg, turn, id); }
    PassOwns(j.actor, cfg, turn);
    AcceptedIsAccepts(j.actor, cfg, turn, id);
    PlayedIsLinked(j, cfg, turn, late);
    assert j.actor.arrivals <= Pass(j.actor, cfg, turn).state.arrivals by { PassGrows(j.actor, cfg, turn); }
    var after := Played(j, cfg, turn, late);
    var t :| |j.actor.replies| <= t < |after.actor.replies| && t < |after.actor.arrivals| && t < |j.actor.arrivals|
             && after.actor.arrivals[t].sessionId == Some(id)
             && after.actor.replies[t].outcome.Ok? && SessionWasAccepted(after.actor.replies[t].outcome.value);
    assert j.actor.arrivals[t] == after.actor.arrivals[t];
    assert j.waiting.value.ticket == Some(t) && after.waiting == j.waiting;
    ReplyIsJustified(after.actor, cfg, t);
    AcceptedIsKept(cfg, after.actor.arrivals[t], id, after.actor.replies[t].outcome.value);
  }

  lemma AcceptsTakesAFrame(s: State, cfg: Settings, turn: Turn, id: SessionId)
    requires AcceptsId(s, cfg, turn, id)
    ensures turn.input.Incoming?
  {
  }

  lemma PassGrows(s: State, cfg: Settings, turn: Turn)
    requires Inv(s, cfg) && Actor.Possible(s, cfg, turn) && Pass(s, cfg, turn).running
    ensures s.arrivals <= Pass(s, cfg, turn).state.arrivals && s.events <= Pass(s, cfg, turn).state.events
    ensures s.replies <= Pass(s, cfg, turn).state.replies
    ensures !turn.input.Command? ==> Pass(s, cfg, turn).state.arrivals == s.arrivals
    ensures turn.input.Command? ==> Pass(s, cfg, turn).state.arrivals == s.arrivals + [turn.input.request]
  {
    hide Inv, Pass, Ready;
    PassProgresses(s, cfg, turn);
    PassTakesCommands(s, cfg, turn);
    FailedDispatchEnds(s, cfg, turn);
  }

  // ----- A pass of the actor -----

  lemma PlayedOwnsSessions(j: Joint, cfg: Settings, turn: Turn, late: seq<Request>, id: SessionId)
    requires Linked(j, cfg) && Owned(j) && j.open
    requires Enabled(j, cfg, Play(turn, late)) && Pass(j.actor, cfg, turn).running
    requires id in Played(j, cfg, turn, late).actor.sessions
    ensures id in j.ids.active
    ensures EndsAhead(Played(j, cfg, turn, late), id) <==> AcceptsId(j.actor, cfg, turn, id) && EndsAhead(j, id)
  {
    hide Inv, Pass, SessionWasAccepted, AcceptsId, AcceptedIn;
    var after := Played(j, cfg, turn, late);
    PassOwns(j.actor, cfg, turn);
    PassGrows(j.actor, cfg, turn);
    AcceptedIsAccepts(j.actor, cfg, turn, id);
    if AcceptsId(j.actor, cfg, turn, id) {
      AcceptedIsAwaited(j, cfg, turn, late, id);
    }
    if EndsAhead(after, id) {
      var i :| j.read <= i < |after.actor.events| && Ends(after.actor.events[i], id);
      assert i >= |j.actor.events| ==> NewEnd(j.actor, after.actor, id);
      assert i < |j.actor.events| ==> j.actor.events[i] == after.actor.events[i];
    }
    if EndsAhead(j, id) {
      var i :| j.read <= i < |j.actor.events| && Ends(j.actor.events[i], id);
      assert Ends(after.actor.events[i], id);
    }
  }

  lemma PlayedOwnsNoPledge(j: Joint, cfg: Settings, turn: Turn, late: seq<Request>)
    requires Linked(j, cfg) && Owned(j) && Enabled(j, cfg, Play(turn, late)) && Pass(j.actor, cfg, turn).running
    requires j.waiting.Some?
    ensures var after := Played(j, cfg, turn, late);
            && after.waiting.Some? && after.waiting.value.id == j.waiting.value.id
            && after.waiting.value.request == j.waiting.value.request
            && (Pledged(after, j.waiting.value.id) ==> j.waiting.value.id !in after.actor.sessions)
  {
    hide Inv, Pass, SessionWasAccepted, AcceptsId, AcceptedIn, Bridge.Kept;
    var id := j.waiting.value.id;
    var after := Played(j, cfg, turn, late);
    PassOwns(j.actor, cfg, turn);
    AcceptedIsAccepts(j.actor, cfg, turn, id);
    if id in after.actor.sessions {
      if AcceptsId(j.actor, cfg, turn, id) {
        AcceptedIsAwaited(j, cfg, turn, late, id);
      } else {
        AnswersStay(j, cfg, turn, late);
      }
    }
  }

  lemma PlayedIsOnlyAwaited(j: Joint, cfg: Settings, turn: Turn, late: seq<Request>)
    requires Linked(j, cfg) && Owned(j) && Enabled(j, cfg, Play(turn, late)) && Pass(j.actor, cfg, turn).running
    ensures OnlyAwaited(Played(j, cfg, turn, late))
  {
    hide Inv, Pass, Bridge.Kept, BridgeCommand;
    PassGrows(j.actor, cfg, turn);
  }

  lemma StoppingOwns(j: Joint, cfg: Settings, turn: Turn, late: seq<Request>)
    requires Linked(j, cfg) && Owned(j) && Enabled(j, cfg, Play(turn, late)) && !Pass(j.actor, cfg, turn).running
    ensures Owned(Played(j, cfg, turn, late))
  {
    hide Inv, Pass, Stop, Bridge.Kept, BridgeCommand, Actor.Possible;
    var after := Played(j, cfg, turn, late);
    PassKeeps(j.actor, cfg, turn);
    StopAnswersAll(Pass(j.actor, cfg, turn), cfg, late);
    StopCloses(j.actor, cfg, turn, late);
    forall id | EndsAhead(after, id)
      ensures EndsAhead(j, id)
    {
      var i :| j.read <= i < |after.actor.events| && Ends(after.actor.events[i], id);
      assert i >= |j.actor.events| ==> NewEnd(j.actor, after.actor, id);
      assert Ends(j.actor.events[i], id);
    }
  }

  /** Exactly a confirmation that was overtaken by the end of its session breaks ownership. */
  lemma PlayKeepsOwnershipUnlessOvertaken(j: Joint, cfg: Settings, turn: Turn, late: seq<Request>)
    requires Linked(j, cfg) && Owned(j) && Enabled(j, cfg, Play(turn, late))
    ensures Owned(Played(j, cfg, turn, late)) <==> !Overtaken(j, cfg, turn)
  {
    hide Linked, Inv, Pass, Stop, AcceptsId, EndsAhead, Pledged, OnlyAwaited, Actor.Possible, BridgeCommand;
    var after := Played(j, cfg, turn, late);
    if !Pass(j.actor, cfg, turn).running {
      StoppingOwns(j, cfg, turn, late);
      AcceptingGoesOn(j.actor, cfg, turn);
    } else {
      forall id | j.open && id in after.actor.sessions
        ensures id in j.ids.active
        ensures EndsAhead(after, id) <==> AcceptsId(j.actor, cfg, turn, id) && EndsAhead(j, id)
      {
        PlayedOwnsSessions(j, cfg, turn, late, id);
      }
      forall id | AcceptsId(j.actor, cfg, turn, id)
        ensures id in after.actor.sessions
      {
        AcceptedIsAwaited(j, cfg, turn, late, id);
      }
      if j.waiting.Some? {
        PlayedOwnsNoPledge(j, cfg, turn, late);
      }
      PlayedIsOnlyAwaited(j, cfg, turn, late);
    }
  }

  lemma AcceptingGoesOn(s: State, cfg: Settings, turn: Turn)
    ensures forall id :: AcceptsId(s, cfg, turn, id) ==> Pass(s, cfg, turn).running
  {
    hide Decode, Dispatch, HandleFrame, SessionWasAccepted;
  }

  // ----- The other steps, and every run -----

  lemma ReadingOwns(j: Joint)
    requires Owned(j) && j.waiting.None? && j.read < |j.actor.events|
    ensures Owned(Heard(j.(read := j.read + 1), j.actor.events[j.read]))
  {
    var e := j.actor.events[j.read];
    var after := Heard(j.(read := j.read + 1), e);
    forall id | EndsAhead(after, id)
      ensures EndsAhead(j, id)
    {
      var i :| after.read <= i < |after.actor.events| && Ends(after.actor.events[i], id);
      assert Ends(j.actor.events[i], id);
    }
    assert forall id :: Ends(e, id) ==> EndsAhead(j, id);
  }

  lemma AskingOwns(j: Joint, cfg: Settings, request: Request)
    requires Owned(j) && Enabled(j, cfg, Ask(request)) && BridgeCommand(request.command)
    ensures request.sessionId.value !in j.actor.sessions
    ensures Owned(Asked(j, request))
  {
    hide FreeOffset, Bridge.Kept, BridgeCommand;
    AllocateIsExact(j.ids);
    var after := Asked(j, request);
    assert forall id :: EndsAhead(after, id) <==> EndsAhead(j, id);
  }

  lemma CollectingOwns(j: Joint, cfg: Settings)
    requires Linked(j, cfg) && Owned(j) && Enabled(j, cfg, Collect)
    ensures Owned(After(j, cfg, Collect))
  {
    hide Inv, Bridge.Kept, BridgeCommand;
    var after := After(j, cfg, Collect);
    assert forall id :: EndsAhead(after, id) <==> EndsAhead(j, id);
  }

  lemma StepKeepsOwnership(j: Joint, cfg: Settings, s: Step)
    requires Linked(j, cfg) && Owned(j) && Enabled(j, cfg, s)
    requires s.Play? ==> !Overtaken(j, cfg, s.turn)
    requires s.Ask? ==> BridgeCommand(s.request.command)
    ensures Owned(After(j, cfg, s))
  {
    hide Linked, Played, Heard, Overtaken, BridgeCommand, Actor.Possible, EndsAhead, Pledged, OnlyAwaited;
    match s
    case Play(turn, late) => PlayKeepsOwnershipUnlessOvertaken(j, cfg, turn, late);
    case Ask(request) => AskingOwns(j, cfg, request);
    case Collect => CollectingOwns(j, cfg);
    case Read => ReadingOwns(j);
    case NoMore => GivingUpOwns(j);
    case GiveUp => GivingUpOwns(j);
  }

  lemma GivingUpOwns(j: Joint)
    requires Owned(j) && j.waiting.None?
    ensures Owned(GivenUp(j))
  {
  }

  /** The bridge's requests are all the session requests there are, and no end overtakes a confirmation. */
  ghost predicate NeverOvertaken(j: Joint, cfg: Settings, steps: seq<Step>) {
    && (forall n :: 0 <= n < |steps| && steps[n].Ask? ==> BridgeCommand(steps[n].request.command))
    && (forall n :: 0 <= n < |steps| && steps[n].Play? && SessionLedger.Run(j, cfg, steps[..n]).Some? ==>
          !Overtaken(SessionLedger.Run(j, cfg, steps[..n]).value, cfg, steps[n].turn))
  }

  /** In every state of every run without an overtaken confirmation, the actor's sessions are active in
      the bridge, so an ID it allocates is in no session; nor is that of the awaited request before its
      session starts, so the actor never refuses it for being in use. */
  lemma {:induction false} FreshIdsAreInNoSession(cfg: Settings, steps: seq<Step>)
    requires SessionLedger.Run(START, cfg, steps).Some? && NeverOvertaken(START, cfg, steps)
    ensures var j := SessionLedger.Run(START, cfg, steps).value;
            && Linked(j, cfg) && Owned(j)
            && (j.open ==> forall id :: id in j.actor.sessions ==> id in j.ids.active)
            && (j.open && Perform(j.ids, Allocate).result.Ok? ==>
                  Perform(j.ids, Allocate).result.value !in j.actor.sessions)
            && (j.waiting.Some? && Pledged(j, j.waiting.value.id) ==>
                  j.waiting.value.id !in j.actor.sessions)
    decreases |steps|
  {
    hide Linked, Enabled, After, Overtaken, EndsAhead, Pledged, OnlyAwaited, BridgeCommand;
    if steps == [] {
      StartIsCovered(cfg);
      StartIsOwned();
    } else {
      var n := |steps| - 1;
      assert forall m :: 0 <= m < n ==> steps[..n][..m] == steps[..m];
      FreshIdsAreInNoSession(cfg, steps[..n]);
      var before := SessionLedger.Run(START, cfg, steps[..n]).value;
      StepIsLinked(before, cfg, steps[n]);
      StepKeepsOwnership(before, cfg, steps[n]);
    }
    var j := SessionLedger.Run(START, cfg, steps).value;
    AllocateIsExact(j.ids);
  }

  /** Over whole runs: every state is owned if and only if no confirmation is overtaken, the session
      requests being the bridge's. */
  lemma RunIsOwnedUnlessOvertaken(cfg: Settings, steps: seq<Step>)
    requires SessionLedger.Run(START, cfg, steps).Some?
    ensures (forall n :: 0 <= n <= |steps| && SessionLedger.Run(START, cfg, steps[..n]).Some? ==>
               Owned(SessionLedger.Run(START, cfg, steps[..n]).value))
       <==> NeverOvertaken(START, cfg, steps)
  {
    hide Linked, Owned, Enabled, After, Overtaken, SessionLedger.Run, BridgeCommand, EndsAhead, Pledged;
    if NeverOvertaken(START, cfg, steps) {
      forall n | 0 <= n <= |steps| && SessionLedger.Run(START, cfg, steps[..n]).Some?
        ensures Owned(SessionLedger.Run(START, cfg, steps[..n]).value)
      {
        assert forall m :: 0 <= m < n ==> steps[..n][..m] == steps[..m];
        FreshIdsAreInNoSession(cfg, steps[..n]);
      }
    }
    if forall n :: 0 <= n <= |steps| && SessionLedger.Run(START, cfg, steps[..n]).Some? ==>
         Owned(SessionLedger.Run(START, cfg, steps[..n]).value)
    {
      forall n | 0 <= n < |steps|
        ensures steps[n].Ask? ==> BridgeCommand(steps[n].request.command)
        ensures SessionLedger.Run(START, cfg, steps[..n]).Some?
        ensures steps[n].Play? ==> !Overtaken(SessionLedger.Run(START, cfg, steps[..n]).value, cfg, steps[n].turn)
      {
        RunPrefixes(cfg, steps, n);
        RunPrefixes(cfg, steps, n + 1);
        LinkedAlongRuns(cfg, steps[..n]);
        OwnedAfterwards(SessionLedger.Run(START, cfg, steps[..n]).value, cfg, steps[n]);
      }
    }
  }

  /** A step that leaves an owned state was the bridge's own request, or no overtaken confirmation. */
  lemma OwnedAfterwards(j: Joint, cfg: Settings, s: Step)
    requires Linked(j, cfg) && Owned(j) && Enabled(j, cfg, s) && Owned(After(j, cfg, s))
    ensures s.Ask? ==> BridgeCommand(s.request.command)
    ensures s.Play? ==> !Overtaken(j, cfg, s.turn)
  {
    hide Linked, Played, Overtaken, BridgeCommand, Actor.Possible, EndsAhead, Pledged, OnlyAwaited;
    if s.Play? {
      PlayKeepsOwnershipUnlessOvertaken(j, cfg, s.turn, s.late);
    }
  }

  lemma StartIsOwned()
    ensures Owned(START)
  {
  }

  // ----- The one way to hand out an ID that is in use -----

  lemma {:induction false} ReadingAnEndReleases(j: Joint, id: SessionId)
    requires EndsAhead(j, id) && j.waiting.None?
    ensures id !in ReadAll(j).ids.active && ReadAll(j).actor == j.actor
    decreases |j.actor.events| - j.read
  {
    var e := j.actor.events[j.read];
    var next := Heard(j.(read := j.read + 1), e);
    if Ends(e, id) {
      InactiveStaysInactive(next, id);
    } else {
      var i :| j.read <= i < |j.actor.events| && Ends(j.actor.events[i], id);
      assert i > j.read && Ends(next.actor.events[i], id);
      ReadingAnEndReleases(next, id);
    }
  }

  lemma {:induction false} InactiveStaysInactive(j: Joint, id: SessionId)
    requires id !in j.ids.active
    ensures id !in ReadAll(j).ids.active && ReadAll(j).actor == j.actor
    decreases if j.read <= |j.actor.events| then |j.actor.events| - j.read else 0
  {
    if j.read < |j.actor.events| {
      InactiveStaysInactive(Heard(j.(read := j.read + 1), j.actor.events[j.read]), id);
    }
  }

  /** After an overtaken confirmation, collecting it and reading the events makes the ID free for the
      bridge while the actor still has its session: any request with that ID is refused. */
  lemma OvertakenIdIsRefused(j: Joint, cfg: Settings, turn: Turn, late: seq<Request>, id: SessionId, request: Request)
    requires Linked(j, cfg) && Owned(j) && Enabled(j, cfg, Play(turn, late)) && Pass(j.actor, cfg, turn).running
    requires AcceptsId(j.actor, cfg, turn, id) && EndsAhead(j, id)
    requires ExpectedConfirmation(request.command).Some? && request.sessionId == Some(id)
    ensures var k := ReadAll(After(Played(j, cfg, turn, late), cfg, Collect));
            && id !in k.ids.active && id in k.actor.sessions
            && Refusal(k.actor.sessions, request) == Some(SessionIdInUse(id))
  {
    hide Linked, Inv, Pass, AcceptsId, Bridge.Kept, ExpectedConfirmation, Enabled, ReadAll;
    var after := Played(j, cfg, turn, late);
    AcceptedIsAwaited(j, cfg, turn, late, id);
    var done := After(after, cfg, Collect);
    assert EndsAhead(done, id) by {
      var i :| j.read <= i < |j.actor.events| && Ends(j.actor.events[i], id);
      assert j.actor.events <= after.actor.events by { PlayedGrows(j, cfg, turn, late); }
      assert Ends(done.actor.events[i], id);
    }
    ReadingAnEndReleases(done, id);
  }

  lemma PlayedGrows(j: Joint, cfg: Settings, turn: Turn, late: seq<Request>)
    requires Linked(j, cfg) && Enabled(j, cfg, Play(turn, late)) && Pass(j.actor, cfg, turn).running
    ensures j.actor.events <= Played(j, cfg, turn, late).actor.events && Played(j, cfg, turn, late).read == j.read
  {
    hide Inv, Pass;
    PassGrows(j.actor, cfg, turn);
  }
}
