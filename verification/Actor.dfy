/** The connection actor of src/klf200/connection.rs as a state machine over values. Instants are
    naturals; replies, events and written frames are kept as the logs of what the actor sent. */
module Actor {
  import opened Base
  import opened SessionIds
  import opened Protocol
  import Frames
  import Slip
  import Wire

  type Instant = nat

  datatype Settings = Settings(requestTimeout: nat, sessionTimeout: nat, others: OtherDecoders)

  /** A ticket numbers a request by arrival; it stands for the caller's reply channel. */
  datatype Queued = Queued(ticket: nat, request: Request)

  datatype Pending = Pending(ticket: nat, command: u16, expected: u16, sessionId: Option<SessionId>, deadline: Instant)

  datatype Reply = Reply(ticket: nat, outcome: Result<Response, KlfError>)

  datatype Write = Write(ticket: nat, envelope: seq<byte>)

  datatype Event =
    | Notification(response: Response)
    | UnexpectedResponse(response: Response)
    | SessionTimedOut(id: SessionId)
    | ProtocolError(error: KlfError)
    | Disconnected(reason: KlfError)

  /** What happens to a session in the actor's map. */
  datatype Lifetime =
    | Accept(id: SessionId, deadline: Instant)
    | Finish(id: SessionId)
    | Expire(id: SessionId, at: Instant)

  datatype State = State(
    queue: seq<Queued>,
    pending: Option<Pending>,
    sessions: map<SessionId, Instant>,
    arrivals: seq<Request>,
    writes: seq<Write>,
    replies: seq<Reply>,
    events: seq<Event>,
    lifetimes: seq<Lifetime>)

  const INITIAL: State := State([], None, map[], [], [], [], [], [])

  // ----- Steps -----

  function Enqueue(s: State, request: Request): State {
    s.(queue := s.queue + [Queued(|s.arrivals|, request)], arrivals := s.arrivals + [request])
  }

  function Answer(s: State, ticket: nat, outcome: Result<Response, KlfError>): State {
    s.(replies := s.replies + [Reply(ticket, outcome)])
  }

  function Emit(s: State, event: Event): State {
    s.(events := s.events + [event])
  }

  /** Why a request is answered without being written, if it is. */
  function Refusal(sessions: map<SessionId, Instant>, request: Request): Option<KlfError> {
    if ExpectedConfirmation(request.command).None? then Some(MissingConfirmation(request.command))
    else if request.sessionId.Some? && request.sessionId.value in sessions then
      Some(SessionIdInUse(request.sessionId.value))
    else
      match RequestBytes(request)
      case Err(e) => Some(e)
      case Ok(_) => None
  }

  datatype Dispatched = Dispatched(state: State, failure: Option<KlfError>)

  function Dispatch(s: State, cfg: Settings, now: Instant, writeOk: bool): Dispatched
    decreases |s.queue|
  {
    if s.queue == [] then Dispatched(s, None)
    else
      var head := s.queue[0];
      var rest := s.(queue := s.queue[1..]);
      match Refusal(s.sessions, head.request)
      case Some(e) => Dispatch(Answer(rest, head.ticket, Err(e)), cfg, now, writeOk)
      case None =>
        if !writeOk then Dispatched(Answer(rest, head.ticket, Err(ConnectionClosed)), Some(Io))
        else Dispatched(Written(rest, cfg, now, head), None)
  }

  function Written(rest: State, cfg: Settings, now: Instant, head: Queued): State
    requires Refusal(rest.sessions, head.request).None?
  {
    rest.(pending := Some(Pending(head.ticket, head.request.command, ExpectedConfirmation(head.request.command).value,
                                  head.request.sessionId, now + cfg.requestTimeout)),
          writes := rest.writes + [Write(head.ticket, RequestBytes(head.request).value)])
  }

  function DropSession(s: State, id: Option<SessionId>): State {
    if id.Some? then s.(sessions := s.sessions - {id.value}) else s
  }

  function Confirm(s: State, cfg: Settings, now: Instant, p: Pending, r: Response): State {
    var taken := s.(pending := None);
    var settled :=
      if p.sessionId.Some? && SessionWasAccepted(r) then
        var deadline := now + cfg.sessionTimeout;
        taken.(sessions := s.sessions[p.sessionId.value := deadline],
               lifetimes := s.lifetimes + [Accept(p.sessionId.value, deadline)])
      else DropSession(taken, p.sessionId);
    Answer(settled, p.ticket, Ok(r))
  }

  function Notify(s: State, r: Response): State {
    var id := TerminalSession(r);
    var ended :=
      if id.Some? && id.value in s.sessions then
        s.(sessions := s.sessions - {id.value}, lifetimes := s.lifetimes + [Finish(id.value)])
      else s;
    Emit(ended, Notification(r))
  }

  predicate Expects(s: State, frame: Frames.Frame) {
    s.pending.Some? && s.pending.value.expected == frame.command
  }

  function HandleFrame(s: State, cfg: Settings, now: Instant, frame: Frames.Frame): State {
    var decoded := Decode(cfg.others, frame);
    if Expects(s, frame) then
      var p := s.pending.value;
      match decoded
      case Ok(r) =>
        if !ConfirmationMatches(p.sessionId, r) then Emit(s, UnexpectedResponse(r))
        else Confirm(s, cfg, now, p, r)
      case Err(e) => Answer(DropSession(s.(pending := None), p.sessionId), p.ticket, Err(e))
    else
      match decoded
      case Ok(r) => if IsNotification(frame.command) then Notify(s, r) else Emit(s, UnexpectedResponse(r))
      case Err(e) => Emit(s, ProtocolError(e))
  }

  function ExpireRequest(s: State, now: Instant): State {
    if s.pending.Some? && s.pending.value.deadline <= now then
      var p := s.pending.value;
      Answer(DropSession(s.(pending := None), p.sessionId), p.ticket, Err(RequestTimeout(p.command)))
    else s
  }

  function Expired(sessions: map<SessionId, Instant>, now: Instant): set<SessionId> {
    set id | id in sessions && sessions[id] <= now
  }

  /** The order in which the hash map yields the expired sessions is arbitrary. */
  ghost predicate Enumerates(order: seq<SessionId>, ids: set<SessionId>) {
    && (forall id :: id in order <==> id in ids)
    && (forall i, j :: 0 <= i < j < |order| ==> order[i] != order[j])
  }

  function ExpireSessions(s: State, now: Instant, order: seq<SessionId>): State
    decreases |order|
  {
    if order == [] then s
    else
      var id := order[0];
      ExpireSessions(s.(sessions := s.sessions - {id},
                        events := s.events + [SessionTimedOut(id)],
                        lifetimes := s.lifetimes + [Expire(id, now)]), now, order[1..])
  }

  function FailQueue(s: State): State
    decreases |s.queue|
  {
    if s.queue == [] then s
    else FailQueue(Answer(s.(queue := s.queue[1..]), s.queue[0].ticket, Err(ConnectionClosed)))
  }

  function FailOutstanding(s: State): State {
    FailQueue(if s.pending.Some? then Answer(s.(pending := None), s.pending.value.ticket, Err(ConnectionClosed)) else s)
  }

  /** The requests still in the command channel when the loop has ended. */
  function Drain(s: State, late: seq<Request>): State
    decreases |late|
  {
    if late == [] then s
    else Drain(Answer(s.(arrivals := s.arrivals + [late[0]]), |s.arrivals|, Err(ConnectionClosed)), late[1..])
  }

  // ----- The loop -----

  datatype Input =
    | Command(request: Request)
    | Incoming(now: Instant, frame: Frames.Frame)
    | Malformed(error: KlfError)
    | Tick(requestNow: Instant, sessionNow: Instant, order: seq<SessionId>)
    | Shutdown
    | HandlesDropped
    | StreamClosed(reason: KlfError)

  /** One pass of the loop: a possible dispatch at some instant, then one selected input. */
  datatype Turn = Turn(at: Instant, writeOk: bool, input: Input)

  datatype Progress = Progress(state: State, running: bool, reason: Option<KlfError>)

  function Ready(s: State, cfg: Settings, turn: Turn): Dispatched {
    if s.pending.None? then Dispatch(s, cfg, turn.at, turn.writeOk) else Dispatched(s, None)
  }

  function Select(s: State, cfg: Settings, turn: Turn): Progress {
    match turn.input
    case Command(request) => Progress(Enqueue(s, request), true, None)
    case Incoming(now, frame) => Progress(HandleFrame(s, cfg, now, frame), true, None)
    case Malformed(e) => Progress(Emit(s, ProtocolError(e)), true, None)
    case Tick(requestNow, sessionNow, order) =>
      Progress(ExpireSessions(ExpireRequest(s, requestNow), sessionNow, order), true, None)
    case Shutdown => Progress(s, false, None)
    case HandlesDropped => Progress(s, false, None)
    case StreamClosed(reason) => Progress(s, false, Some(reason))
  }

  function Pass(s: State, cfg: Settings, turn: Turn): Progress {
    var ready := Ready(s, cfg, turn);
    if ready.failure.Some? then Progress(ready.state, false, ready.failure) else Select(ready.state, cfg, turn)
  }

  /** A turn that can happen in a state: a tick enumerates exactly the sessions that are due. */
  ghost predicate Possible(s: State, cfg: Settings, turn: Turn) {
    turn.input.Tick? && Ready(s, cfg, turn).failure.None? ==>
      Enumerates(turn.input.order, Expired(Ready(s, cfg, turn).state.sessions, turn.input.sessionNow))
  }

  function Loop(s: State, cfg: Settings, turns: seq<Turn>): Progress
    decreases |turns|
  {
    if turns == [] then Progress(s, true, None)
    else
      var next := Pass(s, cfg, turns[0]);
      if next.running then Loop(next.state, cfg, turns[1..]) else next
  }

  ghost predicate AllPossible(s: State, cfg: Settings, turns: seq<Turn>)
    decreases |turns|
  {
    turns == []
    || (Possible(s, cfg, turns[0])
        && (Pass(s, cfg, turns[0]).running ==> AllPossible(Pass(s, cfg, turns[0]).state, cfg, turns[1..])))
  }

  /** What follows the loop, once it has stopped. */
  function Stop(p: Progress, late: seq<Request>): State {
    var failed := Drain(FailOutstanding(p.state), late);
    if p.reason.Some? then Emit(failed, Disconnected(p.reason.value)) else failed
  }

  // ----- Invariants -----

  function PendingCount(s: State): nat {
    if s.pending.Some? then 1 else 0
  }

  /** Answered, then pending, then queued requests are the arrivals, in order and without a gap. */
  ghost predicate Conserved(s: State) {
    var answered := |s.replies|;
    var taken := answered + PendingCount(s);
    && taken + |s.queue| == |s.arrivals|
    && (forall i :: 0 <= i < answered ==> s.replies[i].ticket == i)
    && (s.pending.Some? ==>
          && s.pending.value.ticket == answered
          && s.pending.value.command == s.arrivals[answered].command
          && ExpectedConfirmation(s.arrivals[answered].command) == Some(s.pending.value.expected)
          && s.pending.value.sessionId == s.arrivals[answered].sessionId)
    && (forall i :: 0 <= i < |s.queue| ==> s.queue[i] == Queued(taken + i, s.arrivals[taken + i]))
  }

  /** Frames leave in arrival order, at most one of them unanswered: the pending one. */
  ghost predicate WritesInOrder(s: State) {
    && (forall i, j :: 0 <= i < j < |s.writes| ==> s.writes[i].ticket < s.writes[j].ticket)
    && (forall i :: 0 <= i < |s.writes| ==>
          && s.writes[i].ticket < |s.replies| + PendingCount(s)
          && s.writes[i].ticket < |s.arrivals|
          && RequestBytes(s.arrivals[s.writes[i].ticket]) == Ok(s.writes[i].envelope))
    && (s.pending.Some? ==> |s.writes| > 0 && s.writes[|s.writes| - 1].ticket == s.pending.value.ticket)
  }

  /** Replays session lifetimes; none if one overlaps another, ends unborn or expires early. */
  function Replay(lifetimes: seq<Lifetime>): Option<map<SessionId, Instant>> {
    if lifetimes == [] then Some(map[])
    else
      var n := |lifetimes| - 1;
      match Replay(lifetimes[..n])
      case None => None
      case Some(live) =>
        match lifetimes[n]
        case Accept(id, deadline) => if id in live then None else Some(live[id := deadline])
        case Finish(id) => if id in live then Some(live - {id}) else None
        case Expire(id, at) => if id in live && live[id] <= at then Some(live - {id}) else None
  }

  ghost predicate SessionsTracked(s: State) {
    && Replay(s.lifetimes) == Some(s.sessions)
    && (s.pending.Some? && s.pending.value.sessionId.Some? ==> s.pending.value.sessionId.value !in s.sessions)
  }

  /** A response that some frame can carry as the confirmation of the request. */
  ghost predicate Confirms(cfg: Settings, request: Request, r: Response) {
    exists frame: Frames.Frame ::
      && Decode(cfg.others, frame) == Ok(r)
      && ExpectedConfirmation(request.command) == Some(frame.command)
      && ConfirmationMatches(request.sessionId, r)
  }

  ghost predicate RepliesJustified(s: State, cfg: Settings) {
    forall i :: 0 <= i < |s.replies| && i < |s.arrivals| && s.replies[i].outcome.Ok? ==>
      Confirms(cfg, s.arrivals[i], s.replies[i].outcome.value)
  }

  ghost predicate Inv(s: State, cfg: Settings) {
    Conserved(s) && WritesInOrder(s) && SessionsTracked(s) && RepliesJustified(s, cfg)
  }

  // ----- Each step keeps the invariant -----

  lemma EnqueueKeeps(s: State, cfg: Settings, request: Request)
    requires Inv(s, cfg)
    ensures Inv(Enqueue(s, request), cfg)
  {
  }

  /** Removing the ID of an unconfirmed request never removes a live session. */
  lemma DropIsHarmless(s: State)
    requires SessionsTracked(s) && s.pending.Some?
    ensures DropSession(s.(pending := None), s.pending.value.sessionId) == s.(pending := None)
  {
    var id := s.pending.value.sessionId;
    if id.Some? {
      assert s.sessions - {id.value} == s.sessions;
    }
  }

  lemma AnswerPendingKeeps(s: State, cfg: Settings, outcome: Result<Response, KlfError>)
    requires Inv(s, cfg) && s.pending.Some?
    requires outcome.Ok? ==> Confirms(cfg, s.arrivals[|s.replies|], outcome.value)
    ensures Inv(Answer(s.(pending := None), s.pending.value.ticket, outcome), cfg)
  {
    hide Confirms, Replay, ExpectedConfirmation, RequestBytes;
  }

  lemma AnswerHeadKeeps(s: State, cfg: Settings, e: KlfError)
    requires Inv(s, cfg) && s.pending.None? && s.queue != []
    ensures Inv(Answer(s.(queue := s.queue[1..]), s.queue[0].ticket, Err(e)), cfg)
  {
    hide Confirms, Replay, ExpectedConfirmation, RequestBytes;
  }

  lemma WriteKeeps(s: State, cfg: Settings, now: Instant)
    requires Inv(s, cfg) && s.pending.None? && s.queue != [] && Refusal(s.sessions, s.queue[0].request).None?
    ensures Inv(Written(s.(queue := s.queue[1..]), cfg, now, s.queue[0]), cfg)
  {
    hide Confirms, Replay, RequestBytes, ExpectedConfirmation;
    assert s.queue[0].ticket == |s.replies|;
  }

  /** Dispatch ends with a request on the wire, an empty queue or a failed connection. */
  lemma {:induction false} DispatchKeeps(s: State, cfg: Settings, now: Instant, writeOk: bool)
    requires Inv(s, cfg) && s.pending.None?
    ensures var done := Dispatch(s, cfg, now, writeOk);
            && Inv(done.state, cfg)
            && (done.failure.None? ==> done.state.pending.Some? || done.state.queue == [])
            && (done.failure.Some? ==> done.state.pending.None?)
            && done.state.sessions == s.sessions
            && done.state.events == s.events
    decreases |s.queue|
  {
    hide Inv, Confirms, Replay, ExpectedConfirmation, RequestBytes, Refusal;
    if s.queue != [] {
      match Refusal(s.sessions, s.queue[0].request)
      case Some(e) =>
        AnswerHeadKeeps(s, cfg, e);
        DispatchKeeps(Answer(s.(queue := s.queue[1..]), s.queue[0].ticket, Err(e)), cfg, now, writeOk);
      case None =>
        if writeOk {
          WriteKeeps(s, cfg, now);
        } else {
          AnswerHeadKeeps(s, cfg, ConnectionClosed);
        }
    }
  }

  lemma ReplaySnoc(lifetimes: seq<Lifetime>, l: Lifetime)
    ensures (lifetimes + [l])[..|lifetimes|] == lifetimes
  {
  }

  lemma AcceptKeeps(s: State, cfg: Settings, id: SessionId, deadline: Instant)
    requires Inv(s, cfg) && s.pending.None? && id !in s.sessions
    ensures Inv(s.(sessions := s.sessions[id := deadline], lifetimes := s.lifetimes + [Accept(id, deadline)]), cfg)
  {
    hide Confirms, ExpectedConfirmation, RequestBytes;
    ReplaySnoc(s.lifetimes, Accept(id, deadline));
  }

  lemma ConfirmKeeps(s: State, cfg: Settings, now: Instant, r: Response)
    requires Inv(s, cfg) && s.pending.Some?
    requires Confirms(cfg, s.arrivals[|s.replies|], r)
    ensures Inv(Confirm(s, cfg, now, s.pending.value, r), cfg)
  {
    hide Confirms, ExpectedConfirmation, RequestBytes, Replay;
    var p := s.pending.value;
    AnswerPendingKeeps(s, cfg, Ok(r));
    if p.sessionId.Some? && SessionWasAccepted(r) {
      AcceptKeeps(Answer(s.(pending := None), p.ticket, Ok(r)), cfg, p.sessionId.value, now + cfg.sessionTimeout);
    } else {
      DropIsHarmless(s);
    }
  }

  lemma FinishKeeps(s: State, cfg: Settings, id: SessionId)
    requires Inv(s, cfg) && id in s.sessions
    ensures Inv(s.(sessions := s.sessions - {id}, lifetimes := s.lifetimes + [Finish(id)]), cfg)
  {
    hide Confirms, ExpectedConfirmation, RequestBytes;
    ReplaySnoc(s.lifetimes, Finish(id));
  }

  lemma EmitKeeps(s: State, cfg: Settings, event: Event)
    requires Inv(s, cfg)
    ensures Inv(Emit(s, event), cfg)
  {
    hide Confirms, ExpectedConfirmation, RequestBytes, Replay;
  }

  lemma HandleFrameKeeps(s: State, cfg: Settings, now: Instant, frame: Frames.Frame)
    requires Inv(s, cfg)
    ensures Inv(HandleFrame(s, cfg, now, frame), cfg)
  {
    hide ExpectedConfirmation, RequestBytes, Replay, Decode, Confirm;
    var decoded := Decode(cfg.others, frame);
    if Expects(s, frame) {
      var p := s.pending.value;
      match decoded {
        case Ok(r) =>
          if ConfirmationMatches(p.sessionId, r) {
            assert Confirms(cfg, s.arrivals[|s.replies|], r);
            ConfirmKeeps(s, cfg, now, r);
          } else {
            EmitKeeps(s, cfg, UnexpectedResponse(r));
          }
        case Err(e) =>
          DropIsHarmless(s);
          AnswerPendingKeeps(s, cfg, Err(e));
      }
    } else {
      match decoded {
        case Ok(r) =>
          if IsNotification(frame.command) {
            var id := TerminalSession(r);
            if id.Some? && id.value in s.sessions {
              FinishKeeps(s, cfg, id.value);
              EmitKeeps(s.(sessions := s.sessions - {id.value}, lifetimes := s.lifetimes + [Finish(id.value)]), cfg,
                        Notification(r));
            } else {
              EmitKeeps(s, cfg, Notification(r));
            }
          } else {
            EmitKeeps(s, cfg, UnexpectedResponse(r));
          }
        case Err(e) => EmitKeeps(s, cfg, ProtocolError(e));
      }
    }
  }

  lemma ExpireRequestKeeps(s: State, cfg: Settings, now: Instant)
    requires Inv(s, cfg)
    ensures Inv(ExpireRequest(s, now), cfg)
    ensures ExpireRequest(s, now).sessions == s.sessions
    ensures ExpireRequest(s, now).pending.Some? ==> ExpireRequest(s, now).pending.value.deadline > now
  {
    hide Confirms, ExpectedConfirmation, RequestBytes, Replay;
    if s.pending.Some? && s.pending.value.deadline <= now {
      DropIsHarmless(s);
      AnswerPendingKeeps(s, cfg, Err(RequestTimeout(s.pending.value.command)));
    }
  }

  lemma ExpireOneKeeps(s: State, cfg: Settings, now: Instant, id: SessionId)
    requires Inv(s, cfg) && id in s.sessions && s.sessions[id] <= now
    ensures Inv(s.(sessions := s.sessions - {id}, events := s.events + [SessionTimedOut(id)],
                   lifetimes := s.lifetimes + [Expire(id, now)]), cfg)
  {
    hide Confirms, ExpectedConfirmation, RequestBytes;
    ReplaySnoc(s.lifetimes, Expire(id, now));
  }

  function TimedOut(order: seq<SessionId>): (events: seq<Event>)
    ensures |events| == |order| && forall i :: 0 <= i < |order| ==> events[i] == SessionTimedOut(order[i])
  {
    if order == [] then [] else [SessionTimedOut(order[0])] + TimedOut(order[1..])
  }

  lemma EnumeratesTail(order: seq<SessionId>, ids: set<SessionId>)
    requires order != [] && Enumerates(order, ids)
    ensures Enumerates(order[1..], ids - {order[0]})
  {
    forall id
      ensures id in order[1..] <==> id in ids - {order[0]}
    {
      if id in order[1..] {
        var j :| 0 <= j < |order[1..]| && order[1..][j] == id;
        assert order[j + 1] == id;
      }
      if id in ids - {order[0]} {
        var j :| 0 <= j < |order| && order[j] == id;
        assert order[1..][j - 1] == id;
      }
    }
  }

  /** Expiry removes exactly the due sessions and reports each of them once. */
  lemma {:induction false} ExpireSessionsKeeps(s: State, cfg: Settings, now: Instant, order: seq<SessionId>)
    requires Inv(s, cfg) && Enumerates(order, Expired(s.sessions, now))
    ensures var after := ExpireSessions(s, now, order);
            && Inv(after, cfg)
            && after.sessions == (map id | id in s.sessions && s.sessions[id] > now :: s.sessions[id])
            && after.events == s.events + TimedOut(order)
            && after.pending == s.pending
    decreases |order|
  {
    hide Inv, Replay, Confirms;
    if order != [] {
      var id := order[0];
      assert id in Expired(s.sessions, now);
      ExpireOneKeeps(s, cfg, now, id);
      var next := s.(sessions := s.sessions - {id}, events := s.events + [SessionTimedOut(id)],
                     lifetimes := s.lifetimes + [Expire(id, now)]);
      EnumeratesTail(order, Expired(s.sessions, now));
      assert Expired(next.sessions, now) == Expired(s.sessions, now) - {id};
      ExpireSessionsKeeps(next, cfg, now, order[1..]);
      Associative(s.events, [SessionTimedOut(id)], TimedOut(order[1..]));
    } else {
      assert forall id :: id in s.sessions ==> id !in Expired(s.sessions, now);
    }
  }

  lemma SelectKeeps(s: State, cfg: Settings, turn: Turn)
    requires Inv(s, cfg)
    requires turn.input.Tick? ==> Enumerates(turn.input.order, Expired(s.sessions, turn.input.sessionNow))
    ensures Inv(Select(s, cfg, turn).state, cfg)
  {
    hide Inv, HandleFrame, ExpireRequest, ExpireSessions, Enqueue;
    match turn.input
    case Command(request) => EnqueueKeeps(s, cfg, request);
    case Incoming(now, frame) => HandleFrameKeeps(s, cfg, now, frame);
    case Malformed(e) => EmitKeeps(s, cfg, ProtocolError(e));
    case Tick(requestNow, sessionNow, order) =>
      ExpireRequestKeeps(s, cfg, requestNow);
      ExpireSessionsKeeps(ExpireRequest(s, requestNow), cfg, sessionNow, order);
    case Shutdown =>
    case HandlesDropped =>
    case StreamClosed(_) =>
  }

  lemma PassKeeps(s: State, cfg: Settings, turn: Turn)
    requires Inv(s, cfg) && Possible(s, cfg, turn)
    ensures Inv(Pass(s, cfg, turn).state, cfg)
    ensures Ready(s, cfg, turn).failure.None? ==>
              Ready(s, cfg, turn).state.pending.Some? || Ready(s, cfg, turn).state.queue == []
  {
    hide Inv, Select, Dispatch;
    if s.pending.None? {
      DispatchKeeps(s, cfg, turn.at, turn.writeOk);
    }
    var ready := Ready(s, cfg, turn);
    if ready.failure.None? {
      SelectKeeps(ready.state, cfg, turn);
    }
  }

  /** The invariant holds in every state the loop reaches, for every sequence of inputs. */
  lemma {:induction false} LoopKeeps(s: State, cfg: Settings, turns: seq<Turn>)
    requires Inv(s, cfg) && AllPossible(s, cfg, turns)
    ensures Inv(Loop(s, cfg, turns).state, cfg)
    decreases |turns|
  {
    hide Inv, Pass, Possible;
    if turns != [] {
      PassKeeps(s, cfg, turns[0]);
      if Pass(s, cfg, turns[0]).running {
        LoopKeeps(Pass(s, cfg, turns[0]).state, cfg, turns[1..]);
      }
    }
  }

  lemma InitialInv(cfg: Settings)
    ensures Inv(INITIAL, cfg)
  {
  }

  lemma LoopNothing(s: State, cfg: Settings)
    ensures Loop(s, cfg, []) == Progress(s, true, None) && AllPossible(s, cfg, [])
  {
  }

  lemma RunningHasNoReason(s: State, cfg: Settings, turn: Turn)
    ensures Pass(s, cfg, turn).running ==> Pass(s, cfg, turn).reason.None?
  {
    hide Dispatch, HandleFrame, ExpireSessions, ExpireRequest, Enqueue;
  }

  lemma {:induction false} LoopSnoc(s: State, cfg: Settings, turns: seq<Turn>, turn: Turn)
    requires Loop(s, cfg, turns).running
    ensures Loop(s, cfg, turns + [turn]) == Pass(Loop(s, cfg, turns).state, cfg, turn)
    ensures AllPossible(s, cfg, turns + [turn])
       <==> AllPossible(s, cfg, turns) && Possible(Loop(s, cfg, turns).state, cfg, turn)
    decreases |turns|
  {
    hide Pass, Possible;
    if turns == [] {
      assert turns + [turn] == [turn] && [turn][1..] == [];
      LoopNothing(Pass(s, cfg, turn).state, cfg);
      RunningHasNoReason(s, cfg, turn);
    } else {
      assert (turns + [turn])[0] == turns[0] && (turns + [turn])[1..] == turns[1..] + [turn];
      LoopSnoc(Pass(s, cfg, turns[0]).state, cfg, turns[1..], turn);
    }
  }

  /** Once the loop has ended, further turns change nothing. */
  lemma {:induction false} LoopEnds(s: State, cfg: Settings, turns: seq<Turn>, turn: Turn)
    requires !Loop(s, cfg, turns).running
    ensures Loop(s, cfg, turns + [turn]) == Loop(s, cfg, turns)
    ensures AllPossible(s, cfg, turns + [turn]) <==> AllPossible(s, cfg, turns)
    decreases |turns|
  {
    hide Pass, Possible;
    assert (turns + [turn])[0] == turns[0] && (turns + [turn])[1..] == turns[1..] + [turn];
    if Pass(s, cfg, turns[0]).running {
      LoopEnds(Pass(s, cfg, turns[0]).state, cfg, turns[1..], turn);
    }
  }

  // ----- Main results -----

  lemma {:induction false} FailQueueAnswersAll(s: State, cfg: Settings)
    requires Inv(s, cfg) && s.pending.None?
    ensures var after := FailQueue(s);
            Inv(after, cfg) && after.queue == [] && after.pending.None? && after.arrivals == s.arrivals
    decreases |s.queue|
  {
    hide Inv;
    if s.queue != [] {
      AnswerHeadKeeps(s, cfg, ConnectionClosed);
      FailQueueAnswersAll(Answer(s.(queue := s.queue[1..]), s.queue[0].ticket, Err(ConnectionClosed)), cfg);
    }
  }

  lemma {:induction false} DrainAnswersAll(s: State, cfg: Settings, late: seq<Request>)
    requires Inv(s, cfg) && s.queue == [] && s.pending.None?
    ensures var after := Drain(s, late);
            Inv(after, cfg) && after.queue == [] && after.pending.None? && after.arrivals == s.arrivals + late
    decreases |late|
  {
    hide Confirms, Replay, ExpectedConfirmation, RequestBytes;
    if late != [] {
      var next := Answer(s.(arrivals := s.arrivals + [late[0]]), |s.arrivals|, Err(ConnectionClosed));
      assert Inv(next, cfg);
      DrainAnswersAll(next, cfg, late[1..]);
      assert late == [late[0]] + late[1..];
    }
  }

  // ----- What was received -----

  /** The turns whose input the loop takes: all up to the one that ends it, or that is cut off by a
      failing dispatch. */
  function Taken(s: State, cfg: Settings, turns: seq<Turn>): (taken: seq<Turn>)
    ensures taken <= turns
    decreases |turns|
  {
    if turns == [] || Ready(s, cfg, turns[0]).failure.Some? then []
    else
      var next := Pass(s, cfg, turns[0]);
      [turns[0]] + if next.running then Taken(next.state, cfg, turns[1..]) else []
  }

  /** The requests among the inputs. */
  function Commands(turns: seq<Turn>): seq<Request> {
    if turns == [] then []
    else (if turns[0].input.Command? then [turns[0].input.request] else []) + Commands(turns[1..])
  }

  lemma {:induction false} DispatchKeepsArrivals(s: State, cfg: Settings, now: Instant, writeOk: bool)
    ensures Dispatch(s, cfg, now, writeOk).state.arrivals == s.arrivals
    decreases |s.queue|
  {
    hide Refusal;
    if s.queue != [] && Refusal(s.sessions, s.queue[0].request).Some? {
      DispatchKeepsArrivals(Answer(s.(queue := s.queue[1..]), s.queue[0].ticket,
                                   Err(Refusal(s.sessions, s.queue[0].request).value)), cfg, now, writeOk);
    }
  }

  lemma {:induction false} ExpiryKeepsArrivals(s: State, now: Instant, order: seq<SessionId>)
    ensures ExpireSessions(s, now, order).arrivals == s.arrivals
    decreases |order|
  {
    if order != [] {
      var id := order[0];
      ExpiryKeepsArrivals(s.(sessions := s.sessions - {id}, events := s.events + [SessionTimedOut(id)],
                             lifetimes := s.lifetimes + [Expire(id, now)]), now, order[1..]);
    }
  }

  lemma PassTakesCommands(s: State, cfg: Settings, turn: Turn)
    ensures Pass(s, cfg, turn).state.arrivals
         == s.arrivals + if Ready(s, cfg, turn).failure.None? then Commands([turn]) else []
    ensures turn.input.Command? && Ready(s, cfg, turn).failure.None? ==> Pass(s, cfg, turn).running
  {
    hide Dispatch, ExpireSessions, Decode;
    DispatchKeepsArrivals(s, cfg, turn.at, turn.writeOk);
    assert [turn][1..] == [];
    var ready := Ready(s, cfg, turn).state;
    if turn.input.Tick? {
      ExpiryKeepsArrivals(ExpireRequest(ready, turn.input.requestNow), turn.input.sessionNow, turn.input.order);
    }
  }

  /** The loop receives exactly the requests among the inputs it takes, in order; while it runs it has
      taken every input. */
  lemma {:induction false} LoopReceivesTheCommands(s: State, cfg: Settings, turns: seq<Turn>)
    ensures Loop(s, cfg, turns).state.arrivals == s.arrivals + Commands(Taken(s, cfg, turns))
    ensures Loop(s, cfg, turns).running ==> Taken(s, cfg, turns) == turns
    decreases |turns|
  {
    hide Pass, Ready;
    if turns != [] {
      PassTakesCommands(s, cfg, turns[0]);
      FailedDispatchEnds(s, cfg, turns[0]);
      var next := Pass(s, cfg, turns[0]);
      if next.running {
        LoopReceivesTheCommands(next.state, cfg, turns[1..]);
        CommandsOfCons(turns[0], Taken(next.state, cfg, turns[1..]));
        Associative(s.arrivals, Commands([turns[0]]), Commands(Taken(next.state, cfg, turns[1..])));
      }
    }
  }

  lemma FailedDispatchEnds(s: State, cfg: Settings, turn: Turn)
    ensures Ready(s, cfg, turn).failure.Some? ==> !Pass(s, cfg, turn).running
  {
    hide Dispatch, Select;
  }

  lemma CommandsOfCons(turn: Turn, turns: seq<Turn>)
    ensures Commands([turn] + turns) == Commands([turn]) + Commands(turns)
  {
    assert ([turn] + turns)[1..] == turns && [turn][1..] == [];
  }

  /** Conservation: after any exit, the requests the loop has taken and those drained from the channel
      have exactly one reply each, and the replies come in that order. */
  lemma EveryRequestIsAnsweredOnce(cfg: Settings, turns: seq<Turn>, late: seq<Request>)
    requires AllPossible(INITIAL, cfg, turns)
    ensures var end := Loop(INITIAL, cfg, turns);
            var stopped := Stop(end, late);
            && Inv(stopped, cfg)
            && stopped.arrivals == Commands(Taken(INITIAL, cfg, turns)) + late
            && (end.running ==> Taken(INITIAL, cfg, turns) == turns)
            && |stopped.replies| == |stopped.arrivals|
            && forall i :: 0 <= i < |stopped.replies| ==> stopped.replies[i].ticket == i
  {
    hide *;
    InitialInv(cfg);
    NothingReceivedYet();
    LoopReceivesTheCommands(INITIAL, cfg, turns);
    assert [] + Commands(Taken(INITIAL, cfg, turns)) == Commands(Taken(INITIAL, cfg, turns));
    LoopKeeps(INITIAL, cfg, turns);
    StopAnswersAll(Loop(INITIAL, cfg, turns), cfg, late);
  }

  lemma NothingReceivedYet()
    ensures INITIAL.arrivals == []
  {
  }

  lemma StopAnswersAll(p: Progress, cfg: Settings, late: seq<Request>)
    requires Inv(p.state, cfg)
    ensures var stopped := Stop(p, late);
            && Inv(stopped, cfg)
            && stopped.arrivals == p.state.arrivals + late
            && |stopped.replies| == |stopped.arrivals|
            && forall i :: 0 <= i < |stopped.replies| ==> stopped.replies[i].ticket == i
  {
    hide Inv;
    var s := p.state;
    if s.pending.Some? {
      AnswerPendingKeeps(s, cfg, Err(ConnectionClosed));
      ArrivalsKept(s, cfg);
    }
    FailQueueAnswersAll(
      if s.pending.Some? then Answer(s.(pending := None), s.pending.value.ticket, Err(ConnectionClosed)) else s, cfg);
    var failed := Drain(FailOutstanding(s), late);
    DrainAnswersAll(FailOutstanding(s), cfg, late);
    if p.reason.Some? {
      EmitKeeps(failed, cfg, Disconnected(p.reason.value));
    }
    ArrivalsKept(Stop(p, late), cfg);
  }

  lemma ArrivalsKept(s: State, cfg: Settings)
    requires Inv(s, cfg)
    ensures s.queue == [] && s.pending.None? ==> |s.replies| == |s.arrivals|
    ensures forall i :: 0 <= i < |s.replies| ==> s.replies[i].ticket == i
  {
  }

  /** Over whole runs: the lifetimes of one session ID never overlap, and the map holds exactly the
      sessions whose last lifetime is still open. */
  lemma SessionsNeverOverlap(cfg: Settings, turns: seq<Turn>, id: SessionId)
    requires AllPossible(INITIAL, cfg, turns)
    ensures var s := Loop(INITIAL, cfg, turns).state;
            var own := Of(s.lifetimes, id);
            && (forall i :: 0 <= i < |own| ==> (own[i].Accept? <==> i % 2 == 0))
            && (forall i :: 0 < i < |own| && own[i].Expire? ==> own[i - 1].Accept? && own[i - 1].deadline <= own[i].at)
            && (id in s.sessions <==> |own| % 2 == 1)
            && (s.pending.Some? && s.pending.value.sessionId == Some(id) ==> id !in s.sessions)
  {
    hide Loop, AllPossible;
    InitialInv(cfg);
    LoopKeeps(INITIAL, cfg, turns);
    LifetimesAlternate(Loop(INITIAL, cfg, turns).state.lifetimes, id);
  }

  /** Every frame the loop handles causes exactly one reply or exactly one event. One that is not awaited is
      reported: a notification as such, another response as unexpected, and what cannot be decoded as a
      protocol error. A confirmation for another session is unexpected and leaves the pending request and
      the sessions alone; a reply only goes to the pending request, and succeeds only with a matching
      confirmation. */
  lemma OneOutcomePerFrame(s: State, cfg: Settings, now: Instant, frame: Frames.Frame)
    ensures var after := HandleFrame(s, cfg, now, frame);
            && |after.replies| + |after.events| == |s.replies| + |s.events| + 1
            && s.replies <= after.replies && s.events <= after.events
            && (after.replies == s.replies ==> after.pending == s.pending)
            && (after.replies != s.replies ==>
                  && Expects(s, frame)
                  && after.pending.None?
                  && after.replies[|s.replies|].ticket == s.pending.value.ticket
                  && (after.replies[|s.replies|].outcome.Ok? ==>
                        && Decode(cfg.others, frame) == after.replies[|s.replies|].outcome
                        && ConfirmationMatches(s.pending.value.sessionId, after.replies[|s.replies|].outcome.value)))
            && (Expects(s, frame) && after.replies == s.replies ==> after == s.(events := after.events))
            && var decoded := Decode(cfg.others, frame);
               if Expects(s, frame) then
                 if decoded.Ok? && !ConfirmationMatches(s.pending.value.sessionId, decoded.value) then
                   after.events == s.events + [UnexpectedResponse(decoded.value)]
                 else after.events == s.events
               else
                 after.events == s.events + [if decoded.Err? then ProtocolError(decoded.error)
                                             else if IsNotification(frame.command) then Notification(decoded.value)
                                             else UnexpectedResponse(decoded.value)]
  {
    hide Decode, IsNotification, SessionWasAccepted, ResponseSession;
  }

  /** A tick is exact: nothing due survives it, nothing else is touched, and each expired session is
      reported once. */
  lemma TickIsExact(s: State, cfg: Settings, at: Instant, requestNow: Instant, sessionNow: Instant,
                    order: seq<SessionId>)
    requires Inv(s, cfg) && Enumerates(order, Expired(s.sessions, sessionNow))
    ensures var after := Select(s, cfg, Turn(at, true, Tick(requestNow, sessionNow, order))).state;
            && (after.pending.Some? ==> after.pending == s.pending && after.pending.value.deadline > requestNow)
            && (after.pending.None? && s.pending.Some? ==>
                  && s.pending.value.deadline <= requestNow
                  && after.replies
                     == s.replies + [Reply(s.pending.value.ticket, Err(RequestTimeout(s.pending.value.command)))])
            && (forall id :: id in after.sessions <==> id in s.sessions && s.sessions[id] > sessionNow)
            && (forall id :: id in after.sessions ==> after.sessions[id] == s.sessions[id])
            && after.events == s.events + TimedOut(order)
  {
    hide Inv;
    ExpireRequestKeeps(s, cfg, requestNow);
    var waited := ExpireRequest(s, requestNow);
    ExpireSessionsKeeps(waited, cfg, sessionNow, order);
    ExpiryKeepsReplies(waited, sessionNow, order);
  }

  lemma {:induction false} ExpiryKeepsReplies(s: State, now: Instant, order: seq<SessionId>)
    ensures ExpireSessions(s, now, order).replies == s.replies
    decreases |order|
  {
    if order != [] {
      var id := order[0];
      ExpiryKeepsReplies(s.(sessions := s.sessions - {id}, events := s.events + [SessionTimedOut(id)],
                            lifetimes := s.lifetimes + [Expire(id, now)]), now, order[1..]);
    }
  }

  function Of(lifetimes: seq<Lifetime>, id: SessionId): seq<Lifetime> {
    if lifetimes == [] then []
    else
      var n := |lifetimes| - 1;
      Of(lifetimes[..n], id) + if lifetimes[n].id == id then [lifetimes[n]] else []
  }

  /** Accept, then finish or expire, no expiry early; and what is open if the last one is not ended. */
  ghost predicate Alternates(own: seq<Lifetime>, id: SessionId, open: Option<Instant>) {
    && (forall i :: 0 <= i < |own| ==> (own[i].Accept? <==> i % 2 == 0))
    && (forall i :: 0 < i < |own| && own[i].Expire? ==> own[i - 1].Accept? && own[i - 1].deadline <= own[i].at)
    && (open.Some? <==> |own| % 2 == 1)
    && (open.Some? ==> own[|own| - 1] == Accept(id, open.value))
  }

  lemma AcceptAlternates(own: seq<Lifetime>, id: SessionId, deadline: Instant)
    requires Alternates(own, id, None)
    ensures Alternates(own + [Accept(id, deadline)], id, Some(deadline))
  {
  }

  lemma EndAlternates(own: seq<Lifetime>, id: SessionId, deadline: Instant, end: Lifetime)
    requires Alternates(own, id, Some(deadline)) && !end.Accept? && (end.Expire? ==> deadline <= end.at)
    ensures Alternates(own + [end], id, None)
  {
  }

  function Opened(live: map<SessionId, Instant>, id: SessionId): Option<Instant> {
    if id in live then Some(live[id]) else None
  }

  lemma {:induction false} OwnAlternate(lifetimes: seq<Lifetime>, id: SessionId)
    requires Replay(lifetimes).Some?
    ensures Alternates(Of(lifetimes, id), id, Opened(Replay(lifetimes).value, id))
  {
    if lifetimes != [] {
      var n := |lifetimes| - 1;
      OwnAlternate(lifetimes[..n], id);
      var own, live := Of(lifetimes[..n], id), Replay(lifetimes[..n]).value;
      hide Alternates;
      match lifetimes[n]
      case Accept(accepted, deadline) =>
        if accepted == id {
          AcceptAlternates(own, id, deadline);
        }
      case Finish(finished) =>
        if finished == id {
          EndAlternates(own, id, live[id], lifetimes[n]);
        }
      case Expire(expired, at) =>
        if expired == id {
          EndAlternates(own, id, live[id], lifetimes[n]);
        }
    }
  }

  /** Lifetimes of one ID never overlap: accept, then finish or expire, and no expiry comes early. */
  lemma LifetimesAlternate(lifetimes: seq<Lifetime>, id: SessionId)
    requires Replay(lifetimes).Some?
    ensures var own := Of(lifetimes, id);
            var live := Replay(lifetimes).value;
            && (forall i :: 0 <= i < |own| ==> (own[i].Accept? <==> i % 2 == 0))
            && (forall i :: 0 < i < |own| && own[i].Expire? ==> own[i - 1].Accept? && own[i - 1].deadline <= own[i].at)
            && (id in live <==> |own| % 2 == 1)
            && (id in live ==> own[|own| - 1] == Accept(id, live[id]))
  {
    hide Of, Replay;
    OwnAlternate(lifetimes, id);
  }

  ghost predicate WrittenFrom(writes: seq<Write>, arrivals: seq<Request>) {
    forall i :: 0 <= i < |writes| ==>
      writes[i].ticket < |arrivals| && RequestBytes(arrivals[writes[i].ticket]) == Ok(writes[i].envelope)
  }

  /** The frames of the requests whose tickets were written, in that order. */
  ghost function Requested(writes: seq<Write>, arrivals: seq<Request>): (frames: seq<Frames.Frame>)
    requires WrittenFrom(writes, arrivals)
    ensures |frames| == |writes|
    ensures forall i :: 0 <= i < |writes| ==>
              var request := arrivals[writes[i].ticket];
              && request.payload.Ok?
              && frames[i] == Frames.Frame(Frames.KLF_PROTOCOL_ID, request.command, request.payload.value)
              && Frames.Encoding(frames[i]) == Ok(writes[i].envelope)
  {
    if writes == [] then []
    else
      var request := arrivals[writes[0].ticket];
      assert RequestBytes(request) == Ok(writes[0].envelope);
      [Frames.Frame(Frames.KLF_PROTOCOL_ID, request.command, request.payload.value)] + Requested(writes[1..], arrivals)
  }

  function WrittenEnvelopes(writes: seq<Write>): (envelopes: seq<seq<byte>>)
    ensures |envelopes| == |writes| && forall i :: 0 <= i < |writes| ==> envelopes[i] == writes[i].envelope
  {
    if writes == [] then [] else [writes[0].envelope] + WrittenEnvelopes(writes[1..])
  }

  /** The bytes the actor has written. */
  function WireBytes(writes: seq<Write>): seq<byte> {
    Slip.EncodedAll(WrittenEnvelopes(writes))
  }

  /** On the wire: whatever a run writes, a fresh decoder reads back as exactly the written
      requests, in order. */
  lemma WireCarriesTheRequests(s: State, cfg: Settings, maximum: nat)
    requires Inv(s, cfg) && s.writes != [] && maximum >= 257
    ensures WrittenFrom(s.writes, s.arrivals)
    ensures Wire.ClassifyAll(Slip.Batch(WireBytes(s.writes), maximum)) == Wire.Received(Requested(s.writes, s.arrivals))
  {
    hide Replay, Confirms, ExpectedConfirmation, RequestBytes, Slip.Batch, Slip.EncodedAll, Wire.ClassifyAll,
         Frames.Encoding;
    var frames := Requested(s.writes, s.arrivals);
    forall f | f in frames
      ensures Frames.Encoding(f).Ok? && |f.payload| + Frames.FRAME_OVERHEAD <= maximum
    {
      var i :| 0 <= i < |frames| && frames[i] == f;
      Wire.EveryEncodableFrameFits(f);
    }
    assert Wire.Envelopes(frames) == WrittenEnvelopes(s.writes);
    Wire.NoiseCostsAtMostOneResult([], maximum, frames);
    assert [] + WireBytes(s.writes) == WireBytes(s.writes);
    NothingFromNothing(maximum);
  }

  lemma NothingFromNothing(maximum: nat)
    ensures Wire.ClassifyAll(Slip.Batch([], maximum)) == []
    ensures Wire.ClassifyAll(Slip.Leftover(Slip.StateAfter([], maximum))) == []
  {
  }
}
