/** The actor object of src/klf200/connection.rs: the loop and its helpers, updating the request
    queue, the pending request and the session map in place. */
module ConnectionActor {
  import opened Base
  import opened SessionIds
  import opened Protocol
  import opened Actor
  import Frames

  function ExpireOne(s: State, now: Instant, id: SessionId): State {
    s.(sessions := s.sessions - {id}, events := s.events + [SessionTimedOut(id)],
       lifetimes := s.lifetimes + [Expire(id, now)])
  }

  lemma {:induction false} ExpireSnoc(s: State, now: Instant, order: seq<SessionId>, id: SessionId)
    ensures Actor.ExpireSessions(s, now, order + [id]) == ExpireOne(Actor.ExpireSessions(s, now, order), now, id)
    decreases |order|
  {
    if order == [] {
      assert [] + [id] == [id];
      assert [id][1..] == order;
    } else {
      assert (order + [id])[0] == order[0] && (order + [id])[1..] == order[1..] + [id];
      var first := order[0];
      ExpireSnoc(s.(sessions := s.sessions - {first}, events := s.events + [SessionTimedOut(first)],
                    lifetimes := s.lifetimes + [Expire(first, now)]), now, order[1..], id);
    }
  }

  lemma DispatchNothing(cfg: Settings, now: Instant, writeOk: bool)
    ensures forall s: State :: s.queue == [] ==> Dispatch(s, cfg, now, writeOk) == Dispatched(s, None)
  {
  }

  lemma DispatchHead(s: State, cfg: Settings, now: Instant, writeOk: bool)
    requires s.queue != []
    ensures var head := s.queue[0];
            var rest := s.(queue := s.queue[1..]);
            Dispatch(s, cfg, now, writeOk)
              == match Refusal(s.sessions, head.request)
                 case Some(e) => Dispatch(Answer(rest, head.ticket, Err(e)), cfg, now, writeOk)
                 case None =>
                   if !writeOk then Dispatched(Answer(rest, head.ticket, Err(ConnectionClosed)), Some(Io))
                   else Dispatched(Written(rest, cfg, now, head), None)
  {
    hide Refusal, Written;
  }

  class Connection {
    const cfg: Settings
    var requests: seq<Queued>
    var pending: Option<Pending>
    var sessions: map<SessionId, Instant>
    // What has passed through the channels and the socket.
    var arrivals: seq<Request>
    var writes: seq<Write>
    var replies: seq<Reply>
    var events: seq<Event>
    ghost var lifetimes: seq<Lifetime>

    ghost function Model(): State
      reads this
    {
      State(requests, pending, sessions, arrivals, writes, replies, events, lifetimes)
    }

    ghost predicate Valid()
      reads this
    {
      Inv(Model(), cfg)
    }

    constructor (cfg: Settings)
      ensures Valid() && this.cfg == cfg && Model() == Actor.INITIAL
    {
      this.cfg := cfg;
      requests, pending, sessions := [], None, map[];
      arrivals, writes, replies, events, lifetimes := [], [], [], [], [];
      new;
      InitialInv(cfg);
    }

    method Receive(request: Request)
      requires Valid()
      modifies this
      ensures Valid() && Model() == Enqueue(old(Model()), request)
    {
      EnqueueKeeps(Model(), cfg, request);
      requests := requests + [Queued(|arrivals|, request)];
      arrivals := arrivals + [request];
    }

    method Send(ticket: nat, outcome: Result<Response, KlfError>)
      modifies this`replies
      ensures Model() == Answer(old(Model()), ticket, outcome)
    {
      replies := replies + [Reply(ticket, outcome)];
    }

    method DispatchNext(now: Instant, writeOk: bool) returns (failure: Option<KlfError>)
      requires Valid() && pending.None?
      modifies this
      ensures Valid()
      ensures Dispatched(Model(), failure) == Dispatch(old(Model()), cfg, now, writeOk)
      ensures failure.None? ==> pending.Some? || requests == []
    {
      ghost var start := Model();
      DispatchKeeps(start, cfg, now, writeOk);
      DispatchNothing(cfg, now, writeOk);
      hide Inv, Refusal, Written, Dispatch;
      while requests != []
        invariant pending.None?
        invariant Dispatch(Model(), cfg, now, writeOk) == Dispatch(start, cfg, now, writeOk)
        decreases |requests|
      {
        DispatchHead(Model(), cfg, now, writeOk);
        var queued := requests[0];
        requests := requests[1..];
        var refusal := Refuse(queued.request);
        if refusal.Some? {
          Send(queued.ticket, Err(refusal.value));
          continue;
        }
        if !writeOk {
          Send(queued.ticket, Err(ConnectionClosed));
          return Some(Io);
        }
        WriteRequest(now, queued);
        return None;
      }
      return None;
    }

    /** The three checks before a request is written. */
    method Refuse(request: Request) returns (error: Option<KlfError>)
      ensures error == Refusal(sessions, request)
    {
      if ExpectedConfirmation(request.command).None? {
        return Some(MissingConfirmation(request.command));
      }
      if request.sessionId.Some? && request.sessionId.value in sessions {
        return Some(SessionIdInUse(request.sessionId.value));
      }
      var frame := RequestBytes(request);
      return if frame.Err? then Some(frame.error) else None;
    }

    method WriteRequest(now: Instant, queued: Queued)
      requires Refusal(sessions, queued.request).None?
      modifies this
      ensures Model() == Written(old(Model()), cfg, now, queued)
    {
      hide ExpectedConfirmation, RequestBytes;
      var command := queued.request.command;
      writes := writes + [Write(queued.ticket, RequestBytes(queued.request).value)];
      pending := Some(Pending(queued.ticket, command, ExpectedConfirmation(command).value,
                              queued.request.sessionId, now + cfg.requestTimeout));
    }

    /** The answer to the pending request has come: settle its session, then reply. */
    method Settle(now: Instant, decoded: Result<Response, KlfError>)
      requires pending.Some?
      modifies this
      ensures Model() == match decoded
                         case Ok(r) => Confirm(old(Model()), cfg, now, old(pending).value, r)
                         case Err(e) =>
                           Answer(DropSession(old(Model()).(pending := None), old(pending).value.sessionId),
                                  old(pending).value.ticket, Err(e))
    {
      hide SessionWasAccepted;
      var request := pending.value;
      pending := None;
      if request.sessionId.Some? {
        var id := request.sessionId.value;
        if decoded.Ok? && SessionWasAccepted(decoded.value) {
          sessions := sessions[id := now + cfg.sessionTimeout];
          lifetimes := lifetimes + [Accept(id, now + cfg.sessionTimeout)];
        } else {
          sessions := sessions - {id};
        }
      }
      Send(request.ticket, decoded);
    }

    method PublishNotification(response: Response)
      modifies this
      ensures Model() == Notify(old(Model()), response)
    {
      hide TerminalSession;
      var id := TerminalSession(response);
      if id.Some? {
        if id.value in sessions {
          lifetimes := lifetimes + [Finish(id.value)];
        }
        assert id.value !in sessions ==> sessions - {id.value} == sessions;
        sessions := sessions - {id.value};
      }
      events := events + [Notification(response)];
    }

    method HandleFrame(now: Instant, frame: Frames.Frame)
      requires Valid()
      modifies this
      ensures Valid() && Model() == Actor.HandleFrame(old(Model()), cfg, now, frame)
    {
      HandleFrameKeeps(Model(), cfg, now, frame);
      hide Inv, Decode, Confirm, Notify, ConfirmationMatches, IsNotification;
      var decoded := Decode(cfg.others, frame);
      if pending.Some? && pending.value.expected == frame.command {
        if decoded.Ok? && !ConfirmationMatches(pending.value.sessionId, decoded.value) {
          events := events + [UnexpectedResponse(decoded.value)];
        } else {
          Settle(now, decoded);
        }
      } else if decoded.Err? {
        events := events + [ProtocolError(decoded.error)];
      } else if IsNotification(frame.command) {
        PublishNotification(decoded.value);
      } else {
        events := events + [UnexpectedResponse(decoded.value)];
      }
    }

    method ExpireRequest(now: Instant)
      requires Valid()
      modifies this
      ensures Valid() && Model() == Actor.ExpireRequest(old(Model()), now)
    {
      ExpireRequestKeeps(Model(), cfg, now);
      hide Inv;
      if pending.Some? && pending.value.deadline <= now {
        var request := pending.value;
        pending := None;
        if request.sessionId.Some? {
          sessions := sessions - {request.sessionId.value};
        }
        Send(request.ticket, Err(RequestTimeout(request.command)));
      }
    }

    method ExpireSessions(now: Instant) returns (ghost order: seq<SessionId>)
      requires Valid()
      modifies this
      ensures Enumerates(order, Expired(old(sessions), now))
      ensures Valid() && Model() == Actor.ExpireSessions(old(Model()), now, order)
    {
      ghost var start := Model();
      var expired := Expired(sessions, now);
      ghost var due := expired;
      order := [];
      while expired != {}
        invariant expired <= due
        invariant Enumerates(order, due - expired)
        invariant Model() == Actor.ExpireSessions(start, now, order)
        decreases |expired|
      {
        var id :| id in expired;
        ExpireSnoc(start, now, order, id);
        expired := expired - {id};
        order := order + [id];
        sessions := sessions - {id};
        events := events + [SessionTimedOut(id)];
        lifetimes := lifetimes + [Expire(id, now)];
      }
      assert due - expired == due;
      ExpireSessionsKeeps(start, cfg, now, order);
    }

    method FailOutstanding()
      requires Valid()
      modifies this
      ensures Valid() && Model() == Actor.FailOutstanding(old(Model()))
      ensures pending.None? && requests == [] && arrivals == old(arrivals)
    {
      ghost var start := Model();
      if pending.Some? {
        AnswerPendingKeeps(start, cfg, Err(ConnectionClosed));
        var request := pending.value;
        pending := None;
        Send(request.ticket, Err(ConnectionClosed));
      }
      FailQueueAnswersAll(Model(), cfg);
      hide Inv;
      while requests != []
        invariant pending.None?
        invariant FailQueue(Model()) == Actor.FailOutstanding(start)
        decreases |requests|
      {
        var request := requests[0];
        requests := requests[1..];
        Send(request.ticket, Err(ConnectionClosed));
      }
    }

    /** The requests left in the command channel after the loop. */
    method DrainCommands(late: seq<Request>)
      requires Valid() && pending.None? && requests == []
      modifies this
      ensures Valid() && Model() == Drain(old(Model()), late)
      ensures pending.None? && requests == []
    {
      ghost var start := Model();
      DrainAnswersAll(start, cfg, late);
      hide Inv;
      for i := 0 to |late|
        invariant Drain(Model(), late[i..]) == Drain(start, late)
      {
        assert late[i..][0] == late[i] && late[i..][1..] == late[i + 1..];
        arrivals := arrivals + [late[i]];
        Send(|arrivals| - 1, Err(ConnectionClosed));
      }
      assert late[|late|..] == [];
    }

    /** One input of the select; tells whether the loop goes on and, if not, with what reason. */
    method SelectInput(turn: Turn) returns (running: bool, reason: Option<KlfError>, ghost played: Turn)
      requires Valid()
      modifies this
      ensures Valid()
      ensures SameTurn(turn, played)
      ensures played.input.Tick? ==> Enumerates(played.input.order, Expired(old(sessions), played.input.sessionNow))
      ensures Progress(Model(), running, reason) == Select(old(Model()), cfg, played)
    {
      hide Inv;
      running, reason, played := true, None, turn;
      match turn.input {
        case Command(request) => Receive(request);
        case Incoming(now, frame) => HandleFrame(now, frame);
        case Malformed(e) =>
          EmitKeeps(Model(), cfg, ProtocolError(e));
          events := events + [ProtocolError(e)];
        case Tick(requestNow, sessionNow, _) =>
          ExpireRequestKeeps(Model(), cfg, requestNow);
          ExpireRequest(requestNow);
          ghost var order := ExpireSessions(sessionNow);
          played := turn.(input := Tick(requestNow, sessionNow, order));
        case Shutdown => running := false;
        case HandlesDropped => running := false;
        case StreamClosed(e) => running, reason := false, Some(e);
      }
    }

    /** One pass of the loop. */
    method PlayTurn(turn: Turn) returns (running: bool, reason: Option<KlfError>, ghost played: Turn)
      requires Valid()
      modifies this
      ensures Valid()
      ensures SameTurn(turn, played) && Possible(old(Model()), cfg, played)
      ensures Progress(Model(), running, reason) == Pass(old(Model()), cfg, played)
    {
      hide Inv, Select, Dispatch;
      played := turn;
      if pending.None? {
        reason := DispatchNext(turn.at, turn.writeOk);
        if reason.Some? {
          return false, reason, played;
        }
      }
      running, reason, played := SelectInput(turn);
    }

    /** The whole actor, stopped after any number of turns: it plays the turns it is given, choosing
        only the order in which a tick reports expired sessions, and leaves what the loop and its
        epilogue leave in the model. */
    method RunActor(turns: seq<Turn>, late: seq<Request>) returns (ghost played: seq<Turn>)
      requires Valid()
      modifies this
      ensures Valid()
      ensures |played| <= |turns| && forall i :: 0 <= i < |played| ==> SameTurn(turns[i], played[i])
      ensures AllPossible(old(Model()), cfg, played)
      ensures |played| < |turns| ==> !Loop(old(Model()), cfg, played).running
      ensures Model() == Stop(Loop(old(Model()), cfg, played), late)
      ensures |replies| == |arrivals| && forall i :: 0 <= i < |replies| ==> replies[i].ticket == i
    {
      hide Inv, Loop, AllPossible, Pass, Possible;
      ghost var start := Model();
      var reason: Option<KlfError> := None;
      var running := true;
      var next := 0;
      played := [];
      LoopNothing(start, cfg);
      while running && next < |turns|
        invariant Valid()
        invariant next == |played| <= |turns| && forall i :: 0 <= i < |played| ==> SameTurn(turns[i], played[i])
        invariant AllPossible(start, cfg, played)
        invariant Progress(Model(), running, reason) == Loop(start, cfg, played)
        decreases |turns| - next
      {
        ghost var playing: Turn;
        running, reason, playing := PlayTurn(turns[next]);
        LoopSnoc(start, cfg, played, playing);
        played, next := played + [playing], next + 1;
      }
      ghost var done := Progress(Model(), running, reason);
      FailOutstanding();
      DrainCommands(late);
      if reason.Some? {
        EmitKeeps(Model(), cfg, Disconnected(reason.value));
        events := events + [Disconnected(reason.value)];
      }
      assert Model() == Stop(done, late);
      ArrivalsKept(Model(), cfg);
    }
  }

  /** The same turn, up to the order in which a tick reports the expired sessions. */
  predicate SameTurn(given: Turn, played: Turn) {
    || played == given
    || (given.input.Tick? && played.input.Tick? && played == given.(input := given.input.(order := played.input.order)))
  }
}
