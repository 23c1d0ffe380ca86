/** What the connection actor reports of the frames it receives, and what the bridge makes of it
    (src/klf200/connection.rs, src/bridge.rs). */
module Reports {
  import opened Base
  import opened Protocol
  import opened Actor
  import opened Snapshots
  import Bridge
  import Frames
  import Nodes
  import Views

  // ----- The notifications of a run -----

  /** The responses in the notifications among the events. */
  function Notified(events: seq<Event>): seq<Response> {
    if events == [] then []
    else
      var n := |events| - 1;
      Notified(events[..n]) + if events[n].Notification? then [events[n].response] else []
  }

  lemma {:induction false} NotifiedConcat(a: seq<Event>, b: seq<Event>)
    ensures Notified(a + b) == Notified(a) + Notified(b)
    decreases |b|
  {
    if b == [] {
      assert a + b == a;
    } else {
      var n := |b| - 1;
      assert (a + b)[..|a| + n] == a + b[..n] && (a + b)[|a| + n] == b[n];
      NotifiedConcat(a, b[..n]);
    }
  }

  /** What the frame a turn takes in notifies of, if anything. */
  function Notice(cfg: Settings, turn: Turn): seq<Response> {
    if turn.input.Incoming? && IsNotification(turn.input.frame.command)
       && Decode(cfg.others, turn.input.frame).Ok?
    then [Decode(cfg.others, turn.input.frame).value]
    else []
  }

  /** The decoded notification frames that the turns take in. */
  function Notices(cfg: Settings, turns: seq<Turn>): seq<Response> {
    if turns == [] then [] else Notice(cfg, turns[0]) + Notices(cfg, turns[1..])
  }

  /** Whatever tells about nodes, their status or groups, or ends a session, is a notice. */
  lemma UpdatesAreNoticed(cfg: Settings, turn: Turn)
    requires turn.input.Incoming? && Decode(cfg.others, turn.input.frame).Ok?
    requires var r := Decode(cfg.others, turn.input.frame).value; IsUpdate(r) || TerminalSession(r).Some?
    ensures Notice(cfg, turn) == [Decode(cfg.others, turn.input.frame).value]
  {
    hide Decode, IsNotification, IsUpdate;
    UpdatesComeAsNotifications(cfg.others, turn.input.frame);
  }

  lemma NotifiedOne(e: Event)
    ensures Notified([e]) == if e.Notification? then [e.response] else []
  {
    assert [e][..0] == [];
  }

  lemma {:induction false} NothingInExpiry(order: seq<SessionIds.SessionId>)
    ensures Notified(TimedOut(order)) == []
    decreases |order|
  {
    if order != [] {
      NothingInExpiry(order[1..]);
      NotifiedConcat([SessionTimedOut(order[0])], TimedOut(order[1..]));
      NotifiedOne(SessionTimedOut(order[0]));
    }
  }

  lemma PendingAwaitsNoNotification(s: State, cfg: Settings, frame: Frames.Frame)
    requires Inv(s, cfg) && IsNotification(frame.command)
    ensures !Expects(s, frame)
  {
    hide ExpectedConfirmation, IsNotification, Confirms, Replay, RequestBytes;
    if Expects(s, frame) {
      ConfirmationsAreDistinct(s.pending.value.command, s.pending.value.command);
    }
  }

  lemma FrameNotifies(s: State, cfg: Settings, now: Instant, turn: Turn)
    requires Inv(s, cfg) && turn.input.Incoming?
    ensures Notified(HandleFrame(s, cfg, now, turn.input.frame).events) == Notified(s.events) + Notice(cfg, turn)
  {
    hide Inv, HandleFrame, Decode, IsNotification, Notified, ConfirmationMatches;
    var frame := turn.input.frame;
    OneOutcomePerFrame(s, cfg, now, frame);
    if IsNotification(frame.command) {
      PendingAwaitsNoNotification(s, cfg, frame);
    }
    var after := HandleFrame(s, cfg, now, frame).events;
    if after != s.events {
      var e := after[|s.events|];
      assert after == s.events + [e];
      NotifiedConcat(s.events, [e]);
      NotifiedOne(e);
    }
  }

  /** What a turn that goes on to its input reports: a malformed frame as a protocol error, each session that
      a tick ends as timed out, and nothing of requests and of being told to end. */
  lemma TurnsAreReported(s: State, cfg: Settings, turn: Turn)
    requires Inv(s, cfg) && Possible(s, cfg, turn) && Ready(s, cfg, turn).failure.None?
    ensures var after := Pass(s, cfg, turn).state;
            match turn.input
            case Incoming(now, frame) => after.events == HandleFrame(Ready(s, cfg, turn).state, cfg, now, frame).events
            case Malformed(e) => after.events == s.events + [ProtocolError(e)]
            case Tick(_, _, order) => after.events == s.events + TimedOut(order)
            case _ => after.events == s.events
  {
    hide Inv, Dispatch, HandleFrame, ExpireSessions, ExpireRequest, Expired;
    if s.pending.None? {
      DispatchKeeps(s, cfg, turn.at, turn.writeOk);
    }
    var ready := Ready(s, cfg, turn).state;
    if turn.input.Tick? {
      ExpireRequestKeeps(ready, cfg, turn.input.requestNow);
      ExpireSessionsKeeps(ExpireRequest(ready, turn.input.requestNow), cfg, turn.input.sessionNow, turn.input.order);
      TimersReportExpiry(ready, turn.input.requestNow);
    }
  }

  lemma PassNotifies(s: State, cfg: Settings, turn: Turn)
    requires Inv(s, cfg) && Possible(s, cfg, turn)
    ensures Notified(Pass(s, cfg, turn).state.events)
         == Notified(s.events) + if Ready(s, cfg, turn).failure.None? then Notice(cfg, turn) else []
  {
    hide Inv, Dispatch, HandleFrame, Select, Notified, Notice, Possible;
    if s.pending.None? {
      DispatchKeeps(s, cfg, turn.at, turn.writeOk);
    }
    var ready := Ready(s, cfg, turn).state;
    assert ready.events == s.events;
    NothingToNotice(cfg, turn);
    if Ready(s, cfg, turn).failure.None? {
      TurnsAreReported(s, cfg, turn);
      match turn.input
      case Incoming(now, frame) => FrameNotifies(ready, cfg, now, turn);
      case Malformed(e) =>
        NotifiedConcat(s.events, [ProtocolError(e)]);
        NotifiedOne(ProtocolError(e));
      case Tick(_, _, order) =>
        NotifiedConcat(s.events, TimedOut(order));
        NothingInExpiry(order);
      case _ =>
    }
  }

  lemma NothingToNotice(cfg: Settings, turn: Turn)
    ensures !turn.input.Incoming? ==> Notice(cfg, turn) == []
  {
  }

  lemma TimersReportExpiry(s: State, now: Instant)
    ensures ExpireRequest(s, now).events == s.events
  {
  }

  lemma NoticesOfCons(cfg: Settings, turn: Turn, turns: seq<Turn>)
    ensures Notices(cfg, [turn] + turns) == Notice(cfg, turn) + Notices(cfg, turns)
    ensures Notices(cfg, []) == []
  {
    assert ([turn] + turns)[1..] == turns;
  }

  lemma {:induction false} LoopNotifies(s: State, cfg: Settings, turns: seq<Turn>)
    requires Inv(s, cfg) && AllPossible(s, cfg, turns)
    ensures Notified(Loop(s, cfg, turns).state.events) == Notified(s.events) + Notices(cfg, Taken(s, cfg, turns))
    decreases |turns|
  {
    hide Inv, Pass, Ready, Possible, Notified, Notices, Notice;
    if turns == [] {
      NoNotices(cfg);
    } else {
      PassNotifies(s, cfg, turns[0]);
      PassKeeps(s, cfg, turns[0]);
      FailedDispatchEnds(s, cfg, turns[0]);
      NoNotices(cfg);
      var next := Pass(s, cfg, turns[0]);
      if next.running {
        LoopNotifies(next.state, cfg, turns[1..]);
        NoticesOfCons(cfg, turns[0], Taken(next.state, cfg, turns[1..]));
        Associative(Notified(s.events), Notice(cfg, turns[0]), Notices(cfg, Taken(next.state, cfg, turns[1..])));
      } else {
        NoticesOfCons(cfg, turns[0], []);
        assert [turns[0]] + [] == [turns[0]];
      }
    }
  }

  lemma NoNotices(cfg: Settings)
    ensures Notices(cfg, []) == [] && Notified([]) == []
  {
  }

  /** Over whole runs, whatever ends them: the notifications reported are exactly the decodings of the
      notification frames taken in, in order. None is lost and none is taken for a confirmation. */
  lemma EveryNotificationIsReported(cfg: Settings, turns: seq<Turn>, late: seq<Request>)
    requires AllPossible(INITIAL, cfg, turns)
    ensures var end := Loop(INITIAL, cfg, turns);
            && Notified(end.state.events) == Notices(cfg, Taken(INITIAL, cfg, turns))
            && Notified(Stop(end, late).events) == Notices(cfg, Taken(INITIAL, cfg, turns))
  {
    hide Loop, AllPossible, Notified, Notices, Taken, Stop;
    InitialInv(cfg);
    NothingReportedYet();
    NoNotices(cfg);
    LoopNotifies(INITIAL, cfg, turns);
    var end := Loop(INITIAL, cfg, turns);
    StoppingReports(end, late);
    if end.reason.Some? {
      NotifiedConcat(end.state.events, [Disconnected(end.reason.value)]);
      NotifiedOne(Disconnected(end.reason.value));
    } else {
      assert end.state.events + [] == end.state.events;
    }
  }

  lemma NothingReportedYet()
    ensures INITIAL.events == []
  {
  }

  // ----- How a run ends -----

  lemma {:induction false} FailingReportsNothing(s: State)
    ensures FailQueue(s).events == s.events
    decreases |s.queue|
  {
    if s.queue != [] {
      FailingReportsNothing(Answer(s.(queue := s.queue[1..]), s.queue[0].ticket, Err(ConnectionClosed)));
    }
  }

  lemma {:induction false} DrainingReportsNothing(s: State, late: seq<Request>)
    ensures Drain(s, late).events == s.events
    decreases |late|
  {
    if late != [] {
      DrainingReportsNothing(Answer(s.(arrivals := s.arrivals + [late[0]]), |s.arrivals|, Err(ConnectionClosed)),
                             late[1..]);
    }
  }

  lemma StoppingReports(p: Progress, late: seq<Request>)
    ensures Stop(p, late).events == p.state.events + if p.reason.Some? then [Disconnected(p.reason.value)] else []
  {
    hide FailQueue, Drain;
    var s := p.state;
    FailingReportsNothing(
      if s.pending.Some? then Answer(s.(pending := None), s.pending.value.ticket, Err(ConnectionClosed)) else s);
    DrainingReportsNothing(FailOutstanding(s), late);
  }

  lemma {:induction false} DispatchFailsOnWriting(s: State, cfg: Settings, now: Instant, writeOk: bool)
    ensures var done := Dispatch(s, cfg, now, writeOk);
            && done.state.events == s.events
            && (done.failure.Some? ==> done.failure == Some(Io) && !writeOk)
    decreases |s.queue|
  {
    hide Refusal;
    if s.queue != [] && Refusal(s.sessions, s.queue[0].request).Some? {
      DispatchFailsOnWriting(Answer(s.(queue := s.queue[1..]), s.queue[0].ticket,
                                    Err(Refusal(s.sessions, s.queue[0].request).value)), cfg, now, writeOk);
    }
  }

  ghost predicate NoneDisconnected(events: seq<Event>) {
    forall e :: e in events ==> !e.Disconnected?
  }

  lemma {:induction false} ExpiryReportsNoEnd(s: State, now: Instant, order: seq<SessionIds.SessionId>)
    requires NoneDisconnected(s.events)
    ensures NoneDisconnected(ExpireSessions(s, now, order).events)
    decreases |order|
  {
    if order != [] {
      var id := order[0];
      ExpiryReportsNoEnd(s.(sessions := s.sessions - {id}, events := s.events + [SessionTimedOut(id)],
                            lifetimes := s.lifetimes + [Expire(id, now)]), now, order[1..]);
    }
  }

  /** Why the loop does not go on after a turn; nothing if it was told to end or can go on. */
  function Reason(s: State, cfg: Settings, turn: Turn): Option<KlfError> {
    if Ready(s, cfg, turn).failure.Some? then Some(Io)
    else if turn.input.StreamClosed? then Some(turn.input.reason)
    else None
  }

  lemma PassReportsNoEnd(s: State, cfg: Settings, turn: Turn)
    requires NoneDisconnected(s.events)
    ensures var p := Pass(s, cfg, turn);
            && NoneDisconnected(p.state.events)
            && p.reason == Reason(s, cfg, turn)
            && (p.running <==> p.reason.None? && !turn.input.Shutdown? && !turn.input.HandlesDropped?)
            && (Ready(s, cfg, turn).failure.Some? ==> !turn.writeOk)
  {
    hide Dispatch, HandleFrame, ExpireSessions, ExpireRequest, Decode, IsNotification;
    DispatchFailsOnWriting(s, cfg, turn.at, turn.writeOk);
    var ready := Ready(s, cfg, turn).state;
    match turn.input
    case Incoming(now, frame) => OneOutcomePerFrame(ready, cfg, now, frame);
    case Tick(requestNow, sessionNow, order) =>
      TimersReportExpiry(ready, requestNow);
      ExpiryReportsNoEnd(ExpireRequest(ready, requestNow), sessionNow, order);
    case _ =>
  }

  /** The last turn of a run that has ended, and the run before it. */
  lemma {:induction false} LastTurn(s: State, cfg: Settings, turns: seq<Turn>) returns (n: nat)
    requires NoneDisconnected(s.events)
    ensures NoneDisconnected(Loop(s, cfg, turns).state.events)
    ensures Loop(s, cfg, turns).running ==> Loop(s, cfg, turns).reason.None?
    ensures !Loop(s, cfg, turns).running ==>
              && n < |turns| && Loop(s, cfg, turns[..n]).running
              && Loop(s, cfg, turns) == Pass(Loop(s, cfg, turns[..n]).state, cfg, turns[n])
    decreases |turns|
  {
    hide Pass, NoneDisconnected;
    n := 0;
    if turns != [] {
      PassReportsNoEnd(s, cfg, turns[0]);
      var next := Pass(s, cfg, turns[0]);
      if next.running {
        var rest := LastTurn(next.state, cfg, turns[1..]);
        n := rest + 1;
        if !Loop(s, cfg, turns).running {
          assert turns[..n][1..] == turns[1..][..rest] && turns[..n][0] == turns[0];
        }
      } else {
        LoopNothing(s, cfg);
        assert turns[..0] == [];
      }
    }
  }

  /** A run reports that it was disconnected once, as its last event and with the reason, if its last turn
      found the stream closed or could not write; if it was told to end, it does not report so. */
  lemma DisconnectionIsReportedLast(cfg: Settings, turns: seq<Turn>, late: seq<Request>) returns (n: nat)
    requires !Loop(INITIAL, cfg, turns).running
    ensures n < |turns| && Loop(INITIAL, cfg, turns[..n]).running
    ensures var last := Loop(INITIAL, cfg, turns[..n]).state;
            var events := Stop(Loop(INITIAL, cfg, turns), late).events;
            match Reason(last, cfg, turns[n])
            case Some(reason) =>
              |events| > 0 && events[|events| - 1] == Disconnected(reason) && NoneDisconnected(events[..|events| - 1])
            case None => NoneDisconnected(events) && (turns[n].input.Shutdown? || turns[n].input.HandlesDropped?)
  {
    hide Loop, Pass, Reason, Stop;
    NothingReportedYet();
    n := LastTurn(INITIAL, cfg, turns);
    var none := LastTurn(INITIAL, cfg, turns[..n]);
    PassReportsNoEnd(Loop(INITIAL, cfg, turns[..n]).state, cfg, turns[n]);
    var end := Loop(INITIAL, cfg, turns);
    StoppingReports(end, late);
    if end.reason.Some? {
      assert Stop(end, late).events[..|end.state.events|] == end.state.events;
    }
  }

  // ----- What the bridge makes of it -----

  /** The events a run of the bridge reads. */
  function EventsIn(inputs: seq<Bridge.Input>): seq<Event> {
    if inputs == [] then []
    else
      var n := |inputs| - 1;
      EventsIn(inputs[..n]) + if inputs[n].GatewayEvent? then [inputs[n].event] else []
  }

  /** The input tells nothing new of nodes and groups, unless as an event. */
  predicate Uninformative(i: Bridge.Input) {
    match i
    case Connected(_) => true
    case ConnectionLost => true
    case Group(_, _, _) => true
    case Refresh(_) => true
    case GatewayEvent(_, _, _) => true
    case Cover(_, _, answer) => !(answer.Ok? && answer.value.CommandAccepted? && answer.value.status == 1)
    case _ => false
  }

  /** Consecutive states of the bridge. */
  ghost predicate Steps(states: seq<Bridge.BridgeState>, inputs: seq<Bridge.Input>) {
    && |states| == |inputs| + 1
    && forall i :: 0 <= i < |inputs| ==>
         Bridge.Possible(states[i], inputs[i]) && states[i + 1] == Bridge.Step(states[i], inputs[i])
  }

  function Told(cache: Nodes.Cache, responses: seq<Response>): Nodes.Cache {
    if responses == [] then cache
    else Nodes.Apply(Told(cache, responses[..|responses| - 1]), responses[|responses| - 1]).cache
  }

  function Regroup(groups: Groups, responses: seq<Response>): Groups {
    if responses == [] then groups
    else Views.Regrouped(Regroup(groups, responses[..|responses| - 1]), responses[|responses| - 1])
  }

  lemma UninformedStep(b: Bridge.BridgeState, i: Bridge.Input)
    requires Uninformative(i) && Bridge.Possible(b, i)
    requires i.GatewayEvent? ==> !i.event.Disconnected?
    ensures var after := Bridge.Step(b, i).view;
            if i.GatewayEvent? && i.event.Notification? then
              && after.cache == Nodes.Apply(b.view.cache, i.event.response).cache
              && after.groups == Views.Regrouped(b.view.groups, i.event.response)
            else after == b.view
  {
    hide Bridge.HandleResponse, Nodes.Apply, Views.Regrouped, SessionIds.Perform, Nodes.Resolve, Nodes.CoverCommand,
         Bridge.Refreshed, Bridge.KnownAfter, Snapshot;
    if i.GatewayEvent? && i.event.Notification? {
      Views.ResponsesAreRemembered(b, i.event.response);
    } else if i.Refresh? {
      Bridge.RefreshedOnlyAsks(b, Bridge.StationaryIds(b.view.cache), i.answers);
    }
  }

  lemma ToldOneMore(cache: Nodes.Cache, groups: Groups, responses: seq<Response>, r: Response)
    ensures Told(cache, responses + [r]) == Nodes.Apply(Told(cache, responses), r).cache
    ensures Regroup(groups, responses + [r]) == Views.Regrouped(Regroup(groups, responses), r)
    ensures responses + [] == responses
  {
    hide Nodes.Apply, Views.Regrouped;
    assert (responses + [r])[..|responses|] == responses;
  }

  lemma {:induction false} ViewFollowsEvents(states: seq<Bridge.BridgeState>, inputs: seq<Bridge.Input>)
    requires Steps(states, inputs) && forall i :: i in inputs ==> Uninformative(i)
    requires NoneDisconnected(EventsIn(inputs))
    ensures var responses := Notified(EventsIn(inputs));
            && states[|inputs|].view.cache == Told(states[0].view.cache, responses)
            && states[|inputs|].view.groups == Regroup(states[0].view.groups, responses)
    decreases |inputs|
  {
    hide Bridge.Step, Bridge.Possible, Uninformative, Told, Regroup, Notified, Nodes.Apply, Views.Regrouped;
    if inputs == [] {
      NothingTold(states[0].view.cache, states[0].view.groups);
    } else {
      var n := |inputs| - 1;
      var before := EventsIn(inputs[..n]);
      var last := if inputs[n].GatewayEvent? then [inputs[n].event] else [];
      assert EventsIn(inputs) == before + last;
      assert forall e :: e in before ==> e in EventsIn(inputs);
      assert inputs[n].GatewayEvent? ==> EventsIn(inputs)[|before|] == inputs[n].event;
      ViewFollowsEvents(states[..n + 1], inputs[..n]);
      UninformedStep(states[n], inputs[n]);
      if inputs[n].GatewayEvent? {
        var e := inputs[n].event;
        NotifiedConcat(before, [e]);
        NotifiedOne(e);
        if e.Notification? {
          ToldOneMore(states[0].view.cache, states[0].view.groups, Notified(before), e.response);
        } else {
          assert Notified(before) + [] == Notified(before);
        }
      } else {
        assert before + [] == before;
      }
    }
  }

  lemma NothingTold(cache: Nodes.Cache, groups: Groups)
    ensures Told(cache, []) == cache && Regroup(groups, []) == groups && Notified([]) == [] && EventsIn([]) == []
  {
  }

  /** Once the bridge has read all the actor has reported, whatever commands and broker connections came
      between, its nodes and groups are what the received notification frames tell, one after the other. */
  lemma BridgeKnowsWhatWasReceived(cfg: Settings, turns: seq<Turn>, states: seq<Bridge.BridgeState>,
                                   inputs: seq<Bridge.Input>)
    requires AllPossible(INITIAL, cfg, turns)
    requires Steps(states, inputs) && forall i :: i in inputs ==> Uninformative(i)
    requires EventsIn(inputs) == Loop(INITIAL, cfg, turns).state.events
    ensures var received := Notices(cfg, Taken(INITIAL, cfg, turns));
            && states[|inputs|].view.cache == Told(states[0].view.cache, received)
            && states[|inputs|].view.groups == Regroup(states[0].view.groups, received)
  {
    hide Loop, AllPossible, Told, Regroup, Notified, Notices, Taken, Steps, EventsIn, Uninformative;
    NothingReportedYet();
    var n := LastTurn(INITIAL, cfg, turns);
    EveryNotificationIsReported(cfg, turns, []);
    ViewFollowsEvents(states, inputs);
  }
}
