/** Two short runs that meet the conditions under which session IDs are lost or handed out too early. */
module SessionScenarios {
  import opened Base
  import opened Values
  import opened SessionIds
  import opened Protocol
  import opened Actor
  import opened SessionLedger
  import opened SessionOwnership
  import Bridge
  import Frames

  // ----- The frames and turns -----

  /** The frame of a session message: the first session ID, and what follows it. */
  function SessionFrame(command: u16, rest: seq<byte>): Frames.Frame {
    Frames.Frame(Frames.KLF_PROTOCOL_ID, command, [0, 1] + rest)
  }

  function Accepting(): Frames.Frame {
    SessionFrame(STATUS_REQUEST_CFM, [1])
  }

  function Finishing(): Frames.Frame {
    SessionFrame(SESSION_FINISHED_NTF, [])
  }

  function Winking(): Frames.Frame {
    SessionFrame(WINK_SEND_NTF, [])
  }

  function Reading(now: Instant, frame: Frames.Frame): Turn {
    Turn(now, true, Incoming(now, frame))
  }

  lemma FramesDecode(cfg: Settings)
    ensures Decode(cfg.others, Accepting()) == Ok(StatusAccepted(1, 1)) && Accepting().command == STATUS_REQUEST_CFM
    ensures Decode(cfg.others, Finishing()) == Ok(SessionFinished(1)) && IsNotification(Finishing().command)
    ensures Decode(cfg.others, Winking()) == Ok(WinkFinished(1)) && IsNotification(Winking().command)
    ensures Finishing().command != STATUS_REQUEST_CFM && Winking().command != STATUS_REQUEST_CFM
  {
  }

  /** The first status request can be written and asks for the confirmation above. */
  lemma RequestIsFit(node: NodeId)
    ensures var request := StatusRequest(1, node);
            && RequestBytes(request).Ok? && request.sessionId == Some(1) && request.command == STATUS_REQUEST_REQ
            && ExpectedConfirmation(request.command) == Some(STATUS_REQUEST_CFM)
  {
    hide Frames.Checksum;
    var payload := StatusRequest(1, node).payload.value;
    assert |Zeros(19)| == 19 && |Zeros(2)| == 2;
    assert |payload| == 26;
  }

  lemma FirstId()
    ensures Perform(EMPTY, Allocate) == SessionIds.Outcome(Allocator(2, {1}), Ok(1), 1)
  {
    assert Nth(1, 0) == 1 && Nth(1, 1) == 2;
    assert FreeOffset(1, {}, 0) == 0;
  }

  // ----- The states on the way -----

  /** The request is in the queue. */
  function Queueing(node: NodeId): State {
    INITIAL.(queue := [Queued(0, StatusRequest(1, node))], arrivals := [StatusRequest(1, node)])
  }

  /** The request is on the wire. */
  function Sending(cfg: Settings, now: Instant, node: NodeId): State
    requires RequestBytes(StatusRequest(1, node)).Ok?
  {
    INITIAL.(pending := Some(Pending(0, STATUS_REQUEST_REQ, STATUS_REQUEST_CFM, Some(1), now + cfg.requestTimeout)),
             arrivals := [StatusRequest(1, node)],
             writes := [Write(0, RequestBytes(StatusRequest(1, node)).value)])
  }

  function Asking(node: NodeId, actor: State, ticket: Option<nat>): Joint {
    Joint(actor, 0, Allocator(2, {1}), Some(Waiting(1, StatusRequest(1, node), ticket)), true, false)
  }

  lemma QueueIsDispatched(cfg: Settings, now: Instant, node: NodeId)
    requires RequestBytes(StatusRequest(1, node)).Ok?
    ensures Dispatch(Queueing(node), cfg, now, true) == Dispatched(Sending(cfg, now, node), None)
  {
    hide RequestBytes;
    RequestIsFit(node);
    var s := Queueing(node);
    assert Refusal(s.sessions, s.queue[0].request).None?;
    assert s.queue[1..] == [];
    var write := Write(0, RequestBytes(StatusRequest(1, node)).value);
    assert s.writes + [write] == [write];
  }

  lemma RunExtends(cfg: Settings, steps: seq<Step>, s: Step)
    requires SessionLedger.Run(START, cfg, steps).Some?
    requires Enabled(SessionLedger.Run(START, cfg, steps).value, cfg, s)
    ensures SessionLedger.Run(START, cfg, steps + [s])
         == Some(After(SessionLedger.Run(START, cfg, steps).value, cfg, s))
  {
    hide Enabled, After;
    assert (steps + [s])[..|steps|] == steps;
  }

  /** Asking for a status, and the request reaching the actor. */
  function Opening(now: Instant, node: NodeId): seq<Step> {
    [Ask(StatusRequest(1, node))] + [Play(Turn(now, true, Command(StatusRequest(1, node))), [])]
  }

  lemma OpeningRuns(cfg: Settings, now: Instant, node: NodeId)
    ensures SessionLedger.Run(START, cfg, Opening(now, node)) == Some(Asking(node, Queueing(node), Some(0)))
  {
    hide RequestBytes, FreeOffset;
    RequestIsFit(node);
    FirstId();
    var request := StatusRequest(1, node);
    var asked := Asking(node, INITIAL, None);
    RunExtends(cfg, [], Ask(request));
    assert [] + [Ask(request)] == [Ask(request)];
    assert SessionLedger.Run(START, cfg, [Ask(request)]) == Some(asked);
    RunExtends(cfg, [Ask(request)], Play(Turn(now, true, Command(request)), []));
    assert INITIAL.queue + [Queued(0, request)] == [Queued(0, request)];
    assert INITIAL.arrivals + [request] == [request];
    assert Pass(INITIAL, cfg, Turn(now, true, Command(request))) == Progress(Queueing(node), true, None);
  }

  // ----- An overtaken confirmation -----

  /** A run in which the end of a session overtakes its confirmation: the session is finished while its
      request is still unconfirmed, and confirmed in the next turn. */
  lemma AnEndCanOvertake(cfg: Settings, now: Instant, node: NodeId)
    ensures var steps := Opening(now, node) + [Play(Reading(now, Finishing()), [])];
            && SessionLedger.Run(START, cfg, steps).Some?
            && Enabled(SessionLedger.Run(START, cfg, steps).value, cfg, Play(Reading(now, Accepting()), []))
            && Overtaken(SessionLedger.Run(START, cfg, steps).value, cfg, Reading(now, Accepting()))
  {
    hide RequestBytes, Decode, IsNotification, StatusRequest;
    RequestIsFit(node);
    FramesDecode(cfg);
    OpeningRuns(cfg, now, node);
    QueueIsDispatched(cfg, now, node);
    var finish := Play(Reading(now, Finishing()), []);
    RunExtends(cfg, Opening(now, node), finish);
    var j := SessionLedger.Run(START, cfg, Opening(now, node) + [finish]).value;
    assert j.actor == Sending(cfg, now, node).(events := [Notification(SessionFinished(1))]);
    assert Ends(j.actor.events[0], 1) && EndsAhead(j, 1);
    assert AcceptsId(j.actor, cfg, Reading(now, Accepting()), 1);
  }

  // ----- A leak -----

  /** The session runs and its confirmation has been passed on. */
  function Running(cfg: Settings, now: Instant, node: NodeId): State
    requires RequestBytes(StatusRequest(1, node)).Ok?
  {
    var deadline := now + cfg.sessionTimeout;
    Sending(cfg, now, node).(pending := None, sessions := map[1 := deadline],
                             replies := [Reply(0, Ok(StatusAccepted(1, 1)))], lifetimes := [Accept(1, deadline)])
  }

  lemma ConfirmationIsTaken(cfg: Settings, now: Instant, node: NodeId)
    requires RequestBytes(StatusRequest(1, node)).Ok?
    ensures Pass(Queueing(node), cfg, Reading(now, Accepting())) == Progress(Running(cfg, now, node), true, None)
  {
    hide RequestBytes, Decode, IsNotification, StatusRequest;
    FramesDecode(cfg);
    QueueIsDispatched(cfg, now, node);
    var s := Sending(cfg, now, node);
    assert s.replies + [Reply(0, Ok(StatusAccepted(1, 1)))] == [Reply(0, Ok(StatusAccepted(1, 1)))];
    assert s.lifetimes + [Accept(1, now + cfg.sessionTimeout)] == [Accept(1, now + cfg.sessionTimeout)];
  }

  lemma WinkLeaksHere(cfg: Settings, now: Instant, node: NodeId)
    requires RequestBytes(StatusRequest(1, node)).Ok?
    ensures var j := Asking(node, Running(cfg, now, node), Some(0)).(waiting := None);
            && Enabled(j, cfg, Play(Reading(now, Winking()), []))
            && Leaks(j, cfg, Reading(now, Winking()))
  {
    hide RequestBytes, Decode, IsNotification, StatusRequest;
    FramesDecode(cfg);
    var j := Asking(node, Running(cfg, now, node), Some(0)).(waiting := None);
    assert LeaksId(j, cfg, Reading(now, Winking()), 1);
  }

  /** A run in which a wink completion arrives for the live session of a status request. */
  lemma AWinkCanLeak(cfg: Settings, now: Instant, node: NodeId)
    ensures var steps := Opening(now, node) + [Play(Reading(now, Accepting()), [])] + [Collect];
            && SessionLedger.Run(START, cfg, steps).Some?
            && Enabled(SessionLedger.Run(START, cfg, steps).value, cfg, Play(Reading(now, Winking()), []))
            && Leaks(SessionLedger.Run(START, cfg, steps).value, cfg, Reading(now, Winking()))
  {
    hide RequestBytes, Decode, IsNotification, StatusRequest, Pass, Opening, Accepting;
    RequestIsFit(node);
    OpeningRuns(cfg, now, node);
    ConfirmationIsTaken(cfg, now, node);
    var accept := Play(Reading(now, Accepting()), []);
    RunExtends(cfg, Opening(now, node), accept);
    var accepted := Asking(node, Running(cfg, now, node), Some(0));
    assert SessionLedger.Run(START, cfg, Opening(now, node) + [accept]) == Some(accepted);
    RunExtends(cfg, Opening(now, node) + [accept], Collect);
    WinkLeaksHere(cfg, now, node);
  }
}
