/** Requests, responses and command identifiers of the KLF protocol, as far as the connection actor
    and the bridge depend on them (src/klf200/command_id.rs, command.rs, response.rs). */
module Protocol {
  import opened Base
  import opened Values
  import opened SessionIds
  import opened Payloads
  import Frames

  // ----- Command identifiers -----

  const GET_STATE_REQ: u16 := 0x000C
  const NODE_INFORMATION_CHANGED_NTF: u16 := 0x020C
  const GET_ALL_NODES_INFORMATION_NTF: u16 := 0x0204
  const GET_NODE_INFORMATION_NTF: u16 := 0x0210
  const NODE_STATE_POSITION_CHANGED_NTF: u16 := 0x0211
  const GROUP_INFORMATION_CHANGED_NTF: u16 := 0x0224
  const GET_ALL_GROUPS_INFORMATION_NTF: u16 := 0x022B
  const GROUP_DELETED_NTF: u16 := 0x022D
  const GET_GROUP_INFORMATION_NTF: u16 := 0x0230
  const COMMAND_SEND_REQ: u16 := 0x0300
  const COMMAND_SEND_CFM: u16 := 0x0301
  const COMMAND_RUN_STATUS_NTF: u16 := 0x0302
  const COMMAND_REMAINING_TIME_NTF: u16 := 0x0303
  const SESSION_FINISHED_NTF: u16 := 0x0304
  const STATUS_REQUEST_REQ: u16 := 0x0305
  const STATUS_REQUEST_CFM: u16 := 0x0306
  const STATUS_REQUEST_NTF: u16 := 0x0307
  const WINK_SEND_CFM: u16 := 0x0309
  const WINK_SEND_NTF: u16 := 0x030A
  const SET_LIMITATION_CFM: u16 := 0x0311
  const GET_LIMITATION_STATUS_CFM: u16 := 0x0313
  const MODE_SEND_CFM: u16 := 0x0321
  const ACTIVATE_SCENE_CFM: u16 := 0x0413
  const STOP_SCENE_CFM: u16 := 0x0416
  const ACTIVATE_PRODUCTGROUP_REQ: u16 := 0x0447
  const ACTIVATE_PRODUCTGROUP_CFM: u16 := 0x0448
  const GET_MULTIPLE_ACTIVATION_LOG_LINES_REQ: u16 := 0x0507
  const GET_MULTIPLE_ACTIVATION_LOG_LINES_CFM: u16 := 0x0509

  /** The 57 known requests. */
  predicate IsRequest(command: u16) {
    match command
    case 0x0001 | 0x0003 | 0x0008 | 0x000A | 0x000C | 0x000E | 0x00E0 | 0x00E2 | 0x0100 | 0x0103 | 0x0106 | 0x0108
      | 0x010A | 0x010E | 0x0113 | 0x0116 | 0x0119 | 0x0200 | 0x0202 | 0x0206 | 0x0208 | 0x020D | 0x0220 | 0x0222
      | 0x0225 | 0x0227 | 0x0229 | 0x0240 | 0x0242 | 0x0300 | 0x0305 | 0x0308 | 0x0310 | 0x0312 | 0x0320 | 0x0400
      | 0x0403 | 0x0405 | 0x0408 | 0x040A | 0x040C | 0x040F | 0x0412 | 0x0415 | 0x0447 | 0x0460 | 0x0462 | 0x0464
      | 0x0500 | 0x0502 | 0x0504 | 0x0507 | 0x2000 | 0x2002 | 0x2004 | 0x3000 | 0x3002 => true
    case _ => false
  }

  /** The 36 known notifications. */
  predicate IsNotification(command: u16) {
    match command
    case 0x0000 | 0x0102 | 0x0105 | 0x010C | 0x010D | 0x0110 | 0x0111 | 0x0112 | 0x0115 | 0x0118 | 0x0204 | 0x0205
      | 0x020C | 0x0210 | 0x0211 | 0x0224 | 0x022B | 0x022C | 0x022D | 0x0230 | 0x0302 | 0x0303 | 0x0304 | 0x0307
      | 0x030A | 0x0314 | 0x0322 | 0x0402 | 0x0407 | 0x040E | 0x0411 | 0x0419 | 0x0449 | 0x0506 | 0x0508
      | 0x3004 => true
    case _ => false
  }

  /** The confirmation that shares the request's name; one command breaks the plus-one pattern. */
  function ExpectedConfirmation(command: u16): Option<u16> {
    if !IsRequest(command) then None
    else if command == GET_MULTIPLE_ACTIVATION_LOG_LINES_REQ then Some(GET_MULTIPLE_ACTIVATION_LOG_LINES_CFM)
    else Some(command + 1)
  }

  /** No two requests share a confirmation, and no confirmation is a notification or a request. */
  lemma ConfirmationsAreDistinct(a: u16, b: u16)
    requires ExpectedConfirmation(a).Some?
    ensures ExpectedConfirmation(a) == ExpectedConfirmation(b) ==> a == b
    ensures !IsNotification(ExpectedConfirmation(a).value)
    ensures !IsRequest(ExpectedConfirmation(a).value)
  {
    NoRequestBefore0509();
    ConfirmationIsNoRequest(a);
    ConfirmationIsNoNotification(a);
    hide IsRequest, IsNotification;
  }

  lemma NoRequestBefore0509()
    ensures !IsRequest(0x0508)
  {
  }

  lemma ConfirmationIsNoRequest(a: u16)
    requires ExpectedConfirmation(a).Some?
    ensures !IsRequest(ExpectedConfirmation(a).value)
  {
    hide IsNotification;
  }

  lemma ConfirmationIsNoNotification(a: u16)
    requires ExpectedConfirmation(a).Some?
    ensures !IsNotification(ExpectedConfirmation(a).value)
  {
  }

  // ----- Requests -----

  /** What the actor sees of a request: its command, its session and the outcome of encoding it. */
  datatype Request = Request(command: u16, sessionId: Option<SessionId>, payload: Result<seq<byte>, KlfError>)

  function RequestBytes(r: Request): Result<seq<byte>, KlfError> {
    match r.payload
    case Err(e) => Err(e)
    case Ok(payload) => Frames.Encoding(Frames.Frame(Frames.KLF_PROTOCOL_ID, r.command, payload))
  }

  function CommandSend(id: SessionId, node: NodeId, position: u16): Request {
    Request(COMMAND_SEND_REQ, Some(id),
            Ok(BigEndian16(id) + [1, 3, 0, 0, 0] + BigEndian16(position) + Zeros(32) + [1, node] + Zeros(23)))
  }

  function StatusRequest(id: SessionId, node: NodeId): Request {
    Request(STATUS_REQUEST_REQ, Some(id), Ok(BigEndian16(id) + [1, node] + Zeros(19) + [3] + Zeros(2)))
  }

  function ActivateGroup(id: SessionId, group: GroupId, position: u16, velocity: byte): Request {
    Request(ACTIVATE_PRODUCTGROUP_REQ, Some(id),
            Ok(BigEndian16(id) + [1, 3, group, 0] + BigEndian16(position) + [velocity, 0, 0, 0, 0]))
  }

  // ----- Responses -----

  datatype Response =
    | CommandAccepted(sessionId: SessionId, status: byte)
    | StatusAccepted(sessionId: SessionId, status: byte)
    | SessionCommandResult(command: u16, sessionId: SessionId, status: byte)
    | SceneSessionResult(command: u16, sessionId: SessionId, status: byte)
    | ProductGroupResult(sessionId: SessionId, status: byte)
    | SessionFinished(sessionId: SessionId)
    | WinkFinished(sessionId: SessionId)
    | NodeInformationReceived(node: NodeInformation)
    | NodeInformationUpdated(change: NodeInformationChanged)
    | NodePositionChanged(position: NodeStatePosition)
    | CommandRunStatusReceived(run: CommandRunStatus)
    | CommandRemainingTime(sessionId: SessionId, nodeId: NodeId, seconds: u16)
    | StatusReceived(status_: StatusNotification)
    | GroupInformationReceived(group: GroupInformation)
    | GroupChange(changeType: byte, groupId: GroupId, information: Option<GroupInformation>)
    | GroupDeleted(groupId: GroupId)
    | Other(command: u16, payload: seq<byte>)

  /** The verdict of the response decoders outside this model on one command and payload. */
  type OtherDecoders = (u16, seq<byte>) -> Option<KlfError>

  function Mapped<A, B>(r: Result<A, KlfError>, f: A -> B): Result<B, KlfError> {
    match r
    case Ok(a) => Ok(f(a))
    case Err(e) => Err(e)
  }

  /** A payload of exactly the given length with a session ID at the given offset. */
  function SessionField(payload: seq<byte>, length: nat, offset: nat, command: u16): (r: Result<SessionId, KlfError>)
    ensures r.Ok? ==> |payload| == length
  {
    match RequireExact(payload, length, command)
    case Err(e) => Err(e)
    case Ok(_) => ReadSessionId(payload, offset, command)
  }

  /** The three-byte confirmations: a session ID and a status byte at the given offsets. */
  function SessionStatus(payload: seq<byte>, idAt: nat, statusAt: nat, command: u16):
    Result<(SessionId, byte), KlfError>
    requires statusAt < 3
  {
    match SessionField(payload, 3, idAt, command)
    case Err(e) => Err(e)
    case Ok(id) => Ok((id, payload[statusAt]))
  }

  function DecodeRemainingTime(payload: seq<byte>, command: u16): Result<Response, KlfError> {
    match SessionField(payload, 6, 0, command)
    case Err(e) => Err(e)
    case Ok(id) => Ok(CommandRemainingTime(id, payload[2], ReadU16(payload, 4)))
  }

  function DecodeSession(command: u16, payload: seq<byte>): Option<Result<Response, KlfError>> {
    match command
    case 0x0301 =>
      Some(Mapped(SessionStatus(payload, 0, 2, command), (s: (SessionId, byte)) => CommandAccepted(s.0, s.1)))
    case 0x0306 =>
      Some(Mapped(SessionStatus(payload, 0, 2, command), (s: (SessionId, byte)) => StatusAccepted(s.0, s.1)))
    case 0x0309 | 0x0311 | 0x0313 | 0x0321 =>
      Some(Mapped(SessionStatus(payload, 0, 2, command),
                  (s: (SessionId, byte)) => SessionCommandResult(command, s.0, s.1)))
    case 0x0413 | 0x0416 =>
      Some(Mapped(SessionStatus(payload, 1, 0, command),
                  (s: (SessionId, byte)) => SceneSessionResult(command, s.0, s.1)))
    case 0x0448 =>
      Some(Mapped(SessionStatus(payload, 0, 2, command), (s: (SessionId, byte)) => ProductGroupResult(s.0, s.1)))
    case 0x0304 => Some(Mapped(SessionField(payload, 2, 0, command), id => SessionFinished(id)))
    case 0x030A => Some(Mapped(SessionField(payload, 2, 0, command), id => WinkFinished(id)))
    case 0x0303 => Some(DecodeRemainingTime(payload, command))
    case _ => None
  }

  function DecodeGroupChange(payload: seq<byte>, command: u16): Result<Response, KlfError> {
    match Require(payload, 2, command)
    case Err(e) => Err(e)
    case Ok(_) =>
      if payload[0] == 1 then
        match RequireExact(payload, 100, command)
        case Err(e) => Err(e)
        case Ok(_) =>
          match DecodeGroupInformation(payload[1..], command)
          case Err(e) => Err(e)
          case Ok(g) => Ok(GroupChange(1, payload[1], Some(g)))
      else
        match RequireExact(payload, 2, command)
        case Err(e) => Err(e)
        case Ok(_) => Ok(GroupChange(payload[0], payload[1], None))
  }

  function DecodeUpdate(command: u16, payload: seq<byte>): Option<Result<Response, KlfError>> {
    match command
    case 0x0204 | 0x0210 => Some(Mapped(DecodeNodeInformation(payload, command), n => NodeInformationReceived(n)))
    case 0x020C => Some(Mapped(DecodeNodeInformationChanged(payload, command), c => NodeInformationUpdated(c)))
    case 0x0211 => Some(Mapped(DecodeNodeState(payload, command), p => NodePositionChanged(p)))
    case 0x0302 => Some(Mapped(DecodeRunStatus(payload, command), s => CommandRunStatusReceived(s)))
    case 0x0307 => Some(Mapped(DecodeStatusNotification(payload, command), s => StatusReceived(s)))
    case 0x022B | 0x0230 => Some(Mapped(DecodeGroupInformation(payload, command), g => GroupInformationReceived(g)))
    case 0x0224 => Some(DecodeGroupChange(payload, command))
    case 0x022D =>
      Some(match RequireExact(payload, 1, command)
           case Err(e) => Err(e)
           case Ok(_) => Ok(GroupDeleted(payload[0])))
    case _ => None
  }

  function Decode(others: OtherDecoders, frame: Frames.Frame): Result<Response, KlfError> {
    match DecodeSession(frame.command, frame.payload)
    case Some(r) => r
    case None =>
      match DecodeUpdate(frame.command, frame.payload)
      case Some(r) => r
      case None =>
        match others(frame.command, frame.payload)
        case Some(e) => Err(e)
        case None => Ok(Other(frame.command, frame.payload))
  }

  // ----- Session classifiers -----

  function ResponseSession(r: Response): Option<SessionId> {
    match r
    case CommandAccepted(id, _) => Some(id)
    case StatusAccepted(id, _) => Some(id)
    case SessionCommandResult(_, id, _) => Some(id)
    case SceneSessionResult(_, id, _) => Some(id)
    case ProductGroupResult(id, _) => Some(id)
    case _ => None
  }

  predicate ConfirmationMatches(expected: Option<SessionId>, r: Response) {
    expected.Some? ==> ResponseSession(r) == expected
  }

  predicate SessionWasAccepted(r: Response) {
    match r
    case CommandAccepted(_, status) => status == 1
    case StatusAccepted(_, status) => status == 1
    case SessionCommandResult(command, _, status) =>
      if command == WINK_SEND_CFM || command == SET_LIMITATION_CFM || command == GET_LIMITATION_STATUS_CFM then
        status == 1
      else command == MODE_SEND_CFM && status == 0
    case SceneSessionResult(_, _, status) => status == 0
    case ProductGroupResult(_, status) => status == 0
    case _ => false
  }

  function TerminalSession(r: Response): Option<SessionId> {
    match r
    case SessionFinished(id) => Some(id)
    case WinkFinished(id) => Some(id)
    case _ => None
  }

  // ----- What decoding guarantees -----

  /** The responses that tell about nodes, their status or groups. */
  predicate IsUpdate(r: Response) {
    match r
    case NodeInformationReceived(_) | NodeInformationUpdated(_) | NodePositionChanged(_) => true
    case CommandRunStatusReceived(_) | CommandRemainingTime(_, _, _) | StatusReceived(_) => true
    case GroupInformationReceived(_) | GroupChange(_, _, _) | GroupDeleted(_) => true
    case _ => false
  }

  /** Updates and ends of sessions only ever come as notifications, never as confirmations. */
  lemma UpdatesComeAsNotifications(others: OtherDecoders, frame: Frames.Frame)
    requires Decode(others, frame).Ok?
    requires var r := Decode(others, frame).value; IsUpdate(r) || TerminalSession(r).Some?
    ensures IsNotification(frame.command) && !IsRequest(frame.command)
    ensures forall command :: ExpectedConfirmation(command) != Some(frame.command)
  {
    forall command | ExpectedConfirmation(command) == Some(frame.command)
      ensures false
    {
      ConfirmationsAreDistinct(command, command);
    }
    hide DecodeNodeInformation, DecodeNodeInformationChanged, DecodeNodeState, DecodeRunStatus,
         DecodeStatusNotification, DecodeGroupInformation, DecodeGroupChange, DecodeRemainingTime, SessionStatus,
         SessionField;
  }

  /** The status byte with which the gateway accepts a session request. */
  function AcceptingStatus(command: u16): byte {
    match command
    case 0x0320 | 0x0412 | 0x0415 | 0x0447 => 0
    case _ => 1
  }

  predicate IsSessionRequest(command: u16) {
    match command
    case 0x0300 | 0x0305 | 0x0308 | 0x0310 | 0x0312 | 0x0320 | 0x0412 | 0x0415 | 0x0447 => true
    case _ => false
  }

  /** The confirmation of a session request is three bytes, the status in front for scenes and at the
      end for the others; it starts the session with the ID in the other two exactly if the status is the
      accepting one. */
  lemma AcceptanceOnTheWire(others: OtherDecoders, command: u16, payload: seq<byte>)
    requires IsSessionRequest(command)
    ensures ExpectedConfirmation(command) == Some(command + 1)
    ensures var decoded := Decode(others, Frames.Frame(Frames.KLF_PROTOCOL_ID, command + 1, payload));
            var scene := command == 0x0412 || command == 0x0415;
            && (decoded.Ok? <==> |payload| == 3 && ReadU16(payload, if scene then 1 else 0) != 0)
            && (decoded.Ok? ==>
                  && ResponseSession(decoded.value) == Some(ReadU16(payload, if scene then 1 else 0))
                  && (SessionWasAccepted(decoded.value)
                      <==> payload[if scene then 0 else 2] == AcceptingStatus(command)))
  {
    hide DecodeUpdate;
  }

  predicate BoundedResponse(r: Response) {
    match r
    case NodeInformationReceived(n) => Bounded(n.currentPosition) && Bounded(n.targetPosition)
    case NodePositionChanged(p) => Bounded(p.currentPosition) && Bounded(p.targetPosition)
    case CommandRunStatusReceived(s) => Bounded(s.parameterValue)
    case StatusReceived(s) => s.detail.Main? ==> Bounded(s.detail.currentPosition) && Bounded(s.detail.targetPosition)
    case _ => true
  }

  /** No frame can bring in a relative position beyond fully closed, and a group change that carries
      information carries it for the group it names, exactly when its type is 1. */
  lemma DecodedResponsesAreSound(others: OtherDecoders, frame: Frames.Frame)
    requires Decode(others, frame).Ok?
    ensures var r := Decode(others, frame).value;
            && BoundedResponse(r)
            && (r.GroupChange? ==> (r.information.Some? <==> r.changeType == 1))
            && (r.GroupChange? && r.information.Some? ==> r.information.value.groupId == r.groupId)
  {
    var p := frame.payload;
    if frame.command == 0x0224 && |p| == 100 {
      assert p[1..][0] == p[1];
    }
  }
}
