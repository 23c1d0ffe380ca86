/** Fixed-layout payloads: the group and contact-input codecs of src/klf200/command.rs and
    src/klf200/response.rs, and the notification decoders the bridge reacts to. */
module Payloads {
  import opened Base
  import opened Values
  import opened SessionIds

  // ----- Length guards -----

  function Require(payload: seq<byte>, needed: nat, command: u16): Result<(), KlfError> {
    if |payload| < needed then Err(TruncatedPayload(command, needed, |payload|)) else Ok(())
  }

  function RequireExact(payload: seq<byte>, needed: nat, command: u16): Result<(), KlfError> {
    if |payload| < needed then Err(TruncatedPayload(command, needed, |payload|))
    else if |payload| > needed then Err(InvalidPayloadLength(command, needed, |payload|))
    else Ok(())
  }

  function ReadSessionId(payload: seq<byte>, offset: nat, command: u16): Result<SessionId, KlfError> {
    if |payload| < offset + 2 then Err(TruncatedPayload(command, offset + 2, |payload|))
    else if ReadU16(payload, offset) == 0 then Err(InvalidRequest)
    else Ok(ReadU16(payload, offset))
  }

  // ----- Group information -----

  datatype GroupInformation = GroupInformation(
    groupId: GroupId, order: u16, placement: byte, name: Utf8, velocity: byte, nodeVariation: byte,
    groupType: byte, objectCount: byte, actuators: ActuatorBits, revision: u16)

  const GROUP_LENGTH: nat := 99
  const NAME_WIDTH: nat := 64

  function GroupLayout(g: GroupInformation, name: seq<byte>): seq<byte> {
    [g.groupId] + BigEndian16(g.order) + [g.placement] + name
    + [g.velocity, g.nodeVariation, g.groupType, g.objectCount] + g.actuators + BigEndian16(g.revision)
  }

  function GroupPayload(g: GroupInformation): Result<seq<byte>, KlfError> {
    match FixedString(g.name, NAME_WIDTH)
    case Err(e) => Err(e)
    case Ok(name) => Ok(GroupLayout(g, name))
  }

  /** copy_from_slice at an offset; the bytes in front stay as they are. */
  method Put(payload: array<byte>, offset: nat, bytes: seq<byte>)
    requires offset + |bytes| <= payload.Length
    modifies payload
    ensures payload[..offset + |bytes|] == old(payload[..offset]) + bytes
  {
    ghost var front := payload[..offset];
    for i := 0 to |bytes|
      invariant payload[..offset + i] == front + bytes[..i]
    {
      payload[offset + i] := bytes[i];
      assert payload[..offset + i + 1] == payload[..offset + i] + [bytes[i]];
    }
    assert bytes[..|bytes|] == bytes;
  }

  method EncodeGroupInformation(g: GroupInformation) returns (result: Result<seq<byte>, KlfError>)
    ensures result == GroupPayload(g)
  {
    var name := EncodeFixedString(g.name, NAME_WIDTH);
    if name.Err? {
      return Err(name.error);
    }
    FixedStringComesBack(g.name, NAME_WIDTH);
    var payload := new byte[GROUP_LENGTH](_ => 0);
    Put(payload, 0, [g.groupId]);
    assert payload[..1] == [g.groupId];
    Put(payload, 1, BigEndian16(g.order));
    Put(payload, 3, [g.placement]);
    Put(payload, 4, name.value);
    Put(payload, 68, [g.velocity, g.nodeVariation, g.groupType, g.objectCount]);
    Put(payload, 72, g.actuators);
    Put(payload, 97, BigEndian16(g.revision));
    assert payload[..GROUP_LENGTH] == GroupLayout(g, name.value);
    assert payload[..] == payload[..GROUP_LENGTH];
    return Ok(payload[..]);
  }

  function DecodeGroupInformation(payload: seq<byte>, command: u16): Result<GroupInformation, KlfError> {
    match RequireExact(payload, GROUP_LENGTH, command)
    case Err(e) => Err(e)
    case Ok(_) =>
      match DecodeFixedString(payload[4..68])
      case Err(e) => Err(e)
      case Ok(name) =>
        Ok(GroupInformation(payload[0], ReadU16(payload, 1), payload[3], name, payload[68], payload[69],
                            payload[70], payload[71], payload[72..97], ReadU16(payload, 97)))
  }

  lemma GroupLayoutFields(g: GroupInformation, name: seq<byte>)
    requires |name| == NAME_WIDTH
    ensures |GroupLayout(g, name)| == GROUP_LENGTH
    ensures GroupLayout(g, name)[4..68] == name && GroupLayout(g, name)[72..97] == g.actuators
  {
  }

  /** Group information survives the wire exactly when its name fits the field. */
  lemma GroupComesBack(g: GroupInformation, command: u16)
    ensures GroupPayload(g).Ok? <==> 0 !in g.name && |g.name| <= 63
    ensures GroupPayload(g).Ok? ==> DecodeGroupInformation(GroupPayload(g).value, command) == Ok(g)
  {
    FixedStringComesBack(g.name, NAME_WIDTH);
    if GroupPayload(g).Ok? {
      GroupLayoutFields(g, FixedString(g.name, NAME_WIDTH).value);
    }
  }

  /** A decoded payload is reproduced bit for bit exactly when its name field is zero-padded. */
  lemma GroupPayloadComesBack(payload: seq<byte>, command: u16)
    requires DecodeGroupInformation(payload, command).Ok?
    ensures GroupPayload(DecodeGroupInformation(payload, command).value) == Ok(payload)
       <==> ZeroPadded(payload[4..68])
  {
    var g := DecodeGroupInformation(payload, command).value;
    var field := payload[4..68];
    FixedFieldComesBack(field);
    FixedStringComesBack(g.name, NAME_WIDTH);
    assert payload == GroupLayout(g, field) by {
      assert payload == payload[..4] + field + payload[68..72] + payload[72..97] + payload[97..];
    }
    if GroupPayload(g).Ok? {
      GroupLayoutFields(g, FixedString(g.name, NAME_WIDTH).value);
      GroupLayoutFields(g, field);
    }
  }

  // ----- Contact-input links -----

  datatype ContactInputLink = ContactInputLink(
    contactInputId: byte, assignment: byte, actionId: byte, commandOriginator: byte, priorityLevel: byte,
    parameterId: byte, position: StandardParameter, velocity: byte, lockPriorityLevel: byte,
    priorityLevelSettings: seq<byte>, successOutputId: byte, errorOutputId: byte)

  const LINK_LENGTH: nat := 17

  predicate WellFormedLink(link: ContactInputLink) {
    |link.priorityLevelSettings| == 5
  }

  function LinkPayload(link: ContactInputLink): Result<seq<byte>, KlfError>
    requires WellFormedLink(link)
  {
    if exists s :: s in link.priorityLevelSettings && s > 3 then Err(InvalidRequest)
    else Ok([link.contactInputId, link.assignment, link.actionId, link.commandOriginator, link.priorityLevel,
             link.parameterId] + BigEndian16(ToRaw(link.position)) + [link.velocity, link.lockPriorityLevel]
            + link.priorityLevelSettings + [link.successOutputId, link.errorOutputId])
  }

  function DecodeLink(payload: seq<byte>, offset: nat): ContactInputLink
    requires offset + LINK_LENGTH <= |payload|
  {
    ContactInputLink(payload[offset], payload[offset + 1], payload[offset + 2], payload[offset + 3],
                     payload[offset + 4], payload[offset + 5], FromRaw(ReadU16(payload, offset + 6)),
                     payload[offset + 8], payload[offset + 9], payload[offset + 10..offset + 15],
                     payload[offset + 15], payload[offset + 16])
  }

  function DecodeLinks(payload: seq<byte>, command: u16): Result<seq<ContactInputLink>, KlfError> {
    if payload == [] then Err(TruncatedPayload(command, 1, 0))
    else
      var count: nat := payload[0];
      if count > 10 then Err(InvalidRequest)
      else
        match RequireExact(payload, 1 + count * LINK_LENGTH, command)
        case Err(e) => Err(e)
        case Ok(_) =>
          Ok(seq(count, i requires 0 <= i < count && |payload| == 1 + count * LINK_LENGTH =>
               DecodeLink(payload, 1 + i * LINK_LENGTH)))
  }

  /** The link a peer reads back: its position in canonical form. */
  function Canonicalised(link: ContactInputLink): ContactInputLink {
    link.(position := FromRaw(ToRaw(link.position)))
  }

  lemma LinkComesBack(link: ContactInputLink, before: seq<byte>, after: seq<byte>)
    requires WellFormedLink(link) && LinkPayload(link).Ok?
    ensures |LinkPayload(link).value| == LINK_LENGTH
    ensures DecodeLink(before + LinkPayload(link).value + after, |before|) == Canonicalised(link)
  {
    var bytes := LinkPayload(link).value;
    var whole := before + bytes + after;
    var n := |before|;
    forall k | 0 <= k < LINK_LENGTH
      ensures whole[n + k] == bytes[k]
    {
    }
    assert whole[n + 10..n + 15] == link.priorityLevelSettings;
  }

  predicate Encodable(links: seq<ContactInputLink>) {
    forall l :: l in links ==> WellFormedLink(l) && LinkPayload(l).Ok?
  }

  function Encodings(links: seq<ContactInputLink>): seq<byte>
    requires Encodable(links)
  {
    if links == [] then [] else LinkPayload(links[0]).value + Encodings(links[1..])
  }

  lemma {:induction false} EncodingsLength(links: seq<ContactInputLink>)
    requires Encodable(links)
    ensures |Encodings(links)| == |links| * LINK_LENGTH
  {
    if links != [] {
      assert links[0] in links;
      LinkComesBack(links[0], [], []);
      EncodingsLength(links[1..]);
    }
  }

  lemma {:induction false} EncodingsAt(links: seq<ContactInputLink>, i: nat, before: seq<byte>)
    requires Encodable(links) && i < |links|
    ensures |Encodings(links)| == |links| * LINK_LENGTH
    ensures DecodeLink(before + Encodings(links), |before| + i * LINK_LENGTH) == Canonicalised(links[i])
    decreases |links|
  {
    EncodingsLength(links);
    assert links[0] in links;
    var first, rest := LinkPayload(links[0]).value, Encodings(links[1..]);
    LinkComesBack(links[0], before, rest);
    Associative(before, first, rest);
    if i > 0 {
      EncodingsAt(links[1..], i - 1, before + first);
    }
  }

  lemma LinksAreRead(links: seq<ContactInputLink>, command: u16)
    requires |links| <= 10 && Encodable(links)
    ensures var read := DecodeLinks([|links|] + Encodings(links), command);
            && read.Ok?
            && |read.value| == |links|
            && forall i :: 0 <= i < |links| ==> read.value[i] == Canonicalised(links[i])
  {
    hide DecodeLink, LinkPayload, Encodings, Canonicalised;
    EncodingsLength(links);
    forall i | 0 <= i < |links|
      ensures DecodeLink([|links|] + Encodings(links), 1 + i * LINK_LENGTH) == Canonicalised(links[i])
    {
      EncodingsAt(links, i, [|links|]);
    }
  }

  /** A list of at most ten encodable links decodes to itself exactly when every position is canonical. */
  lemma LinksComeBack(links: seq<ContactInputLink>, command: u16)
    requires |links| <= 10 && Encodable(links)
    ensures DecodeLinks([|links|] + Encodings(links), command) == Ok(links)
       <==> forall l :: l in links ==> Canonical(l.position)
  {
    hide DecodeLinks, Encodings, Encodable;
    LinksAreRead(links, command);
    var read := DecodeLinks([|links|] + Encodings(links), command).value;
    forall i | 0 <= i < |links|
      ensures read[i] == links[i] <==> Canonical(links[i].position)
    {
      ParameterRoundTrips(0, links[i].position);
    }
    if forall l :: l in links ==> Canonical(l.position) {
      assert read == links;
    } else {
      var l :| l in links && !Canonical(l.position);
      var i :| 0 <= i < |links| && links[i] == l;
      assert read[i] != links[i];
    }
  }

  // ----- Node notifications -----

  datatype OperatingState =
    NonExecuting | ExecutionError | NotUsed | WaitingForPower | Executing | Done | UnknownState(code: byte)

  function OperatingStateOf(code: byte): OperatingState {
    match code
    case 0 => NonExecuting
    case 1 => ExecutionError
    case 2 => NotUsed
    case 3 => WaitingForPower
    case 4 => Executing
    case 5 => Done
    case _ => UnknownState(code)
  }

  datatype RunStatus = Completed | Failed | Active | UnknownRun(code: byte)

  function RunStatusOf(code: byte): RunStatus {
    match code
    case 0 => Completed
    case 1 => Failed
    case 2 => Active
    case _ => UnknownRun(code)
  }

  /** Functional positions and aliases are decoded by the source but never reach the bridge. */
  datatype NodeInformation = NodeInformation(
    nodeId: NodeId, order: u16, placement: byte, name: Utf8, velocity: byte, nodeTypeSubType: u16,
    productGroup: byte, productType: byte, variation: byte, powerMode: byte, buildNumber: byte,
    serialNumber: seq<byte>, operatingState: OperatingState, currentPosition: StandardParameter,
    targetPosition: StandardParameter, remainingTime: u16, timestamp: u32)

  datatype NodeInformationChanged = NodeInformationChanged(
    nodeId: NodeId, name: Utf8, order: u16, placement: byte, variation: byte)

  datatype NodeStatePosition = NodeStatePosition(
    nodeId: NodeId, operatingState: OperatingState, currentPosition: StandardParameter,
    targetPosition: StandardParameter, remainingTime: u16, timestamp: u32)

  datatype CommandRunStatus = CommandRunStatus(
    sessionId: SessionId, nodeId: NodeId, nodeParameter: byte, parameterValue: StandardParameter, runStatus: RunStatus)

  datatype StatusDetail =
    | Main(targetPosition: StandardParameter, currentPosition: StandardParameter, remainingTime: u16)
    | OtherDetail(statusType: byte)

  datatype StatusNotification = StatusNotification(
    sessionId: SessionId, nodeId: NodeId, runStatus: RunStatus, detail: StatusDetail)

  function DecodeNodeInformation(payload: seq<byte>, command: u16): Result<NodeInformation, KlfError> {
    match RequireExact(payload, 124, command)
    case Err(e) => Err(e)
    case Ok(_) =>
      if payload[103] > 5 then Err(InvalidRequest)
      else
        match DecodeFixedString(payload[4..68])
        case Err(e) => Err(e)
        case Ok(name) =>
          Ok(NodeInformation(payload[0], ReadU16(payload, 1), payload[3], name, payload[68], ReadU16(payload, 69),
                             payload[71], payload[72], payload[73], payload[74], payload[75], payload[76..84],
                             OperatingStateOf(payload[84]), FromRaw(ReadU16(payload, 85)),
                             FromRaw(ReadU16(payload, 87)), ReadU16(payload, 97), ReadU32(payload, 99)))
  }

  function DecodeNodeInformationChanged(payload: seq<byte>, command: u16): Result<NodeInformationChanged, KlfError> {
    match RequireExact(payload, 69, command)
    case Err(e) => Err(e)
    case Ok(_) =>
      match DecodeFixedString(payload[1..65])
      case Err(e) => Err(e)
      case Ok(name) =>
        Ok(NodeInformationChanged(payload[0], name, ReadU16(payload, 65), payload[67], payload[68]))
  }

  function DecodeNodeState(payload: seq<byte>, command: u16): Result<NodeStatePosition, KlfError> {
    match RequireExact(payload, 20, command)
    case Err(e) => Err(e)
    case Ok(_) =>
      Ok(NodeStatePosition(payload[0], OperatingStateOf(payload[1]), FromRaw(ReadU16(payload, 2)),
                           FromRaw(ReadU16(payload, 4)), ReadU16(payload, 14), ReadU32(payload, 16)))
  }

  function DecodeRunStatus(payload: seq<byte>, command: u16): Result<CommandRunStatus, KlfError> {
    match RequireExact(payload, 13, command)
    case Err(e) => Err(e)
    case Ok(_) =>
      match ReadSessionId(payload, 0, command)
      case Err(e) => Err(e)
      case Ok(id) =>
        Ok(CommandRunStatus(id, payload[3], payload[4], FromRaw(ReadU16(payload, 5)), RunStatusOf(payload[7])))
  }

  function DecodeStatusDetail(payload: seq<byte>, command: u16): Result<StatusDetail, KlfError>
    requires |payload| >= 7
  {
    if payload[6] <= 2 then
      match Require(payload, 8, command)
      case Err(e) => Err(e)
      case Ok(_) =>
        match RequireExact(payload, 8 + (payload[7] as nat) * 3, command)
        case Err(e) => Err(e)
        case Ok(_) => Ok(OtherDetail(payload[6]))
    else if payload[6] == 3 then
      match RequireExact(payload, 18, command)
      case Err(e) => Err(e)
      case Ok(_) => Ok(Main(FromRaw(ReadU16(payload, 7)), FromRaw(ReadU16(payload, 9)), ReadU16(payload, 11)))
    else Ok(OtherDetail(payload[6]))
  }

  function DecodeStatusNotification(payload: seq<byte>, command: u16): Result<StatusNotification, KlfError> {
    match Require(payload, 7, command)
    case Err(e) => Err(e)
    case Ok(_) =>
      match DecodeStatusDetail(payload, command)
      case Err(e) => Err(e)
      case Ok(detail) =>
        match ReadSessionId(payload, 0, command)
        case Err(e) => Err(e)
        case Ok(id) => Ok(StatusNotification(id, payload[3], RunStatusOf(payload[4]), detail))
  }
}
