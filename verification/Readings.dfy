/** From the bytes of a notification to the retained topics: what the broker shows of nodes and groups
    (src/klf200/response.rs, src/veluxnode.rs, src/mqtt.rs, src/bridge.rs). */
module Readings {
  import opened Base
  import opened Values
  import opened Payloads
  import opened Protocol
  import opened Nodes
  import opened Topics
  import opened Retained
  import opened Discovery
  import opened Snapshots
  import opened Bridge
  import Actor
  import Frames
  import SessionIds
  import Views

  // ----- What is shown of a cover -----

  /** Where a cover is and what it does; raw positions and seconds, if known. */
  datatype Reading = Reading(operating: OperatingState, current: Option<u16>, target: Option<u16>,
                             remaining: Option<u16>)

  function ReadingOf(n: Node): Reading {
    Reading(n.operatingState, n.current, n.target, n.remainingTime)
  }

  predicate Moving(r: Reading) {
    r.operating == Executing || r.operating == WaitingForPower
  }

  predicate Resting(r: Reading) {
    r.operating == NonExecuting || r.operating == Done
  }

  predicate BothKnown(r: Reading) {
    r.current.Some? && r.target.Some?
  }

  /** A resting cover is closed at 0xC800 and open anywhere else; a moving one closes towards greater
      positions and opens towards lesser ones. Of all others the state is unknown. */
  predicate Tells(state: CoverState, r: Reading) {
    && (state == Closed <==> Resting(r) && r.current == Some(0xC800))
    && (state == Open <==> Resting(r) && r.current.Some? && r.current != Some(0xC800))
    && (state == Closing <==> Moving(r) && BothKnown(r) && r.current.value < r.target.value)
    && (state == Opening <==> Moving(r) && BothKnown(r) && r.target.value < r.current.value)
  }

  /** Percent open, to the nearest of 512 raw steps, 0 being open and 0xC800 closed; nothing for an
      unknown position. */
  predicate Rounded(percent: Option<byte>, raw: Option<u16>) {
    && (percent.Some? <==> raw.Some?)
    && (raw.Some? && raw.value <= 0xC800 ==> -256 <= 512 * percent.value - (0xC800 - raw.value) <= 256)
  }

  /** The four status topics of a cover show the reading. */
  ghost predicate Shows(store: Store, id: NodeId, r: Reading) {
    var status := Lookup(store, NodeStatus(id));
    && status.Some? && status.value.CoverStatus?
    && var s := status.value.snapshot;
       && Tells(s.state, r) && Rounded(s.position, r.current) && Rounded(s.target, r.target)
       && (s.operating == r.operating || (s.operating.UnknownState? && r.operating.UnknownState?))
       && s.remainingTime == r.remaining
       && Lookup(store, NodeState(id)) == Some(StateLabel(s.state))
       && Lookup(store, NodePosition(id)) == Some(Percent(s.position))
       && Lookup(store, NodeTarget(id)) == Some(Percent(s.target))
  }

  lemma SnapshotTells(n: Node)
    ensures var s := SnapshotOf(n);
            var r := ReadingOf(n);
            && Tells(s.state, r) && Rounded(s.position, r.current) && Rounded(s.target, r.target)
            && (s.operating == r.operating || (s.operating.UnknownState? && r.operating.UnknownState?))
            && s.remainingTime == r.remaining
  {
    if n.current.Some? && n.current.value <= FULLY_CLOSED {
      OpenPercentIsNearest(n.current.value);
    }
    if n.target.Some? && n.target.value <= FULLY_CLOSED {
      OpenPercentIsNearest(n.target.value);
    }
    hide OpenPercent;
  }

  lemma HeldAsWanted(v: View, store: Store, t: Topic, payload: Payload)
    requires UpToDate(v, store) && Wanted(v, t) == Some(Some(payload)) && !payload.NodeData?
    ensures Lookup(store, t) == Some(payload)
  {
    hide Wanted, Lookup;
    assert Agrees(Wanted(v, t), Lookup(store, t));
  }

  lemma UpToDateShows(v: View, store: Store, id: NodeId)
    requires UpToDate(v, store) && id in v.cache && Controllable(v.cache[id])
    ensures Shows(store, id, ReadingOf(v.cache[id]))
  {
    hide UpToDate, SnapshotOf, Tells, Rounded, Lookup;
    var n := v.cache[id];
    var s := SnapshotOf(n);
    SnapshotTells(n);
    HeldAsWanted(v, store, NodeStatus(id), CoverStatus(s));
    HeldAsWanted(v, store, NodeState(id), StateLabel(s.state));
    HeldAsWanted(v, store, NodePosition(id), Percent(s.position));
    HeldAsWanted(v, store, NodeTarget(id), Percent(s.target));
  }

  /** In every state of every run with broker and gateway, the status topics of each cover show where it
      is and what it does. */
  lemma StoreShowsReadings(states: seq<BridgeState>, inputs: seq<Input>, k: nat, id: NodeId)
    requires Bridge.Run(states, inputs) && k < |states| && states[k].connected && states[k].gateway
    requires id in states[k].view.cache && Controllable(states[k].view.cache[id])
    ensures Shows(states[k].store, id, ReadingOf(states[k].view.cache[id]))
  {
    hide Step, Possible, UpToDate, Shows, Snapshot, ComponentsIn, Untimed, Lookup;
    RunStaysInSync(states, inputs, k);
    UpToDateShows(states[k].view, states[k].store, id);
  }

  // ----- What a frame tells -----

  /** A raw position beyond 0xC800 is none. */
  function Known(raw: u16): Option<u16> {
    if raw <= 0xC800 then Some(raw) else None
  }

  /** The node whose reading a frame tells. */
  function About(frame: Frames.Frame): Option<NodeId> {
    var p := frame.payload;
    match frame.command
    case 0x0204 | 0x0210 | 0x0211 => if |p| > 0 then Some(p[0]) else None
    case 0x0302 | 0x0307 => if |p| > 3 then Some(p[3]) else None
    case 0x0303 => if |p| > 2 then Some(p[2]) else None
    case _ => None
  }

  /** The lengths that the frames below have when they can be decoded. */
  predicate Complete(frame: Frames.Frame) {
    var p := frame.payload;
    match frame.command
    case 0x0204 | 0x0210 => |p| == 124
    case 0x0211 => |p| == 20
    case 0x0302 => |p| == 13
    case 0x0303 => |p| == 6
    case 0x0307 => |p| >= 7 && (p[6] == 3 ==> |p| == 18)
    case _ => true
  }

  /** The operating states by their codes; other codes are unknown. */
  predicate Coded(o: OperatingState, code: byte) {
    && (o == NonExecuting <==> code == 0) && (o == ExecutionError <==> code == 1) && (o == NotUsed <==> code == 2)
    && (o == WaitingForPower <==> code == 3) && (o == Executing <==> code == 4) && (o == Done <==> code == 5)
  }

  /** A run that is completed, has failed or is active; other codes are unknown. */
  predicate CodedRun(o: OperatingState, code: byte) {
    && (o == Done <==> code == 0) && (o == ExecutionError <==> code == 1) && (o == Executing <==> code == 2)
    && o != NonExecuting && o != NotUsed && o != WaitingForPower
  }

  predicate Seconds(remaining: Option<u16>, raw: u16) {
    if raw == 0xFFFF then remaining.None? else remaining == Some(raw)
  }

  /** The reading is what a frame about the cover tells; what the frame leaves out stays. */
  predicate Reports(frame: Frames.Frame, before: Reading, after: Reading)
    requires Complete(frame)
  {
    var p := frame.payload;
    match frame.command
    case 0x0204 | 0x0210 =>
      && Coded(after.operating, p[84]) && after.current == Known(ReadU16(p, 85))
      && after.target == Known(ReadU16(p, 87)) && Seconds(after.remaining, ReadU16(p, 97))
    case 0x0211 =>
      && Coded(after.operating, p[1]) && after.current == Known(ReadU16(p, 2))
      && after.target == Known(ReadU16(p, 4)) && Seconds(after.remaining, ReadU16(p, 14))
    case 0x0302 =>
      && CodedRun(after.operating, p[7])
      && after.current == (if p[4] == 0 then Known(ReadU16(p, 5)) else before.current)
      && after.target == before.target
      && after.remaining == if p[7] == 0 then Some(0) else if p[7] == 1 then None else before.remaining
    case 0x0303 => Seconds(after.remaining, ReadU16(p, 4)) && after == before.(remaining := after.remaining)
    case 0x0307 =>
      if p[6] != 3 then after == before
      else
        && CodedRun(after.operating, p[4]) && after.current == Known(ReadU16(p, 9))
        && after.target == Known(ReadU16(p, 7)) && Seconds(after.remaining, ReadU16(p, 11))
    case _ => after == before
  }

  predicate Introduces(frame: Frames.Frame) {
    frame.command == 0x0204 || frame.command == 0x0210
  }

  const UNKNOWN_READING: Reading := Reading(UnknownState(255), None, None, None)

  function ReadingIn(cache: Cache, id: NodeId): Reading {
    if id in cache then ReadingOf(cache[id]) else UNKNOWN_READING
  }

  /** After the frame a cover it is about has the reading in its bytes, and any other the one it had. */
  predicate Takes(cache: Cache, frame: Frames.Frame, after: Cache, id: NodeId) {
    && Complete(frame)
    && (id in after <==> id in cache || (Introduces(frame) && About(frame) == Some(id)))
    && (id in after ==>
          if About(frame) == Some(id) then Reports(frame, ReadingIn(cache, id), ReadingOf(after[id]))
          else ReadingOf(after[id]) == ReadingOf(cache[id]))
  }

  lemma InformationIsTaken(cache: Cache, frame: Frames.Frame, id: NodeId)
    requires Introduces(frame) && DecodeNodeInformation(frame.payload, frame.command).Ok?
    ensures var info := DecodeNodeInformation(frame.payload, frame.command).value;
            Takes(cache, frame, Apply(cache, NodeInformationReceived(info)).cache, id)
  {
    hide DecodeFixedString, StrategyFor;
  }

  lemma PositionIsTaken(cache: Cache, frame: Frames.Frame, id: NodeId)
    requires Keyed(cache) && frame.command == 0x0211 && DecodeNodeState(frame.payload, frame.command).Ok?
    ensures var p := DecodeNodeState(frame.payload, frame.command).value;
            Takes(cache, frame, Apply(cache, NodePositionChanged(p)).cache, id)
  {
  }

  lemma RunStatusIsTaken(cache: Cache, frame: Frames.Frame, id: NodeId)
    requires Keyed(cache) && frame.command == 0x0302 && DecodeRunStatus(frame.payload, frame.command).Ok?
    ensures var s := DecodeRunStatus(frame.payload, frame.command).value;
            Takes(cache, frame, Apply(cache, CommandRunStatusReceived(s)).cache, id)
  {
  }

  lemma StatusIsTaken(cache: Cache, frame: Frames.Frame, id: NodeId)
    requires Keyed(cache) && frame.command == 0x0307 && DecodeStatusNotification(frame.payload, frame.command).Ok?
    ensures var s := DecodeStatusNotification(frame.payload, frame.command).value;
            Takes(cache, frame, Apply(cache, StatusReceived(s)).cache, id)
  {
  }

  lemma RemainingTimeIsTaken(cache: Cache, frame: Frames.Frame, id: NodeId)
    requires frame.command == 0x0303 && DecodeRemainingTime(frame.payload, frame.command).Ok?
    ensures Takes(cache, frame, Apply(cache, DecodeRemainingTime(frame.payload, frame.command).value).cache, id)
  {
  }

  lemma OthersTellNoReading(cache: Cache, others: OtherDecoders, frame: Frames.Frame, id: NodeId)
    requires Keyed(cache) && Decode(others, frame).Ok?
    requires match frame.command
             case 0x0204 | 0x0210 | 0x0211 | 0x0302 | 0x0303 | 0x0307 => false
             case _ => true
    ensures Takes(cache, frame, Apply(cache, Decode(others, frame).value).cache, id)
  {
    hide DecodeNodeInformation, DecodeNodeState, DecodeRunStatus, DecodeStatusNotification, DecodeGroupInformation,
         DecodeNodeInformationChanged, SessionStatus, SessionField;
  }

  /** A decoded frame gives the node it is about the reading in its bytes, introducing the node if need
      be, and leaves every other node's reading alone. */
  lemma FramesAreTaken(cache: Cache, others: OtherDecoders, frame: Frames.Frame, id: NodeId)
    requires Keyed(cache) && Decode(others, frame).Ok?
    ensures Takes(cache, frame, Apply(cache, Decode(others, frame).value).cache, id)
  {
    hide DecodeNodeInformation, DecodeNodeState, DecodeRunStatus, DecodeStatusNotification, DecodeRemainingTime, Apply,
         Takes;
    match frame.command
    case 0x0204 | 0x0210 => InformationIsTaken(cache, frame, id);
    case 0x0211 => PositionIsTaken(cache, frame, id);
    case 0x0302 => RunStatusIsTaken(cache, frame, id);
    case 0x0303 => RemainingTimeIsTaken(cache, frame, id);
    case 0x0307 => StatusIsTaken(cache, frame, id);
    case _ => OthersTellNoReading(cache, others, frame, id);
  }

  // ----- The last frame about a node -----

  /** The response is about the node's reading. */
  predicate Mentions(r: Response, id: NodeId) {
    match r
    case NodeInformationReceived(info) => info.nodeId == id
    case NodePositionChanged(p) => p.nodeId == id
    case StatusReceived(s) => s.nodeId == id
    case CommandRunStatusReceived(s) => s.nodeId == id
    case CommandRemainingTime(_, node, _) => node == id
    case _ => false
  }

  predicate CommandWasAccepted(answer: GatewayAnswer) {
    answer.Ok? && answer.value.CommandAccepted? && answer.value.status == 1
  }

  /** The input brings no new reading of the node: no setup, no notification about it, and no command for
      it that is accepted. */
  predicate Leaves(i: Input, id: NodeId) {
    match i
    case Ready(_) => false
    case GatewayEvent(e, _, _) => e.Notification? ==> !Mentions(e.response, id)
    case Cover(node, _, answer) => node != id || !CommandWasAccepted(answer)
    case _ => true
  }

  lemma UnmentionedKeepsReading(cache: Cache, r: Response, id: NodeId)
    requires Keyed(cache) && id in cache && !Mentions(r, id)
    ensures var after := Apply(cache, r).cache; id in after && ReadingOf(after[id]) == ReadingOf(cache[id])
  {
    hide FromInformation, StrategyFor;
    NodesHaveTheirIds(r);
  }

  lemma NodesHaveTheirIds(r: Response)
    ensures r.NodeInformationReceived? ==> FromInformation(r.node).id == r.node.nodeId
  {
  }

  lemma CoverIsStep(b: BridgeState, i: Input)
    requires Possible(b, i) && i.Cover?
    ensures Step(b, i) == CoverAsked(b, i.node, i.action, i.answer)
  {
    hide CoverAsked;
  }

  lemma StepKeepsReading(b: BridgeState, i: Input, id: NodeId)
    requires Keyed(b.view.cache) && Possible(b, i) && Leaves(i, id) && id in b.view.cache
    ensures var after := Step(b, i).view.cache; id in after && ReadingOf(after[id]) == ReadingOf(b.view.cache[id])
  {
    hide Step, Possible, CoverAsked, Apply;
    if i.Cover? {
      CoverIsStep(b, i);
      CoverKeepsReading(b, i.node, i.action, i.answer, id);
    } else {
      Views.NodesChangeAsTold(b, i);
      if i.GatewayEvent? && i.event.Notification? {
        UnmentionedKeepsReading(b.view.cache, i.event.response, id);
      }
    }
  }

  lemma CoverKeepsReading(b: BridgeState, node: NodeId, action: CoverAction, answer: GatewayAnswer, id: NodeId)
    requires id in b.view.cache && (node != id || !CommandWasAccepted(answer))
    ensures var after := CoverAsked(b, node, action, answer).view.cache; id in after && after[id] == b.view.cache[id]
  {
    hide SessionIds.Perform, Resolve, CoverCommand, Confirmed, NodeStatusPublications;
  }

  lemma {:induction false} ReadingStays(states: seq<BridgeState>, inputs: seq<Input>, k: nat, n: nat, id: NodeId)
    requires Bridge.Run(states, inputs) && k <= n < |states| && id in states[k].view.cache
    requires forall j :: k <= j < n ==> Leaves(inputs[j], id)
    ensures id in states[n].view.cache
    ensures ReadingOf(states[n].view.cache[id]) == ReadingOf(states[k].view.cache[id])
    decreases n
  {
    hide Step, Possible, Leaves, ReadingOf, UpToDate, Untimed, Lookup, ComponentsIn, Snapshot;
    if k < n {
      ReadingStays(states, inputs, k, n - 1, id);
      RunStaysInSync(states, inputs, n - 1);
      StepKeepsReading(states[n - 1], inputs[n - 1], id);
    }
  }

  /** The input passes on what the frame decodes to. */
  predicate Carries(i: Input, others: OtherDecoders, frame: Frames.Frame) {
    i.GatewayEvent? && i.event.Notification? && Decode(others, frame) == Ok(i.event.response)
  }

  /** The k-th input tells the node's reading by a frame, and none after it up to the n-th state does. */
  ghost predicate LastTold(inputs: seq<Input>, others: OtherDecoders, frame: Frames.Frame, id: NodeId, k: nat, n: nat) {
    && k < n <= |inputs|
    && Carries(inputs[k], others, frame) && About(frame) == Some(id)
    && forall j :: k < j < n ==> Leaves(inputs[j], id)
  }

  /** With broker and gateway, the status topics of a cover show the bytes of the last frame about it,
      through disconnections, other notifications, refused commands and commands to others in between. */
  lemma LastReportIsShown(states: seq<BridgeState>, inputs: seq<Input>, others: OtherDecoders, frame: Frames.Frame,
                          id: NodeId, k: nat, n: nat)
    requires Bridge.Run(states, inputs) && LastTold(inputs, others, frame, id, k, n)
    requires id in states[k].view.cache || Introduces(frame)
    ensures id in states[n].view.cache && Complete(frame)
    ensures var reading := ReadingOf(states[n].view.cache[id]);
            && Reports(frame, ReadingIn(states[k].view.cache, id), reading)
            && (states[n].connected && states[n].gateway && Controllable(states[n].view.cache[id]) ==>
                  Shows(states[n].store, id, reading))
  {
    hide Possible, UpToDate, Untimed, Lookup, ComponentsIn, Snapshot, Reports, Shows, Decode, HandleResponse, Apply,
         About, Leaves, Views.Regrouped;
    var b := states[k];
    RunStaysInSync(states, inputs, k);
    Views.ResponsesAreRemembered(b, inputs[k].event.response);
    FramesAreTaken(b.view.cache, others, frame, id);
    assert states[k + 1].view.cache == Apply(b.view.cache, inputs[k].event.response).cache;
    ReadingStays(states, inputs, k + 1, n, id);
    if states[n].connected && states[n].gateway && Controllable(states[n].view.cache[id]) {
      StoreShowsReadings(states, inputs, n, id);
    }
  }

  /** The same for a position notification, in full: percentages and state come from its bytes. */
  lemma PositionsAreShown(states: seq<BridgeState>, inputs: seq<Input>, others: OtherDecoders, frame: Frames.Frame,
                          id: NodeId, k: nat, n: nat)
    requires Bridge.Run(states, inputs) && LastTold(inputs, others, frame, id, k, n)
    requires frame.command == NODE_STATE_POSITION_CHANGED_NTF && id in states[k].view.cache
    requires states[n].connected && states[n].gateway
    requires id in states[n].view.cache && Controllable(states[n].view.cache[id])
    ensures |frame.payload| == 20
    ensures var p, store := frame.payload, states[n].store;
            var current, target := ReadU16(p, 2), ReadU16(p, 4);
            var position, aim := Lookup(store, NodePosition(id)), Lookup(store, NodeTarget(id));
            var state := Lookup(store, NodeState(id));
            && position.Some? && position.value.Percent? && Rounded(position.value.percent, Known(current))
            && aim.Some? && aim.value.Percent? && Rounded(aim.value.percent, Known(target))
            && state.Some? && state.value.StateLabel?
            && (state.value.state == Closed <==> (p[1] == 0 || p[1] == 5) && current == 0xC800)
            && (state.value.state == Open <==> (p[1] == 0 || p[1] == 5) && current < 0xC800)
            && (state.value.state == Closing <==> (p[1] == 3 || p[1] == 4) && current < target <= 0xC800)
            && (state.value.state == Opening <==> (p[1] == 3 || p[1] == 4) && target < current <= 0xC800)
            && var status := Lookup(store, NodeStatus(id));
               && status.Some? && status.value.CoverStatus?
               && status.value.snapshot.position == position.value.percent
               && status.value.snapshot.target == aim.value.percent
               && status.value.snapshot.state == state.value.state
  {
    hide Step, Possible, UpToDate, Untimed, Lookup, ComponentsIn, Snapshot, Decode, LastTold, Rounded;
    LastReportIsShown(states, inputs, others, frame, id, k, n);
  }
}
