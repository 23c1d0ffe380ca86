/** What the broker holds of inventories, groups and node metadata, down to the bytes that told them
    (src/klf200/response.rs, src/mqtt.rs, src/bridge.rs). */
module Descriptions {
  import opened Base
  import opened Values
  import opened Payloads
  import opened Protocol
  import opened Nodes
  import opened Topics
  import opened Retained
  import opened Discovery
  import opened Snapshots
  import opened Bridge
  import Actor
  import Frames
  import Readings
  import SessionIds
  import Views

  // ----- Inventories and groups -----

  /** A list of IDs in ascending order, without repetition, of exactly the given set. */
  ghost predicate Inventories(held: Option<Payload>, ids: set<byte>) {
    && held.Some? && held.value.Ids?
    && (forall id :: id in held.value.ids <==> id in ids)
    && forall i, j :: 0 <= i < j < |held.value.ids| ==> held.value.ids[i] < held.value.ids[j]
  }

  lemma AscendingInventory(ids: set<byte>)
    ensures Inventories(Some(Ids(AscendingIds(ids, 0))), ids)
  {
  }

  lemma UpToDateLists(v: View, store: Store)
    requires UpToDate(v, store)
    ensures Inventories(Lookup(store, NodeInventory), v.cache.Keys)
    ensures Inventories(Lookup(store, GroupInventory), v.groups.Keys)
  {
    hide UpToDate, Lookup, Inventories;
    Readings.HeldAsWanted(v, store, NodeInventory, Ids(AscendingIds(v.cache.Keys, 0)));
    Readings.HeldAsWanted(v, store, GroupInventory, Ids(AscendingIds(v.groups.Keys, 0)));
    AscendingInventory(v.cache.Keys);
    AscendingInventory(v.groups.Keys);
  }

  lemma UpToDateHoldsGroups(v: View, store: Store)
    requires UpToDate(v, store)
    ensures forall id :: id in v.groups ==> Lookup(store, GroupInfo(id)) == Some(GroupData(v.groups[id]))
  {
    hide UpToDate, Lookup;
    forall id | id in v.groups
      ensures Lookup(store, GroupInfo(id)) == Some(GroupData(v.groups[id]))
    {
      Readings.HeldAsWanted(v, store, GroupInfo(id), GroupData(v.groups[id]));
    }
  }

  /** In every state of every run with broker and gateway, the inventories list exactly the nodes and
      groups there are, and each group's topic holds the group as last told. */
  lemma InventoriesAreExact(states: seq<BridgeState>, inputs: seq<Input>, k: nat)
    requires Bridge.Run(states, inputs) && k < |states| && states[k].connected && states[k].gateway
    ensures var v, store := states[k].view, states[k].store;
            && Inventories(Lookup(store, NodeInventory), v.cache.Keys)
            && Inventories(Lookup(store, GroupInventory), v.groups.Keys)
            && forall id :: id in v.groups ==> Lookup(store, GroupInfo(id)) == Some(GroupData(v.groups[id]))
  {
    hide Step, Possible, UpToDate, Snapshot, ComponentsIn, Untimed, Lookup, Inventories;
    RunStaysInSync(states, inputs, k);
    UpToDateLists(states[k].view, states[k].store);
    UpToDateHoldsGroups(states[k].view, states[k].store);
  }

  // ----- Node metadata -----

  /** What a node says of itself. */
  datatype Description = Description(
    name: Utf8, order: u16, placement: byte, serialNumber: seq<byte>, actuatorCode: u16, actuatorSubtype: byte,
    productGroup: byte, productType: byte, buildNumber: byte, controllable: bool)

  function DescriptionOf(n: Node): Description {
    Description(n.name, n.order, n.placement, n.serialNumber, n.actuatorCode, n.actuatorSubtype, n.productGroup,
                n.productType, n.buildNumber, Controllable(n))
  }

  /** The metadata topic of a node presents the description. */
  ghost predicate Presents(store: Store, id: NodeId, d: Description) {
    var info := Lookup(store, NodeInfo(id));
    && info.Some? && info.value.NodeData?
    && var m := info.value.metadata;
       && m.id == id && m.name == d.name && m.order == d.order && m.placement == d.placement
       && m.serialNumber == d.serialNumber && m.actuatorCode == d.actuatorCode
       && m.actuatorSubtype == d.actuatorSubtype && m.productGroup == d.productGroup
       && m.productType == d.productType && m.buildNumber == d.buildNumber
       && (m.controllable <==> d.controllable)
  }

  lemma UpToDatePresents(v: View, store: Store, id: NodeId)
    requires UpToDate(v, store) && Keyed(v.cache) && id in v.cache
    ensures Presents(store, id, DescriptionOf(v.cache[id]))
  {
    assert Agrees(Wanted(v, NodeInfo(id)), Lookup(store, NodeInfo(id)));
  }

  /** In every state of every run with broker and gateway, each node's metadata topic presents it. */
  lemma StorePresentsNodes(states: seq<BridgeState>, inputs: seq<Input>, k: nat, id: NodeId)
    requires Bridge.Run(states, inputs) && k < |states| && states[k].connected && states[k].gateway
    requires id in states[k].view.cache
    ensures Presents(states[k].store, id, DescriptionOf(states[k].view.cache[id]))
  {
    hide Step, Possible, UpToDate, Presents, Snapshot, ComponentsIn, Untimed, Lookup;
    RunStaysInSync(states, inputs, k);
    UpToDatePresents(states[k].view, states[k].store, id);
  }

  // ----- What a frame tells -----

  /** The node a frame describes, in full or in part. */
  function Describes(frame: Frames.Frame): Option<NodeId> {
    match frame.command
    case 0x0204 | 0x0210 | 0x020C => if |frame.payload| > 0 then Some(frame.payload[0]) else None
    case _ => None
  }

  predicate Complete(frame: Frames.Frame) {
    match frame.command
    case 0x0204 | 0x0210 => |frame.payload| == 124
    case 0x020C => |frame.payload| == 69
    case _ => true
  }

  /** The codes of the actuators driven as covers: blinds and louvres, roller and swinging shutters, awnings,
      window, garage, gate and rolling door openers, and curtain tracks. */
  const COVERS: set<u16> := {1, 2, 3, 4, 5, 7, 8, 10, 16, 17, 18, 19, 24}

  /** The description is what a frame about the node tells; a change leaves the rest as it was. */
  predicate Reports(frame: Frames.Frame, before: Description, after: Description)
    requires Complete(frame)
  {
    var p := frame.payload;
    match frame.command
    case 0x0204 | 0x0210 =>
      && DecodeFixedString(p[4..68]) == Ok(after.name) && after.order == ReadU16(p, 1) && after.placement == p[3]
      && after.serialNumber == p[76..84] && after.actuatorCode == ReadU16(p, 69) / 64
      && after.actuatorSubtype == ReadU16(p, 69) % 64 && after.productGroup == p[71] && after.productType == p[72]
      && after.buildNumber == p[75]
      && (after.controllable <==> after.actuatorCode in COVERS)
    case 0x020C =>
      && DecodeFixedString(p[1..65]) == Ok(after.name) && after.order == ReadU16(p, 65) && after.placement == p[67]
      && after == before.(name := after.name, order := after.order, placement := after.placement)
    case _ => after == before
  }

  const NO_DESCRIPTION: Description := Description([], 0, 0, [], 0, 0, 0, 0, 0, false)

  function DescriptionIn(cache: Cache, id: NodeId): Description {
    if id in cache then DescriptionOf(cache[id]) else NO_DESCRIPTION
  }

  /** The node is there after the frame, with the description in its bytes. */
  predicate Takes(cache: Cache, frame: Frames.Frame, after: Cache, id: NodeId) {
    Complete(frame) && id in after && Reports(frame, DescriptionIn(cache, id), DescriptionOf(after[id]))
  }

  lemma InformationIsTaken(cache: Cache, frame: Frames.Frame, id: NodeId)
    requires Readings.Introduces(frame) && Describes(frame) == Some(id)
    requires DecodeNodeInformation(frame.payload, frame.command).Ok?
    ensures var info := DecodeNodeInformation(frame.payload, frame.command).value;
            Takes(cache, frame, Apply(cache, NodeInformationReceived(info)).cache, id)
  {
    hide DecodeFixedString, OperatingStateOf, FromRaw, RelativePosition, KnownTime;
  }

  lemma ChangeIsTaken(cache: Cache, frame: Frames.Frame, id: NodeId)
    requires Keyed(cache) && id in cache && frame.command == 0x020C && Describes(frame) == Some(id)
    requires DecodeNodeInformationChanged(frame.payload, frame.command).Ok?
    ensures var change := DecodeNodeInformationChanged(frame.payload, frame.command).value;
            Takes(cache, frame, Apply(cache, NodeInformationUpdated(change)).cache, id)
  {
    hide DecodeFixedString;
  }

  /** A decoded description is taken over byte by byte. */
  lemma DescriptionsAreTaken(cache: Cache, others: OtherDecoders, frame: Frames.Frame, id: NodeId)
    requires Keyed(cache) && Decode(others, frame).Ok? && Describes(frame) == Some(id)
    requires id in cache || Readings.Introduces(frame)
    ensures Takes(cache, frame, Apply(cache, Decode(others, frame).value).cache, id)
  {
    hide DecodeNodeInformation, DecodeNodeInformationChanged, Apply, Takes;
    if frame.command == 0x020C {
      ChangeIsTaken(cache, frame, id);
    } else {
      InformationIsTaken(cache, frame, id);
    }
  }

  // ----- The last frame that describes a node -----

  predicate Mentions(r: Response, id: NodeId) {
    match r
    case NodeInformationReceived(info) => info.nodeId == id
    case NodeInformationUpdated(change) => change.nodeId == id
    case _ => false
  }

  /** The input does not describe the node: no setup and no notification that does. */
  predicate Leaves(i: Input, id: NodeId) {
    match i
    case Ready(_) => false
    case GatewayEvent(e, _, _) => e.Notification? ==> !Mentions(e.response, id)
    case _ => true
  }

  lemma UnmentionedKeepsDescription(cache: Cache, r: Response, id: NodeId)
    requires Keyed(cache) && id in cache && !Mentions(r, id)
    ensures var after := Apply(cache, r).cache;
            id in after && DescriptionOf(after[id]) == DescriptionOf(cache[id])
  {
    hide FromInformation, StrategyFor;
    Readings.NodesHaveTheirIds(r);
  }

  lemma CoverKeepsDescription(b: BridgeState, node: NodeId, action: CoverAction, answer: GatewayAnswer, id: NodeId)
    requires id in b.view.cache
    ensures var after := CoverAsked(b, node, action, answer).view.cache;
            id in after && DescriptionOf(after[id]) == DescriptionOf(b.view.cache[id])
  {
    hide SessionIds.Perform, Resolve, CoverCommand, NodeStatusPublications, Confirmed, DescriptionOf;
    ConfirmedKeepsDescription();
  }

  lemma ConfirmedKeepsDescription()
    ensures forall n, r, session, e :: DescriptionOf(Confirmed(n, r, session, e)) == DescriptionOf(n)
  {
  }

  lemma StepKeepsDescription(b: BridgeState, i: Input, id: NodeId)
    requires Keyed(b.view.cache) && Possible(b, i) && Leaves(i, id) && id in b.view.cache
    ensures var after := Step(b, i).view.cache;
            id in after && DescriptionOf(after[id]) == DescriptionOf(b.view.cache[id])
  {
    hide Step, Possible, CoverAsked, Apply;
    if i.Cover? {
      Readings.CoverIsStep(b, i);
      CoverKeepsDescription(b, i.node, i.action, i.answer, id);
    } else {
      Views.NodesChangeAsTold(b, i);
      if i.GatewayEvent? && i.event.Notification? {
        UnmentionedKeepsDescription(b.view.cache, i.event.response, id);
      }
    }
  }

  lemma {:induction false} DescriptionStays(states: seq<BridgeState>, inputs: seq<Input>, k: nat, n: nat, id: NodeId)
    requires Bridge.Run(states, inputs) && k <= n < |states| && id in states[k].view.cache
    requires forall j :: k <= j < n ==> Leaves(inputs[j], id)
    ensures id in states[n].view.cache
    ensures DescriptionOf(states[n].view.cache[id]) == DescriptionOf(states[k].view.cache[id])
    decreases n
  {
    hide Step, Possible, Leaves, DescriptionOf, UpToDate, Untimed, Lookup, ComponentsIn, Snapshot;
    if k < n {
      DescriptionStays(states, inputs, k, n - 1, id);
      RunStaysInSync(states, inputs, n - 1);
      StepKeepsDescription(states[n - 1], inputs[n - 1], id);
    }
  }

  /** With broker and gateway, a node's metadata topic presents the bytes of the last frame that
      describes it. */
  lemma LastDescriptionIsShown(states: seq<BridgeState>, inputs: seq<Input>, others: OtherDecoders,
                               frame: Frames.Frame, id: NodeId, k: nat, n: nat)
    requires Bridge.Run(states, inputs) && k < n <= |inputs|
    requires Readings.Carries(inputs[k], others, frame) && Describes(frame) == Some(id)
    requires id in states[k].view.cache || Readings.Introduces(frame)
    requires forall j :: k < j < n ==> Leaves(inputs[j], id)
    ensures id in states[n].view.cache && Complete(frame)
    ensures var node := states[n].view.cache[id];
            && Reports(frame, DescriptionIn(states[k].view.cache, id), DescriptionOf(node))
            && (states[n].connected && states[n].gateway ==>
                  Presents(states[n].store, id, DescriptionOf(node)))
  {
    hide Possible, UpToDate, Untimed, Lookup, ComponentsIn, Snapshot, Reports, Presents, Decode, HandleResponse, Apply,
         Describes, Leaves, Views.Regrouped;
    var b := states[k];
    RunStaysInSync(states, inputs, k);
    Views.ResponsesAreRemembered(b, inputs[k].event.response);
    DescriptionsAreTaken(b.view.cache, others, frame, id);
    assert states[k + 1].view.cache == Apply(b.view.cache, inputs[k].event.response).cache;
    DescriptionStays(states, inputs, k + 1, n, id);
    if states[n].connected && states[n].gateway {
      StorePresentsNodes(states, inputs, n, id);
    }
  }
}
