/** The broker's retained store and what the bridge publishes into it (src/mqtt.rs). JSON texts are
    represented by the values they are printed from. */
module Retained {
  import opened Base
  import opened Values
  import opened Payloads
  import opened Topics
  import Nodes

  datatype NodeMetadata = NodeMetadata(
    id: NodeId, name: Utf8, serialNumber: seq<byte>, actuatorCode: u16, actuatorSubtype: byte, productGroup: byte,
    productType: byte, controllable: bool, order: u16, placement: byte, buildNumber: byte, timestamp: Option<u32>)

  datatype CoverSnapshot = CoverSnapshot(
    state: Nodes.CoverState, position: Option<byte>, target: Option<byte>, operating: OperatingState,
    remainingTime: Option<u16>)

  datatype DisplayName = Given(name: Utf8) | Numbered(group: GroupId)

  /** A cover as described to Home Assistant: a node with state topics or a group without. */
  datatype Component =
    | NodeCover(name: DisplayName, node: NodeId, deviceClass: string)
    | GroupCover(name: DisplayName, group: GroupId)

  /** In a document a component is described in full or reduced to its platform, to be removed. */
  datatype Entry = Full(component: Component) | Stub

  datatype Payload =
    | Online
    | Offline
    | Ids(ids: seq<byte>)
    | NodeData(metadata: NodeMetadata)
    | GroupData(information: GroupInformation)
    | CoverStatus(snapshot: CoverSnapshot)
    | StateLabel(state: Nodes.CoverState)
    | Percent(percent: Option<byte>)
    | Document(entries: map<string, Entry>)
    | Migrate

  /** A retained publication; no payload is the empty payload, which clears the topic. */
  datatype Publication = Publication(topic: Topic, payload: Option<Payload>)

  type Store = map<Topic, Payload>

  function Lookup(store: Store, t: Topic): Option<Payload> {
    if t in store then Some(store[t]) else None
  }

  function Publish(store: Store, p: Publication): Store {
    match p.payload
    case Some(payload) => store[p.topic := payload]
    case None => store - {p.topic}
  }

  function PublishAll(store: Store, ps: seq<Publication>): Store
    decreases |ps|
  {
    if ps == [] then store else PublishAll(Publish(store, ps[0]), ps[1..])
  }

  /** What a list of publications leaves on a topic; nothing if it does not mention the topic. */
  function LastOn(ps: seq<Publication>, t: Topic): Option<Option<Payload>> {
    if ps == [] then None
    else
      match LastOn(ps[1..], t)
      case Some(later) => Some(later)
      case None => if ps[0].topic == t then Some(ps[0].payload) else None
  }

  lemma {:induction false} PublishAllLeavesTheLast(store: Store, ps: seq<Publication>, t: Topic)
    ensures Lookup(PublishAll(store, ps), t) == match LastOn(ps, t)
                                                case Some(last) => last
                                                case None => Lookup(store, t)
    decreases |ps|
  {
    if ps != [] {
      PublishAllLeavesTheLast(Publish(store, ps[0]), ps[1..], t);
    }
  }

  lemma {:induction false} LastOnConcat(a: seq<Publication>, b: seq<Publication>, t: Topic)
    ensures LastOn(a + b, t) == if LastOn(b, t).Some? then LastOn(b, t) else LastOn(a, t)
  {
    if a == [] {
      assert a + b == b;
    } else {
      assert (a + b)[1..] == a[1..] + b;
      LastOnConcat(a[1..], b, t);
    }
  }

  lemma {:induction false} PublishAllConcat(store: Store, a: seq<Publication>, b: seq<Publication>)
    ensures PublishAll(store, a + b) == PublishAll(PublishAll(store, a), b)
    decreases |a|
  {
    if a == [] {
      assert a + b == b;
    } else {
      assert (a + b)[1..] == a[1..] + b;
      PublishAllConcat(Publish(store, a[0]), a[1..], b);
    }
  }

  /** Two stores with the same topic contents are the same store. */
  lemma SameStore(a: Store, b: Store)
    requires forall t :: Lookup(a, t) == Lookup(b, t)
    ensures a == b
  {
    assert forall t :: t in a <==> Lookup(a, t).Some?;
    assert forall t :: t in b <==> Lookup(b, t).Some?;
    assert forall t :: t in a ==> Lookup(a, t) == Some(a[t]);
    assert forall t :: t in b ==> Lookup(b, t) == Some(b[t]);
  }

  // ----- Publications of one node or group -----

  function Timestamp(n: Nodes.Node): Option<u32> {
    match n.freshness
    case Some(f) => f.timestamp
    case None => None
  }

  function MetadataOf(n: Nodes.Node): NodeMetadata {
    NodeMetadata(n.id, n.name, n.serialNumber, n.actuatorCode, n.actuatorSubtype, n.productGroup, n.productType,
                 Nodes.Controllable(n), n.order, n.placement, n.buildNumber, Timestamp(n))
  }

  function OpenPercentOf(position: Option<u16>): Option<byte> {
    match position
    case Some(raw) => Some(Nodes.OpenPercent(raw))
    case None => None
  }

  /** The state label of the operating state does not tell unknown codes apart. */
  function Labelled(s: OperatingState): OperatingState {
    if s.UnknownState? then UnknownState(0) else s
  }

  function SnapshotOf(n: Nodes.Node): CoverSnapshot {
    CoverSnapshot(Nodes.State(n), OpenPercentOf(n.current), OpenPercentOf(n.target), Labelled(n.operatingState),
                  n.remainingTime)
  }

  function InfoPublication(n: Nodes.Node): Publication {
    Publication(NodeInfo(n.id), Some(NodeData(MetadataOf(n))))
  }

  function StatusPublications(n: Nodes.Node): seq<Publication> {
    var s := SnapshotOf(n);
    [Publication(NodeStatus(n.id), Some(CoverStatus(s))),
     Publication(NodeState(n.id), Some(StateLabel(s.state))),
     Publication(NodePosition(n.id), Some(Percent(s.position))),
     Publication(NodeTarget(n.id), Some(Percent(s.target)))]
  }

  function ClearNodePublications(id: NodeId): seq<Publication> {
    [Publication(NodeInfo(id), None), Publication(NodeStatus(id), None), Publication(NodeState(id), None),
     Publication(NodePosition(id), None), Publication(NodeTarget(id), None)]
  }

  function GroupInfoPublication(g: GroupInformation): Publication {
    Publication(GroupInfo(g.groupId), Some(GroupData(g)))
  }

  function AvailabilityPublication(online: bool): Publication {
    Publication(Availability, Some(if online then Online else Offline))
  }
}
