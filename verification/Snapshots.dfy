/** The complete snapshot of src/bridge.rs and what it means for a retained store to agree with it. */
module Snapshots {
  import opened Base
  import opened Values
  import opened Payloads
  import opened Topics
  import opened Retained
  import opened Identifiers
  import opened Discovery
  import opened Nodes

  type Groups = map<GroupId, GroupInformation>

  /** What the bridge knows; the client ID is there when discovery is switched on. */
  datatype View = View(cache: Cache, groups: Groups, discovery: Option<string>)

  predicate GroupsKeyed(groups: Groups) {
    forall id :: id in groups ==> groups[id].groupId == id
  }

  predicate Proper(v: View) {
    Keyed(v.cache) && GroupsKeyed(v.groups)
  }

  function NodesOf(v: View): seq<Node> {
    InOrder(v.cache, AscendingIds(v.cache.Keys, 0))
  }

  function GroupsOf(v: View): seq<GroupInformation> {
    InOrder(v.groups, AscendingIds(v.groups.Keys, 0))
  }

  function ComponentsIn(v: View): Components {
    match v.discovery
    case Some(client) => ComponentsOf(client, NodesOf(v), GroupsOf(v))
    case None => map[]
  }

  // ----- The publications -----

  function NodeInventoryPublication(cache: Cache): Publication {
    Publication(NodeInventory, Some(Ids(AscendingIds(cache.Keys, 0))))
  }

  function GroupInventoryPublication(groups: Groups): Publication {
    Publication(GroupInventory, Some(Ids(AscendingIds(groups.Keys, 0))))
  }

  function NodePublications(n: Node): seq<Publication> {
    [InfoPublication(n)] + if Controllable(n) then StatusPublications(n) else []
  }

  function AllNodePublications(nodes: seq<Node>): seq<Publication> {
    if nodes == [] then []
    else AllNodePublications(nodes[..|nodes| - 1]) + NodePublications(nodes[|nodes| - 1])
  }

  function AllGroupPublications(groups: seq<GroupInformation>): seq<Publication> {
    if groups == [] then []
    else AllGroupPublications(groups[..|groups| - 1]) + [GroupInfoPublication(groups[|groups| - 1])]
  }

  function DiscoveryPublications(v: View, known: set<string>, order: seq<string>): seq<Publication> {
    if v.discovery.None? then [] else Announcement(known, ComponentsIn(v), order)
  }

  function BasePublications(v: View): seq<Publication> {
    [NodeInventoryPublication(v.cache), GroupInventoryPublication(v.groups)]
    + AllNodePublications(NodesOf(v)) + AllGroupPublications(GroupsOf(v))
  }

  /** All of a snapshot but the availability around it. */
  function Contents(v: View, known: set<string>, order: seq<string>): seq<Publication> {
    BasePublications(v) + DiscoveryPublications(v, known, order)
  }

  function Snapshot(v: View, known: set<string>, order: seq<string>): seq<Publication> {
    [AvailabilityPublication(false)] + Contents(v, known, order) + [AvailabilityPublication(true)]
  }

  ghost predicate ListsKeys(order: seq<string>, c: Components) {
    forall key :: key in order <==> key in c
  }

  // ----- What a store should hold -----

  function WantedOfNode(n: Node, t: Topic): Option<Option<Payload>> {
    var s := SnapshotOf(n);
    match t
    case NodeInfo(_) => Some(Some(NodeData(MetadataOf(n))))
    case NodeStatus(_) => if Controllable(n) then Some(Some(CoverStatus(s))) else None
    case NodeState(_) => if Controllable(n) then Some(Some(StateLabel(s.state))) else None
    case NodePosition(_) => if Controllable(n) then Some(Some(Percent(s.position))) else None
    case NodeTarget(_) => if Controllable(n) then Some(Some(Percent(s.target))) else None
    case _ => None
  }

  /** The node a topic is about. */
  function NodeOf(t: Topic): Option<NodeId> {
    match t
    case NodeInfo(id) => Some(id)
    case NodeStatus(id) => Some(id)
    case NodeState(id) => Some(id)
    case NodePosition(id) => Some(id)
    case NodeTarget(id) => Some(id)
    case _ => None
  }

  function WantedOfDiscovery(v: View, t: Topic): Option<Option<Payload>> {
    if v.discovery.None? then None
    else
      match t
      case Device => Some(DevicePayload(ComponentsIn(v)))
      case Legacy(key) => if key in ComponentsIn(v) then Some(None) else None
      case _ => None
  }

  /** For each topic: what it has to hold, that it has to be clear, or that nothing is asked of it. */
  function Wanted(v: View, t: Topic): Option<Option<Payload>> {
    match t
    case Availability => Some(Some(Online))
    case NodeInventory => Some(NodeInventoryPublication(v.cache).payload)
    case GroupInventory => Some(GroupInventoryPublication(v.groups).payload)
    case GroupInfo(id) => if id in v.groups then Some(Some(GroupData(v.groups[id]))) else None
    case Device => WantedOfDiscovery(v, t)
    case Legacy(_) => WantedOfDiscovery(v, t)
    case _ =>
      var id := NodeOf(t).value;
      if id in v.cache then WantedOfNode(v.cache[id], t) else None
  }

  /** The timestamp inside node metadata may lag behind. */
  function Untimed(p: Option<Payload>): Option<Payload> {
    if p.Some? && p.value.NodeData? then Some(NodeData(p.value.metadata.(timestamp := None))) else p
  }

  predicate Agrees(wanted: Option<Option<Payload>>, held: Option<Payload>) {
    wanted.Some? ==> Untimed(held) == Untimed(wanted.value)
  }

  /** The store holds what a snapshot of the view would put there. */
  ghost predicate UpToDate(v: View, store: Store) {
    forall t :: Agrees(Wanted(v, t), Lookup(store, t))
  }

  // ----- A snapshot puts there what is wanted -----

  lemma NodePublicationsLeave(n: Node, t: Topic)
    ensures LastOn(NodePublications(n), t) == if NodeOf(t) == Some(n.id) then WantedOfNode(n, t) else None
  {
    hide SnapshotOf, MetadataOf;
    LastOnConcat([InfoPublication(n)], if Controllable(n) then StatusPublications(n) else [], t);
    LastOnSingle(InfoPublication(n), t);
    if Controllable(n) {
      assert n.strategy.value.MainParameter?;
      assert n.(strategy := Some(MainParameter)) == n;
      StatusPublicationsLeave(n, t);
    }
  }

  lemma StatusPublicationsLeave(n: Node, t: Topic)
    ensures LastOn(StatusPublications(n), t)
         == if NodeOf(t) == Some(n.id) && !t.NodeInfo? then WantedOfNode(n.(strategy := Some(MainParameter)), t)
            else None
  {
    hide LastOn, MetadataOf;
    var ps := StatusPublications(n);
    assert SnapshotOf(n.(strategy := Some(MainParameter))) == SnapshotOf(n);
    assert ps == [ps[0]] + [ps[1]] + [ps[2]] + [ps[3]];
    LastOnConcat([ps[0]] + [ps[1]] + [ps[2]], [ps[3]], t);
    LastOnConcat([ps[0]] + [ps[1]], [ps[2]], t);
    LastOnConcat([ps[0]], [ps[1]], t);
    LastOnSingle(ps[0], t);
    LastOnSingle(ps[1], t);
    LastOnSingle(ps[2], t);
    LastOnSingle(ps[3], t);
  }

  lemma {:induction false} AllNodesLeave(cache: Cache, ids: seq<NodeId>, t: Topic)
    requires Keyed(cache) && forall id :: id in ids ==> id in cache
    ensures LastOn(AllNodePublications(InOrder(cache, ids)), t)
         == if NodeOf(t).Some? && NodeOf(t).value in ids then WantedOfNode(cache[NodeOf(t).value], t) else None
    decreases |ids|
  {
    hide NodePublications, WantedOfNode;
    if ids != [] {
      var n := |ids| - 1;
      var nodes := InOrder(cache, ids);
      assert nodes[..n] == InOrder(cache, ids[..n]);
      AllNodesLeave(cache, ids[..n], t);
      LastOnConcat(AllNodePublications(nodes[..n]), NodePublications(nodes[n]), t);
      NodePublicationsLeave(nodes[n], t);
      assert ids == ids[..n] + [ids[n]];
    }
  }

  lemma {:induction false} AllGroupsLeave(groups: Groups, ids: seq<GroupId>, t: Topic)
    requires GroupsKeyed(groups) && forall id :: id in ids ==> id in groups
    ensures LastOn(AllGroupPublications(InOrder(groups, ids)), t)
         == if t.GroupInfo? && t.group in ids then Some(Some(GroupData(groups[t.group]))) else None
    decreases |ids|
  {
    if ids != [] {
      var n := |ids| - 1;
      var all := InOrder(groups, ids);
      assert all[..n] == InOrder(groups, ids[..n]);
      AllGroupsLeave(groups, ids[..n], t);
      LastOnConcat(AllGroupPublications(all[..n]), [GroupInfoPublication(all[n])], t);
      LastOnSingle(GroupInfoPublication(all[n]), t);
      assert ids == ids[..n] + [ids[n]];
    }
  }

  lemma DiscoveryLeaves(v: View, known: set<string>, order: seq<string>, t: Topic)
    requires ListsKeys(order, ComponentsIn(v))
    ensures LastOn(DiscoveryPublications(v, known, order), t) == WantedOfDiscovery(v, t)
  {
    hide Announcement, ComponentsIn, DevicePayload;
    if v.discovery.Some? {
      AnnouncementLeaves(known, ComponentsIn(v), order, t);
    }
  }

  lemma InventoriesLeave(v: View, t: Topic)
    ensures LastOn([NodeInventoryPublication(v.cache), GroupInventoryPublication(v.groups)], t)
         == if t == NodeInventory then Some(NodeInventoryPublication(v.cache).payload)
            else if t == GroupInventory then Some(GroupInventoryPublication(v.groups).payload)
            else None
  {
    var first, second := NodeInventoryPublication(v.cache), GroupInventoryPublication(v.groups);
    assert [first, second] == [first] + [second];
    LastOnConcat([first], [second], t);
    LastOnSingle(first, t);
    LastOnSingle(second, t);
  }

  lemma BaseLeaves(v: View, t: Topic)
    requires Proper(v)
    ensures LastOn(BasePublications(v), t) == if t == Availability || t.Device? || t.Legacy? then None else Wanted(v, t)
  {
    hide LastOn, AllNodePublications, AllGroupPublications, AscendingIds, WantedOfNode, NodeInventoryPublication,
         GroupInventoryPublication;
    var head := [NodeInventoryPublication(v.cache), GroupInventoryPublication(v.groups)];
    var nodes, groups := AllNodePublications(NodesOf(v)), AllGroupPublications(GroupsOf(v));
    LastOnConcat(head + nodes, groups, t);
    LastOnConcat(head, nodes, t);
    InventoriesLeave(v, t);
    AllNodesLeave(v.cache, AscendingIds(v.cache.Keys, 0), t);
    AllGroupsLeave(v.groups, AscendingIds(v.groups.Keys, 0), t);
  }

  lemma ContentsLeave(v: View, known: set<string>, order: seq<string>, t: Topic)
    requires Proper(v) && ListsKeys(order, ComponentsIn(v))
    ensures LastOn(Contents(v, known, order), t) == if t == Availability then None else Wanted(v, t)
  {
    hide LastOn, BasePublications, DiscoveryPublications, WantedOfNode, WantedOfDiscovery, ComponentsIn,
         NodeInventoryPublication, GroupInventoryPublication;
    LastOnConcat(BasePublications(v), DiscoveryPublications(v, known, order), t);
    BaseLeaves(v, t);
    DiscoveryLeaves(v, known, order, t);
    DiscoveryIsAboutConfiguration(v, t);
  }

  lemma DiscoveryIsAboutConfiguration(v: View, t: Topic)
    ensures WantedOfDiscovery(v, t).Some? ==> t.Device? || t.Legacy?
  {
  }

  lemma SnapshotLeaves(v: View, known: set<string>, order: seq<string>, t: Topic)
    requires Proper(v) && ListsKeys(order, ComponentsIn(v))
    ensures LastOn(Snapshot(v, known, order), t) == Wanted(v, t)
  {
    hide Contents, LastOn, Proper;
    ContentsLeave(v, known, order, t);
    LastOnConcat([AvailabilityPublication(false)] + Contents(v, known, order), [AvailabilityPublication(true)], t);
    LastOnConcat([AvailabilityPublication(false)], Contents(v, known, order), t);
    LastOnSingle(AvailabilityPublication(false), t);
    LastOnSingle(AvailabilityPublication(true), t);
  }

  /** A store agrees with a view exactly when replaying a snapshot would change nothing in it but
      metadata timestamps. */
  lemma UpToDateMeansReplayIsIdle(v: View, store: Store, known: set<string>, order: seq<string>)
    requires Proper(v) && ListsKeys(order, ComponentsIn(v))
    ensures UpToDate(v, store)
       <==> forall t :: Untimed(Lookup(PublishAll(store, Snapshot(v, known, order)), t)) == Untimed(Lookup(store, t))
  {
    hide Snapshot, Wanted, Untimed, Lookup, Proper;
    var after := PublishAll(store, Snapshot(v, known, order));
    forall t
      ensures Untimed(Lookup(after, t)) == Untimed(Lookup(store, t)) <==> Agrees(Wanted(v, t), Lookup(store, t))
    {
      SnapshotLeaves(v, known, order, t);
      PublishAllLeavesTheLast(store, Snapshot(v, known, order), t);
    }
  }

  /** Publishing a snapshot makes any store agree. */
  lemma SnapshotBringsUpToDate(v: View, store: Store, known: set<string>, order: seq<string>)
    requires Proper(v) && ListsKeys(order, ComponentsIn(v))
    ensures UpToDate(v, PublishAll(store, Snapshot(v, known, order)))
  {
    hide Snapshot, Wanted, Untimed, Lookup, Proper;
    var after := PublishAll(store, Snapshot(v, known, order));
    forall t
      ensures Agrees(Wanted(v, t), Lookup(after, t))
    {
      SnapshotLeaves(v, known, order, t);
      PublishAllLeavesTheLast(store, Snapshot(v, known, order), t);
    }
  }

  /** Within a snapshot the bridge is offline until everything else has been published. */
  lemma OnlineComesLast(v: View, known: set<string>, order: seq<string>, i: nat)
    requires Proper(v) && ListsKeys(order, ComponentsIn(v)) && i < |Snapshot(v, known, order)|
    ensures var ps := Snapshot(v, known, order);
            && (ps[i].topic == Availability <==> i == 0 || i == |ps| - 1)
            && ps[0].payload == Some(Offline) && ps[|ps| - 1].payload == Some(Online)
  {
    hide Contents, Proper;
    var middle := Contents(v, known, order);
    ContentsLeave(v, known, order, Availability);
    if 0 < i < |Snapshot(v, known, order)| - 1 {
      assert Snapshot(v, known, order)[i] == middle[i - 1];
      MentionedHasLast(middle, i - 1);
    }
  }

  lemma {:induction false} MentionedHasLast(ps: seq<Publication>, i: nat)
    requires i < |ps|
    ensures LastOn(ps, ps[i].topic).Some?
    decreases |ps|
  {
    if i > 0 {
      MentionedHasLast(ps[1..], i - 1);
    }
  }

  /** If a list of publications covers every topic where two views differ, it carries agreement over
      from one view to the other. */
  lemma PublishingTheDifference(before: View, after: View, store: Store, ps: seq<Publication>)
    requires UpToDate(before, store)
    requires forall t :: Wanted(after, t).Some? ==>
               if LastOn(ps, t).Some? then Untimed(LastOn(ps, t).value) == Untimed(Wanted(after, t).value)
               else Wanted(before, t).Some? && Untimed(Wanted(before, t).value) == Untimed(Wanted(after, t).value)
    ensures UpToDate(after, PublishAll(store, ps))
  {
    hide Wanted, Untimed, Lookup;
    forall t
      ensures Agrees(Wanted(after, t), Lookup(PublishAll(store, ps), t))
    {
      assert Agrees(Wanted(before, t), Lookup(store, t));
      PublishAllLeavesTheLast(store, ps, t);
    }
  }
}
