/** The bridge of src/bridge.rs as a state machine over values: the node and group cache, the session
    IDs and the retained store, from one handler to the next. */
module Bridge {
  import opened Base
  import opened Values
  import opened SessionIds
  import opened Payloads
  import opened Protocol
  import opened Nodes
  import opened Topics
  import opened Retained
  import opened Identifiers
  import opened Discovery
  import opened Snapshots
  import opened Backoff
  import Actor

  type Instant = nat

  /** The store is the broker's while connected; what it is otherwise is of no account. The session
      requests handed to the gateway are kept as a log. */
  datatype BridgeState = BridgeState(
    gateway: bool, connected: bool, view: View, known: set<string>, ids: Allocator, store: Store,
    reconnect: Reconnect, retryAt: Instant, asked: seq<Request>)

  datatype Prepared = Prepared(cache: Cache, groups: Groups, ids: Allocator)

  type GatewayAnswer = Result<Response, KlfError>

  datatype GroupAction = OpenGroup | CloseGroup

  // ----- Publishing -----

  /** Some enumeration of a set of component keys; what is left in the store does not depend on it. */
  ghost function AnyOrder(keys: set<string>): (order: seq<string>)
    ensures forall key :: key in order <==> key in keys
  {
    if keys == {} then []
    else
      var key :| key in keys;
      [key] + AnyOrder(keys - {key})
  }

  ghost function ViewOrder(v: View): (order: seq<string>)
    ensures ListsKeys(order, ComponentsIn(v))
  {
    AnyOrder(ComponentsIn(v).Keys)
  }

  function Sent(b: BridgeState, ps: seq<Publication>): BridgeState {
    if b.connected then b.(store := PublishAll(b.store, ps)) else b
  }

  function Announce(b: BridgeState, online: bool): BridgeState {
    Sent(b, [AvailabilityPublication(online)])
  }

  function KnownAfter(b: BridgeState): set<string> {
    if b.view.discovery.Some? then ComponentsIn(b.view).Keys else b.known
  }

  ghost function DiscoveryMessages(b: BridgeState): seq<Publication> {
    DiscoveryPublications(b.view, b.known, ViewOrder(b.view))
  }

  ghost function Snapshotted(b: BridgeState): BridgeState {
    b.(store := PublishAll(b.store, Snapshot(b.view, b.known, ViewOrder(b.view))), known := KnownAfter(b))
  }

  // ----- Gateway and broker come and go -----

  function ClearNode(discovery: Option<string>, n: Node): seq<Publication> {
    ClearNodePublications(n.id)
    + if discovery.Some? && Controllable(n) then [Publication(Legacy(UniqueId(discovery.value, n)), None)] else []
  }

  function ClearedNodes(v: View, kept: Cache, ids: seq<NodeId>): seq<Publication>
    requires forall id :: id in ids ==> id in v.cache
  {
    if ids == [] then []
    else
      var n := |ids| - 1;
      ClearedNodes(v, kept, ids[..n]) + if ids[n] in kept then [] else ClearNode(v.discovery, v.cache[ids[n]])
  }

  function ClearGroup(discovery: Option<string>, g: GroupInformation): seq<Publication> {
    [Publication(GroupInfo(g.groupId), None)]
    + if discovery.Some? then [Publication(Legacy(GroupKey(discovery.value, g.groupId)), None)] else []
  }

  function ClearedGroups(v: View, kept: Groups, ids: seq<GroupId>): seq<Publication>
    requires forall id :: id in ids ==> id in v.groups
  {
    if ids == [] then []
    else
      var n := |ids| - 1;
      ClearedGroups(v, kept, ids[..n]) + if ids[n] in kept then [] else ClearGroup(v.discovery, v.groups[ids[n]])
  }

  function Cleared(v: View, p: Prepared): seq<Publication> {
    ClearedNodes(v, p.cache, AscendingIds(v.cache.Keys, 0)) + ClearedGroups(v, p.groups, AscendingIds(v.groups.Keys, 0))
  }

  function Adopted(b: BridgeState, p: Prepared): BridgeState {
    b.(gateway := true, view := View(p.cache, p.groups, b.view.discovery), ids := p.ids,
       reconnect := Reset(b.reconnect))
  }

  ghost function SetupDone(b: BridgeState, p: Prepared): BridgeState {
    var adopted := Adopted(b, p);
    if b.connected then Snapshotted(Sent(adopted, Cleared(b.view, p))) else adopted
  }

  function Delayed(b: BridgeState, now: Instant, jitter: nat): BridgeState
    requires jitter <= JitterLimit(b.reconnect.current)
  {
    b.(reconnect := Advanced(b.reconnect), retryAt := now + Delay(b.reconnect.current, jitter))
  }

  function SetupFailed(b: BridgeState, now: Instant, jitter: nat): BridgeState
    requires jitter <= JitterLimit(b.reconnect.current)
  {
    Announce(Delayed(b, now, jitter), false)
  }

  ghost function BrokerConnected(b: BridgeState, store: Store): BridgeState {
    var met := b.(connected := true, store := store);
    if b.gateway then Snapshotted(met) else Announce(met, false)
  }

  function BrokerLost(b: BridgeState): BridgeState {
    b.(connected := false)
  }

  function Offline_(b: BridgeState): BridgeState {
    b.(gateway := false, view := b.view.(cache := SetAvailable(b.view.cache, false)), ids := EMPTY)
  }

  function GatewayFailed(b: BridgeState, now: Instant, jitter: nat): BridgeState
    requires jitter <= JitterLimit(b.reconnect.current)
  {
    if !b.gateway then b else Announce(Delayed(Offline_(b), now, jitter), false)
  }

  function Rebooted(b: BridgeState, now: Instant, delay: nat): BridgeState {
    Announce(Offline_(b).(reconnect := Reset(b.reconnect), retryAt := now + delay), false)
  }

  // ----- What the gateway reports -----

  function Release(b: BridgeState, id: SessionId): BridgeState {
    b.(ids := Perform(b.ids, Operation.Release(id)).allocator)
  }

  /** What a new or changed group makes the bridge publish. */
  ghost function GroupMessages(after: BridgeState, g: GroupInformation): seq<Publication> {
    [GroupInventoryPublication(after.view.groups), GroupInfoPublication(g)] + DiscoveryMessages(after)
  }

  /** What a removed group makes the bridge publish. */
  ghost function DroppedMessages(after: BridgeState, g: GroupInformation): seq<Publication> {
    [GroupInventoryPublication(after.view.groups)] + ClearGroup(after.view.discovery, g) + DiscoveryMessages(after)
  }

  ghost function InsertGroup(b: BridgeState, g: GroupInformation): BridgeState {
    var after := b.(view := b.view.(groups := b.view.groups[g.groupId := g]));
    if !b.connected then after
    else Sent(after, GroupMessages(after, g)).(known := KnownAfter(after))
  }

  ghost function DropGroup(b: BridgeState, id: GroupId): BridgeState {
    if id !in b.view.groups then b
    else
      var after := b.(view := b.view.(groups := b.view.groups - {id}));
      if !b.connected then after
      else Sent(after, DroppedMessages(after, b.view.groups[id])).(known := KnownAfter(after))
  }

  ghost function ApplyGroup(b: BridgeState, r: Response): BridgeState {
    match r
    case GroupInformationReceived(g) => InsertGroup(b, g)
    case GroupChange(changeType, id, information) =>
      if changeType == 1 then if information.Some? then InsertGroup(b, information.value) else b
      else if changeType == 0 then DropGroup(b, id)
      else b
    case GroupDeleted(id) => DropGroup(b, id)
    case _ => b
  }

  predicate IsMetadata(r: Response) {
    r.NodeInformationReceived? || r.NodeInformationUpdated?
  }

  function NodeStatusPublications(n: Node): seq<Publication> {
    if Controllable(n) then StatusPublications(n) else []
  }

  /** What a changed node makes the bridge publish. */
  ghost function NodeMessages(after: BridgeState, added: bool, metadata: bool, n: Node): seq<Publication> {
    (if added then [NodeInventoryPublication(after.view.cache)] else [])
    + (if metadata then [InfoPublication(n)] + DiscoveryMessages(after) else [])
    + NodeStatusPublications(n)
  }

  ghost function ApplyNode(b: BridgeState, r: Response): BridgeState {
    var applied := Apply(b.view.cache, r);
    var after := b.(view := b.view.(cache := applied.cache));
    if applied.changed.None? || !b.connected || applied.changed.value !in applied.cache then after
    else
      var id := applied.changed.value;
      var added := r.NodeInformationReceived? && r.node.nodeId !in b.view.cache;
      var metadata := IsMetadata(r);
      var known := if metadata then KnownAfter(after) else b.known;
      Sent(after, NodeMessages(after, added, metadata, applied.cache[id])).(known := known)
  }

  ghost function HandleResponse(b: BridgeState, r: Response): BridgeState {
    var released := if r.SessionFinished? then Release(b, r.sessionId) else b;
    ApplyNode(ApplyGroup(released, r), r)
  }

  ghost function HandleEvent(b: BridgeState, e: Actor.Event, now: Instant, jitter: nat): BridgeState
    requires jitter <= JitterLimit(b.reconnect.current)
  {
    match e
    case Notification(r) => HandleResponse(b, r)
    case SessionTimedOut(id) => Release(b, id)
    case Disconnected(_) => GatewayFailed(b, now, jitter)
    case UnexpectedResponse(_) => b
    case ProtocolError(_) => b
  }

  // ----- Commands -----

  /** The answers after which a request's session ID stays in use. */
  predicate Kept(command: u16, id: SessionId, answer: GatewayAnswer) {
    match answer
    case Ok(CommandAccepted(_, status)) => command == COMMAND_SEND_REQ && status == 1
    case Ok(StatusAccepted(_, status)) => command == STATUS_REQUEST_REQ && status == 1
    case Ok(ProductGroupResult(session, status)) => command == ACTIVATE_PRODUCTGROUP_REQ && session == id && status == 0
    case _ => false
  }

  function AskStatus(b: BridgeState, node: NodeId, answer: GatewayAnswer): BridgeState {
    var taken := Perform(b.ids, Allocate);
    if taken.result.Err? then b
    else
      var session := taken.result.value;
      var after := b.(ids := taken.allocator, asked := b.asked + [StatusRequest(session, node)]);
      if Kept(STATUS_REQUEST_REQ, session, answer) then after else Release(after, session)
  }

  /** A node whose command was confirmed, published whether or not it changed. */
  function Commanded(b: BridgeState, id: NodeId, n: Node): BridgeState
    requires id in b.view.cache
  {
    Sent(b.(view := b.view.(cache := b.view.cache[id := n])), NodeStatusPublications(n))
  }

  /** The gateway has answered a cover command. */
  function Settled(sent: BridgeState, id: NodeId, session: SessionId, e: Endpoint, answer: GatewayAnswer): BridgeState
    requires id in sent.view.cache
  {
    if Kept(COMMAND_SEND_REQ, session, answer) then
      Commanded(sent, id, Confirmed(sent.view.cache[id], answer.value, session, e))
    else Release(sent, session)
  }

  function CoverAsked(b: BridgeState, id: NodeId, action: CoverAction, answer: GatewayAnswer): BridgeState {
    if id !in b.view.cache then b
    else
      var node := b.view.cache[id];
      if Resolve(node, action).Err? then AskStatus(b, id, answer)
      else
        var taken := Perform(b.ids, Allocate);
        if taken.result.Err? then b
        else
          var session := taken.result.value;
          var after := b.(ids := taken.allocator);
          match CoverCommand(node, session, action)
          case Err(_) => Release(after, session)
          case Ok(request) =>
            Settled(after.(asked := b.asked + [request]), id, session, Resolve(node, action).value, answer)
  }

  function GroupPosition(action: GroupAction): u16 {
    match action
    case OpenGroup => FULLY_OPEN
    case CloseGroup => FULLY_CLOSED
  }

  function GroupAsked(b: BridgeState, id: GroupId, action: GroupAction, answer: GatewayAnswer): BridgeState {
    if id !in b.view.groups then b
    else
      var taken := Perform(b.ids, Allocate);
      if taken.result.Err? then b
      else
        var session := taken.result.value;
        var request := ActivateGroup(session, id, GroupPosition(action), b.view.groups[id].velocity);
        var after := b.(ids := taken.allocator, asked := b.asked + [request]);
        if Kept(ACTIVATE_PRODUCTGROUP_REQ, session, answer) then after else Release(after, session)
  }

  predicate Stationary(n: Node) {
    Controllable(n) && State(n) != Opening && State(n) != Closing
  }

  /** A status request to each node; the n-th answer goes to the n-th request. */
  function Refreshed(b: BridgeState, nodes: seq<NodeId>, answers: seq<GatewayAnswer>): BridgeState
    requires |nodes| == |answers|
    decreases |answers|
  {
    if answers == [] then b else Refreshed(AskStatus(b, nodes[0], answers[0]), nodes[1..], answers[1..])
  }

  function StationaryIds(cache: Cache): seq<NodeId> {
    AscendingIds(set id | id in cache && Stationary(cache[id]), 0)
  }

  // ----- Runs -----

  datatype Input =
    | Connected(store: Store)
    | ConnectionLost
    | Ready(prepared: Prepared)
    | NotReady(now: Instant, jitter: nat)
    | GatewayEvent(event: Actor.Event, now: Instant, jitter: nat)
    | GatewayGone(now: Instant, jitter: nat)
    | Cover(node: NodeId, action: CoverAction, answer: GatewayAnswer)
    | Group(group: GroupId, groupAction: GroupAction, answer: GatewayAnswer)
    | Reboot(now: Instant, delay: nat)
    | Refresh(answers: seq<GatewayAnswer>)

  /** The inputs a state can get: commands, ticks and events need a gateway, a setup its absence. */
  predicate Possible(b: BridgeState, i: Input) {
    match i
    case Connected(_) => true
    case ConnectionLost => true
    case Ready(p) => !b.gateway && Keyed(p.cache) && GroupsKeyed(p.groups)
    case NotReady(_, jitter) => !b.gateway && jitter <= JitterLimit(b.reconnect.current)
    case GatewayEvent(_, _, jitter) => b.gateway && jitter <= JitterLimit(b.reconnect.current)
    case GatewayGone(_, jitter) => b.gateway && jitter <= JitterLimit(b.reconnect.current)
    case Refresh(answers) => b.gateway && |answers| == |StationaryIds(b.view.cache)|
    case _ => b.gateway
  }

  ghost function Step(b: BridgeState, i: Input): BridgeState
    requires Possible(b, i)
  {
    match i
    case Connected(store) => BrokerConnected(b, store)
    case ConnectionLost => BrokerLost(b)
    case Ready(p) => SetupDone(b, p)
    case NotReady(now, jitter) => SetupFailed(b, now, jitter)
    case GatewayEvent(e, now, jitter) => HandleEvent(b, e, now, jitter)
    case GatewayGone(now, jitter) => GatewayFailed(b, now, jitter)
    case Cover(node, action, answer) => CoverAsked(b, node, action, answer)
    case Group(group, action, answer) => GroupAsked(b, group, action, answer)
    case Reboot(now, delay) => Rebooted(b, now, delay)
    case Refresh(answers) => Refreshed(b, StationaryIds(b.view.cache), answers)
  }

  function Initial(discovery: Option<string>, minimum: Duration, maximum: Duration): BridgeState {
    BridgeState(false, false, View(map[], map[], discovery), {}, EMPTY, map[], Fresh(minimum, maximum), 0, [])
  }

  /** The states of a run from its initial state, one input after the other. */
  ghost predicate Run(states: seq<BridgeState>, inputs: seq<Input>) {
    && |states| == |inputs| + 1
    && IsInitial(states[0])
    && forall i :: 0 <= i < |inputs| ==> Possible(states[i], inputs[i]) && states[i + 1] == Step(states[i], inputs[i])
  }

  predicate IsInitial(b: BridgeState) {
    b == Initial(b.view.discovery, b.reconnect.minimum, b.reconnect.maximum)
  }

  // ----- The invariant -----

  /** The maps are keyed by what they hold; and while the broker is connected, availability tells
      whether there is a gateway, and with one the store is current and discovery up to date. */
  ghost predicate InSync(b: BridgeState) {
    && Proper(b.view)
    && (b.connected ==> Lookup(b.store, Availability) == Some(if b.gateway then Online else Offline))
    && (b.connected && b.gateway ==>
          UpToDate(b.view, b.store) && (b.view.discovery.Some? ==> b.known == ComponentsIn(b.view).Keys))
  }

  lemma SnapshottedIsInSync(b: BridgeState)
    requires b.gateway && b.connected && Proper(b.view)
    ensures InSync(Snapshotted(b))
  {
    hide Proper, UpToDate, Snapshot, ComponentsIn;
    var order := ViewOrder(b.view);
    SnapshotBringsUpToDate(b.view, b.store, b.known, order);
    UpToDateIsOnline(b.view, PublishAll(b.store, Snapshot(b.view, b.known, order)));
  }

  lemma UpToDateIsOnline(v: View, store: Store)
    requires UpToDate(v, store)
    ensures Lookup(store, Availability) == Some(Online)
  {
    assert Agrees(Wanted(v, Availability), Lookup(store, Availability));
  }

  /** Without a gateway, all that counts is the availability. */
  lemma AnnouncedIsInSync(b: BridgeState)
    requires !b.gateway && Proper(b.view)
    ensures InSync(Announce(b, false))
  {
    hide Proper;
    PublishAllLeavesTheLast(b.store, [AvailabilityPublication(false)], Availability);
    LastOnSingle(AvailabilityPublication(false), Availability);
  }

  lemma SetAvailableKeepsKeys(b: BridgeState)
    requires Proper(b.view)
    ensures Proper(Offline_(b).view)
  {
  }

  // ----- Groups -----

  lemma InsertGroupKeeps(b: BridgeState, g: GroupInformation)
    requires InSync(b) && b.gateway
    ensures InSync(InsertGroup(b, g))
  {
    hide UpToDate, ComponentsIn, Wanted, DiscoveryPublications, Untimed, LastOn;
    var after := b.(view := b.view.(groups := b.view.groups[g.groupId := g]));
    assert Proper(after.view);
    if b.connected {
      forall t | Wanted(after.view, t).Some?
        ensures Republished(b.view, after.view, GroupMessages(after, g), t)
      {
        InsertedGroupIsRepublished(b, g, t);
      }
      RepublishedKeepsUpToDate(b.view, after.view, b.store, GroupMessages(after, g));
    }
  }

  /** The publications leave what the new view wants on a topic, or the old view wanted it already. */
  predicate Republished(before: View, after: View, ps: seq<Publication>, t: Topic) {
    Wanted(after, t).Some? ==>
      if LastOn(ps, t).Some? then Untimed(LastOn(ps, t).value) == Untimed(Wanted(after, t).value)
      else Wanted(before, t).Some? && Untimed(Wanted(before, t).value) == Untimed(Wanted(after, t).value)
  }

  lemma RepublishedKeepsUpToDate(before: View, after: View, store: Store, ps: seq<Publication>)
    requires UpToDate(before, store)
    requires forall t :: Wanted(after, t).Some? ==> Republished(before, after, ps, t)
    ensures UpToDate(after, PublishAll(store, ps))
    ensures Lookup(PublishAll(store, ps), Availability) == Some(Online)
  {
    hide UpToDate, Wanted, Untimed, LastOn;
    PublishingTheDifference(before, after, store, ps);
    UpToDateIsOnline(after, PublishAll(store, ps));
  }

  lemma TwoThenMore(p: Publication, q: Publication, rest: seq<Publication>, t: Topic)
    ensures LastOn([p, q] + rest, t) == if LastOn(rest, t).Some? then LastOn(rest, t)
                                        else if q.topic == t then Some(q.payload)
                                        else if p.topic == t then Some(p.payload)
                                        else None
  {
    LastOnConcat([p, q], rest, t);
    assert [p, q] == [p] + [q];
    LastOnConcat([p], [q], t);
    LastOnSingle(p, t);
    LastOnSingle(q, t);
  }

  lemma InsertedGroupIsRepublished(b: BridgeState, g: GroupInformation, t: Topic)
    ensures var after := b.(view := b.view.(groups := b.view.groups[g.groupId := g]));
            Republished(b.view, after.view, GroupMessages(after, g), t)
  {
    hide LastOn, DiscoveryPublications, ComponentsIn, WantedOfNode, WantedOfDiscovery, Untimed;
    var after := b.(view := b.view.(groups := b.view.groups[g.groupId := g]));
    TwoThenMore(GroupInventoryPublication(after.view.groups), GroupInfoPublication(g), DiscoveryMessages(after), t);
    DiscoveryLeaves(after.view, after.known, ViewOrder(after.view), t);
    DiscoveryIsAboutConfiguration(after.view, t);
  }

  lemma ClearGroupLeaves(discovery: Option<string>, g: GroupInformation, t: Topic)
    ensures var last := LastOn(ClearGroup(discovery, g), t);
            && (last.Some? ==> last == Some(None) && (t == GroupInfo(g.groupId) || t.Legacy?))
            && (t == GroupInfo(g.groupId) ==> last.Some?)
  {
    hide GroupKey, LastOn;
    var info := Publication(GroupInfo(g.groupId), None);
    NothingOn(t);
    LastOnSingle(info, t);
    if discovery.Some? {
      var legacy := Publication(Legacy(GroupKey(discovery.value, g.groupId)), None);
      LastOnConcat([info], [legacy], t);
      LastOnSingle(legacy, t);
    } else {
      assert ClearGroup(discovery, g) == [info];
    }
  }

  lemma DroppedGroupIsRepublished(b: BridgeState, id: GroupId, t: Topic)
    requires GroupsKeyed(b.view.groups) && id in b.view.groups
    ensures var after := b.(view := b.view.(groups := b.view.groups - {id}));
            Republished(b.view, after.view, DroppedMessages(after, b.view.groups[id]), t)
  {
    hide LastOn, DiscoveryPublications, ComponentsIn, WantedOfNode, ClearGroup, DevicePayload;
    var after := b.(view := b.view.(groups := b.view.groups - {id}));
    var inventory := GroupInventoryPublication(after.view.groups);
    var clear := ClearGroup(b.view.discovery, b.view.groups[id]);
    LastOnConcat([inventory] + clear, DiscoveryMessages(after), t);
    LastOnConcat([inventory], clear, t);
    LastOnSingle(inventory, t);
    ClearGroupLeaves(b.view.discovery, b.view.groups[id], t);
    DiscoveryLeaves(after.view, after.known, ViewOrder(after.view), t);
  }

  lemma DropGroupKeeps(b: BridgeState, id: GroupId)
    requires InSync(b) && b.gateway
    ensures InSync(DropGroup(b, id))
  {
    hide UpToDate, ComponentsIn, Wanted, DiscoveryPublications, Untimed, LastOn, ClearGroup;
    if id in b.view.groups {
      var after := b.(view := b.view.(groups := b.view.groups - {id}));
      assert Proper(after.view);
      if b.connected {
        var ps := DroppedMessages(after, b.view.groups[id]);
        forall t | Wanted(after.view, t).Some?
          ensures Republished(b.view, after.view, ps, t)
        {
          DroppedGroupIsRepublished(b, id, t);
        }
        RepublishedKeepsUpToDate(b.view, after.view, b.store, ps);
      }
    }
  }

  lemma ApplyGroupKeeps(b: BridgeState, r: Response)
    requires InSync(b) && b.gateway
    ensures InSync(ApplyGroup(b, r)) && ApplyGroup(b, r).gateway
  {
    hide InSync, InsertGroup, DropGroup;
    match r
    case GroupInformationReceived(g) => InsertGroupKeeps(b, g); InsertKeepsGateway(b, g);
    case GroupChange(changeType, id, information) =>
      if changeType == 1 && information.Some? {
        InsertGroupKeeps(b, information.value);
        InsertKeepsGateway(b, information.value);
      }
      if changeType == 0 {
        DropGroupKeeps(b, id);
        DropKeepsGateway(b, id);
      }
    case GroupDeleted(id) =>
      DropGroupKeeps(b, id);
      DropKeepsGateway(b, id);
    case _ =>
  }

  lemma InsertKeepsGateway(b: BridgeState, g: GroupInformation)
    ensures InsertGroup(b, g).gateway == b.gateway
  {
  }

  lemma DropKeepsGateway(b: BridgeState, id: GroupId)
    ensures DropGroup(b, id).gateway == b.gateway
  {
  }

  // ----- Nodes -----

  /** Nodes that differ in what their status topics show at most. */
  predicate SameFace(a: Node, b: Node) {
    MetadataOf(a).(timestamp := None) == MetadataOf(b).(timestamp := None) && a.strategy == b.strategy
  }

  lemma {:induction false} SameFacesSameComponents(client: string, a: seq<Node>, b: seq<Node>,
                                                   groups: seq<GroupInformation>)
    requires |a| == |b| && forall i :: 0 <= i < |a| ==> SameFace(a[i], b[i])
    ensures ComponentsOf(client, a, groups) == ComponentsOf(client, b, groups)
    decreases |a| + |groups|
  {
    hide NodeKey, GroupKey, GroupComponent;
    if groups != [] {
      SameFacesSameComponents(client, a, b, groups[..|groups| - 1]);
    } else if a != [] {
      SameFacesSameComponents(client, a[..|a| - 1], b[..|b| - 1], groups);
    }
  }

  lemma SameFacesSameView(before: View, id: NodeId, n: Node)
    requires id in before.cache && SameFace(before.cache[id], n)
    ensures ComponentsIn(before.(cache := before.cache[id := n])) == ComponentsIn(before)
  {
    hide SameFace, AscendingIds, ComponentsOf;
    var after := before.(cache := before.cache[id := n]);
    assert after.cache.Keys == before.cache.Keys;
    assert forall m: Node :: SameFace(m, m) by { FaceIsReflexive(); }
    if before.discovery.Some? {
      SameFacesSameComponents(before.discovery.value, NodesOf(before), NodesOf(after), GroupsOf(before));
    }
  }

  lemma FaceIsReflexive()
    ensures forall m: Node :: SameFace(m, m)
  {
  }

  /** What the changed node at id may be, given what the bridge has to publish for it. */
  ghost predicate Change(before: View, id: NodeId, n: Node, added: bool, metadata: bool) {
    && n.id == id
    && (id !in before.cache ==> added && metadata)
    && (!metadata ==> id in before.cache && SameFace(before.cache[id], n))
  }

  lemma NodeMessagesLeave(after: BridgeState, added: bool, metadata: bool, n: Node, t: Topic)
    requires n.id in after.view.cache && after.view.cache[n.id] == n
    ensures LastOn(NodeMessages(after, added, metadata, n), t)
         == if NodeOf(t) == Some(n.id) then (if t.NodeInfo? && !metadata then None else Wanted(after.view, t))
            else if t == NodeInventory && added then Wanted(after.view, t)
            else if metadata then WantedOfDiscovery(after.view, t)
            else None
  {
    hide LastOn, DiscoveryPublications, ComponentsIn, WantedOfDiscovery, MetadataOf, SnapshotOf;
    var inventory := NodeInventoryPublication(after.view.cache);
    var first := if added then [inventory] else [];
    var second := if metadata then [InfoPublication(n)] + DiscoveryMessages(after) else [];
    LastOnConcat(first + second, NodeStatusPublications(n), t);
    LastOnConcat(first, second, t);
    LastOnSingle(inventory, t);
    LastOnConcat([InfoPublication(n)], DiscoveryMessages(after), t);
    LastOnSingle(InfoPublication(n), t);
    DiscoveryLeaves(after.view, after.known, ViewOrder(after.view), t);
    DiscoveryIsAboutConfiguration(after.view, t);
    NothingOn(t);
    if Controllable(n) {
      assert n.strategy.value.MainParameter?;
      assert n.(strategy := Some(MainParameter)) == n;
      StatusPublicationsLeave(n, t);
    }
  }

  lemma NothingOn(t: Topic)
    ensures LastOn([], t) == None
  {
  }

  lemma ChangedNodeIsRepublished(b: BridgeState, id: NodeId, n: Node, added: bool, metadata: bool, t: Topic)
    requires Change(b.view, id, n, added, metadata)
    ensures var after := b.(view := b.view.(cache := b.view.cache[id := n]));
            Republished(b.view, after.view, NodeMessages(after, added, metadata, n), t)
  {
    hide NodeMessages, LastOn, ComponentsIn, SnapshotOf, DevicePayload, AscendingIds;
    var after := b.(view := b.view.(cache := b.view.cache[id := n]));
    NodeMessagesLeave(after, added, metadata, n, t);
    if id in b.view.cache {
      assert after.view.cache.Keys == b.view.cache.Keys;
    }
    if !metadata {
      SameFacesSameView(b.view, id, n);
    }
  }

  lemma NodeChangeKeeps(b: BridgeState, id: NodeId, n: Node, added: bool, metadata: bool)
    requires InSync(b) && b.gateway && b.connected && Change(b.view, id, n, added, metadata)
    ensures var after := b.(view := b.view.(cache := b.view.cache[id := n]));
            InSync(after.(store := PublishAll(b.store, NodeMessages(after, added, metadata, n)),
                          known := if metadata then KnownAfter(after) else b.known))
  {
    hide UpToDate, ComponentsIn, Wanted, Untimed, LastOn, NodeMessages, SameFace;
    var after := b.(view := b.view.(cache := b.view.cache[id := n]));
    forall t | Wanted(after.view, t).Some?
      ensures Republished(b.view, after.view, NodeMessages(after, added, metadata, n), t)
    {
      ChangedNodeIsRepublished(b, id, n, added, metadata, t);
    }
    RepublishedKeepsUpToDate(b.view, after.view, b.store, NodeMessages(after, added, metadata, n));
    if !metadata {
      SameFacesSameView(b.view, id, n);
    }
  }

  lemma AppliedIsChange(v: View, r: Response)
    requires Keyed(v.cache) && Apply(v.cache, r).changed.Some?
    ensures var applied := Apply(v.cache, r);
            var id := applied.changed.value;
            && id in applied.cache
            && applied.cache == v.cache[id := applied.cache[id]]
            && Change(v, id, applied.cache[id], r.NodeInformationReceived? && r.node.nodeId !in v.cache, IsMetadata(r))
  {
    hide StrategyFor, RelativePosition;
    ApplyReportsExactly(v.cache, r);
  }

  lemma ApplyNodeKeeps(b: BridgeState, r: Response)
    requires InSync(b) && b.gateway
    ensures InSync(ApplyNode(b, r))
  {
    hide Apply, UpToDate, ComponentsIn, NodeMessages, Change;
    ApplyReportsExactly(b.view.cache, r);
    var applied := Apply(b.view.cache, r);
    if applied.changed.None? {
      assert b.(view := b.view.(cache := applied.cache)) == b;
    } else if b.connected {
      AppliedIsChange(b.view, r);
      NodeChangeKeeps(b, applied.changed.value, applied.cache[applied.changed.value],
                      r.NodeInformationReceived? && r.node.nodeId !in b.view.cache, IsMetadata(r));
    }
  }

  /** Neither group nor node updates nor the release of a session ID break agreement. */
  lemma HandleResponseKeeps(b: BridgeState, r: Response)
    requires InSync(b) && b.gateway
    ensures InSync(HandleResponse(b, r))
  {
    hide UpToDate, ComponentsIn, ApplyGroup, ApplyNode, Perform, Proper;
    var released := if r.SessionFinished? then Release(b, r.sessionId) else b;
    assert InSync(released) && released.gateway;
    ApplyGroupKeeps(released, r);
    ApplyNodeKeeps(ApplyGroup(released, r), r);
  }

  // ----- Commands -----

  lemma CommandedKeeps(b: BridgeState, id: NodeId, n: Node)
    requires InSync(b) && b.gateway && id in b.view.cache && n.id == id && SameFace(b.view.cache[id], n)
    ensures InSync(Commanded(b, id, n))
  {
    hide UpToDate, ComponentsIn, DiscoveryMessages, SameFace, StatusPublications;
    if b.connected {
      NodeChangeKeeps(b, id, n, false, false);
      var after := b.(view := b.view.(cache := b.view.cache[id := n]));
      assert NodeMessages(after, false, false, n) == NodeStatusPublications(n);
    }
  }

  lemma SettledKeeps(b: BridgeState, id: NodeId, session: SessionId, e: Endpoint, answer: GatewayAnswer)
    requires InSync(b) && b.gateway && id in b.view.cache
    ensures InSync(Settled(b, id, session, e, answer))
  {
    hide UpToDate, ComponentsIn, Commanded, Perform;
    if Kept(COMMAND_SEND_REQ, session, answer) {
      CommandedKeeps(b, id, Confirmed(b.view.cache[id], answer.value, session, e));
    }
  }

  lemma CoverAskedKeeps(b: BridgeState, id: NodeId, action: CoverAction, answer: GatewayAnswer)
    requires InSync(b) && b.gateway
    ensures InSync(CoverAsked(b, id, action, answer))
  {
    hide UpToDate, ComponentsIn, Settled, Perform, Resolve, CoverCommand, Proper;
    if id in b.view.cache {
      var node := b.view.cache[id];
      var taken := Perform(b.ids, Allocate);
      if Resolve(node, action).Ok? && taken.result.Ok? {
        var session := taken.result.value;
        var command := CoverCommand(node, session, action);
        if command.Ok? {
          var sent := b.(ids := taken.allocator, asked := b.asked + [command.value]);
          SettledKeeps(sent, id, session, Resolve(node, action).value, answer);
        }
      }
    }
  }

  lemma {:induction false} RefreshedOnlyAsks(b: BridgeState, nodes: seq<NodeId>, answers: seq<GatewayAnswer>)
    requires |nodes| == |answers|
    ensures var after := Refreshed(b, nodes, answers);
            after == b.(ids := after.ids, asked := after.asked)
    decreases |answers|
  {
    hide Perform;
    if answers != [] {
      RefreshedOnlyAsks(AskStatus(b, nodes[0], answers[0]), nodes[1..], answers[1..]);
    }
  }

  // ----- Every run -----

  lemma StepKeeps(b: BridgeState, i: Input)
    requires InSync(b) && Possible(b, i)
    ensures InSync(Step(b, i))
  {
    hide UpToDate, ComponentsIn, HandleResponse, CoverAsked, Snapshotted, Announce, Refreshed, Perform, Proper, Cleared;
    match i
    case Connected(store) =>
      if b.gateway {
        SnapshottedIsInSync(b.(connected := true, store := store));
      } else {
        AnnouncedIsInSync(b.(connected := true, store := store));
      }
    case ConnectionLost =>
    case Ready(p) =>
      PreparedIsProper(p, b.view.discovery);
      if b.connected {
        SnapshottedIsInSync(Sent(Adopted(b, p), Cleared(b.view, p)));
      }
    case NotReady(now, jitter) => AnnouncedIsInSync(Delayed(b, now, jitter));
    case GatewayEvent(e, now, jitter) =>
      if e.Notification? {
        HandleResponseKeeps(b, e.response);
      } else if e.Disconnected? {
        SetAvailableKeepsKeys(b);
        AnnouncedIsInSync(Delayed(Offline_(b), now, jitter));
      }
    case GatewayGone(now, jitter) =>
      SetAvailableKeepsKeys(b);
      AnnouncedIsInSync(Delayed(Offline_(b), now, jitter));
    case Cover(node, action, answer) => CoverAskedKeeps(b, node, action, answer);
    case Group(_, _, _) =>
    case Reboot(now, delay) =>
      SetAvailableKeepsKeys(b);
      AnnouncedIsInSync(Offline_(b).(reconnect := Reset(b.reconnect), retryAt := now + delay));
    case Refresh(answers) => RefreshedOnlyAsks(b, StationaryIds(b.view.cache), answers);
  }

  lemma PreparedIsProper(p: Prepared, discovery: Option<string>)
    requires Keyed(p.cache) && GroupsKeyed(p.groups)
    ensures Proper(View(p.cache, p.groups, discovery))
  {
  }

  /** In every state of every run, publishing step by step has left the store as a full snapshot
      would: replaying one changes nothing but metadata timestamps; and while the broker is
      connected, availability tells whether there is a gateway. */
  lemma {:induction false} RunStaysInSync(states: seq<BridgeState>, inputs: seq<Input>, k: nat)
    requires Run(states, inputs) && k < |states|
    ensures var b := states[k];
            && InSync(b)
            && (b.connected ==> Lookup(b.store, Availability) == Some(if b.gateway then Online else Offline))
            && (b.connected && b.gateway ==>
                  forall order, t :: ListsKeys(order, ComponentsIn(b.view)) ==>
                    Untimed(Lookup(PublishAll(b.store, Snapshot(b.view, b.known, order)), t))
                    == Untimed(Lookup(b.store, t)))
    decreases k
  {
    hide UpToDate, ComponentsIn, Step, Possible, Snapshot, Untimed, Lookup;
    if k > 0 {
      RunStaysInSync(states, inputs, k - 1);
      StepKeeps(states[k - 1], inputs[k - 1]);
    }
    var b := states[k];
    if b.connected && b.gateway {
      forall order, t | ListsKeys(order, ComponentsIn(b.view))
        ensures Untimed(Lookup(PublishAll(b.store, Snapshot(b.view, b.known, order)), t)) == Untimed(Lookup(b.store, t))
      {
        UpToDateMeansReplayIsIdle(b.view, b.store, b.known, order);
      }
    }
  }

  // ----- Removed nodes and groups -----

  lemma {:induction false} ClearedNodesLeave(v: View, kept: Cache, ids: seq<NodeId>, t: Topic)
    requires Keyed(v.cache) && forall id :: id in ids ==> id in v.cache
    ensures var last := LastOn(ClearedNodes(v, kept, ids), t);
            && (last.Some? ==> last == Some(None))
            && (NodeOf(t).Some? ==> (last.Some? <==> NodeOf(t).value in ids && NodeOf(t).value !in kept))
            && (last.Some? ==> NodeOf(t).Some? || t.Legacy?)
    decreases |ids|
  {
    hide LastOn, ClearNode;
    NothingOn(t);
    if ids != [] {
      var n := |ids| - 1;
      var node := v.cache[ids[n]];
      ClearedNodesLeave(v, kept, ids[..n], t);
      assert ids == ids[..n] + [ids[n]];
      LastOnConcat(ClearedNodes(v, kept, ids[..n]), if ids[n] in kept then [] else ClearNode(v.discovery, node), t);
      ClearNodeLeaves(v.discovery, node, t);
    }
  }

  lemma ClearNodeLeaves(discovery: Option<string>, n: Node, t: Topic)
    ensures var last := LastOn(ClearNode(discovery, n), t);
            && (last.Some? ==> last == Some(None) && (NodeOf(t) == Some(n.id) || t.Legacy?))
            && (NodeOf(t) == Some(n.id) ==> last.Some?)
  {
    hide UniqueId, LastOn, ClearNodePublications;
    NothingOn(t);
    NodeTopicsAreCleared(n.id, t);
    if discovery.Some? && Controllable(n) {
      var legacy := Publication(Legacy(UniqueId(discovery.value, n)), None);
      LastOnConcat(ClearNodePublications(n.id), [legacy], t);
      LastOnSingle(legacy, t);
    } else {
      assert ClearNodePublications(n.id) + [] == ClearNodePublications(n.id);
    }
  }

  lemma NodeTopicsAreCleared(id: NodeId, t: Topic)
    ensures LastOn(ClearNodePublications(id), t) == if NodeOf(t) == Some(id) then Some(None) else None
  {
    hide LastOn;
    var ps := ClearNodePublications(id);
    assert ps == [ps[0]] + [ps[1]] + [ps[2]] + [ps[3]] + [ps[4]];
    LastOnConcat([ps[0]] + [ps[1]] + [ps[2]] + [ps[3]], [ps[4]], t);
    LastOnConcat([ps[0]] + [ps[1]] + [ps[2]], [ps[3]], t);
    LastOnConcat([ps[0]] + [ps[1]], [ps[2]], t);
    LastOnConcat([ps[0]], [ps[1]], t);
    LastOnSingle(ps[0], t);
    LastOnSingle(ps[1], t);
    LastOnSingle(ps[2], t);
    LastOnSingle(ps[3], t);
    LastOnSingle(ps[4], t);
  }

  lemma {:induction false} ClearedGroupsLeave(v: View, kept: Groups, ids: seq<GroupId>, t: Topic)
    requires GroupsKeyed(v.groups) && forall id :: id in ids ==> id in v.groups
    ensures var last := LastOn(ClearedGroups(v, kept, ids), t);
            && (last.Some? ==> last == Some(None))
            && (t.GroupInfo? ==> (last.Some? <==> t.group in ids && t.group !in kept))
            && (last.Some? ==> t.GroupInfo? || t.Legacy?)
    decreases |ids|
  {
    hide LastOn, ClearGroup;
    NothingOn(t);
    if ids != [] {
      var n := |ids| - 1;
      ClearedGroupsLeave(v, kept, ids[..n], t);
      assert ids == ids[..n] + [ids[n]];
      LastOnConcat(ClearedGroups(v, kept, ids[..n]),
                   if ids[n] in kept then [] else ClearGroup(v.discovery, v.groups[ids[n]]), t);
      ClearGroupLeaves(v.discovery, v.groups[ids[n]], t);
    }
  }

  /** The node or group a topic is about is known to the bridge. */
  predicate Present(v: View, t: Topic) {
    (NodeOf(t).Some? && NodeOf(t).value in v.cache) || (t.GroupInfo? && t.group in v.groups)
  }

  /** The topics of what a new setup no longer lists are cleared exactly if the broker is connected when
      the setup finishes. If it is not, a broker that still retains them keeps them for good. */
  lemma RemovedTopicsAreCleared(b: BridgeState, p: Prepared, t: Topic, later: Store)
    requires Proper(b.view) && Possible(b, Ready(p))
    requires Present(b.view, t) && !Present(Adopted(b, p).view, t)
    ensures t !in SetupDone(b, p).store <==> b.connected || t !in b.store
    ensures !b.connected ==> Lookup(BrokerConnected(SetupDone(b, p), later).store, t) == Lookup(later, t)
  {
    hide LastOn, Snapshot, ClearedNodes, ClearedGroups, AscendingIds, ComponentsIn, WantedOfNode;
    var adopted := Adopted(b, p);
    PreparedIsProper(p, b.view.discovery);
    var nodes, groups := ClearedNodes(b.view, p.cache, AscendingIds(b.view.cache.Keys, 0)),
                         ClearedGroups(b.view, p.groups, AscendingIds(b.view.groups.Keys, 0));
    ClearedNodesLeave(b.view, p.cache, AscendingIds(b.view.cache.Keys, 0), t);
    ClearedGroupsLeave(b.view, p.groups, AscendingIds(b.view.groups.Keys, 0), t);
    LastOnConcat(nodes, groups, t);
    PublishAllLeavesTheLast(b.store, Cleared(b.view, p), t);
    var order := ViewOrder(adopted.view);
    SnapshotLeaves(adopted.view, b.known, order, t);
    var sent := Sent(adopted, Cleared(b.view, p));
    PublishAllLeavesTheLast(sent.store, Snapshot(adopted.view, b.known, order), t);
    PublishAllLeavesTheLast(later, Snapshot(adopted.view, b.known, order), t);
  }

  // ----- Session IDs -----

  /** The active IDs, with one more if it is kept. */
  function Plus(b: BridgeState, session: SessionId, kept: bool): set<SessionId> {
    if kept then b.ids.active + {session} else b.ids.active
  }

  /** A request takes one new session ID and keeps it exactly if its answer says that the session runs;
      every other way out gives it back. */
  lemma RequestsAccountForTheirIds(b: BridgeState, id: NodeId, action: CoverAction, group: GroupId,
                                   groupAction: GroupAction, answer: GatewayAnswer)
    requires Perform(b.ids, Allocate).result.Ok?
    ensures var session := Perform(b.ids, Allocate).result.value;
            && session !in b.ids.active
            && AskStatus(b, id, answer).ids.active == Plus(b, session, Kept(STATUS_REQUEST_REQ, session, answer))
            && GroupAsked(b, group, groupAction, answer).ids.active
               == Plus(b, session, group in b.view.groups && Kept(ACTIVATE_PRODUCTGROUP_REQ, session, answer))
            && (id in b.view.cache && Resolve(b.view.cache[id], action).Ok? ==>
                  CoverAsked(b, id, action, answer).ids.active
                  == Plus(b, session, Controllable(b.view.cache[id]) && Kept(COMMAND_SEND_REQ, session, answer)))
  {
    hide Resolve, Confirmed, StatusPublications, FreeOffset;
    var session := Perform(b.ids, Allocate).result.value;
    AllocateIsExact(b.ids);
    assert b.ids.active + {session} - {session} == b.ids.active;
  }
}
