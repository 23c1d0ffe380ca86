/** The bridge object of src/bridge.rs: its handlers, updating its fields and the retained store in
    place. The cache, the session IDs, the discovery publisher and the backoff are owned by value, as
    they are there; the objects of NodeCache, SessionIds, Discovery and Backoff update the same values. */
module VeluxBridge {
  import opened Base
  import opened Values
  import opened SessionIds
  import opened Payloads
  import opened Protocol
  import opened Nodes
  import opened Topics
  import opened Retained
  import opened Identifiers
  import opened Discovery
  import opened Snapshots
  import opened Backoff
  import opened Bridge
  import Actor

  // ----- Publishing in parts -----

  /** The order in which components are enumerated does not show in the store. */
  lemma OrderDoesNotShow(store: Store, v: View, known: set<string>, a: seq<string>, b: seq<string>)
    requires ListsKeys(a, ComponentsIn(v)) && ListsKeys(b, ComponentsIn(v))
    ensures PublishAll(store, DiscoveryPublications(v, known, a))
         == PublishAll(store, DiscoveryPublications(v, known, b))
  {
    hide DiscoveryPublications, ComponentsIn, PublishAll, Lookup;
    var x := PublishAll(store, DiscoveryPublications(v, known, a));
    var y := PublishAll(store, DiscoveryPublications(v, known, b));
    forall t
      ensures Lookup(x, t) == Lookup(y, t)
    {
      DiscoveryLeaves(v, known, a, t);
      DiscoveryLeaves(v, known, b, t);
      PublishAllLeavesTheLast(store, DiscoveryPublications(v, known, a), t);
      PublishAllLeavesTheLast(store, DiscoveryPublications(v, known, b), t);
    }
    SameStore(x, y);
  }

  lemma PublishNone(store: Store)
    ensures PublishAll(store, []) == store
  {
  }

  lemma PublishOne(store: Store, p: Publication)
    ensures PublishAll(store, [p]) == Retained.Publish(store, p)
  {
    assert [p][1..] == [];
  }

  lemma AnnouncementOfView(b: BridgeState, nodes: seq<Node>, groups: seq<GroupInformation>, order: seq<string>)
    requires b.view.discovery.Some? && nodes == NodesOf(b.view) && groups == GroupsOf(b.view)
    ensures ComponentsIn(b.view) == ComponentsOf(b.view.discovery.value, nodes, groups)
    ensures DiscoveryPublications(b.view, b.known, order) == Announcement(b.known, ComponentsIn(b.view), order)
  {
  }

  /** A snapshot is its parts, published one after the other. */
  lemma SnapshotInParts(b: BridgeState)
    ensures var offline := PublishAll(b.store, [AvailabilityPublication(false)]);
            var ids := PublishAll(offline, [NodeInventoryPublication(b.view.cache)]);
            var groupIds := PublishAll(ids, [GroupInventoryPublication(b.view.groups)]);
            var nodes := PublishAll(groupIds, AllNodePublications(NodesOf(b.view)));
            var groups := PublishAll(nodes, AllGroupPublications(GroupsOf(b.view)));
            PublishAll(b.store, Snapshot(b.view, b.known, ViewOrder(b.view)))
              == PublishAll(PublishAll(groups, DiscoveryMessages(b)), [AvailabilityPublication(true)])
  {
    hide PublishAll, DiscoveryPublications, AllNodePublications, AllGroupPublications, AscendingIds,
         NodeInventoryPublication, GroupInventoryPublication;
    var v, s := b.view, b.store;
    var offline, online := [AvailabilityPublication(false)], [AvailabilityPublication(true)];
    var ids, groupIds := [NodeInventoryPublication(v.cache)], [GroupInventoryPublication(v.groups)];
    var nodes, groups := AllNodePublications(NodesOf(v)), AllGroupPublications(GroupsOf(v));
    var base := BasePublications(v);
    assert [NodeInventoryPublication(v.cache), GroupInventoryPublication(v.groups)] == ids + groupIds;
    assert base == ids + groupIds + nodes + groups;
    PublishAllConcat(s, offline + (base + DiscoveryMessages(b)), online);
    PublishAllConcat(s, offline, base + DiscoveryMessages(b));
    var t := PublishAll(s, offline);
    PublishAllConcat(t, base, DiscoveryMessages(b));
    PublishAllConcat(t, ids + groupIds + nodes, groups);
    PublishAllConcat(t, ids + groupIds, nodes);
    PublishAllConcat(t, ids, groupIds);
  }

  lemma NoDiscoveryNoMessages(b: BridgeState)
    requires b.view.discovery.None?
    ensures DiscoveryMessages(b) == []
  {
  }

  /** What is announced depends on the view and on what was announced before, not on the store. */
  lemma KnownDoesNotShow(a: BridgeState, b: BridgeState)
    requires a.view == b.view && a.known == b.known
    ensures DiscoveryMessages(a) == DiscoveryMessages(b) && KnownAfter(a) == KnownAfter(b)
  {
  }

  method Announced(client: string, known: set<string>, nodes: seq<Node>, groups: seq<GroupInformation>)
    returns (publications: seq<Publication>, announced: set<string>, order: seq<string>)
    ensures forall key :: key in order <==> key in ComponentsOf(client, nodes, groups)
    ensures publications == Announcement(known, ComponentsOf(client, nodes, groups), order)
    ensures announced == ComponentsOf(client, nodes, groups).Keys
  {
    hide ComponentsOf, Announcement;
    var publisher := new HomeAssistantDiscovery.Resumed(client, known);
    publications, order := publisher.Publications(nodes, groups);
    announced := publisher.knownComponents;
  }

  class VeluxMqttBridge {
    var gateway: bool
    var cache: Cache
    var groups: Groups
    var sessionIds: Allocator
    var mqttConnected: bool
    var reconnect: Reconnect
    var nextReconnect: Bridge.Instant
    // The client ID if discovery is switched on, and the components last announced.
    const discovery: Option<string>
    var knownComponents: set<string>
    // The retained store of the broker, and the session requests handed to the gateway.
    ghost var store: Store
    ghost var asked: seq<Request>

    ghost function Model(): BridgeState
      reads this
    {
      BridgeState(gateway, mqttConnected, View(cache, groups, discovery), knownComponents, sessionIds, store, reconnect,
                  nextReconnect, asked)
    }

    ghost predicate Valid()
      reads this
    {
      InSync(Model())
    }

    constructor (discovery: Option<string>, minimum: Duration, maximum: Duration)
      ensures Model() == Initial(discovery, minimum, maximum) && Valid()
    {
      gateway, mqttConnected := false, false;
      cache, groups, sessionIds := map[], map[], EMPTY;
      this.discovery, knownComponents := discovery, {};
      reconnect, nextReconnect := Fresh(minimum, maximum), 0;
      store, asked := map[], [];
    }

    // ----- Publishing -----

    method Publish(p: Publication)
      modifies this`store
      ensures store == PublishAll(old(store), [p])
    {
      PublishOne(store, p);
      store := Retained.Publish(store, p);
    }

    method PublishEach(ps: seq<Publication>)
      modifies this`store
      ensures store == PublishAll(old(store), ps)
    {
      ghost var start := store;
      for i := 0 to |ps|
        invariant store == PublishAll(start, ps[..i])
      {
        assert ps[..i + 1] == ps[..i] + [ps[i]];
        PublishAllConcat(start, ps[..i], [ps[i]]);
        Publish(ps[i]);
      }
      assert ps[..|ps|] == ps;
    }

    method PublishAvailability(online: bool)
      modifies this`store
      ensures Model() == Announce(old(Model()), online)
    {
      if mqttConnected {
        Publish(AvailabilityPublication(online));
      }
    }

    method PublishNodeInventory()
      modifies this`store
      ensures store == PublishAll(old(store), [NodeInventoryPublication(cache)])
    {
      Publish(NodeInventoryPublication(cache));
    }

    method PublishGroupInventory()
      modifies this`store
      ensures store == PublishAll(old(store), [GroupInventoryPublication(groups)])
    {
      Publish(GroupInventoryPublication(groups));
    }

    method PublishHassDiscovery()
      modifies this`store, this`knownComponents
      ensures mqttConnected ==>
                && store == PublishAll(old(store), DiscoveryMessages(old(Model())))
                && knownComponents == KnownAfter(old(Model()))
      ensures !mqttConnected ==> store == old(store) && knownComponents == old(knownComponents)
    {
      hide DiscoveryPublications, ComponentsIn, ComponentsOf, PublishAll, AscendingIds, Announcement;
      ghost var before := Model();
      if mqttConnected && discovery.Some? {
        var nodes := InOrder(cache, AscendingIds(cache.Keys, 0));
        var all := InOrder(groups, AscendingIds(groups.Keys, 0));
        ghost var order;
        var publications;
        publications, knownComponents, order := Announced(discovery.value, knownComponents, nodes, all);
        AnnouncementOfView(before, nodes, all, order);
        PublishEach(publications);
        OrderDoesNotShow(before.store, before.view, before.known, order, ViewOrder(before.view));
      } else if mqttConnected {
        NoDiscoveryNoMessages(before);
        PublishNone(store);
      }
    }

    method PublishNodes()
      modifies this`store
      ensures store == PublishAll(old(store), AllNodePublications(NodesOf(old(Model()).view)))
    {
      hide PublishAll, AscendingIds, NodePublications;
      var nodes := InOrder(cache, AscendingIds(cache.Keys, 0));
      PublishNone(store);
      for i := 0 to |nodes|
        invariant store == PublishAll(old(store), AllNodePublications(nodes[..i]))
      {
        assert nodes[..i + 1][..i] == nodes[..i];
        PublishAllConcat(old(store), AllNodePublications(nodes[..i]), NodePublications(nodes[i]));
        PublishNode(nodes[i]);
      }
      assert nodes[..|nodes|] == nodes;
    }

    method PublishGroups()
      modifies this`store
      ensures store == PublishAll(old(store), AllGroupPublications(GroupsOf(old(Model()).view)))
    {
      hide PublishAll, AscendingIds;
      var all := InOrder(groups, AscendingIds(groups.Keys, 0));
      PublishNone(store);
      for i := 0 to |all|
        invariant store == PublishAll(old(store), AllGroupPublications(all[..i]))
      {
        assert all[..i + 1][..i] == all[..i];
        PublishAllConcat(old(store), AllGroupPublications(all[..i]), [GroupInfoPublication(all[i])]);
        Publish(GroupInfoPublication(all[i]));
      }
      assert all[..|all|] == all;
    }

    method PublishCompleteSnapshot()
      requires mqttConnected
      modifies this`store, this`knownComponents
      ensures Model() == Snapshotted(old(Model()))
    {
      hide DiscoveryPublications, ComponentsIn, PublishAll, AllNodePublications, AllGroupPublications, NodesOf,
           GroupsOf, Snapshot, NodeInventoryPublication, GroupInventoryPublication;
      SnapshotInParts(Model());
      ghost var before := Model();
      Publish(AvailabilityPublication(false));
      PublishNodeInventory();
      PublishGroupInventory();
      PublishNodes();
      PublishGroups();
      KnownDoesNotShow(before, Model());
      PublishHassDiscovery();
      Publish(AvailabilityPublication(true));
    }

    method PublishNode(node: Node)
      modifies this`store
      ensures store == PublishAll(old(store), NodePublications(node))
    {
      hide PublishAll;
      Publish(InfoPublication(node));
      if Controllable(node) {
        PublishEach(StatusPublications(node));
        PublishAllConcat(old(store), [InfoPublication(node)], StatusPublications(node));
      } else {
        assert NodePublications(node) == [InfoPublication(node)];
      }
    }

    method PublishNodeStatus(id: NodeId)
      requires id in cache && Controllable(cache[id])
      modifies this`store
      ensures Model() == Sent(old(Model()), StatusPublications(cache[id]))
    {
      if mqttConnected {
        PublishEach(StatusPublications(cache[id]));
      }
    }

    method ClearRemovedNodes(before: View, kept: Cache)
      requires before.discovery == discovery
      modifies this`store
      ensures store == PublishAll(old(store), ClearedNodes(before, kept, AscendingIds(before.cache.Keys, 0)))
    {
      hide PublishAll, AscendingIds, ClearNode;
      var ids := AscendingIds(before.cache.Keys, 0);
      PublishNone(store);
      for i := 0 to |ids|
        invariant store == PublishAll(old(store), ClearedNodes(before, kept, ids[..i]))
      {
        assert ids[..i + 1][..i] == ids[..i];
        ghost var done := ClearedNodes(before, kept, ids[..i]);
        if ids[i] !in kept {
          PublishAllConcat(old(store), done, ClearNode(discovery, before.cache[ids[i]]));
          PublishEach(ClearNode(discovery, before.cache[ids[i]]));
        } else {
          assert done + [] == done;
        }
      }
      assert ids[..|ids|] == ids;
    }

    method ClearRemovedGroups(before: View, kept: Groups)
      requires before.discovery == discovery
      modifies this`store
      ensures store == PublishAll(old(store), ClearedGroups(before, kept, AscendingIds(before.groups.Keys, 0)))
    {
      hide PublishAll, AscendingIds, ClearGroup;
      var ids := AscendingIds(before.groups.Keys, 0);
      PublishNone(store);
      for i := 0 to |ids|
        invariant store == PublishAll(old(store), ClearedGroups(before, kept, ids[..i]))
      {
        assert ids[..i + 1][..i] == ids[..i];
        ghost var done := ClearedGroups(before, kept, ids[..i]);
        if ids[i] !in kept {
          PublishAllConcat(old(store), done, ClearGroup(discovery, before.groups[ids[i]]));
          PublishEach(ClearGroup(discovery, before.groups[ids[i]]));
        } else {
          assert done + [] == done;
        }
      }
      assert ids[..|ids|] == ids;
    }

    // ----- The gateway and the broker come and go -----

    method ClearRemoved(before: View, prepared: Prepared)
      requires before.discovery == discovery
      modifies this`store
      ensures store == PublishAll(old(store), Cleared(before, prepared))
    {
      hide PublishAll, ClearedNodes, ClearedGroups, AscendingIds;
      PublishAllConcat(store, ClearedNodes(before, prepared.cache, AscendingIds(before.cache.Keys, 0)),
                       ClearedGroups(before, prepared.groups, AscendingIds(before.groups.Keys, 0)));
      ClearRemovedNodes(before, prepared.cache);
      ClearRemovedGroups(before, prepared.groups);
    }

    method Adopt(prepared: Prepared)
      modifies this
      ensures Model() == Adopted(old(Model()), prepared)
    {
      gateway, cache, groups, sessionIds := true, prepared.cache, prepared.groups, prepared.ids;
      reconnect := Reset(reconnect);
    }

    method HandleSetupDone(prepared: Prepared)
      requires Valid() && !gateway && Keyed(prepared.cache) && GroupsKeyed(prepared.groups)
      modifies this
      ensures Valid() && Model() == SetupDone(old(Model()), prepared)
    {
      StepKeeps(Model(), Ready(prepared));
      hide InSync, PublishAll, Snapshotted, Cleared, Adopted;
      ghost var start := Model();
      AdoptedKeepsBroker(start, prepared);
      var before := View(cache, groups, discovery);
      Adopt(prepared);
      if mqttConnected {
        ClearRemoved(before, prepared);
        PublishCompleteSnapshot();
      }
    }

    method HandleSetupFailed(now: Bridge.Instant, jitter: nat)
      requires Valid() && !gateway && jitter <= JitterLimit(reconnect.current)
      modifies this
      ensures Valid() && Model() == SetupFailed(old(Model()), now, jitter)
    {
      StepKeeps(Model(), NotReady(now, jitter));
      hide InSync, PublishAll;
      nextReconnect := now + Delay(reconnect.current, jitter);
      reconnect := Advanced(reconnect);
      PublishAvailability(false);
    }

    /** The broker has answered; what it retains may be anything. */
    method HandleMqttConnected(ghost retained: Store)
      requires Valid()
      modifies this
      ensures Valid() && Model() == BrokerConnected(old(Model()), retained)
    {
      StepKeeps(Model(), Connected(retained));
      hide InSync, PublishAll, Snapshotted;
      mqttConnected := true;
      store := retained;
      if gateway {
        PublishCompleteSnapshot();
      } else {
        PublishAvailability(false);
      }
    }

    method HandleMqttLost()
      requires Valid()
      modifies this`mqttConnected
      ensures Valid() && Model() == BrokerLost(old(Model()))
    {
      StepKeeps(Model(), ConnectionLost);
      mqttConnected := false;
    }

    method GoOffline()
      modifies this
      ensures Model() == Offline_(old(Model()))
    {
      gateway := false;
      cache := SetAvailable(cache, false);
      sessionIds := EMPTY;
    }

    method GatewayFailed(now: Bridge.Instant, jitter: nat)
      requires Valid() && jitter <= JitterLimit(reconnect.current)
      modifies this
      ensures Valid() && Model() == Bridge.GatewayFailed(old(Model()), now, jitter)
    {
      if !gateway {
        return;
      }
      StepKeeps(Model(), GatewayGone(now, jitter));
      hide InSync, PublishAll;
      GoOffline();
      nextReconnect := now + Delay(reconnect.current, jitter);
      reconnect := Advanced(reconnect);
      PublishAvailability(false);
    }

    method ExecuteGatewayReboot(now: Bridge.Instant, delay: nat)
      requires Valid() && gateway
      modifies this
      ensures Valid() && Model() == Rebooted(old(Model()), now, delay)
    {
      StepKeeps(Model(), Reboot(now, delay));
      hide InSync, PublishAll;
      GoOffline();
      reconnect := Reset(reconnect);
      nextReconnect := now + delay;
      PublishAvailability(false);
    }

    // ----- What the gateway reports -----

    method InsertGroup(g: GroupInformation)
      modifies this
      ensures Model() == Bridge.InsertGroup(old(Model()), g)
    {
      hide PublishAll, DiscoveryMessages, KnownAfter, GroupInventoryPublication;
      groups := groups[g.groupId := g];
      ghost var after := Model();
      if mqttConnected {
        InParts(store, [GroupInventoryPublication(groups)], [GroupInfoPublication(g)], DiscoveryMessages(after));
        assert [GroupInventoryPublication(groups)] + [GroupInfoPublication(g)]
            == [GroupInventoryPublication(groups), GroupInfoPublication(g)];
        PublishGroupInventory();
        Publish(GroupInfoPublication(g));
        KnownDoesNotShow(after, Model());
        PublishHassDiscovery();
      }
    }

    method DropGroup(id: GroupId)
      modifies this
      ensures Model() == Bridge.DropGroup(old(Model()), id)
    {
      hide PublishAll, DiscoveryMessages, KnownAfter, GroupInventoryPublication, ClearGroup;
      if id !in groups {
        return;
      }
      var group := groups[id];
      groups := groups - {id};
      ghost var after := Model();
      if mqttConnected {
        InParts(store, [GroupInventoryPublication(groups)], ClearGroup(discovery, group), DiscoveryMessages(after));
        PublishGroupInventory();
        PublishEach(ClearGroup(discovery, group));
        KnownDoesNotShow(after, Model());
        PublishHassDiscovery();
      }
    }

    method ApplyGroupResponse(r: Response)
      modifies this
      ensures Model() == ApplyGroup(old(Model()), r)
    {
      hide Bridge.InsertGroup, Bridge.DropGroup;
      match r {
        case GroupInformationReceived(g) => InsertGroup(g);
        case GroupChange(changeType, id, information) =>
          if changeType == 1 {
            if information.Some? {
              InsertGroup(information.value);
            }
          } else if changeType == 0 {
            DropGroup(id);
          }
        case GroupDeleted(id) => DropGroup(id);
        case _ =>
      }
    }

    method ApplyNodeResponse(r: Response)
      modifies this
      ensures Model() == ApplyNode(old(Model()), r)
    {
      hide PublishAll, DiscoveryMessages, KnownAfter, NodeInventoryPublication, Apply;
      var added := r.NodeInformationReceived? && r.node.nodeId !in cache;
      var metadata := IsMetadata(r);
      var applied := Apply(cache, r);
      cache := applied.cache;
      if applied.changed.Some? && mqttConnected && applied.changed.value in cache {
        PublishChangedNode(cache[applied.changed.value], added, metadata);
      }
    }

    method PublishChangedNode(node: Node, added: bool, metadata: bool)
      requires mqttConnected
      modifies this`store, this`knownComponents
      ensures Model() == old(Model()).(
                           store := PublishAll(old(store), NodeMessages(old(Model()), added, metadata, node)),
                           known := if metadata then KnownAfter(old(Model())) else old(knownComponents))
    {
      hide PublishAll, DiscoveryMessages, KnownAfter, NodeInventoryPublication, InfoPublication, StatusPublications;
      ghost var before := Model();
      ghost var first := if added then [NodeInventoryPublication(cache)] else [];
      ghost var second := if metadata then [InfoPublication(node)] + DiscoveryMessages(before) else [];
      InParts(store, first, second, NodeStatusPublications(node));
      PublishNone(store);
      if added {
        PublishNodeInventory();
      }
      ghost var half := store;
      PublishNone(half);
      if metadata {
        PublishAllConcat(half, [InfoPublication(node)], DiscoveryMessages(before));
        Publish(InfoPublication(node));
        KnownDoesNotShow(before, Model());
        PublishHassDiscovery();
      }
      PublishNone(store);
      if Controllable(node) {
        PublishEach(StatusPublications(node));
      }
    }

    method HandleResponse(r: Response)
      requires Valid() && gateway
      modifies this
      ensures Valid() && Model() == Bridge.HandleResponse(old(Model()), r)
    {
      HandleResponseKeeps(Model(), r);
      hide InSync, ApplyGroup, ApplyNode, Perform;
      if r.SessionFinished? {
        sessionIds := Perform(sessionIds, Operation.Release(r.sessionId)).allocator;
      }
      ApplyGroupResponse(r);
      ApplyNodeResponse(r);
    }

    method HandleGatewayEvent(e: Actor.Event, now: Bridge.Instant, jitter: nat)
      requires Valid() && gateway && jitter <= JitterLimit(reconnect.current)
      modifies this
      ensures Valid() && Model() == HandleEvent(old(Model()), e, now, jitter)
    {
      StepKeeps(Model(), GatewayEvent(e, now, jitter));
      hide InSync, Perform, Bridge.HandleResponse, Bridge.GatewayFailed;
      match e {
        case Notification(r) => HandleResponse(r);
        case SessionTimedOut(id) => sessionIds := Perform(sessionIds, Operation.Release(id)).allocator;
        case Disconnected(_) => GatewayFailed(now, jitter);
        case _ =>
      }
    }

    // ----- Commands; the answers are those of the gateway -----

    method RequestStatus(node: NodeId, answer: GatewayAnswer) returns (accepted: bool)
      modifies this`sessionIds, this`asked
      ensures Model() == AskStatus(old(Model()), node, answer)
      ensures accepted ==>
                exists id :: id !in old(sessionIds).active && sessionIds.active == old(sessionIds).active + {id}
      ensures !accepted ==> sessionIds.active == old(sessionIds).active
    {
      AllocateIsExact(sessionIds);
      hide Perform, FreeOffset;
      var taken := Perform(sessionIds, Allocate);
      if taken.result.Err? {
        return false;
      }
      sessionIds := taken.allocator;
      var id := taken.result.value;
      asked := asked + [StatusRequest(id, node)];
      if answer.Ok? && answer.value.StatusAccepted? && answer.value.status == 1 {
        return true;
      }
      ReleaseGivesBack(old(sessionIds), taken.allocator, id);
      sessionIds := Perform(sessionIds, Operation.Release(id)).allocator;
      return false;
    }

    method ExecuteCoverCommand(id: NodeId, action: CoverAction, answer: GatewayAnswer) returns (done: bool)
      requires Valid() && gateway
      modifies this
      ensures Valid() && Model() == CoverAsked(old(Model()), id, action, answer)
    {
      StepKeeps(Model(), Cover(id, action, answer));
      hide InSync, Perform, Resolve, CoverCommand, AskStatus, Bridge.Settled;
      if id !in cache {
        return false;
      }
      var node := cache[id];
      var endpoint := Resolve(node, action);
      if endpoint.Err? {
        var _ := RequestStatus(id, answer);
        return false;
      }
      var taken := Perform(sessionIds, Allocate);
      if taken.result.Err? {
        return false;
      }
      sessionIds := taken.allocator;
      var session := taken.result.value;
      var request := CoverCommand(node, session, action);
      if request.Err? {
        sessionIds := Perform(sessionIds, Operation.Release(session)).allocator;
        return false;
      }
      asked := asked + [request.value];
      CommandableIsControllable(node, session, action);
      done := Settle(id, session, endpoint.value, answer);
    }

    method Settle(id: NodeId, session: SessionId, endpoint: Endpoint, answer: GatewayAnswer) returns (done: bool)
      requires id in cache && Controllable(cache[id])
      modifies this
      ensures Model() == Settled(old(Model()), id, session, endpoint, answer)
    {
      hide Perform, PublishAll, StatusPublications;
      if answer.Ok? && answer.value.CommandAccepted? && answer.value.status == 1 {
        cache := cache[id := Confirmed(cache[id], answer.value, session, endpoint)];
        PublishNodeStatus(id);
        return true;
      }
      sessionIds := Perform(sessionIds, Operation.Release(session)).allocator;
      return false;
    }

    method ExecuteGroupCommand(id: GroupId, action: GroupAction, answer: GatewayAnswer) returns (done: bool)
      requires Valid() && gateway
      modifies this
      ensures Valid() && Model() == GroupAsked(old(Model()), id, action, answer)
    {
      StepKeeps(Model(), Group(id, action, answer));
      hide InSync, Perform;
      if id !in groups {
        return false;
      }
      var taken := Perform(sessionIds, Allocate);
      if taken.result.Err? {
        return false;
      }
      sessionIds := taken.allocator;
      var session := taken.result.value;
      asked := asked + [ActivateGroup(session, id, GroupPosition(action), groups[id].velocity)];
      if answer.Ok? && answer.value.ProductGroupResult? && answer.value.sessionId == session
         && answer.value.status == 0 {
        return true;
      }
      sessionIds := Perform(sessionIds, Operation.Release(session)).allocator;
      return false;
    }

    method RefreshStationaryNodes(answers: seq<GatewayAnswer>)
      requires Valid() && gateway && |answers| == |StationaryIds(cache)|
      modifies this
      ensures Valid() && Model() == Refreshed(old(Model()), StationaryIds(old(cache)), answers)
    {
      hide InSync, AskStatus, AscendingIds, Refreshed, Stationary;
      ghost var start := Model();
      RefreshKeeps(start, answers);
      var ids := StationaryIds(cache);
      for i := 0 to |ids|
        invariant Refreshed(Model(), ids[i..], answers[i..]) == Refreshed(start, ids, answers)
      {
        RefreshGoesOn(Model(), ids, answers, i);
        var _ := RequestStatus(ids[i], answers[i]);
      }
      assert ids[|ids|..] == [] && answers[|ids|..] == [];
      RefreshEnds(Model());
    }
  }

  lemma RefreshKeeps(b: BridgeState, answers: seq<GatewayAnswer>)
    requires InSync(b) && b.gateway && |answers| == |StationaryIds(b.view.cache)|
    ensures InSync(Refreshed(b, StationaryIds(b.view.cache), answers))
  {
    StepKeeps(b, Refresh(answers));
    hide InSync, Refreshed, AscendingIds;
  }

  lemma RefreshGoesOn(b: BridgeState, ids: seq<NodeId>, answers: seq<GatewayAnswer>, i: nat)
    requires |ids| == |answers| && i < |ids|
    ensures Refreshed(b, ids[i..], answers[i..])
         == Refreshed(AskStatus(b, ids[i], answers[i]), ids[i + 1..], answers[i + 1..])
  {
    hide AskStatus;
    assert ids[i..][0] == ids[i] && ids[i..][1..] == ids[i + 1..];
    assert answers[i..][0] == answers[i] && answers[i..][1..] == answers[i + 1..];
  }

  lemma RefreshEnds(b: BridgeState)
    ensures Refreshed(b, [], []) == b
  {
  }

  lemma InParts(store: Store, a: seq<Publication>, b: seq<Publication>, c: seq<Publication>)
    ensures PublishAll(store, a + b + c) == PublishAll(PublishAll(PublishAll(store, a), b), c)
  {
    PublishAllConcat(store, a + b, c);
    PublishAllConcat(store, a, b);
  }

  lemma AdoptedKeepsBroker(b: BridgeState, p: Prepared)
    ensures var a := Adopted(b, p);
            && a.connected == b.connected && a.store == b.store && a.view.discovery == b.view.discovery
  {
  }

  lemma ReleaseGivesBack(before: Allocator, taken: Allocator, id: SessionId)
    requires id !in before.active && taken.active == before.active + {id}
    ensures Perform(taken, Operation.Release(id)).allocator.active == before.active
  {
    assert before.active + {id} - {id} == before.active;
  }

  lemma CommandableIsControllable(n: Node, session: SessionId, action: CoverAction)
    requires CoverCommand(n, session, action).Ok?
    ensures Controllable(n)
  {
  }
}
