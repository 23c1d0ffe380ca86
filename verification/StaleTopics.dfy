/** Whether the retained store holds topics of nodes, covers and groups that are no more (src/bridge.rs). */
module StaleTopics {
  import opened Base
  import opened Values
  import SessionIds
  import opened Payloads
  import opened Protocol
  import opened Nodes
  import opened Topics
  import opened Retained
  import opened Discovery
  import opened Snapshots
  import opened Backoff
  import opened Bridge
  import Actor
  import Identifiers

  // ----- Which topics belong to a view -----

  /** The topics of one node or one group. */
  predicate IsAbout(t: Topic) {
    NodeOf(t).Some? || t.GroupInfo?
  }

  /** Status, state, position and target: what only covers have. */
  predicate IsStatus(t: Topic, id: NodeId) {
    NodeOf(t) == Some(id) && !t.NodeInfo?
  }

  /** The node or group is there, and it is a cover if only covers have the topic. */
  predicate Belongs(v: View, t: Topic) {
    if t.GroupInfo? then t.group in v.groups
    else NodeOf(t).Some? ==> NodeOf(t).value in v.cache && (t.NodeInfo? || Controllable(v.cache[NodeOf(t).value]))
  }

  /** No node or group topic is stored that the view does not want. */
  ghost predicate NothingStale(v: View, store: Store) {
    forall t :: t in store && IsAbout(t) ==> Belongs(v, t)
  }

  ghost predicate Clean(b: BridgeState) {
    NothingStale(b.view, b.store)
  }

  lemma BelongingIsWanted(v: View, t: Topic)
    requires IsAbout(t)
    ensures Belongs(v, t) <==> Wanted(v, t).Some?
    ensures Wanted(v, t).Some? ==> Wanted(v, t).value.Some?
  {
    hide SnapshotOf, MetadataOf;
  }

  lemma PublishedTopics(store: Store, ps: seq<Publication>, t: Topic)
    ensures t in PublishAll(store, ps) <==> if LastOn(ps, t).Some? then LastOn(ps, t).value.Some? else t in store
  {
    hide PublishAll, LastOn;
    PublishAllLeavesTheLast(store, ps, t);
  }

  // ----- What strands a topic -----

  /** The response takes away what stored topics are about: a cover comes back as something else, or a
      group is deleted while the broker cannot be told. */
  ghost predicate StrandedBy(b: BridgeState, r: Response) {
    match r
    case NodeInformationReceived(info) =>
      !Controllable(FromInformation(info)) && exists t :: t in b.store && IsStatus(t, info.nodeId)
    case GroupDeleted(id) => !b.connected && GroupInfo(id) in b.store
    case GroupChange(changeType, id, _) => changeType == 0 && !b.connected && GroupInfo(id) in b.store
    case _ => false
  }

  /** The inputs that leave a stale topic: a broker that retains one, a setup that drops or changes a
      node or group behind the broker's back or turns a cover into something else, and the responses
      above. */
  ghost predicate Strands(b: BridgeState, i: Input) {
    match i
    case Connected(store) => !NothingStale(b.view, store)
    case Ready(p) =>
      exists t ::
        && t in b.store && IsAbout(t) && !Belongs(Adopted(b, p).view, t)
        && (b.connected ==> exists id :: IsStatus(t, id) && id in p.cache)
    case GatewayEvent(e, _, _) => e.Notification? && StrandedBy(b, e.response)
    case _ => false
  }

  // ----- Step by step -----

  lemma SnapshottedTopics(b: BridgeState, t: Topic)
    requires Proper(b.view) && IsAbout(t)
    ensures t in Snapshotted(b).store <==> Belongs(b.view, t) || t in b.store
  {
    hide Snapshot, LastOn, PublishAll, Wanted, Belongs, ComponentsIn, Proper;
    SnapshotLeaves(b.view, b.known, ViewOrder(b.view), t);
    PublishedTopics(b.store, Snapshot(b.view, b.known, ViewOrder(b.view)), t);
    BelongingIsWanted(b.view, t);
  }

  lemma AnnouncedTopics(b: BridgeState, online: bool, t: Topic)
    requires IsAbout(t)
    ensures t in Announce(b, online).store <==> t in b.store
  {
    hide LastOn, PublishAll;
    PublishedTopics(b.store, [AvailabilityPublication(online)], t);
    LastOnSingle(AvailabilityPublication(online), t);
  }

  lemma ClearedTopics(b: BridgeState, p: Prepared, t: Topic)
    requires Proper(b.view) && Clean(b) && b.connected && IsAbout(t)
    ensures t in Sent(Adopted(b, p), Cleared(b.view, p)).store
       <==> t in b.store && if t.GroupInfo? then t.group in p.groups else NodeOf(t).value in p.cache
  {
    hide LastOn, PublishAll, ClearedNodes, ClearedGroups, AscendingIds, Proper;
    var nodes, groups := ClearedNodes(b.view, p.cache, AscendingIds(b.view.cache.Keys, 0)),
                         ClearedGroups(b.view, p.groups, AscendingIds(b.view.groups.Keys, 0));
    ProperIsKeyed(b.view);
    ClearedNodesLeave(b.view, p.cache, AscendingIds(b.view.cache.Keys, 0), t);
    ClearedGroupsLeave(b.view, p.groups, AscendingIds(b.view.groups.Keys, 0), t);
    LastOnConcat(nodes, groups, t);
    PublishedTopics(b.store, Cleared(b.view, p), t);
  }

  lemma ProperIsKeyed(v: View)
    requires Proper(v)
    ensures Keyed(v.cache) && GroupsKeyed(v.groups)
  {
  }

  lemma SetupIsCleanUnlessItStrands(b: BridgeState, p: Prepared)
    requires Proper(b.view) && Clean(b) && Possible(b, Ready(p))
    ensures Clean(SetupDone(b, p)) <==> !Strands(b, Ready(p))
  {
    hide Snapshotted, Cleared, Proper, Sent;
    PreparedIsProper(p, b.view.discovery);
    var adopted := Adopted(b, p);
    var sent := Sent(adopted, Cleared(b.view, p));
    if b.connected {
      SentKeepsView(adopted, Cleared(b.view, p));
      SnapshottedKeepsView(sent);
      forall t | IsAbout(t)
        ensures t in Snapshotted(sent).store && !Belongs(adopted.view, t)
           <==> t in b.store && !Belongs(adopted.view, t) && exists id :: IsStatus(t, id) && id in p.cache
      {
        ClearedTopics(b, p, t);
        SnapshottedTopics(sent, t);
        assert NodeOf(t).Some? && !t.NodeInfo? ==> IsStatus(t, NodeOf(t).value);
      }
      assert SetupDone(b, p) == Snapshotted(sent);
    }
  }

  lemma SentKeepsView(b: BridgeState, ps: seq<Publication>)
    ensures Sent(b, ps).view == b.view && Sent(b, ps).connected == b.connected
  {
  }

  lemma SnapshottedKeepsView(b: BridgeState)
    ensures Snapshotted(b).view == b.view
  {
  }

  lemma ConnectingIsCleanUnlessItStrands(b: BridgeState, store: Store)
    requires Proper(b.view)
    ensures Clean(BrokerConnected(b, store)) <==> NothingStale(b.view, store)
  {
    hide Snapshotted, Proper, Belongs, Announce;
    var met := b.(connected := true, store := store);
    SnapshottedKeepsView(met);
    AnnounceKeepsView(met);
    forall t | IsAbout(t)
      ensures t in BrokerConnected(b, store).store && !Belongs(b.view, t) <==> t in store && !Belongs(b.view, t)
    {
      SnapshottedTopics(met, t);
      AnnouncedTopics(met, false, t);
    }
  }

  lemma AnnounceKeepsView(b: BridgeState)
    ensures forall online :: Announce(b, online).view == b.view
  {
  }

  /** Losing the gateway, or failing to set one up, touches no node or group topic. */
  lemma OfflineIsClean(b: BridgeState, after: BridgeState)
    requires Clean(b) && after.store == b.store && after.view.groups == b.view.groups
    requires after.view.cache == b.view.cache || after.view.cache == SetAvailable(b.view.cache, false)
    ensures Clean(Announce(after, false))
  {
    hide Announce;
    AnnounceKeepsView(after);
    forall t | IsAbout(t) && t in Announce(after, false).store
      ensures Belongs(after.view, t)
    {
      AnnouncedTopics(after, false, t);
    }
  }

  // ----- Responses -----

  lemma DiscoveryTouchesNoTopic(b: BridgeState, t: Topic)
    requires IsAbout(t)
    ensures LastOn(DiscoveryMessages(b), t) == None
  {
    hide LastOn, ComponentsIn, DiscoveryPublications;
    DiscoveryLeaves(b.view, b.known, ViewOrder(b.view), t);
  }

  lemma InsertingIsClean(b: BridgeState, g: GroupInformation)
    requires Clean(b)
    ensures Clean(InsertGroup(b, g))
  {
    hide LastOn, PublishAll, DiscoveryMessages, GroupInventoryPublication;
    var after := b.(view := b.view.(groups := b.view.groups[g.groupId := g]));
    forall t | IsAbout(t) && t in InsertGroup(b, g).store
      ensures Belongs(after.view, t)
    {
      PublishedTopics(b.store, GroupMessages(after, g), t);
      TwoThenMore(GroupInventoryPublication(after.view.groups), GroupInfoPublication(g), DiscoveryMessages(after), t);
      DiscoveryTouchesNoTopic(after, t);
      InventoryIsNoTopic(after.view, t);
    }
  }

  lemma InventoryIsNoTopic(v: View, t: Topic)
    requires IsAbout(t)
    ensures GroupInventoryPublication(v.groups).topic != t && NodeInventoryPublication(v.cache).topic != t
  {
  }

  lemma DroppedTopics(b: BridgeState, g: GroupInformation, t: Topic)
    requires IsAbout(t)
    ensures t in PublishAll(b.store, DroppedMessages(b, g)) <==> t in b.store && t != GroupInfo(g.groupId)
  {
    hide LastOn, PublishAll, DiscoveryMessages, GroupInventoryPublication, ClearGroup;
    var inventory := GroupInventoryPublication(b.view.groups);
    var clear := ClearGroup(b.view.discovery, g);
    PublishedTopics(b.store, DroppedMessages(b, g), t);
    LastOnConcat([inventory] + clear, DiscoveryMessages(b), t);
    LastOnConcat([inventory], clear, t);
    LastOnSingle(inventory, t);
    ClearGroupLeaves(b.view.discovery, g, t);
    DiscoveryTouchesNoTopic(b, t);
    InventoryIsNoTopic(b.view, t);
  }

  lemma DroppingIsCleanUnlessItStrands(b: BridgeState, id: GroupId)
    requires Clean(b) && GroupsKeyed(b.view.groups)
    ensures Clean(DropGroup(b, id)) <==> b.connected || GroupInfo(id) !in b.store
  {
    hide PublishAll, DroppedMessages;
    if id in b.view.groups {
      var after := b.(view := b.view.(groups := b.view.groups - {id}));
      forall t | IsAbout(t)
        ensures t in DropGroup(b, id).store <==> t in b.store && (b.connected ==> t != GroupInfo(id))
      {
        DroppedTopics(after, b.view.groups[id], t);
      }
      assert DropGroup(b, id).view == after.view;
      assert GroupInfo(id) in b.store && !b.connected ==> !Belongs(after.view, GroupInfo(id));
    } else {
      assert !Belongs(b.view, GroupInfo(id));
    }
  }

  lemma ChangedTopics(b: BridgeState, id: NodeId, n: Node, added: bool, metadata: bool, t: Topic)
    requires IsAbout(t) && n.id == id
    ensures var after := b.(view := b.view.(cache := b.view.cache[id := n]));
            NodeOf(t) != Some(id) || !Belongs(after.view, t) ==>
              (t in PublishAll(b.store, NodeMessages(after, added, metadata, n)) <==> t in b.store)
  {
    hide NodeMessages, PublishAll, LastOn, Wanted, ComponentsIn, DevicePayload, NodeInventoryPublication;
    var after := b.(view := b.view.(cache := b.view.cache[id := n]));
    NodeMessagesLeave(after, added, metadata, n, t);
    PublishedTopics(b.store, NodeMessages(after, added, metadata, n), t);
    BelongingIsWanted(after.view, t);
    DiscoveryIsAboutConfiguration(after.view, t);
  }

  /** A changed node leaves something stale exactly if it is no cover and has status topics stored. */
  lemma ChangeIsCleanUnlessItStrands(b: BridgeState, id: NodeId, n: Node, store: Store)
    requires Clean(b) && n.id == id
    requires var after := b.view.(cache := b.view.cache[id := n]);
             forall t :: IsAbout(t) && (NodeOf(t) != Some(id) || !Belongs(after, t)) ==> (t in store <==> t in b.store)
    ensures NothingStale(b.view.(cache := b.view.cache[id := n]), store)
       <==> Controllable(n) || forall t :: t in b.store ==> !IsStatus(t, id)
  {
    var after := b.view.(cache := b.view.cache[id := n]);
    forall t | IsAbout(t)
      ensures t in store && !Belongs(after, t) <==> t in b.store && IsStatus(t, id) && !Controllable(n)
    {
    }
  }

  lemma ApplyingIsCleanUnlessItStrands(b: BridgeState, r: Response)
    requires Clean(b) && Proper(b.view)
    ensures Clean(ApplyNode(b, r)) <==> !(r.NodeInformationReceived? && StrandedBy(b, r))
  {
    hide Apply, NodeMessages, PublishAll, FromInformation, Belongs, StrandedBy, Change, KnownAfter;
    ProperIsKeyed(b.view);
    ApplyReportsExactly(b.view.cache, r);
    var applied := Apply(b.view.cache, r);
    if applied.changed.None? {
      assert b.view.(cache := applied.cache) == b.view;
      if r.NodeInformationReceived? {
        UnchangedStrandsNothing(b, r);
      }
    } else {
      var id := applied.changed.value;
      var n := applied.cache[id];
      AppliedIsChange(b.view, r);
      ChangeHasId(b.view, id, n, r.NodeInformationReceived? && r.node.nodeId !in b.view.cache, IsMetadata(r));
      var after := b.(view := b.view.(cache := b.view.cache[id := n]));
      var store := ApplyNode(b, r).store;
      forall t | IsAbout(t) && (NodeOf(t) != Some(id) || !Belongs(after.view, t))
        ensures t in store <==> t in b.store
      {
        ChangedTopics(b, id, n, r.NodeInformationReceived? && r.node.nodeId !in b.view.cache, IsMetadata(r), t);
      }
      ChangeIsCleanUnlessItStrands(b, id, n, store);
      ChangeStrandsAsTold(b, r, id, n);
    }
  }

  lemma ChangeHasId(v: View, id: NodeId, n: Node, added: bool, metadata: bool)
    requires Change(v, id, n, added, metadata)
    ensures n.id == id
  {
  }

  lemma UnchangedStrandsNothing(b: BridgeState, r: Response)
    requires Clean(b) && Apply(b.view.cache, r).changed.None? && r.NodeInformationReceived?
    ensures !StrandedBy(b, r)
  {
    hide StrategyFor, RelativePosition;
  }

  /** Of a changed node, only new information can say that it is no cover any more. */
  lemma ChangeStrandsAsTold(b: BridgeState, r: Response, id: NodeId, n: Node)
    requires Clean(b) && Keyed(b.view.cache)
    requires Apply(b.view.cache, r).changed == Some(id) && id in Apply(b.view.cache, r).cache
    requires Apply(b.view.cache, r).cache[id] == n
    ensures (Controllable(n) || forall t :: t in b.store ==> !IsStatus(t, id))
       <==> !(r.NodeInformationReceived? && StrandedBy(b, r))
  {
    hide StrategyFor, RelativePosition;
    if !r.NodeInformationReceived? {
      assert n.strategy == b.view.cache[id].strategy;
    }
  }

  lemma GroupResponsesLeaveNodes(b: BridgeState, r: Response)
    requires !r.NodeInformationReceived? && ApplyGroup(b, r) != b
    ensures ApplyNode(ApplyGroup(b, r), r) == ApplyGroup(b, r)
  {
    hide InsertGroup, DropGroup, NodeMessages;
  }

  lemma NodeResponsesLeaveGroups(b: BridgeState, r: Response)
    requires r.NodeInformationReceived?
    ensures ApplyGroup(b, r) == b
  {
  }

  lemma GroupIsCleanUnlessItStrands(b: BridgeState, r: Response)
    requires Clean(b) && Proper(b.view) && !r.NodeInformationReceived?
    ensures Clean(ApplyGroup(b, r)) <==> !StrandedBy(b, r)
  {
    hide InsertGroup, DropGroup, Clean, Proper;
    ProperIsKeyed(b.view);
    match r
    case GroupInformationReceived(g) => InsertingIsClean(b, g);
    case GroupChange(changeType, id, information) =>
      DroppingIsCleanUnlessItStrands(b, id);
      if information.Some? {
        InsertingIsClean(b, information.value);
      }
    case GroupDeleted(id) => DroppingIsCleanUnlessItStrands(b, id);
    case _ =>
  }

  lemma ReleaseKeepsTopics(b: BridgeState, id: SessionIds.SessionId)
    ensures Release(b, id).view == b.view && Release(b, id).store == b.store && Release(b, id).connected == b.connected
    ensures Release(b, id).gateway == b.gateway
  {
  }

  lemma ResponseIsCleanUnlessItStrands(b: BridgeState, r: Response)
    requires Clean(b) && Proper(b.view)
    ensures Clean(HandleResponse(b, r)) <==> !StrandedBy(b, r)
  {
    hide ApplyGroup, ApplyNode, Proper, Release;
    var released := if r.SessionFinished? then Release(b, r.sessionId) else b;
    if r.SessionFinished? {
      ReleaseKeepsTopics(b, r.sessionId);
    }
    if r.NodeInformationReceived? {
      NodeResponsesLeaveGroups(released, r);
      ApplyingIsCleanUnlessItStrands(released, r);
    } else {
      GroupIsCleanUnlessItStrands(released, r);
      if ApplyGroup(released, r) != released {
        GroupResponsesLeaveNodes(released, r);
      } else {
        ApplyingIsCleanUnlessItStrands(released, r);
      }
    }
  }

  lemma CommandedIsClean(b: BridgeState, id: NodeId, n: Node)
    requires Clean(b) && id in b.view.cache && n.id == id && n.strategy == b.view.cache[id].strategy
    ensures Clean(Commanded(b, id, n))
  {
    hide PublishAll, StatusPublications, DiscoveryMessages;
    var after := b.(view := b.view.(cache := b.view.cache[id := n]));
    assert NodeMessages(after, false, false, n) == NodeStatusPublications(n);
    forall t | IsAbout(t) && t in Commanded(b, id, n).store
      ensures Belongs(after.view, t)
    {
      ChangedTopics(b, id, n, false, false, t);
    }
  }

  lemma SettledIsClean(b: BridgeState, id: NodeId, session: SessionIds.SessionId, e: Endpoint, answer: GatewayAnswer)
    requires Clean(b) && Keyed(b.view.cache) && id in b.view.cache
    ensures Clean(Settled(b, id, session, e, answer))
  {
    hide Commanded, SessionIds.Perform, Belongs;
    if Kept(COMMAND_SEND_REQ, session, answer) {
      CommandedIsClean(b, id, Confirmed(b.view.cache[id], answer.value, session, e));
    }
  }

  lemma UntouchedIsClean(before: BridgeState, after: BridgeState)
    requires Clean(before) && after.view == before.view && after.store == before.store
    ensures Clean(after)
  {
  }

  lemma CoverIsClean(b: BridgeState, id: NodeId, action: CoverAction, answer: GatewayAnswer)
    requires Clean(b) && Keyed(b.view.cache)
    ensures Clean(CoverAsked(b, id, action, answer))
  {
    hide Settled, SessionIds.Perform, Resolve, CoverCommand, Clean, Keyed;
    var taken := SessionIds.Perform(b.ids, SessionIds.Allocate);
    if id in b.view.cache && Resolve(b.view.cache[id], action).Ok? && taken.result.Ok?
       && CoverCommand(b.view.cache[id], taken.result.value, action).Ok?
    {
      var command := CoverCommand(b.view.cache[id], taken.result.value, action).value;
      var sent := b.(ids := taken.allocator, asked := b.asked + [command]);
      UntouchedIsClean(b, sent);
      SettledIsClean(sent, id, taken.result.value, Resolve(b.view.cache[id], action).value, answer);
    } else {
      UntouchedIsClean(b, CoverAsked(b, id, action, answer));
    }
  }

  /** Exactly the stranding inputs leave the store with a topic of something that is no more. */
  lemma StepIsCleanUnlessItStrands(b: BridgeState, i: Input)
    requires InSync(b) && Clean(b) && Possible(b, i)
    ensures Clean(Step(b, i)) <==> !Strands(b, i)
  {
    hide UpToDate, ComponentsIn, HandleResponse, CoverAsked, Snapshotted, Announce, Refreshed, SessionIds.Perform,
         Proper, Cleared, StrandedBy, Belongs, SetupDone, BrokerConnected, Release;
    ProperIsKeyed(b.view);
    match i
    case Connected(store) => ConnectingIsCleanUnlessItStrands(b, store);
    case ConnectionLost =>
    case Ready(p) => SetupIsCleanUnlessItStrands(b, p);
    case NotReady(now, jitter) => OfflineIsClean(b, Delayed(b, now, jitter));
    case GatewayEvent(e, now, jitter) =>
      if e.Notification? {
        ResponseIsCleanUnlessItStrands(b, e.response);
      } else if e.Disconnected? {
        OfflineIsClean(b, Delayed(Offline_(b), now, jitter));
      } else if e.SessionTimedOut? {
        ReleaseKeepsTopics(b, e.id);
      }
    case GatewayGone(now, jitter) => OfflineIsClean(b, Delayed(Offline_(b), now, jitter));
    case Cover(node, action, answer) => CoverIsClean(b, node, action, answer);
    case Group(group, action, answer) => GroupAskedKeepsTopics(b, group, action, answer);
    case Reboot(now, delay) => OfflineIsClean(b, Offline_(b).(reconnect := Reset(b.reconnect), retryAt := now + delay));
    case Refresh(answers) => RefreshedOnlyAsks(b, StationaryIds(b.view.cache), answers);
  }

  lemma GroupAskedKeepsTopics(b: BridgeState, id: GroupId, action: GroupAction, answer: GatewayAnswer)
    ensures GroupAsked(b, id, action, answer).view == b.view && GroupAsked(b, id, action, answer).store == b.store
  {
    hide SessionIds.Perform;
  }

  // ----- Every run -----

  lemma {:induction false} CleanUntilStranded(states: seq<BridgeState>, inputs: seq<Input>, k: nat)
    requires Run(states, inputs) && k < |states|
    requires forall i :: 0 <= i < k ==> !Strands(states[i], inputs[i])
    ensures Clean(states[k])
    decreases k
  {
    hide InSync, Step, Possible, Strands, Clean;
    if k == 0 {
      InitialIsClean(states[0]);
    } else {
      CleanUntilStranded(states, inputs, k - 1);
      RunStaysInSync(states, inputs, k - 1);
      StepIsCleanUnlessItStrands(states[k - 1], inputs[k - 1]);
    }
  }

  lemma InitialIsClean(b: BridgeState)
    requires IsInitial(b)
    ensures Clean(b)
  {
  }

  /** No state of a run has a stale topic stored exactly if no input of the run strands one. */
  lemma RunIsCleanUnlessItStrands(states: seq<BridgeState>, inputs: seq<Input>)
    requires Run(states, inputs)
    ensures (forall k :: 0 <= k < |states| ==> Clean(states[k]))
       <==> (forall i :: 0 <= i < |inputs| ==> !Strands(states[i], inputs[i]))
  {
    hide InSync, Step, Possible, Strands, Clean;
    if forall i :: 0 <= i < |inputs| ==> !Strands(states[i], inputs[i]) {
      forall k | 0 <= k < |states|
        ensures Clean(states[k])
      {
        CleanUntilStranded(states, inputs, k);
      }
    }
    if forall k :: 0 <= k < |states| ==> Clean(states[k]) {
      forall i | 0 <= i < |inputs|
        ensures !Strands(states[i], inputs[i])
      {
        assert Clean(states[i]) && Clean(states[i + 1]);
        RunStaysInSync(states, inputs, i);
        StepIsCleanUnlessItStrands(states[i], inputs[i]);
      }
    }
  }

  /** Then, with broker and gateway, the node and group topics stored are exactly those the view wants. */
  lemma StoredTopicsAreTheView(states: seq<BridgeState>, inputs: seq<Input>, k: nat, t: Topic)
    requires Run(states, inputs) && k < |states| && IsAbout(t)
    requires forall i :: 0 <= i < k ==> !Strands(states[i], inputs[i])
    requires states[k].connected && states[k].gateway
    ensures t in states[k].store <==> Wanted(states[k].view, t).Some?
  {
    hide Run, Strands, Wanted, Belongs, ComponentsIn;
    CleanUntilStranded(states, inputs, k);
    RunStaysInSync(states, inputs, k);
    BelongingIsWanted(states[k].view, t);
    assert Agrees(Wanted(states[k].view, t), Lookup(states[k].store, t));
  }

  // ----- How topics are stranded -----

  /** A group deleted while the broker is away keeps its topic when the broker returns with what it
      retained; later snapshots do not touch it. */
  lemma DeletedGroupKeepsItsTopic(b: BridgeState, id: GroupId)
    requires InSync(b) && b.gateway && !b.connected && id in b.view.groups && GroupInfo(id) in b.store
    ensures var gone := HandleResponse(b, GroupDeleted(id));
            var back := BrokerConnected(gone, gone.store);
            && id !in back.view.groups && GroupInfo(id) in back.store && back.connected && back.gateway
            && !Clean(back)
  {
    hide UpToDate, ComponentsIn, Snapshotted, DropGroup;
    var gone := HandleResponse(b, GroupDeleted(id));
    DropOffline(b, id);
    HandleResponseKeeps(b, GroupDeleted(id));
    SnapshottedTopics(gone.(connected := true), GroupInfo(id));
    SnapshottedKeepsView(gone.(connected := true));
    SnapshottedKeepsBroker(gone.(connected := true));
  }

  lemma DropOffline(b: BridgeState, id: GroupId)
    requires !b.connected && id in b.view.groups
    ensures HandleResponse(b, GroupDeleted(id)) == b.(view := b.view.(groups := b.view.groups - {id}))
  {
  }

  lemma SnapshottedKeepsBroker(b: BridgeState)
    ensures Snapshotted(b).connected == b.connected && Snapshotted(b).gateway == b.gateway
  {
  }

  /** A cover that the gateway reports again as something else keeps all its status topics, even while
      the broker is connected. */
  lemma FormerCoverKeepsItsStatus(b: BridgeState, info: NodeInformation)
    requires InSync(b) && b.gateway && b.connected
    requires info.nodeId in b.view.cache && Controllable(b.view.cache[info.nodeId])
    requires !Controllable(FromInformation(info))
    ensures var after := HandleResponse(b, NodeInformationReceived(info));
            && !Clean(after)
            && forall t :: IsStatus(t, info.nodeId) ==> t in after.store && !Belongs(after.view, t)
  {
    hide UpToDate, ComponentsIn, FromInformation, NodeMessages, PublishAll, Wanted;
    var id, n := info.nodeId, FromInformation(info);
    FromKeepsId(info);
    var after := HandleResponse(b, NodeInformationReceived(info));
    assert b.view.cache[id] != n;
    assert after.view == b.view.(cache := b.view.cache[id := n]);
    forall t | IsStatus(t, id)
      ensures t in after.store && !Belongs(after.view, t)
    {
      StatusIsStored(b, id, t);
      ChangedTopics(b, id, n, false, true, t);
    }
    assert IsStatus(NodeStatus(id), id);
  }

  lemma StatusIsStored(b: BridgeState, id: NodeId, t: Topic)
    requires InSync(b) && b.gateway && b.connected && id in b.view.cache && Controllable(b.view.cache[id])
    requires IsStatus(t, id)
    ensures t in b.store
  {
    hide ComponentsIn, Wanted;
    BelongingIsWanted(b.view, t);
    assert Agrees(Wanted(b.view, t), Lookup(b.store, t));
  }

  /** A stale topic that a broker retains from before stays, whatever is published on connection. */
  lemma RetainedTopicStays(b: BridgeState, store: Store, t: Topic)
    requires Proper(b.view) && IsAbout(t) && t in store && !Belongs(b.view, t)
    ensures t in BrokerConnected(b, store).store && !Clean(BrokerConnected(b, store))
  {
    hide Snapshotted, Proper, Belongs, Announce;
    var met := b.(connected := true, store := store);
    SnapshottedKeepsView(met);
    AnnounceKeepsView(met);
    SnapshottedTopics(met, t);
    AnnouncedTopics(met, false, t);
  }

  // ----- Legacy discovery topics -----

  lemma {:induction false} RemovedNodesLegacyIsCleared(v: View, kept: Cache, ids: seq<NodeId>, k: nat)
    requires Keyed(v.cache) && forall id :: id in ids ==> id in v.cache
    requires k < |ids| && ids[k] !in kept && v.discovery.Some? && Controllable(v.cache[ids[k]])
    ensures LastOn(ClearedNodes(v, kept, ids), Legacy(UniqueId(v.discovery.value, v.cache[ids[k]]))) == Some(None)
    decreases |ids|
  {
    hide LastOn, ClearNode, UniqueId;
    var n := |ids| - 1;
    var t := Legacy(UniqueId(v.discovery.value, v.cache[ids[k]]));
    NothingOn(t);
    LastOnConcat(ClearedNodes(v, kept, ids[..n]),
                 if ids[n] in kept then [] else ClearNode(v.discovery, v.cache[ids[n]]), t);
    ClearNodeLeaves(v.discovery, v.cache[ids[n]], t);
    if k < n {
      RemovedNodesLegacyIsCleared(v, kept, ids[..n], k);
    } else {
      OwnLegacyIsCleared(v.discovery.value, v.cache[ids[n]]);
    }
  }

  lemma OwnLegacyIsCleared(client: string, n: Node)
    requires Controllable(n)
    ensures LastOn(ClearNode(Some(client), n), Legacy(UniqueId(client, n))) == Some(None)
  {
    hide LastOn, ClearNodePublications, UniqueId;
    var t := Legacy(UniqueId(client, n));
    LastOnConcat(ClearNodePublications(n.id), [Publication(t, None)], t);
    LastOnSingle(Publication(t, None), t);
  }

  lemma {:induction false} RemovedGroupsLegacyIsCleared(v: View, kept: Groups, ids: seq<GroupId>, k: nat)
    requires GroupsKeyed(v.groups) && forall id :: id in ids ==> id in v.groups
    requires k < |ids| && ids[k] !in kept && v.discovery.Some?
    ensures LastOn(ClearedGroups(v, kept, ids), Legacy(Identifiers.GroupKey(v.discovery.value, ids[k]))) == Some(None)
    decreases |ids|
  {
    hide LastOn, ClearGroup, Identifiers.GroupKey;
    var n := |ids| - 1;
    var t := Legacy(Identifiers.GroupKey(v.discovery.value, ids[k]));
    NothingOn(t);
    LastOnConcat(ClearedGroups(v, kept, ids[..n]),
                 if ids[n] in kept then [] else ClearGroup(v.discovery, v.groups[ids[n]]), t);
    ClearGroupLeaves(v.discovery, v.groups[ids[n]], t);
    if k < n {
      RemovedGroupsLegacyIsCleared(v, kept, ids[..n], k);
    } else {
      OwnGroupLegacyIsCleared(v.discovery.value, v.groups[ids[n]]);
    }
  }

  lemma OwnGroupLegacyIsCleared(client: string, g: GroupInformation)
    ensures LastOn(ClearGroup(Some(client), g), Legacy(Identifiers.GroupKey(client, g.groupId))) == Some(None)
  {
    hide LastOn, Identifiers.GroupKey;
    var t := Legacy(Identifiers.GroupKey(client, g.groupId));
    LastOnConcat([Publication(GroupInfo(g.groupId), None)], [Publication(t, None)], t);
    LastOnSingle(Publication(t, None), t);
  }

  lemma SnapshottedClearsNoLegacyBack(b: BridgeState, key: string)
    requires Proper(b.view) && Legacy(key) !in b.store
    ensures Legacy(key) !in Snapshotted(b).store
  {
    hide Snapshot, LastOn, PublishAll, ComponentsIn, Proper;
    SnapshotLeaves(b.view, b.known, ViewOrder(b.view), Legacy(key));
    PublishedTopics(b.store, Snapshot(b.view, b.known, ViewOrder(b.view)), Legacy(key));
  }

  /** A setup that finishes while the broker is connected leaves no legacy discovery topic of a cover or
      group it drops. */
  lemma DroppedLegacyIsCleared(b: BridgeState, p: Prepared, key: string)
    requires Proper(b.view) && Possible(b, Ready(p)) && b.connected && b.view.discovery.Some?
    requires (exists id :: id in b.view.cache && id !in p.cache && Controllable(b.view.cache[id])
                           && key == UniqueId(b.view.discovery.value, b.view.cache[id]))
          || (exists id :: id in b.view.groups && id !in p.groups
                           && key == Identifiers.GroupKey(b.view.discovery.value, id))
    ensures Legacy(key) !in SetupDone(b, p).store
  {
    hide LastOn, PublishAll, ClearedNodes, ClearedGroups, Snapshotted, UniqueId, Identifiers.GroupKey, ComponentsIn,
         Controllable;
    var t := Legacy(key);
    var nodeIds, groupIds := AscendingIds(b.view.cache.Keys, 0), AscendingIds(b.view.groups.Keys, 0);
    ClearedNodesLeave(b.view, p.cache, nodeIds, t);
    ClearedGroupsLeave(b.view, p.groups, groupIds, t);
    if id :| id in b.view.cache && id !in p.cache && Controllable(b.view.cache[id])
             && key == UniqueId(b.view.discovery.value, b.view.cache[id])
    {
      var k :| 0 <= k < |nodeIds| && nodeIds[k] == id;
      RemovedNodesLegacyIsCleared(b.view, p.cache, nodeIds, k);
    } else {
      var id :| id in b.view.groups && id !in p.groups && key == Identifiers.GroupKey(b.view.discovery.value, id);
      var k :| 0 <= k < |groupIds| && groupIds[k] == id;
      RemovedGroupsLegacyIsCleared(b.view, p.groups, groupIds, k);
    }
    LastOnConcat(ClearedNodes(b.view, p.cache, nodeIds), ClearedGroups(b.view, p.groups, groupIds), t);
    PublishedTopics(b.store, Cleared(b.view, p), t);
    PreparedIsProper(p, b.view.discovery);
    SnapshottedClearsNoLegacyBack(Sent(Adopted(b, p), Cleared(b.view, p)), key);
  }
}
