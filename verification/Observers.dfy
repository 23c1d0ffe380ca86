/** A Home Assistant that listens to the bridge over whole runs (src/bridge.rs, src/hassdiscovery.rs). */
module Observers {
  import opened Base
  import opened Values
  import opened Payloads
  import opened Protocol
  import opened Nodes
  import opened Topics
  import opened Retained
  import opened Discovery
  import opened Snapshots
  import opened Backoff
  import opened Bridge
  import SessionIds
  import Actor

  // ----- What each step publishes -----

  ghost function GroupResponseMessages(b: BridgeState, r: Response): seq<Publication> {
    var after := ApplyGroup(b, r);
    if !b.connected then []
    else
      match r
      case GroupInformationReceived(g) => GroupMessages(after.(known := b.known), g)
      case GroupChange(changeType, id, information) =>
        if changeType == 1 && information.Some? then GroupMessages(after.(known := b.known), information.value)
        else if changeType == 0 && id in b.view.groups then DroppedMessages(after.(known := b.known), b.view.groups[id])
        else []
      case GroupDeleted(id) =>
        if id in b.view.groups then DroppedMessages(after.(known := b.known), b.view.groups[id]) else []
      case _ => []
  }

  ghost function NodeResponseMessages(b: BridgeState, r: Response): seq<Publication> {
    var applied := Apply(b.view.cache, r);
    if applied.changed.None? || !b.connected || applied.changed.value !in applied.cache then []
    else
      NodeMessages(b.(view := b.view.(cache := applied.cache)),
                   r.NodeInformationReceived? && r.node.nodeId !in b.view.cache, IsMetadata(r),
                   applied.cache[applied.changed.value])
  }

  function OfflineMessages(b: BridgeState): seq<Publication> {
    if b.connected then [AvailabilityPublication(false)] else []
  }

  function CoverMessages(b: BridgeState, id: NodeId, action: CoverAction, answer: GatewayAnswer): seq<Publication> {
    var after := CoverAsked(b, id, action, answer);
    if b.connected && id in b.view.cache && Resolve(b.view.cache[id], action).Ok? && Controllable(b.view.cache[id])
       && SessionIds.Perform(b.ids, SessionIds.Allocate).result.Ok?
       && Kept(COMMAND_SEND_REQ, SessionIds.Perform(b.ids, SessionIds.Allocate).result.value, answer)
       && id in after.view.cache
    then NodeStatusPublications(after.view.cache[id])
    else []
  }

  ghost function Messages(b: BridgeState, i: Input): seq<Publication> {
    match i
    case Connected(_) =>
      if b.gateway then Snapshot(b.view, b.known, ViewOrder(b.view)) else [AvailabilityPublication(false)]
    case ConnectionLost => []
    case Ready(p) =>
      var v := Adopted(b, p).view;
      if b.connected then Cleared(b.view, p) + Snapshot(v, b.known, ViewOrder(v)) else []
    case NotReady(_, _) => OfflineMessages(b)
    case GatewayEvent(e, _, _) =>
      if e.Notification? then
        GroupResponseMessages(b, e.response) + NodeResponseMessages(ApplyGroup(b, e.response), e.response)
      else if e.Disconnected? then OfflineMessages(b)
      else []
    case GatewayGone(_, _) => OfflineMessages(b)
    case Cover(id, action, answer) => CoverMessages(b, id, action, answer)
    case Group(_, _, _) => []
    case Reboot(_, _) => OfflineMessages(b)
    case Refresh(_) => []
  }

  /** The store a step starts from: a new connection finds what its broker retains. */
  function Retaining(b: BridgeState, i: Input): Store {
    if i.Connected? then i.store else b.store
  }

  // ----- These are the messages that make the store -----

  lemma PublishingNothing(store: Store)
    ensures PublishAll(store, []) == store
  {
  }

  lemma GroupResponseIsPublished(b: BridgeState, r: Response)
    ensures ApplyGroup(b, r).store == PublishAll(b.store, GroupResponseMessages(b, r))
    ensures ApplyGroup(b, r).connected == b.connected && ApplyGroup(b, r).gateway == b.gateway
    ensures ApplyGroup(b, r).view.discovery == b.view.discovery
  {
    hide PublishAll, DiscoveryPublications, ComponentsIn, ClearGroup, GroupInventoryPublication;
    PublishingNothing(b.store);
  }

  lemma NodeResponseIsPublished(b: BridgeState, r: Response)
    ensures ApplyNode(b, r).store == PublishAll(b.store, NodeResponseMessages(b, r))
    ensures ApplyNode(b, r).connected == b.connected && ApplyNode(b, r).gateway == b.gateway
    ensures ApplyNode(b, r).view.discovery == b.view.discovery
  {
    hide PublishAll, NodeMessages, Apply, KnownAfter;
    PublishingNothing(b.store);
  }

  lemma ReleasingChangesIdsOnly(b: BridgeState, r: Response)
    ensures HandleResponse(b, r).store == ApplyNode(ApplyGroup(b, r), r).store
    ensures HandleResponse(b, r).view == ApplyNode(ApplyGroup(b, r), r).view
    ensures HandleResponse(b, r).known == ApplyNode(ApplyGroup(b, r), r).known
    ensures HandleResponse(b, r).connected == ApplyNode(ApplyGroup(b, r), r).connected
    ensures HandleResponse(b, r).gateway == ApplyNode(ApplyGroup(b, r), r).gateway
  {
    hide SessionIds.Perform, NodeMessages, ApplyGroup, ApplyNode;
    if r.SessionFinished? {
      EndsTouchNothingElse(b, r);
      EndsTouchNothingElse(Release(b, r.sessionId), r);
    }
  }

  lemma EndsTouchNothingElse(b: BridgeState, r: Response)
    requires r.SessionFinished?
    ensures ApplyNode(ApplyGroup(b, r), r) == b
  {
    hide NodeMessages;
  }

  lemma ResponseIsPublished(b: BridgeState, r: Response)
    ensures HandleResponse(b, r).store
         == PublishAll(b.store, GroupResponseMessages(b, r) + NodeResponseMessages(ApplyGroup(b, r), r))
  {
    hide PublishAll, ApplyGroup, ApplyNode, GroupResponseMessages, NodeResponseMessages, HandleResponse;
    ReleasingChangesIdsOnly(b, r);
    GroupResponseIsPublished(b, r);
    NodeResponseIsPublished(ApplyGroup(b, r), r);
    PublishAllConcat(b.store, GroupResponseMessages(b, r), NodeResponseMessages(ApplyGroup(b, r), r));
  }

  lemma CoverIsPublished(b: BridgeState, id: NodeId, action: CoverAction, answer: GatewayAnswer)
    ensures CoverAsked(b, id, action, answer).store == PublishAll(b.store, CoverMessages(b, id, action, answer))
  {
    hide PublishAll, SessionIds.Perform, Resolve, StatusPublications, Confirmed;
    PublishingNothing(b.store);
  }

  /** The store after a step is what its messages make of the store before. */
  lemma StepPublishesItsMessages(b: BridgeState, i: Input)
    requires Possible(b, i)
    ensures Step(b, i).store == PublishAll(Retaining(b, i), Messages(b, i))
  {
    hide PublishAll, Snapshot, Cleared, HandleResponse, CoverAsked, Refreshed, SessionIds.Perform, CoverMessages,
         GroupResponseMessages, NodeResponseMessages, ComponentsIn;
    PublishingNothing(b.store);
    match i
    case Ready(p) =>
      var v := Adopted(b, p).view;
      PublishAllConcat(b.store, Cleared(b.view, p), Snapshot(v, b.known, ViewOrder(v)));
    case GatewayEvent(e, _, _) =>
      if e.Notification? {
        ResponseIsPublished(b, e.response);
      }
    case Cover(id, action, answer) => CoverIsPublished(b, id, action, answer);
    case Refresh(answers) => RefreshedOnlyAsks(b, StationaryIds(b.view.cache), answers);
    case _ =>
  }

  // ----- What the observer sees -----

  /** Messages that leave the device topic alone leave the observer alone. */
  lemma {:induction false} UnannouncedIsUnobserved(observed: Components, ps: seq<Publication>)
    requires LastOn(ps, Device) == None
    ensures Observe(observed, ps) == observed
    decreases |ps|
  {
    if ps != [] {
      UnannouncedIsUnobserved(observed, ps[1..]);
    }
  }

  /** Around an announcement nothing else counts; and an observer that holds what was known then holds
      the components of the view. */
  lemma AnnouncementIsObserved(observed: Components, v: View, known: set<string>, a: seq<Publication>,
                               b: seq<Publication>)
    requires LastOn(a, Device) == None && LastOn(b, Device) == None
    requires v.discovery.Some? && observed.Keys == known
    ensures Observe(observed, a + DiscoveryPublications(v, known, ViewOrder(v)) + b) == ComponentsIn(v)
  {
    hide Observe, LastOn, Announcement, ComponentsIn;
    var messages := DiscoveryPublications(v, known, ViewOrder(v));
    ObserveConcat(observed, a + messages, b);
    ObserveConcat(observed, a, messages);
    UnannouncedIsUnobserved(observed, a);
    ObserverIsInSync(observed, known, ComponentsIn(v), ViewOrder(v));
    UnannouncedIsUnobserved(ComponentsIn(v), b);
  }

  lemma NoDeviceInAvailability(online: bool)
    ensures LastOn([AvailabilityPublication(online)], Device) == None
  {
    LastOnSingle(AvailabilityPublication(online), Device);
  }

  lemma SnapshotIsObserved(observed: Components, v: View, known: set<string>, before: seq<Publication>)
    requires Proper(v) && v.discovery.Some? && observed.Keys == known && LastOn(before, Device) == None
    ensures Observe(observed, before + Snapshot(v, known, ViewOrder(v))) == ComponentsIn(v)
  {
    hide Observe, LastOn, DiscoveryPublications, ComponentsIn, BasePublications, Proper;
    var offline, online := [AvailabilityPublication(false)], [AvailabilityPublication(true)];
    var messages := DiscoveryPublications(v, known, ViewOrder(v));
    NoDeviceInAvailability(false);
    NoDeviceInAvailability(true);
    BaseLeaves(v, Device);
    LastOnConcat(before, offline, Device);
    LastOnConcat(before + offline, BasePublications(v), Device);
    AnnouncementIsObserved(observed, v, known, before + offline + BasePublications(v), online);
    assert before + Snapshot(v, known, ViewOrder(v)) == before + offline + BasePublications(v) + messages + online;
  }

  lemma NoDeviceInClearing(v: View, p: Prepared)
    requires Proper(v)
    ensures LastOn(Cleared(v, p), Device) == None
  {
    hide LastOn, ClearedNodes, ClearedGroups, AscendingIds;
    ClearedNodesLeave(v, p.cache, AscendingIds(v.cache.Keys, 0), Device);
    ClearedGroupsLeave(v, p.groups, AscendingIds(v.groups.Keys, 0), Device);
    LastOnConcat(ClearedNodes(v, p.cache, AscendingIds(v.cache.Keys, 0)),
                 ClearedGroups(v, p.groups, AscendingIds(v.groups.Keys, 0)), Device);
  }

  lemma GroupIsObserved(observed: Components, after: BridgeState, g: GroupInformation)
    requires after.view.discovery.Some? && observed.Keys == after.known
    ensures Observe(observed, GroupMessages(after, g)) == ComponentsIn(after.view)
    ensures Observe(observed, DroppedMessages(after, g)) == ComponentsIn(after.view)
  {
    hide Observe, LastOn, DiscoveryPublications, ComponentsIn, ClearGroup;
    var inventory, info := GroupInventoryPublication(after.view.groups), GroupInfoPublication(g);
    var clear := ClearGroup(after.view.discovery, g);
    NothingOn(Device);
    LastOnSingle(inventory, Device);
    TwoThenMore(inventory, info, [], Device);
    assert [inventory, info] + [] == [inventory, info];
    ClearGroupLeaves(after.view.discovery, g, Device);
    LastOnConcat([inventory], clear, Device);
    AnnouncementIsObserved(observed, after.view, after.known, [inventory, info], []);
    AnnouncementIsObserved(observed, after.view, after.known, [inventory] + clear, []);
    assert GroupMessages(after, g) + [] == GroupMessages(after, g);
    assert DroppedMessages(after, g) + [] == DroppedMessages(after, g);
  }

  lemma NoDeviceInStatus(n: Node)
    ensures LastOn(NodeStatusPublications(n), Device) == None
  {
    hide LastOn;
    NothingOn(Device);
    if Controllable(n) {
      StatusPublicationsLeave(n, Device);
    }
  }

  lemma NodeIsObserved(observed: Components, after: BridgeState, added: bool, metadata: bool, n: Node)
    requires after.view.discovery.Some? && observed.Keys == after.known && (added ==> metadata)
    ensures Observe(observed, NodeMessages(after, added, metadata, n))
         == if metadata then ComponentsIn(after.view) else observed
  {
    hide Observe, LastOn, DiscoveryPublications, ComponentsIn, NodeStatusPublications;
    var inventory, info := NodeInventoryPublication(after.view.cache), InfoPublication(n);
    var first := if added then [inventory] else [];
    NoDeviceInStatus(n);
    NothingOn(Device);
    LastOnSingle(inventory, Device);
    LastOnSingle(info, Device);
    LastOnConcat(first, [info], Device);
    if metadata {
      AnnouncementIsObserved(observed, after.view, after.known, first + [info], NodeStatusPublications(n));
      assert NodeMessages(after, added, metadata, n)
          == first + [info] + DiscoveryMessages(after) + NodeStatusPublications(n);
    } else {
      UnannouncedIsUnobserved(observed, NodeStatusPublications(n));
      assert NodeMessages(after, added, metadata, n) == NodeStatusPublications(n);
    }
  }

  // ----- Step by step -----

  /** The observer holds what was last announced, and with broker and gateway the current components. */
  ghost predicate Watches(b: BridgeState, observed: Components) {
    b.view.discovery.Some? ==>
      && observed.Keys == b.known
      && (b.connected && b.gateway ==> observed == ComponentsIn(b.view))
  }

  lemma GroupResponseKeepsWatch(b: BridgeState, r: Response, observed: Components)
    requires Watches(b, observed) && b.gateway
    ensures Watches(ApplyGroup(b, r), Observe(observed, GroupResponseMessages(b, r)))
  {
    hide ComponentsIn, GroupMessages, DroppedMessages, PublishAll;
    var after := ApplyGroup(b, r);
    GroupResponseIsPublished(b, r);
    if b.connected && b.view.discovery.Some? {
      var kept := after.(known := b.known);
      match r
      case GroupInformationReceived(g) => GroupIsObserved(observed, kept, g);
      case GroupChange(_, id, information) =>
        if information.Some? {
          GroupIsObserved(observed, kept, information.value);
        }
        if id in b.view.groups {
          GroupIsObserved(observed, kept, b.view.groups[id]);
        }
      case GroupDeleted(id) =>
        if id in b.view.groups {
          GroupIsObserved(observed, kept, b.view.groups[id]);
        }
      case _ =>
    }
  }

  lemma NodeResponseKeepsWatch(b: BridgeState, r: Response, observed: Components)
    requires Watches(b, observed) && b.gateway && Keyed(b.view.cache)
    ensures Watches(ApplyNode(b, r), Observe(observed, NodeResponseMessages(b, r)))
  {
    hide ComponentsIn, NodeMessages, PublishAll, Apply, SameFace;
    var applied := Apply(b.view.cache, r);
    ApplyReportsExactly(b.view.cache, r);
    NodeResponseIsPublished(b, r);
    if applied.changed.None? {
      assert b.view.(cache := applied.cache) == b.view;
    } else if b.connected && b.view.discovery.Some? {
      var id := applied.changed.value;
      var added, metadata := r.NodeInformationReceived? && r.node.nodeId !in b.view.cache, IsMetadata(r);
      AppliedIsChange(b.view, r);
      NodeIsObserved(observed, b.(view := b.view.(cache := applied.cache)), added, metadata, applied.cache[id]);
      if !metadata {
        SameFacesSameView(b.view, id, applied.cache[id]);
      }
    }
  }

  lemma ResponseKeepsWatch(b: BridgeState, r: Response, observed: Components)
    requires Watches(b, observed) && b.gateway && InSync(b)
    ensures var messages := GroupResponseMessages(b, r) + NodeResponseMessages(ApplyGroup(b, r), r);
            Watches(HandleResponse(b, r), Observe(observed, messages))
  {
    hide ComponentsIn, ApplyGroup, ApplyNode, GroupResponseMessages, NodeResponseMessages, HandleResponse, Observe,
         UpToDate;
    var first := GroupResponseMessages(b, r);
    var between := ApplyGroup(b, r);
    GroupResponseKeepsWatch(b, r, observed);
    GroupResponseIsPublished(b, r);
    ApplyGroupKeeps(b, r);
    NodeResponseKeepsWatch(between, r, Observe(observed, first));
    ObserveConcat(observed, first, NodeResponseMessages(between, r));
    ReleasingChangesIdsOnly(b, r);
  }

  lemma CoverKeepsWatch(b: BridgeState, id: NodeId, action: CoverAction, answer: GatewayAnswer, observed: Components)
    requires Watches(b, observed) && b.gateway && Keyed(b.view.cache)
    ensures Watches(CoverAsked(b, id, action, answer), Observe(observed, CoverMessages(b, id, action, answer)))
  {
    hide ComponentsIn, Observe, CoverAsked, SessionIds.Perform, Resolve, NodeStatusPublications, SameFace;
    NothingIsUnobserved(observed);
    CoverKeepsFace(b, id, action, answer);
    var after := CoverAsked(b, id, action, answer);
    if id in b.view.cache {
      var n := after.view.cache[id];
      NoDeviceInStatus(n);
      UnannouncedIsUnobserved(observed, NodeStatusPublications(n));
      SameFacesSameView(b.view, id, n);
    }
  }

  /** Of the whole view at most the given node differs, and not in what it is announced as. */
  ghost predicate Announceable(before: BridgeState, after: BridgeState, id: NodeId) {
    && after.known == before.known && after.connected == before.connected && after.gateway == before.gateway
    && (id !in before.view.cache ==> after.view == before.view)
    && (id in before.view.cache ==>
          && id in after.view.cache && SameFace(before.view.cache[id], after.view.cache[id])
          && after.view == before.view.(cache := before.view.cache[id := after.view.cache[id]]))
  }

  lemma UntouchedIsAnnounceable(before: BridgeState, after: BridgeState, id: NodeId)
    requires after.view == before.view && after.known == before.known
    requires after.connected == before.connected && after.gateway == before.gateway
    ensures Announceable(before, after, id)
  {
    hide SameFace;
    FaceIsReflexive();
    if id in before.view.cache {
      assert before.view.(cache := before.view.cache[id := before.view.cache[id]]) == before.view;
    }
  }

  lemma SettledKeepsFace(b: BridgeState, id: NodeId, session: SessionIds.SessionId, e: Endpoint, answer: GatewayAnswer)
    requires id in b.view.cache
    ensures Announceable(b, Settled(b, id, session, e, answer), id)
  {
    hide SessionIds.Perform, Commanded, Confirmed, SameFace;
    if Kept(COMMAND_SEND_REQ, session, answer) {
      var n := Confirmed(b.view.cache[id], answer.value, session, e);
      CommandedMoves(b, id, n);
      ConfirmedKeepsFace(b.view.cache[id], answer.value, session, e);
    } else {
      UntouchedIsAnnounceable(b, Release(b, session), id);
    }
  }

  lemma SentKeepsFace(b: BridgeState, sent: BridgeState, after: BridgeState, id: NodeId)
    requires sent.view == b.view && sent.known == b.known && sent.connected == b.connected && sent.gateway == b.gateway
    requires Announceable(sent, after, id)
    ensures Announceable(b, after, id)
  {
    hide SameFace;
  }

  lemma CoverKeepsFace(b: BridgeState, id: NodeId, action: CoverAction, answer: GatewayAnswer)
    ensures Announceable(b, CoverAsked(b, id, action, answer), id)
  {
    hide SessionIds.Perform, Resolve, CoverCommand, Settled, Announceable;
    var after := CoverAsked(b, id, action, answer);
    var taken := SessionIds.Perform(b.ids, SessionIds.Allocate);
    if id in b.view.cache && Resolve(b.view.cache[id], action).Ok? && taken.result.Ok?
       && CoverCommand(b.view.cache[id], taken.result.value, action).Ok?
    {
      var command := CoverCommand(b.view.cache[id], taken.result.value, action).value;
      var sent := b.(ids := taken.allocator, asked := b.asked + [command]);
      SettledKeepsFace(sent, id, taken.result.value, Resolve(b.view.cache[id], action).value, answer);
      SentKeepsFace(b, sent, after, id);
    } else {
      UntouchedIsAnnounceable(b, after, id);
    }
  }

  lemma CommandedMoves(b: BridgeState, id: NodeId, n: Node)
    requires id in b.view.cache
    ensures var after := Commanded(b, id, n);
            && after.view == b.view.(cache := b.view.cache[id := n]) && after.known == b.known
            && after.connected == b.connected && after.gateway == b.gateway
  {
  }

  lemma ConfirmedKeepsFace(n: Node, r: Response, session: SessionIds.SessionId, e: Endpoint)
    ensures SameFace(n, Confirmed(n, r, session, e))
  {
  }

  lemma NothingIsUnobserved(observed: Components)
    ensures Observe(observed, []) == observed
  {
  }

  lemma OfflineIsUnobserved(observed: Components, b: BridgeState)
    ensures Observe(observed, OfflineMessages(b)) == observed
    ensures Observe(observed, [AvailabilityPublication(false)]) == observed
  {
    hide Observe, LastOn;
    NothingIsUnobserved(observed);
    NoDeviceInAvailability(false);
    UnannouncedIsUnobserved(observed, [AvailabilityPublication(false)]);
  }

  lemma StepKeepsWatch(b: BridgeState, i: Input, observed: Components)
    requires InSync(b) && Possible(b, i) && Watches(b, observed)
    ensures Watches(Step(b, i), Observe(observed, Messages(b, i)))
  {
    hide ComponentsIn, Observe, UpToDate, Snapshot, Cleared, HandleResponse, CoverAsked, CoverMessages, Refreshed,
         SessionIds.Perform, GroupResponseMessages, NodeResponseMessages, PublishAll, OfflineMessages, Proper;
    NothingIsUnobserved(observed);
    OfflineIsUnobserved(observed, b);
    match i
    case Connected(store) =>
      if b.gateway && b.view.discovery.Some? {
        NothingOn(Device);
        SnapshotIsObserved(observed, b.view, b.known, []);
        assert [] + Snapshot(b.view, b.known, ViewOrder(b.view)) == Snapshot(b.view, b.known, ViewOrder(b.view));
      }
    case Ready(p) =>
      PreparedIsProper(p, b.view.discovery);
      if b.connected && b.view.discovery.Some? {
        NoDeviceInClearing(b.view, p);
        SnapshotIsObserved(observed, Adopted(b, p).view, b.known, Cleared(b.view, p));
      }
    case GatewayEvent(e, _, _) =>
      if e.Notification? {
        ResponseKeepsWatch(b, e.response, observed);
      }
    case Cover(id, action, answer) =>
      ProperIsKeyedHere(b.view);
      CoverKeepsWatch(b, id, action, answer, observed);
    case Refresh(answers) => RefreshedOnlyAsks(b, StationaryIds(b.view.cache), answers);
    case _ =>
  }

  lemma ProperIsKeyedHere(v: View)
    requires Proper(v)
    ensures Keyed(v.cache)
  {
  }

  // ----- Every run -----

  /** The observer's views along a run: empty at first, then fed with each step's messages. */
  ghost predicate Observing(states: seq<BridgeState>, inputs: seq<Input>, views: seq<Components>) {
    && Run(states, inputs) && |views| == |states| && views[0] == map[]
    && forall i :: 0 <= i < |inputs| ==> views[i + 1] == Observe(views[i], Messages(states[i], inputs[i]))
  }

  /** In every state of every run, whatever setups and disconnections it has seen, an observer of the
      bridge's messages shows exactly the current components when broker and gateway are there. */
  lemma {:induction false} ObserverFollowsTheBridge(states: seq<BridgeState>, inputs: seq<Input>,
                                                    views: seq<Components>, k: nat)
    requires Observing(states, inputs, views) && k < |states|
    ensures Watches(states[k], views[k])
    ensures states[k].view.discovery.Some? && states[k].connected && states[k].gateway ==>
              views[k] == ComponentsIn(states[k].view)
    decreases k
  {
    hide InSync, Step, Possible, Messages, ComponentsIn, Observe;
    if k == 0 {
      assert IsInitial(states[0]);
    } else {
      ObserverFollowsTheBridge(states, inputs, views, k - 1);
      RunStaysInSync(states, inputs, k - 1);
      StepKeepsWatch(states[k - 1], inputs[k - 1], views[k - 1]);
    }
  }
}
