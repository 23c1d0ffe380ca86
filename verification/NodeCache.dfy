/** The mutable node objects and the cache that owns them (src/veluxnode.rs). */
module NodeCache {
  import opened Base
  import opened Values
  import opened SessionIds
  import opened Payloads
  import opened Protocol
  import opened Nodes

  class VeluxNode {
    const id: NodeId
    const serialNumber: seq<byte>
    const nodeTypeSubType: u16
    const actuatorCode: u16
    const actuatorSubtype: byte
    const productGroup: byte
    const productType: byte
    const velocity: byte
    const powerMode: byte
    const buildNumber: byte
    const strategy: Option<CoverStrategy>
    var name: Utf8
    var order: u16
    var placement: byte
    var variation: byte
    var available: bool
    var operatingState: OperatingState
    var current: Option<u16>
    var target: Option<u16>
    var remainingTime: Option<u16>
    var freshness: Option<Freshness>

    function Model(): (n: Node)
      reads this
      ensures n.id == id
    {
      Node(id, name, order, placement, serialNumber, nodeTypeSubType, actuatorCode, actuatorSubtype, productGroup,
           productType, velocity, variation, powerMode, buildNumber, strategy, available, operatingState, current,
           target, remainingTime, freshness)
    }

    constructor FromInformation(info: NodeInformation)
      ensures Model() == Nodes.FromInformation(info)
    {
      var code := info.nodeTypeSubType / 64;
      id, name, order, placement := info.nodeId, info.name, info.order, info.placement;
      serialNumber, nodeTypeSubType := info.serialNumber, info.nodeTypeSubType;
      actuatorCode, actuatorSubtype, strategy := code, info.nodeTypeSubType % 64, StrategyFor(code);
      productGroup, productType := info.productGroup, info.productType;
      velocity, variation := info.velocity, info.variation;
      powerMode, buildNumber, available := info.powerMode, info.buildNumber, true;
      operatingState := info.operatingState;
      current, target := RelativePosition(info.currentPosition), RelativePosition(info.targetPosition);
      remainingTime := KnownTime(info.remainingTime);
      freshness := Some(Freshness(Discovery, Some(info.timestamp)));
    }

    method ApplyInformationChanged(c: NodeInformationChanged) returns (changed: bool)
      modifies this
      ensures Model() == WithInformation(old(Model()), c)
      ensures changed <==> Model() != old(Model())
    {
      if c.nodeId != id {
        return false;
      }
      var previous := Model();
      name, order, placement, variation := c.name, c.order, c.placement, c.variation;
      return Model() != previous;
    }

    method ApplyStatePosition(p: NodeStatePosition, source: StatusSource) returns (changed: bool)
      modifies this
      ensures Model() == WithPosition(old(Model()), p, source)
      ensures changed <==> Model() != old(Model())
    {
      if p.nodeId != id {
        return false;
      }
      var previous := Model();
      available, operatingState := true, p.operatingState;
      current, target := RelativePosition(p.currentPosition), RelativePosition(p.targetPosition);
      remainingTime := KnownTime(p.remainingTime);
      freshness := Some(Freshness(source, Some(p.timestamp)));
      return Model() != previous;
    }

    method ApplyStatus(s: StatusNotification, source: StatusSource) returns (changed: bool)
      modifies this
      ensures Model() == WithStatus(old(Model()), s, source)
      ensures changed <==> Model() != old(Model())
    {
      if s.nodeId != id || !s.detail.Main? {
        return false;
      }
      var previous := Model();
      available, operatingState := true, OperatingOfRun(s.runStatus);
      current, target := RelativePosition(s.detail.currentPosition), RelativePosition(s.detail.targetPosition);
      remainingTime := KnownTime(s.detail.remainingTime);
      freshness := Some(Freshness(source, None));
      return Model() != previous;
    }

    method ApplyRunStatus(s: CommandRunStatus) returns (changed: bool)
      modifies this
      ensures Model() == WithRunStatus(old(Model()), s)
      ensures changed <==> Model() != old(Model())
    {
      if s.nodeId != id {
        return false;
      }
      var previous := Model();
      operatingState := OperatingOfRun(s.runStatus);
      match s.runStatus {
        case Completed => remainingTime := Some(0);
        case Failed => remainingTime := None;
        case _ =>
      }
      if s.nodeParameter == 0 {
        current := RelativePosition(s.parameterValue);
      }
      freshness := Some(Freshness(NotificationSource, None));
      return Model() != previous;
    }

    method ApplyRemainingTime(seconds: u16) returns (changed: bool)
      modifies this
      ensures Model() == WithRemainingTime(old(Model()), seconds)
      ensures changed <==> Model() != old(Model())
    {
      if remainingTime == KnownTime(seconds) {
        return false;
      }
      remainingTime := KnownTime(seconds);
      freshness := Some(Freshness(NotificationSource, None));
      return true;
    }

    method ApplyCommandConfirmation(r: Response, session: SessionId, e: Endpoint) returns (changed: bool)
      modifies this
      ensures Model() == Confirmed(old(Model()), r, session, e)
      ensures changed <==> Model() != old(Model())
    {
      if r.CommandAccepted? && r.status == 1 && r.sessionId == session {
        var previous := Model();
        target, operatingState := Some(EndpointPosition(e)), Executing;
        freshness := Some(Freshness(Command, None));
        return Model() != previous;
      }
      return false;
    }

    method SetAvailable(value: bool) returns (changed: bool)
      modifies this
      ensures Model() == Reached(old(Model()), value)
      ensures changed <==> Model() != old(Model())
    {
      changed := available != value;
      available := value;
    }

    method MarkStatusUnknown() returns (changed: bool)
      modifies this
      ensures Model() == StatusUnknown(old(Model()))
      ensures changed <==> Model() != old(Model())
    {
      var previous := Model();
      operatingState := UnknownState(255);
      current, target, remainingTime := None, None, None;
      freshness := Some(Freshness(Poll, None));
      return Model() != previous;
    }
  }

  class VeluxNodeCache {
    var nodes: map<NodeId, VeluxNode>

    ghost function Repr(): set<VeluxNode>
      reads this
    {
      set id | id in nodes :: nodes[id]
    }

    /** Every cached node is an object of its own. */
    ghost predicate Valid()
      reads this
    {
      forall a, b :: a in nodes && b in nodes && nodes[a] == nodes[b] ==> a == b
    }

    ghost function Model(): Cache
      reads this, Repr()
    {
      map id | id in nodes :: nodes[id].Model()
    }

    constructor ()
      ensures Valid() && nodes == map[] && Model() == map[]
    {
      nodes := map[];
    }

    /** The cached values in the order of their IDs. */
    method Values() returns (values: seq<Node>)
      ensures nodes.Keys == Model().Keys
      ensures values == InOrder(Model(), AscendingIds(nodes.Keys, 0))
    {
      hide VeluxNode.Model, AscendingIds;
      values := [];
      var ids := AscendingIds(nodes.Keys, 0);
      assert Model().Keys == nodes.Keys;
      for i := 0 to |ids|
        invariant values == InOrder(Model(), ids[..i])
      {
        assert ids[..i + 1][..i] == ids[..i];
        assert ids[i] in ids;
        values := values + [nodes[ids[i]].Model()];
      }
      assert ids[..|ids|] == ids;
    }

    method Insert(node: VeluxNode)
      requires Valid() && node !in Repr()
      modifies this
      ensures Valid() && Repr() <= old(Repr()) + {node}
      ensures Model() == old(Model())[node.id := node.Model()]
    {
      nodes := nodes[node.id := node];
    }

    /** Updating one node object updates one entry. */
    twostate lemma OnlyThisNode(key: NodeId)
      requires key in nodes && nodes == old(nodes) && old(Valid())
      requires forall id :: id in nodes && id != key ==> unchanged(nodes[id])
      ensures Repr() == old(Repr())
      ensures Model() == old(Model())[key := nodes[key].Model()]
    {
      hide VeluxNode.Model;
    }

    method Learn(info: NodeInformation) returns (changed: Option<NodeId>)
      requires Valid()
      modifies this
      ensures Valid() && fresh(Repr() - old(Repr()))
      ensures Applied(Model(), changed) == Apply(old(Model()), NodeInformationReceived(info))
    {
      hide Nodes.FromInformation;
      var node := new VeluxNode.FromInformation(info);
      var same := node.id in nodes && nodes[node.id].Model() == node.Model();
      Insert(node);
      return if same then None else Some(node.id);
    }

    method Rename(c: NodeInformationChanged) returns (changed: Option<NodeId>)
      requires Valid()
      modifies Repr()
      ensures Valid() && Repr() == old(Repr())
      ensures Applied(Model(), changed) == Apply(old(Model()), NodeInformationUpdated(c))
    {
      hide WithInformation, WithPosition, WithStatus, WithRunStatus, WithRemainingTime, VeluxNode.Model;
      if c.nodeId !in nodes {
        return None;
      }
      var any := nodes[c.nodeId].ApplyInformationChanged(c);
      OnlyThisNode(c.nodeId);
      return if any then Some(nodes[c.nodeId].id) else None;
    }

    method Move(p: NodeStatePosition) returns (changed: Option<NodeId>)
      requires Valid()
      modifies Repr()
      ensures Valid() && Repr() == old(Repr())
      ensures Applied(Model(), changed) == Apply(old(Model()), NodePositionChanged(p))
    {
      hide WithInformation, WithPosition, WithStatus, WithRunStatus, WithRemainingTime, VeluxNode.Model;
      if p.nodeId !in nodes {
        return None;
      }
      var any := nodes[p.nodeId].ApplyStatePosition(p, NotificationSource);
      OnlyThisNode(p.nodeId);
      return if any then Some(nodes[p.nodeId].id) else None;
    }

    method Report(s: StatusNotification) returns (changed: Option<NodeId>)
      requires Valid()
      modifies Repr()
      ensures Valid() && Repr() == old(Repr())
      ensures Applied(Model(), changed) == Apply(old(Model()), StatusReceived(s))
    {
      hide WithInformation, WithPosition, WithStatus, WithRunStatus, WithRemainingTime, VeluxNode.Model;
      if s.nodeId !in nodes {
        return None;
      }
      var any := nodes[s.nodeId].ApplyStatus(s, Poll);
      OnlyThisNode(s.nodeId);
      return if any then Some(nodes[s.nodeId].id) else None;
    }

    method Progress(s: CommandRunStatus) returns (changed: Option<NodeId>)
      requires Valid()
      modifies Repr()
      ensures Valid() && Repr() == old(Repr())
      ensures Applied(Model(), changed) == Apply(old(Model()), CommandRunStatusReceived(s))
    {
      hide WithInformation, WithPosition, WithStatus, WithRunStatus, WithRemainingTime, VeluxNode.Model;
      if s.nodeId !in nodes {
        return None;
      }
      var any := nodes[s.nodeId].ApplyRunStatus(s);
      OnlyThisNode(s.nodeId);
      return if any then Some(nodes[s.nodeId].id) else None;
    }

    method CountDown(session: SessionId, node: NodeId, seconds: u16) returns (changed: Option<NodeId>)
      requires Valid()
      modifies Repr()
      ensures Valid() && Repr() == old(Repr())
      ensures Applied(Model(), changed) == Apply(old(Model()), CommandRemainingTime(session, node, seconds))
    {
      hide WithInformation, WithPosition, WithStatus, WithRunStatus, WithRemainingTime, VeluxNode.Model;
      if node !in nodes {
        return None;
      }
      var any := nodes[node].ApplyRemainingTime(seconds);
      OnlyThisNode(node);
      return if any then Some(nodes[node].id) else None;
    }

    method ApplyResponse(r: Response) returns (changed: Option<NodeId>)
      requires Valid()
      modifies this, Repr()
      ensures Valid() && fresh(Repr() - old(Repr()))
      ensures Applied(Model(), changed) == Apply(old(Model()), r)
    {
      match r {
        case NodeInformationReceived(info) => changed := Learn(info);
        case NodeInformationUpdated(c) => changed := Rename(c);
        case NodePositionChanged(p) => changed := Move(p);
        case StatusReceived(s) => changed := Report(s);
        case CommandRunStatusReceived(s) => changed := Progress(s);
        case CommandRemainingTime(session, node, seconds) => changed := CountDown(session, node, seconds);
        case _ => changed := None;
      }
    }

    method MergeOne(info: NodeInformation, added: seq<NodeId>, updated: seq<NodeId>)
      returns (nowAdded: seq<NodeId>, nowUpdated: seq<NodeId>)
      requires Valid()
      modifies this
      ensures Valid() && fresh(Repr() - old(Repr()))
      ensures Reconciliation(Model(), nowAdded, nowUpdated, [])
           == Merge(Reconciliation(old(Model()), added, updated, []), Nodes.FromInformation(info))
    {
      hide Nodes.FromInformation;
      nowAdded, nowUpdated := added, updated;
      var node := new VeluxNode.FromInformation(info);
      if node.id !in nodes {
        nowAdded := added + [node.id];
      } else if nodes[node.id].Model() != node.Model() {
        nowUpdated := updated + [node.id];
      }
      Insert(node);
    }

    method Reconcile(information: seq<NodeInformation>)
      returns (added: seq<NodeId>, updated: seq<NodeId>, removed: seq<NodeId>)
      requires Valid()
      modifies this
      ensures Valid() && fresh(Repr() - old(Repr()))
      ensures Reconciliation(Model(), added, updated, removed) == Nodes.Reconcile(old(Model()), information)
    {
      hide Nodes.FromInformation, Merge, AscendingIds, VeluxNode.Model;
      ghost var start := Model();
      added, updated := [], [];
      for i := 0 to |information|
        invariant Valid() && fresh(Repr() - old(Repr()))
        invariant Reconciliation(Model(), added, updated, []) == Merged(start, information[..i])
      {
        assert information[..i + 1][..i] == information[..i];
        added, updated := MergeOne(information[i], added, updated);
      }
      assert information[..|information|] == information;
      assert Model().Keys == nodes.Keys;
      removed := AscendingIds(nodes.Keys - Listed(information), 0);
      Remove(removed);
    }

    method Remove(ids: seq<NodeId>)
      requires Valid()
      modifies this
      ensures Valid() && Repr() <= old(Repr())
      ensures Model() == old(Model()) - (set id | id in ids)
    {
      hide VeluxNode.Model;
      for i := 0 to |ids|
        invariant nodes == old(nodes) - (set id | id in ids[..i])
      {
        assert ids[..i + 1] == ids[..i] + [ids[i]];
        nodes := nodes - {ids[i]};
      }
      assert ids[..|ids|] == ids;
    }

    method SetOneAvailable(id: NodeId, available: bool)
      requires Valid() && id in nodes
      modifies nodes[id]
      ensures Model() == old(Model())[id := Reached(old(Model())[id], available)]
    {
      hide VeluxNode.Model;
      var _ := nodes[id].SetAvailable(available);
      OnlyThisNode(id);
    }

    method SetAllAvailable(available: bool)
      requires Valid()
      modifies Repr()
      ensures Valid() && Repr() == old(Repr())
      ensures Model() == Nodes.SetAvailable(old(Model()), available)
    {
      hide VeluxNode.Model, Reached, Marked, AscendingIds, Nodes.SetAvailable, Unrepeated;
      ghost var start := Model();
      assert start.Keys == nodes.Keys;
      var ids := AscendingIds(nodes.Keys, 0);
      MarkedNoneAndAll(start, available);
      assert ids[..0] == [];
      for i := 0 to |ids|
        invariant nodes == old(nodes) && Model().Keys == nodes.Keys
        invariant Model() == Marked(start, ids[..i], available)
      {
        assert ids[..i + 1] == ids[..i] + [ids[i]];
        assert ids[i] in ids && ids[i] !in ids[..i];
        MarkedSnoc(start, ids[..i], ids[i], available);
        SetOneAvailable(ids[i], available);
      }
      assert ids[..|ids|] == ids;
    }
  }

  function Marked(cache: Cache, ids: seq<NodeId>, available: bool): Cache {
    map id | id in cache :: if id in ids then Reached(cache[id], available) else cache[id]
  }

  lemma MarkedNoneAndAll(cache: Cache, available: bool)
    ensures Marked(cache, [], available) == cache
    ensures Marked(cache, AscendingIds(cache.Keys, 0), available) == Nodes.SetAvailable(cache, available)
  {
    hide Reached, AscendingIds;
  }

  lemma MarkedSnoc(cache: Cache, ids: seq<NodeId>, id: NodeId, available: bool)
    requires id in cache && id !in ids
    ensures Marked(cache, ids + [id], available)
         == Marked(cache, ids, available)[id := Reached(Marked(cache, ids, available)[id], available)]
  {
  }

  // ----- Every cache the bridge can come to -----

  datatype Update =
    | Respond(response: Response)
    | Discover(information: seq<NodeInformation>)
    | Accept(id: NodeId, response: Response, session: SessionId, endpoint: Endpoint)
    | Forget(id: NodeId)
    | Reach(available: bool)

  function After(cache: Cache, u: Update): Cache {
    match u
    case Respond(r) => Apply(cache, r).cache
    case Discover(information) => Reconcile(cache, information).cache
    case Accept(id, r, session, e) => if id in cache then cache[id := Confirmed(cache[id], r, session, e)] else cache
    case Forget(id) => if id in cache then cache[id := StatusUnknown(cache[id])] else cache
    case Reach(available) => SetAvailable(cache, available)
  }

  /** What comes from the gateway has been decoded, so its positions are in range. */
  predicate FromGateway(u: Update) {
    match u
    case Respond(r) => BoundedResponse(r)
    case Discover(information) => forall info :: info in information ==> BoundedResponse(NodeInformationReceived(info))
    case _ => true
  }

  function AfterAll(cache: Cache, updates: seq<Update>): Cache {
    if updates == [] then cache
    else After(AfterAll(cache, updates[..|updates| - 1]), updates[|updates| - 1])
  }

  lemma {:induction false} MergedKeepsSound(cache: Cache, information: seq<NodeInformation>)
    requires Sound(cache) && FromGateway(Discover(information))
    ensures Sound(Merged(cache, information).cache)
  {
    hide StrategyFor;
    if information != [] {
      var n := |information| - 1;
      assert forall info :: info in information[..n] ==> info in information;
      MergedKeepsSound(cache, information[..n]);
      assert information[n] in information;
      assert BoundedResponse(NodeInformationReceived(information[n]));
    }
  }

  /** In every reachable cache, nodes sit under their own IDs, covers are told by their codes and
      positions are in range: published percentages are exact and toggles reverse motion. */
  lemma {:induction false} ReachableCachesAreSound(updates: seq<Update>)
    requires forall u :: u in updates ==> FromGateway(u)
    ensures var cache := AfterAll(map[], updates);
            && Sound(cache)
            && (forall id :: id in cache && cache[id].current.Some? ==>
                  -256 <= OpenPercent(cache[id].current.value) * 512 - (FULLY_CLOSED - cache[id].current.value) <= 256)
            && (forall id :: id in cache && State(cache[id]) == Opening ==> Toggle(cache[id]) == Ok(ClosedEnd))
            && (forall id :: id in cache && State(cache[id]) == Closing ==> Toggle(cache[id]) == Ok(OpenEnd))
    decreases |updates|
  {
    hide Apply, Merged, Confirmed, StatusUnknown, SetAvailable, OpenPercent, Toggle, State, StrategyFor;
    if updates != [] {
      var n := |updates| - 1;
      ReachableCachesAreSound(updates[..n]);
      var before := AfterAll(map[], updates[..n]);
      assert FromGateway(updates[n]);
      match updates[n]
      case Respond(r) => ApplyKeepsSound(before, r);
      case Discover(information) => MergedKeepsSound(before, information);
      case Accept(id, r, session, e) => MarksKeepSound(before, id, r, session, e, true);
      case Forget(id) => MarksKeepSound(before, id, CommandAccepted(1, 0), 1, OpenEnd, true);
      case Reach(available) => MarksKeepSound(before, 0, CommandAccepted(1, 0), 1, OpenEnd, available);
    }
    var cache := AfterAll(map[], updates);
    forall id | id in cache
      ensures cache[id].current.Some? ==>
                -256 <= OpenPercent(cache[id].current.value) * 512 - (FULLY_CLOSED - cache[id].current.value) <= 256
      ensures State(cache[id]) == Opening ==> Toggle(cache[id]) == Ok(ClosedEnd)
      ensures State(cache[id]) == Closing ==> Toggle(cache[id]) == Ok(OpenEnd)
    {
      ToggleReversesMotion(cache[id]);
      if cache[id].current.Some? {
        OpenPercentIsNearest(cache[id].current.value);
      }
    }
  }
}
