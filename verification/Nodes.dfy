/** Cover nodes and their cache (src/veluxnode.rs). */
module Nodes {
  import opened Base
  import opened Values
  import opened SessionIds
  import opened Payloads
  import opened Protocol

  datatype CoverStrategy = MainParameter

  datatype CoverState = Open | Closed | Opening | Closing | UnknownCover

  datatype StatusSource = Discovery | NotificationSource | Poll | Command

  datatype Freshness = Freshness(source: StatusSource, timestamp: Option<u32>)

  datatype CoverAction = OpenCover | CloseCover | ToggleCover

  datatype Endpoint = OpenEnd | ClosedEnd

  datatype NodeError = UnsupportedActuator(node: NodeId) | PositionUnknown(node: NodeId)

  /** The value of a node; the actuator type is represented by its code. */
  datatype Node = Node(
    id: NodeId, name: Utf8, order: u16, placement: byte, serialNumber: seq<byte>, nodeTypeSubType: u16,
    actuatorCode: u16, actuatorSubtype: byte, productGroup: byte, productType: byte, velocity: byte,
    variation: byte, powerMode: byte, buildNumber: byte, strategy: Option<CoverStrategy>, available: bool,
    operatingState: OperatingState, current: Option<u16>, target: Option<u16>, remainingTime: Option<u16>,
    freshness: Option<Freshness>)

  // ----- Pure tables -----

  /** The actuator codes that are driven as covers by their main parameter. */
  function StrategyFor(code: u16): Option<CoverStrategy> {
    match code
    case 1 | 2 | 3 | 4 | 5 | 7 | 8 | 10 | 16 | 17 | 18 | 19 | 24 => Some(MainParameter)
    case _ => None
  }

  function RelativePosition(p: StandardParameter): Option<u16> {
    if p.Relative? then Some(p.raw) else None
  }

  function KnownTime(seconds: u16): Option<u16> {
    if seconds == 0xFFFF then None else Some(seconds)
  }

  function OperatingOfRun(run: RunStatus): OperatingState {
    match run
    case Completed => Done
    case Failed => ExecutionError
    case Active => Executing
    case UnknownRun(code) => UnknownState(code)
  }

  function DeriveCoverState(operating: OperatingState, current: Option<u16>, target: Option<u16>): CoverState {
    match operating
    case Executing | WaitingForPower =>
      if current.Some? && target.Some? && target.value > current.value then Closing
      else if current.Some? && target.Some? && target.value < current.value then Opening
      else UnknownCover
    case NonExecuting | Done =>
      if current.None? then UnknownCover
      else if current.value == FULLY_CLOSED then Closed
      else Open
    case _ => UnknownCover
  }

  function OpenPercent(position: u16): byte {
    100 - RoundedPercent(position)
  }

  function EndpointPosition(e: Endpoint): u16 {
    match e
    case OpenEnd => FULLY_OPEN
    case ClosedEnd => FULLY_CLOSED
  }

  // ----- What happens to one node -----

  function FromInformation(info: NodeInformation): Node {
    var code := info.nodeTypeSubType / 64;
    Node(info.nodeId, info.name, info.order, info.placement, info.serialNumber, info.nodeTypeSubType,
         code, info.nodeTypeSubType % 64, info.productGroup, info.productType, info.velocity,
         info.variation, info.powerMode, info.buildNumber, StrategyFor(code), true,
         info.operatingState, RelativePosition(info.currentPosition), RelativePosition(info.targetPosition),
         KnownTime(info.remainingTime), Some(Freshness(Discovery, Some(info.timestamp))))
  }

  predicate Controllable(n: Node) {
    n.strategy.Some?
  }

  function State(n: Node): CoverState {
    DeriveCoverState(n.operatingState, n.current, n.target)
  }

  function WithInformation(n: Node, c: NodeInformationChanged): Node {
    if c.nodeId != n.id then n
    else n.(name := c.name, order := c.order, placement := c.placement, variation := c.variation)
  }

  function WithPosition(n: Node, p: NodeStatePosition, source: StatusSource): Node {
    if p.nodeId != n.id then n
    else n.(available := true, operatingState := p.operatingState, current := RelativePosition(p.currentPosition),
            target := RelativePosition(p.targetPosition), remainingTime := KnownTime(p.remainingTime),
            freshness := Some(Freshness(source, Some(p.timestamp))))
  }

  function WithStatus(n: Node, s: StatusNotification, source: StatusSource): Node {
    if s.nodeId != n.id || !s.detail.Main? then n
    else n.(available := true, operatingState := OperatingOfRun(s.runStatus),
            current := RelativePosition(s.detail.currentPosition), target := RelativePosition(s.detail.targetPosition),
            remainingTime := KnownTime(s.detail.remainingTime), freshness := Some(Freshness(source, None)))
  }

  function WithRunStatus(n: Node, s: CommandRunStatus): Node {
    if s.nodeId != n.id then n
    else n.(operatingState := OperatingOfRun(s.runStatus),
            remainingTime := (match s.runStatus
                              case Completed => Some(0)
                              case Failed => None
                              case _ => n.remainingTime),
            current := if s.nodeParameter == 0 then RelativePosition(s.parameterValue) else n.current,
            freshness := Some(Freshness(NotificationSource, None)))
  }

  function WithRemainingTime(n: Node, seconds: u16): Node {
    if n.remainingTime == KnownTime(seconds) then n
    else n.(remainingTime := KnownTime(seconds), freshness := Some(Freshness(NotificationSource, None)))
  }

  function Accepted(n: Node, e: Endpoint): Node {
    n.(target := Some(EndpointPosition(e)), operatingState := Executing, freshness := Some(Freshness(Command, None)))
  }

  function Confirmed(n: Node, r: Response, id: SessionId, e: Endpoint): Node {
    if r == CommandAccepted(id, 1) then Accepted(n, e) else n
  }

  function StatusUnknown(n: Node): Node {
    n.(operatingState := UnknownState(255), current := None, target := None, remainingTime := None,
       freshness := Some(Freshness(Poll, None)))
  }

  function Toggle(n: Node): Result<Endpoint, NodeError> {
    var moving := n.operatingState == Executing || n.operatingState == WaitingForPower;
    if moving && n.target == Some(FULLY_CLOSED) then Ok(OpenEnd)
    else if moving && n.target == Some(FULLY_OPEN) then Ok(ClosedEnd)
    else if moving && State(n) == Closing then Ok(OpenEnd)
    else if moving && State(n) == Opening then Ok(ClosedEnd)
    else
      match n.current
      case Some(position) => Ok(if position >= FromPercent(50) then OpenEnd else ClosedEnd)
      case None => Err(PositionUnknown(n.id))
  }

  function Resolve(n: Node, action: CoverAction): Result<Endpoint, NodeError> {
    match action
    case OpenCover => Ok(OpenEnd)
    case CloseCover => Ok(ClosedEnd)
    case ToggleCover => Toggle(n)
  }

  function CoverCommand(n: Node, id: SessionId, action: CoverAction): Result<Request, NodeError> {
    if n.strategy.None? then Err(UnsupportedActuator(n.id))
    else
      match Resolve(n, action)
      case Err(e) => Err(e)
      case Ok(e) => Ok(CommandSend(id, n.id, EndpointPosition(e)))
  }

  // ----- The cache -----

  type Cache = map<NodeId, Node>

  datatype Applied = Applied(cache: Cache, changed: Option<NodeId>)

  function Replace(cache: Cache, key: NodeId, after: Node): Applied
    requires key in cache
  {
    Applied(cache[key := after], if after == cache[key] then None else Some(after.id))
  }

  function Apply(cache: Cache, r: Response): Applied {
    match r
    case NodeInformationReceived(info) =>
      var node := FromInformation(info);
      Applied(cache[node.id := node], if node.id in cache && cache[node.id] == node then None else Some(node.id))
    case NodeInformationUpdated(c) =>
      if c.nodeId !in cache then Applied(cache, None) else Replace(cache, c.nodeId, WithInformation(cache[c.nodeId], c))
    case NodePositionChanged(p) =>
      if p.nodeId !in cache then Applied(cache, None)
      else Replace(cache, p.nodeId, WithPosition(cache[p.nodeId], p, NotificationSource))
    case StatusReceived(s) =>
      if s.nodeId !in cache then Applied(cache, None)
      else Replace(cache, s.nodeId, WithStatus(cache[s.nodeId], s, Poll))
    case CommandRunStatusReceived(s) =>
      if s.nodeId !in cache then Applied(cache, None) else Replace(cache, s.nodeId, WithRunStatus(cache[s.nodeId], s))
    case CommandRemainingTime(_, id, seconds) =>
      if id !in cache then Applied(cache, None) else Replace(cache, id, WithRemainingTime(cache[id], seconds))
    case _ => Applied(cache, None)
  }

  function Reached(n: Node, available: bool): Node {
    n.(available := available)
  }

  function SetAvailable(cache: Cache, available: bool): Cache {
    map id | id in cache :: Reached(cache[id], available)
  }

  /** The given IDs from start on, in the ascending order of the source's B-tree maps. */
  function AscendingIds(ids: set<byte>, start: nat): (r: seq<byte>)
    requires start <= 256
    ensures forall id :: id in r <==> id in ids && start <= id
    ensures forall k :: 0 <= k < |r| ==> start <= r[k]
    ensures forall i, j :: 0 <= i < j < |r| ==> r[i] < r[j]
    decreases 256 - start, ids
  {
    if start == 256 then []
    else (if start in ids then [start] else []) + AscendingIds(ids, start + 1)
  }

  /** The values of a map in the order of its keys. */
  function InOrder<V>(m: map<byte, V>, ids: seq<byte>): (r: seq<V>)
    requires forall id :: id in ids ==> id in m
    ensures |r| == |ids| && forall i :: 0 <= i < |ids| ==> r[i] == m[ids[i]]
  {
    if ids == [] then [] else InOrder(m, ids[..|ids| - 1]) + [m[ids[|ids| - 1]]]
  }

  datatype Reconciliation = Reconciliation(cache: Cache, added: seq<NodeId>, updated: seq<NodeId>, removed: seq<NodeId>)

  function Listed(information: seq<NodeInformation>): set<NodeId> {
    set info | info in information :: info.nodeId
  }

  function Merge(before: Reconciliation, node: Node): Reconciliation {
    before.(cache := before.cache[node.id := node],
            added := before.added + if node.id !in before.cache then [node.id] else [],
            updated := before.updated
                       + if node.id in before.cache && before.cache[node.id] != node then [node.id] else [])
  }

  /** The cache and the two lists after the listed information, before anything is removed. */
  function Merged(cache: Cache, information: seq<NodeInformation>): Reconciliation {
    if information == [] then Reconciliation(cache, [], [], [])
    else
      var n := |information| - 1;
      Merge(Merged(cache, information[..n]), FromInformation(information[n]))
  }

  function Reconcile(cache: Cache, information: seq<NodeInformation>): Reconciliation {
    var merged := Merged(cache, information);
    var removed := AscendingIds(merged.cache.Keys - Listed(information), 0);
    merged.(cache := merged.cache - (set id | id in removed), removed := removed)
  }

  // ----- Change detection -----

  predicate Keyed(cache: Cache) {
    forall id :: id in cache ==> cache[id].id == id
  }

  /** A node as the gateway can bring it about: covers are told by the code, positions are in range. */
  predicate Consistent(n: Node) {
    && n.actuatorCode == n.nodeTypeSubType / 64
    && n.strategy == StrategyFor(n.actuatorCode)
    && (n.current.Some? ==> n.current.value <= FULLY_CLOSED)
    && (n.target.Some? ==> n.target.value <= FULLY_CLOSED)
  }

  predicate Sound(cache: Cache) {
    Keyed(cache) && forall id :: id in cache ==> Consistent(cache[id])
  }

  /** A reported change is a change, at the reported node only; an unreported response changes nothing. */
  lemma ApplyReportsExactly(cache: Cache, r: Response)
    requires Keyed(cache)
    ensures var after := Apply(cache, r);
            && (after.changed.None? <==> after.cache == cache)
            && (after.changed.Some? ==>
                  && after.changed.value in after.cache
                  && after.cache == cache[after.changed.value := after.cache[after.changed.value]])
            && Keyed(after.cache)
  {
    hide FromInformation, StrategyFor, RelativePosition;
    var after := Apply(cache, r);
    if after.changed.None? && after.cache != cache {
      assert exists key :: key in cache && after.cache == cache[key := cache[key]];
      assert false;
    }
  }

  /** Decoded responses keep every cached node keyed by its own ID, classified and in range. */
  lemma ApplyKeepsSound(cache: Cache, r: Response)
    requires Sound(cache) && BoundedResponse(r)
    ensures Sound(Apply(cache, r).cache)
  {
    hide StrategyFor;
  }

  lemma ListedSnoc(information: seq<NodeInformation>, n: nat)
    requires n + 1 == |information|
    ensures Listed(information) == Listed(information[..n]) + {FromInformation(information[n]).id}
  {
    assert information == information[..n] + [information[n]];
  }

  lemma {:induction false} MergedAt(cache: Cache, information: seq<NodeInformation>, id: NodeId)
    ensures var m := Merged(cache, information);
            && (id in m.cache <==> id in cache || id in Listed(information))
            && (id in m.added <==> id in Listed(information) && id !in cache)
            && (id in m.updated ==> id in Listed(information))
            && (Keyed(cache) && id in m.cache ==> m.cache[id].id == id)
    decreases |information|
  {
    assert information == [] ==> Listed(information) == {};
    hide FromInformation, Listed;
    if information != [] {
      MergedAt(cache, information[..|information| - 1], id);
      ListedSnoc(information, |information| - 1);
    }
  }

  lemma {:induction false} AddedOnce(cache: Cache, information: seq<NodeInformation>)
    ensures Unrepeated(Merged(cache, information).added)
    decreases |information|
  {
    hide FromInformation, Listed;
    if information != [] {
      var n := |information| - 1;
      var id := FromInformation(information[n]).id;
      AddedOnce(cache, information[..n]);
      MergedAt(cache, information[..n], id);
      assert id !in Merged(cache, information[..n]).cache ==> id !in Merged(cache, information[..n]).added;
    }
  }

  lemma FromKeepsId(info: NodeInformation)
    ensures FromInformation(info).id == info.nodeId
  {
  }

  predicate LastOfItsNode(information: seq<NodeInformation>, k: nat)
    requires k < |information|
  {
    forall j :: k < j < |information| ==> information[j].nodeId != information[k].nodeId
  }

  /** An entry that is the last one for its node is what the cache holds for it. */
  lemma {:induction false} MergedHoldsTheLast(cache: Cache, information: seq<NodeInformation>, k: nat)
    requires k < |information| && LastOfItsNode(information, k)
    ensures information[k].nodeId in Merged(cache, information).cache
    ensures Merged(cache, information).cache[information[k].nodeId] == FromInformation(information[k])
    decreases |information|
  {
    hide FromInformation;
    var n := |information| - 1;
    FromKeepsId(information[n]);
    if k < n {
      MergedHoldsTheLast(cache, information[..n], k);
    }
  }

  lemma {:induction false} MergedKeepsUnlisted(cache: Cache, information: seq<NodeInformation>, id: NodeId)
    requires id !in Listed(information)
    ensures id in Merged(cache, information).cache <==> id in cache
    ensures id in cache ==> Merged(cache, information).cache[id] == cache[id]
    decreases |information|
  {
    hide FromInformation;
    if information != [] {
      var n := |information| - 1;
      FromKeepsId(information[n]);
      assert information[n] in information;
      MergedKeepsUnlisted(cache, information[..n], id);
    }
  }

  predicate Distinct(information: seq<NodeInformation>) {
    forall i, j :: 0 <= i < j < |information| ==> information[i].nodeId != information[j].nodeId
  }

  lemma LastIsNew(information: seq<NodeInformation>, n: nat)
    requires Distinct(information) && n + 1 == |information|
    ensures FromInformation(information[n]).id !in Listed(information[..n])
  {
  }

  /** Without repeated nodes, updated is the set of listed nodes whose cached value was another one. */
  lemma {:induction false} MergedReportsUpdates(cache: Cache, information: seq<NodeInformation>, id: NodeId)
    requires Distinct(information)
    ensures id in Merged(cache, information).updated
       <==> && id in Listed(information) && id in cache
            && (id in Merged(cache, information).cache ==> Merged(cache, information).cache[id] != cache[id])
    decreases |information|
  {
    hide FromInformation, Listed;
    if information != [] {
      var n := |information| - 1;
      var node := FromInformation(information[n]);
      MergedReportsUpdates(cache, information[..n], id);
      ListedSnoc(information, n);
      if id == node.id {
        LastIsNew(information, n);
        MergedKeepsUnlisted(cache, information[..n], id);
      }
    }
  }

  /** Reconciling leaves exactly the listed nodes, each as last listed, and reports what came and went. */
  lemma ReconcileIsExact(cache: Cache, information: seq<NodeInformation>)
    ensures var r := Reconcile(cache, information);
            && r.cache.Keys == Listed(information)
            && (forall id :: id in r.added <==> id in Listed(information) && id !in cache)
            && Unrepeated(r.added)
            && (forall id :: id in r.removed <==> id in cache && id !in Listed(information))
            && (forall i, j :: 0 <= i < j < |r.removed| ==> r.removed[i] < r.removed[j])
            && (Keyed(cache) ==> Keyed(r.cache))
            && (forall k :: 0 <= k < |information| && LastOfItsNode(information, k) ==>
                  r.cache[information[k].nodeId] == FromInformation(information[k]))
            && (Distinct(information) ==>
                  forall id :: id in r.updated <==> id in cache && id in r.cache && r.cache[id] != cache[id])
  {
    hide FromInformation, Merged, AscendingIds;
    forall id: NodeId
      ensures var m := Merged(cache, information);
              && (id in m.cache <==> id in cache || id in Listed(information))
              && (id in m.added <==> id in Listed(information) && id !in cache)
              && (Keyed(cache) && id in m.cache ==> m.cache[id].id == id)
    {
      MergedAt(cache, information, id);
    }
    AddedOnce(cache, information);
    forall k | 0 <= k < |information| && LastOfItsNode(information, k)
      ensures Reconcile(cache, information).cache[information[k].nodeId] == FromInformation(information[k])
    {
      assert information[k].nodeId in Listed(information);
      MergedHoldsTheLast(cache, information, k);
    }
    if Distinct(information) {
      forall id
        ensures var r := Reconcile(cache, information);
                id in r.updated <==> id in cache && id in r.cache && r.cache[id] != cache[id]
      {
        MergedReportsUpdates(cache, information, id);
      }
    }
  }

  // ----- Positions and toggling -----

  /** The published percentage is within half a percent of the exact one, 512 raw steps to a percent. */
  lemma OpenPercentIsNearest(position: u16)
    requires position <= FULLY_CLOSED
    ensures -256 <= OpenPercent(position) * 512 - (FULLY_CLOSED - position) <= 256
    ensures forall percent: byte :: percent <= 100 ==> OpenPercent(FromPercent(percent)) == 100 - percent
  {
  }

  function Opposite(e: Endpoint): Endpoint {
    if e == OpenEnd then ClosedEnd else OpenEnd
  }

  /** Toggling a closing cover opens it; an opening cover is closed unless it is already past its
      fully closed target, which no reachable node is. */
  lemma ToggleReversesMotion(n: Node)
    ensures State(n) == Closing ==> Toggle(n) == Ok(OpenEnd)
    ensures State(n) == Opening ==> (Toggle(n) == Ok(ClosedEnd) <==> n.target != Some(FULLY_CLOSED))
    ensures Consistent(n) && State(n) == Opening ==> Toggle(n) == Ok(ClosedEnd)
  {
  }

  /** The endpoints that a run of accepted toggles resolves to. */
  function AcceptedToggles(n: Node, count: nat): seq<Result<Endpoint, NodeError>>
    decreases count
  {
    if count == 0 then []
    else
      match Toggle(n)
      case Err(e) => [Err(e)]
      case Ok(e) => [Ok(e)] + AcceptedToggles(Accepted(n, e), count - 1)
  }

  /** Once the first toggle resolves, every accepted one reverses the one before. */
  lemma {:induction false} AcceptedTogglesAlternate(n: Node, count: nat)
    requires Toggle(n).Ok?
    ensures var run := AcceptedToggles(n, count);
            && |run| == count
            && (count > 0 ==> run[0] == Toggle(n))
            && (forall i :: 0 <= i < count ==> run[i].Ok?)
            && (forall i :: 0 <= i < count - 1 ==> run[i + 1].value == Opposite(run[i].value))
    decreases count
  {
    if count > 0 {
      var after := Accepted(n, Toggle(n).value);
      assert Toggle(after) == Ok(Opposite(Toggle(n).value));
      AcceptedTogglesAlternate(after, count - 1);
    }
  }

  /** Acceptance, expiry of knowledge and loss of the gateway keep nodes consistent. */
  lemma MarksKeepSound(cache: Cache, id: NodeId, r: Response, session: SessionId, e: Endpoint, available: bool)
    requires Sound(cache)
    ensures id in cache ==> Sound(cache[id := Confirmed(cache[id], r, session, e)])
    ensures id in cache ==> Sound(cache[id := StatusUnknown(cache[id])])
    ensures Sound(SetAvailable(cache, available))
  {
    hide StrategyFor;
  }
}
