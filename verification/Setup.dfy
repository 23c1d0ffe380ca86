/** Preparing a gateway for the bridge: discovery results, recovered group members and the initial
    status of every cover (initialize_gateway and query_initial_status of src/bridge.rs). */
module Setup {
  import opened Base
  import opened Values
  import opened SessionIds
  import opened Payloads
  import opened Protocol
  import opened Nodes
  import opened Snapshots
  import Actor
  import Bridge
  import Descriptions
  import NodeCache
  import Readings
  import SessionLedger

  /** What the event receiver yields: an event, or an error because it lagged or was closed. */
  datatype Signal = Got(event: Actor.Event) | Broken

  datatype Outcome = Answered | SessionExpired | GatewayLost | ReceiverBroken | TimeOut | Refused | Exhausted

  datatype Query = Query(cache: Cache, ids: Allocator, outcome: Outcome, rest: seq<Signal>)

  // ----- The initial status of one cover -----

  predicate IsStatusOf(r: Response, session: SessionId, node: NodeId) {
    r.StatusReceived? && r.status_.sessionId == session && r.status_.nodeId == node
  }

  function GivenBack(ids: Allocator, id: SessionId): Allocator {
    Perform(ids, Operation.Release(id)).allocator
  }

  function AfterNotification(ids: Allocator, r: Response): Allocator {
    if r.SessionFinished? then GivenBack(ids, r.sessionId) else ids
  }

  /** Reads events until the status of the node has come; running out of them is the timeout. */
  function Listen(cache: Cache, ids: Allocator, session: SessionId, node: NodeId, heard: seq<Signal>): (q: Query)
    ensures |q.rest| <= |heard|
    decreases |heard|
  {
    if heard == [] then Query(cache, ids, TimeOut, [])
    else
      var rest := heard[1..];
      match heard[0]
      case Broken => Query(cache, ids, ReceiverBroken, rest)
      case Got(Notification(r)) =>
        if IsStatusOf(r, session, node) then Query(Apply(cache, r).cache, ids, Answered, rest)
        else Listen(Apply(cache, r).cache, AfterNotification(ids, r), session, node, rest)
      case Got(SessionTimedOut(id)) =>
        if id == session then Query(cache, GivenBack(ids, id), SessionExpired, rest)
        else Listen(cache, GivenBack(ids, id), session, node, rest)
      case Got(Disconnected(_)) => Query(cache, ids, GatewayLost, rest)
      case Got(_) => Listen(cache, ids, session, node, rest)
  }

  function AskInitialStatus(cache: Cache, ids: Allocator, node: NodeId, answer: Bridge.GatewayAnswer,
                            heard: seq<Signal>): Query
  {
    var taken := Perform(ids, Allocate);
    if taken.result.Err? then Query(cache, ids, Exhausted, heard)
    else
      var session := taken.result.value;
      if Bridge.Kept(STATUS_REQUEST_REQ, session, answer) then Listen(cache, taken.allocator, session, node, heard)
      else Query(cache, GivenBack(taken.allocator, session), Refused, heard)
  }

  function Consumed(heard: seq<Signal>, q: Query): seq<Signal>
    requires |q.rest| <= |heard|
  {
    heard[..|heard| - |q.rest|]
  }

  ghost predicate Ended(heard: seq<Signal>, id: SessionId) {
    exists k :: 0 <= k < |heard| && heard[k].Got? && SessionLedger.Ends(heard[k].event, id)
  }

  lemma EndedUnfolds(heard: seq<Signal>, n: nat, id: SessionId)
    requires 0 < n <= |heard|
    ensures Ended(heard[..n], id)
       <==> (heard[0].Got? && SessionLedger.Ends(heard[0].event, id)) || Ended(heard[1..][..n - 1], id)
  {
    hide SessionLedger.Ends;
    if Ended(heard[..n], id) {
      var k :| 0 <= k < n && heard[..n][k].Got? && SessionLedger.Ends(heard[..n][k].event, id);
      assert k > 0 ==> heard[1..][..n - 1][k - 1] == heard[k];
    }
    if Ended(heard[1..][..n - 1], id) {
      var k :| 0 <= k < n - 1 && heard[1..][..n - 1][k].Got? && SessionLedger.Ends(heard[1..][..n - 1][k].event, id);
      assert heard[..n][k + 1] == heard[1..][..n - 1][k];
    }
    if heard[0].Got? && SessionLedger.Ends(heard[0].event, id) {
      assert heard[..n][0] == heard[0];
    }
  }

  /** Listening gives back exactly the session IDs whose end it read. */
  lemma {:induction false} ListeningReleasesWhatEnded(cache: Cache, ids: Allocator, session: SessionId, node: NodeId,
                                                      heard: seq<Signal>, id: SessionId)
    ensures var q := Listen(cache, ids, session, node, heard);
            id in q.ids.active <==> id in ids.active && !Ended(Consumed(heard, q), id)
    decreases |heard|
  {
    hide Apply;
    var q := Listen(cache, ids, session, node, heard);
    if heard != [] {
      var rest := heard[1..];
      EndedUnfolds(heard, |heard| - |q.rest|, id);
      assert |heard| - |q.rest| == 1 ==> !Ended(rest[..0], id);
      match heard[0]
      case Broken =>
      case Got(Notification(r)) =>
        if !IsStatusOf(r, session, node) {
          ListeningReleasesWhatEnded(Apply(cache, r).cache, AfterNotification(ids, r), session, node, rest, id);
        }
      case Got(SessionTimedOut(expired)) =>
        if expired != session {
          ListeningReleasesWhatEnded(cache, GivenBack(ids, expired), session, node, rest, id);
        }
      case Got(Disconnected(_)) =>
      case Got(_) => ListeningReleasesWhatEnded(cache, ids, session, node, rest, id);
    }
  }

  /** A completed query has read the status of its own session and node last, and the node shows it. */
  lemma {:induction false} CompletedShowsTheStatus(cache: Cache, ids: Allocator, session: SessionId, node: NodeId,
                                                   heard: seq<Signal>)
    requires Keyed(cache) && Listen(cache, ids, session, node, heard).outcome == Answered
    ensures var q := Listen(cache, ids, session, node, heard);
            var last := |heard| - |q.rest| - 1;
            && 0 <= last < |heard|
            && heard[last].Got? && heard[last].event.Notification?
            && IsStatusOf(heard[last].event.response, session, node)
            && (node in q.cache && heard[last].event.response.status_.detail.Main? ==>
                  var detail := heard[last].event.response.status_.detail;
                  && q.cache[node].current == RelativePosition(detail.currentPosition)
                  && q.cache[node].target == RelativePosition(detail.targetPosition)
                  && q.cache[node].operatingState == OperatingOfRun(heard[last].event.response.status_.runStatus))
    decreases |heard|
  {
    hide Perform;
    if heard != [] {
      var rest := heard[1..];
      match heard[0]
      case Broken =>
      case Got(Notification(r)) =>
        if !IsStatusOf(r, session, node) {
          ApplyReportsExactly(cache, r);
          hide Apply;
          CompletedShowsTheStatus(Apply(cache, r).cache, AfterNotification(ids, r), session, node, rest);
        }
      case Got(SessionTimedOut(expired)) =>
        if expired != session {
          CompletedShowsTheStatus(cache, GivenBack(ids, expired), session, node, rest);
        }
      case Got(Disconnected(_)) =>
      case Got(_) => CompletedShowsTheStatus(cache, ids, session, node, rest);
    }
  }

  /** How a signal ends the wait for the status, if it does. */
  function Decision(h: Signal, session: SessionId, node: NodeId): Option<Outcome> {
    match h
    case Broken => Some(ReceiverBroken)
    case Got(Notification(r)) => if IsStatusOf(r, session, node) then Some(Answered) else None
    case Got(SessionTimedOut(id)) => if id == session then Some(SessionExpired) else None
    case Got(Disconnected(_)) => Some(GatewayLost)
    case Got(_) => None
  }

  /** The wait ended with the first signal that decides it, as that one says; without any, after all of
      them. */
  ghost predicate EndsWithFirstDecision(heard: seq<Signal>, q: Query, session: SessionId, node: NodeId) {
    var n := |heard| - |q.rest|;
    && 0 <= n <= |heard| && q.rest == heard[n..]
    && (if q.outcome == TimeOut then n == |heard|
        else n > 0 && Decision(heard[n - 1], session, node) == Some(q.outcome))
    && forall i :: 0 <= i < (if q.outcome == TimeOut then n else n - 1) ==> Decision(heard[i], session, node).None?
  }

  lemma UndecidedAtFirst(heard: seq<Signal>, q: Query, session: SessionId, node: NodeId)
    requires heard != [] && Decision(heard[0], session, node).None?
    requires EndsWithFirstDecision(heard[1..], q, session, node)
    ensures EndsWithFirstDecision(heard, q, session, node)
  {
    hide Decision;
    var rest := heard[1..];
    var n := |rest| - |q.rest|;
    assert heard[n + 1..] == rest[n..];
    assert n > 0 ==> heard[n] == rest[n - 1];
    forall i | 0 < i < (if q.outcome == TimeOut then n + 1 else n)
      ensures Decision(heard[i], session, node).None?
    {
      assert heard[i] == rest[i - 1];
    }
  }

  /** The wait for an initial status ends with the first signal that decides it, and as that one says. */
  lemma {:induction false} FirstDecisionCounts(cache: Cache, ids: Allocator, session: SessionId, node: NodeId,
                                               heard: seq<Signal>)
    ensures EndsWithFirstDecision(heard, Listen(cache, ids, session, node, heard), session, node)
    decreases |heard|
  {
    hide Listen, EndsWithFirstDecision;
    if heard == [] {
      NothingDecided(cache, ids, session, node);
    } else {
      var q := Listen(cache, ids, session, node, heard);
      if Decision(heard[0], session, node).None? {
        var next := GoingOn(cache, ids, session, node, heard);
        FirstDecisionCounts(next.0, next.1, session, node, heard[1..]);
        UndecidedAtFirst(heard, q, session, node);
      } else {
        DecidedAtFirst(cache, ids, session, node, heard);
      }
    }
  }

  /** The cache and IDs with which the wait goes on after a signal that does not decide it. */
  lemma GoingOn(cache: Cache, ids: Allocator, session: SessionId, node: NodeId, heard: seq<Signal>)
    returns (next: (Cache, Allocator))
    requires heard != [] && Decision(heard[0], session, node).None?
    ensures Listen(cache, ids, session, node, heard) == Listen(next.0, next.1, session, node, heard[1..])
  {
    hide Apply, Perform, IsStatusOf;
    match heard[0]
    case Got(Notification(r)) => next := (Apply(cache, r).cache, AfterNotification(ids, r));
    case Got(SessionTimedOut(expired)) => next := (cache, GivenBack(ids, expired));
    case Got(_) => next := (cache, ids);
  }

  lemma DecidedAtFirst(cache: Cache, ids: Allocator, session: SessionId, node: NodeId, heard: seq<Signal>)
    requires heard != [] && Decision(heard[0], session, node).Some?
    ensures EndsWithFirstDecision(heard, Listen(cache, ids, session, node, heard), session, node)
  {
    hide Apply, Perform, IsStatusOf;
    var q := Listen(cache, ids, session, node, heard);
    assert q.rest == heard[1..] && Decision(heard[0], session, node) == Some(q.outcome);
  }

  lemma NothingDecided(cache: Cache, ids: Allocator, session: SessionId, node: NodeId)
    ensures EndsWithFirstDecision([], Listen(cache, ids, session, node, []), session, node)
  {
  }

  /** The responses a gateway can send. */
  predicate Decoded(heard: seq<Signal>) {
    forall h :: h in heard && h.Got? && h.event.Notification? ==> BoundedResponse(h.event.response)
  }

  lemma {:induction false} ListeningKeepsSound(cache: Cache, ids: Allocator, session: SessionId, node: NodeId,
                                               heard: seq<Signal>)
    requires Sound(cache) && Decoded(heard)
    ensures Sound(Listen(cache, ids, session, node, heard).cache)
    ensures Decoded(Listen(cache, ids, session, node, heard).rest)
    ensures cache.Keys <= Listen(cache, ids, session, node, heard).cache.Keys
    decreases |heard|
  {
    hide Sound, Perform, Apply;
    if heard != [] {
      var rest := heard[1..];
      assert Decoded(rest);
      match heard[0]
      case Broken =>
      case Got(Notification(r)) =>
        assert heard[0] in heard;
        ApplyKeepsSound(cache, r);
        ApplyOnlyAdds(cache, r);
        if !IsStatusOf(r, session, node) {
          ListeningKeepsSound(Apply(cache, r).cache, AfterNotification(ids, r), session, node, rest);
        }
      case Got(SessionTimedOut(expired)) =>
        if expired != session {
          ListeningKeepsSound(cache, GivenBack(ids, expired), session, node, rest);
        }
      case Got(Disconnected(_)) =>
      case Got(_) => ListeningKeepsSound(cache, ids, session, node, rest);
    }
  }

  lemma ApplyOnlyAdds(cache: Cache, r: Response)
    ensures cache.Keys <= Apply(cache, r).cache.Keys
  {
  }

  /** The loop over the event receiver. */
  method QueryInitialStatus(cache: Cache, ids: Allocator, node: NodeId, answer: Bridge.GatewayAnswer,
                            heard: seq<Signal>)
    returns (q: Query)
    ensures q == AskInitialStatus(cache, ids, node, answer, heard)
  {
    hide Apply, Perform;
    var taken := Perform(ids, Allocate);
    if taken.result.Err? {
      return Query(cache, ids, Exhausted, heard);
    }
    var session := taken.result.value;
    if !(answer.Ok? && answer.value.StatusAccepted? && answer.value.status == 1) {
      return Query(cache, GivenBack(taken.allocator, session), Refused, heard);
    }
    var nodes, active, rest := cache, taken.allocator, heard;
    while rest != []
      invariant Listen(nodes, active, session, node, rest) == Listen(cache, taken.allocator, session, node, heard)
      decreases |rest|
    {
      var next := rest[0];
      rest := rest[1..];
      match next {
        case Broken => return Query(nodes, active, ReceiverBroken, rest);
        case Got(Notification(r)) =>
          active := AfterNotification(active, r);
          nodes := Apply(nodes, r).cache;
          if IsStatusOf(r, session, node) {
            return Query(nodes, active, Answered, rest);
          }
        case Got(SessionTimedOut(id)) =>
          active := GivenBack(active, id);
          if id == session {
            return Query(nodes, active, SessionExpired, rest);
          }
        case Got(Disconnected(_)) => return Query(nodes, active, GatewayLost, rest);
        case Got(_) =>
      }
    }
    return Query(nodes, active, TimeOut, []);
  }

  // ----- The whole setup -----

  /** The groups by ID; of several with one ID the last one counts. */
  function GroupMap(listed: seq<GroupInformation>): Groups {
    if listed == [] then map[]
    else GroupMap(listed[..|listed| - 1])[listed[|listed| - 1].groupId := listed[|listed| - 1]]
  }

  function MemberIds(groups: Groups): set<NodeId> {
    set id, k | id in groups && k in Members(groups[id].actuators) :: k
  }

  /** What the gateway answers when asked for single nodes; nothing when it fails to. */
  type Lookups = map<NodeId, NodeInformation>

  function Recovered(cache: Cache, wanted: seq<NodeId>, lookups: Lookups): Cache {
    if wanted == [] then cache
    else
      var n := |wanted| - 1;
      var before := Recovered(cache, wanted[..n], lookups);
      if wanted[n] in before || wanted[n] !in lookups then before
      else Apply(before, NodeInformationReceived(lookups[wanted[n]])).cache
  }

  function Forgotten(cache: Cache, id: NodeId): Cache {
    if id in cache then cache[id := StatusUnknown(cache[id])] else cache
  }

  /** Each cover's status in turn: unknown first, then asked for. */
  function AllAsked(cache: Cache, ids: Allocator, covers: seq<NodeId>, answers: seq<Bridge.GatewayAnswer>,
                    heard: seq<seq<Signal>>): (Cache, Allocator)
    requires |answers| == |covers| == |heard|
    decreases |covers|
  {
    if covers == [] then (cache, ids)
    else
      var n := |covers| - 1;
      var before := AllAsked(cache, ids, covers[..n], answers[..n], heard[..n]);
      var forgotten := Forgotten(before.0, covers[n]);
      var q := AskInitialStatus(forgotten, before.1, covers[n], answers[n], heard[n]);
      (q.cache, q.ids)
  }

  function CoverIds(cache: Cache): seq<NodeId> {
    AscendingIds(set id | id in cache && Controllable(cache[id]), 0)
  }

  function Discovered(information: seq<NodeInformation>, listed: seq<GroupInformation>, lookups: Lookups): Cache {
    Recovered(Reconcile(map[], information).cache, AscendingIds(MemberIds(GroupMap(listed)), 0), lookups)
  }

  function Initialized(information: seq<NodeInformation>, listed: seq<GroupInformation>, lookups: Lookups,
                       answers: seq<Bridge.GatewayAnswer>, heard: seq<seq<Signal>>): Bridge.Prepared
    requires |answers| == |heard| == |CoverIds(Discovered(information, listed, lookups))|
  {
    var cache := Discovered(information, listed, lookups);
    var asked := AllAsked(cache, EMPTY, CoverIds(cache), answers, heard);
    Bridge.Prepared(asked.0, GroupMap(listed), asked.1)
  }

  predicate BoundedInformation(info: NodeInformation) {
    BoundedResponse(NodeInformationReceived(info))
  }

  lemma {:induction false} GroupMapIsKeyed(listed: seq<GroupInformation>)
    ensures GroupsKeyed(GroupMap(listed))
    ensures forall g :: g in listed ==> g.groupId in GroupMap(listed)
  {
    if listed != [] {
      GroupMapIsKeyed(listed[..|listed| - 1]);
      assert listed == listed[..|listed| - 1] + [listed[|listed| - 1]];
    }
  }

  lemma {:induction false} RecoveredIsSound(cache: Cache, wanted: seq<NodeId>, lookups: Lookups)
    requires Sound(cache) && forall id :: id in lookups ==> BoundedInformation(lookups[id])
    ensures Sound(Recovered(cache, wanted, lookups))
    ensures cache.Keys <= Recovered(cache, wanted, lookups).Keys
    ensures forall id :: id in wanted && id in lookups && lookups[id].nodeId == id ==>
              id in Recovered(cache, wanted, lookups)
    decreases |wanted|
  {
    hide Sound;
    if wanted != [] {
      var n := |wanted| - 1;
      RecoveredIsSound(cache, wanted[..n], lookups);
      var before := Recovered(cache, wanted[..n], lookups);
      assert wanted == wanted[..n] + [wanted[n]];
      if wanted[n] !in before && wanted[n] in lookups {
        ApplyKeepsSound(before, NodeInformationReceived(lookups[wanted[n]]));
        ApplyOnlyAdds(before, NodeInformationReceived(lookups[wanted[n]]));
      }
    }
  }

  lemma {:induction false} AskedIsSound(cache: Cache, ids: Allocator, covers: seq<NodeId>,
                                        answers: seq<Bridge.GatewayAnswer>, heard: seq<seq<Signal>>)
    requires |answers| == |covers| == |heard| && Sound(cache) && forall h :: h in heard ==> Decoded(h)
    ensures Sound(AllAsked(cache, ids, covers, answers, heard).0)
    ensures cache.Keys <= AllAsked(cache, ids, covers, answers, heard).0.Keys
    decreases |covers|
  {
    hide Sound, Listen, Perform, StatusUnknown, Decoded;
    if covers != [] {
      var n := |covers| - 1;
      AskedIsSound(cache, ids, covers[..n], answers[..n], heard[..n]);
      var before := AllAsked(cache, ids, covers[..n], answers[..n], heard[..n]);
      MarksKeepSound(before.0, covers[n], CommandAccepted(1, 0), 1, OpenEnd, true);
      var forgotten := Forgotten(before.0, covers[n]);
      var taken := Perform(before.1, Allocate);
      if taken.result.Ok? {
        assert heard[n] in heard;
        ListeningKeepsSound(forgotten, taken.allocator, taken.result.value, covers[n], heard[n]);
      }
    }
  }

  /** Every setup hands the bridge maps keyed by what they hold and a sound cache with every listed node
      and every group member the gateway could tell about. */
  lemma SetupHandsOverSoundState(information: seq<NodeInformation>, listed: seq<GroupInformation>, lookups: Lookups,
                                 answers: seq<Bridge.GatewayAnswer>, heard: seq<seq<Signal>>)
    requires |answers| == |heard| == |CoverIds(Discovered(information, listed, lookups))|
    requires forall info :: info in information ==> BoundedInformation(info)
    requires forall id :: id in lookups ==> BoundedInformation(lookups[id])
    requires forall h :: h in heard ==> Decoded(h)
    ensures var p := Initialized(information, listed, lookups, answers, heard);
            && Sound(p.cache) && GroupsKeyed(p.groups)
            && Listed(information) <= p.cache.Keys
            && (forall id :: id in MemberIds(p.groups) && id in lookups && lookups[id].nodeId == id ==> id in p.cache)
            && (forall b: Bridge.BridgeState :: !b.gateway ==> Bridge.Possible(b, Bridge.Ready(p)))
  {
    hide Sound, Merged, Recovered, AllAsked, Decoded, GroupMap, MemberIds, CoverIds, AscendingIds, Listed;
    var reconciled := Reconcile(map[], information).cache;
    EmptyIsSound();
    ReconcileIsExact(map[], information);
    NodeCache.MergedKeepsSound(map[], information);
    assert NodeCache.FromGateway(NodeCache.Discover(information));
    SoundShrinks(Merged(map[], information).cache, reconciled);
    GroupMapIsKeyed(listed);
    RecoveredIsSound(reconciled, AscendingIds(MemberIds(GroupMap(listed)), 0), lookups);
    var cache := Discovered(information, listed, lookups);
    AskedIsSound(cache, EMPTY, CoverIds(cache), answers, heard);
    SoundIsKeyed(Initialized(information, listed, lookups, answers, heard).cache);
  }

  lemma EmptyIsSound()
    ensures Sound(map[])
  {
  }

  lemma SoundShrinks(cache: Cache, part: Cache)
    requires Sound(cache) && part.Keys <= cache.Keys && forall id :: id in part ==> part[id] == cache[id]
    ensures Sound(part)
  {
  }

  lemma SoundIsKeyed(cache: Cache)
    requires Sound(cache)
    ensures Keyed(cache)
  {
  }

  // ----- What a setup knows of groups and nodes -----

  lemma {:induction false} GroupsAreListed(listed: seq<GroupInformation>, id: GroupId)
    ensures id in GroupMap(listed) <==> exists g :: g in listed && g.groupId == id
  {
    if listed != [] {
      var n := |listed| - 1;
      GroupsAreListed(listed[..n], id);
      assert listed == listed[..n] + [listed[n]];
    }
  }

  /** Of several groups with one ID the one listed last is handed over. */
  lemma {:induction false} LastListedGroupCounts(listed: seq<GroupInformation>, k: nat)
    requires k < |listed| && forall j :: k < j < |listed| ==> listed[j].groupId != listed[k].groupId
    ensures listed[k].groupId in GroupMap(listed) && GroupMap(listed)[listed[k].groupId] == listed[k]
    decreases |listed|
  {
    if k < |listed| - 1 {
      LastListedGroupCounts(listed[..|listed| - 1], k);
    }
  }

  /** Nothing that was heard tells about the node. */
  predicate Silent(heard: seq<Signal>, id: NodeId) {
    forall h :: h in heard && h.Got? && h.event.Notification? ==>
      !Readings.Mentions(h.event.response, id) && !Descriptions.Mentions(h.event.response, id)
  }

  lemma UnmentionedStays(cache: Cache, r: Response, id: NodeId)
    requires Keyed(cache) && id in cache && !Readings.Mentions(r, id) && !Descriptions.Mentions(r, id)
    ensures var after := Apply(cache, r).cache; id in after && after[id] == cache[id]
  {
    hide FromInformation, StrategyFor;
    Readings.NodesHaveTheirIds(r);
  }

  lemma {:induction false} ListeningLeaves(cache: Cache, ids: Allocator, session: SessionId, node: NodeId,
                                           heard: seq<Signal>, id: NodeId)
    requires Keyed(cache) && id in cache && Silent(heard, id)
    ensures var after := Listen(cache, ids, session, node, heard).cache;
            Keyed(after) && id in after && after[id] == cache[id]
    decreases |heard|
  {
    hide Apply, Keyed, Perform, Readings.Mentions, Descriptions.Mentions;
    if heard != [] {
      var rest := heard[1..];
      assert heard[0] in heard;
      assert Silent(rest, id);
      match heard[0]
      case Broken =>
      case Got(Notification(r)) =>
        ApplyReportsExactly(cache, r);
        UnmentionedStays(cache, r, id);
        if !IsStatusOf(r, session, node) {
          ListeningLeaves(Apply(cache, r).cache, AfterNotification(ids, r), session, node, rest, id);
        }
      case Got(SessionTimedOut(expired)) =>
        if expired != session {
          ListeningLeaves(cache, GivenBack(ids, expired), session, node, rest, id);
        }
      case Got(Disconnected(_)) =>
      case Got(_) => ListeningLeaves(cache, ids, session, node, rest, id);
    }
  }

  lemma AskingLeaves(cache: Cache, ids: Allocator, node: NodeId, answer: Bridge.GatewayAnswer, heard: seq<Signal>,
                     id: NodeId)
    requires Keyed(cache) && id in cache && Silent(heard, id)
    ensures var after := AskInitialStatus(cache, ids, node, answer, heard).cache;
            Keyed(after) && id in after && after[id] == cache[id]
  {
    hide Listen, Perform, Silent, Keyed;
    var taken := Perform(ids, Allocate);
    if taken.result.Ok? {
      ListeningLeaves(cache, taken.allocator, taken.result.value, node, heard, id);
    }
  }

  lemma ForgettingKeepsKeyed(cache: Cache, id: NodeId)
    requires Keyed(cache)
    ensures Keyed(Forgotten(cache, id)) && Forgotten(cache, id).Keys == cache.Keys
    ensures id in cache ==> Forgotten(cache, id)[id] == StatusUnknown(cache[id])
    ensures id in cache ==> StatusUnknown(StatusUnknown(cache[id])) == StatusUnknown(cache[id])
    ensures forall other :: other in cache && other != id ==> Forgotten(cache, id)[other] == cache[other]
  {
  }

  lemma {:induction false} SilentNodesAreForgotten(cache: Cache, ids: Allocator, covers: seq<NodeId>,
                                                   answers: seq<Bridge.GatewayAnswer>, heard: seq<seq<Signal>>,
                                                   id: NodeId)
    requires |answers| == |covers| == |heard| && Keyed(cache) && id in cache
    requires forall h :: h in heard ==> Silent(h, id)
    ensures var after := AllAsked(cache, ids, covers, answers, heard).0;
            && Keyed(after) && id in after
            && after[id] == if id in covers then StatusUnknown(cache[id]) else cache[id]
    decreases |covers|
  {
    hide AskInitialStatus, Keyed, Silent, StatusUnknown, Forgotten;
    if covers != [] {
      var n := |covers| - 1;
      SilentNodesAreForgotten(cache, ids, covers[..n], answers[..n], heard[..n], id);
      var before := AllAsked(cache, ids, covers[..n], answers[..n], heard[..n]);
      assert covers == covers[..n] + [covers[n]];
      assert heard[n] in heard;
      ForgettingKeepsKeyed(before.0, covers[n]);
      ForgettingKeepsKeyed(cache, id);
      AskingLeaves(Forgotten(before.0, covers[n]), before.1, covers[n], answers[n], heard[n], id);
    }
  }

  lemma {:induction false} RecoveringLeaves(cache: Cache, wanted: seq<NodeId>, lookups: Lookups, id: NodeId)
    requires id in cache && forall node :: node in lookups && node != id ==> lookups[node].nodeId != id
    ensures id in Recovered(cache, wanted, lookups) && Recovered(cache, wanted, lookups)[id] == cache[id]
    decreases |wanted|
  {
    hide FromInformation;
    if wanted != [] {
      var n := |wanted| - 1;
      RecoveringLeaves(cache, wanted[..n], lookups, id);
      if wanted[n] in lookups {
        FromKeepsId(lookups[wanted[n]]);
      }
    }
  }

  lemma {:induction false} RecoveringKeepsKeyed(cache: Cache, wanted: seq<NodeId>, lookups: Lookups)
    requires Keyed(cache)
    ensures Keyed(Recovered(cache, wanted, lookups))
    decreases |wanted|
  {
    hide Keyed, Apply;
    if wanted != [] {
      var n := |wanted| - 1;
      RecoveringKeepsKeyed(cache, wanted[..n], lookups);
      if wanted[n] in lookups {
        ApplyReportsExactly(Recovered(cache, wanted[..n], lookups), NodeInformationReceived(lookups[wanted[n]]));
      }
    }
  }

  /** A node that nothing was heard of while the statuses were asked for is handed over as it was listed
      last; but if it is a cover, nothing is claimed of where it is. */
  lemma SetupKnowsWhatWasListed(information: seq<NodeInformation>, listed: seq<GroupInformation>, lookups: Lookups,
                                answers: seq<Bridge.GatewayAnswer>, heard: seq<seq<Signal>>, k: nat)
    requires |answers| == |heard| == |CoverIds(Discovered(information, listed, lookups))|
    requires k < |information| && LastOfItsNode(information, k)
    requires forall node :: node in lookups && node != information[k].nodeId ==>
               lookups[node].nodeId != information[k].nodeId
    requires forall h :: h in heard ==> Silent(h, information[k].nodeId)
    ensures var p := Initialized(information, listed, lookups, answers, heard);
            var id := information[k].nodeId;
            var told := Apply(map[], NodeInformationReceived(information[k])).cache;
            && id in p.cache && id in told
            && Descriptions.DescriptionOf(p.cache[id]) == Descriptions.DescriptionOf(told[id])
            && Readings.ReadingOf(p.cache[id]) == if Controllable(told[id]) then Readings.UNKNOWN_READING
                                                  else Readings.ReadingOf(told[id])
  {
    hide AllAsked, Recovered, Reconcile, GroupMap, MemberIds, AscendingIds, Silent, FromInformation, Keyed, Merged,
         Listed;
    var id := information[k].nodeId;
    var node := FromInformation(information[k]);
    FromKeepsId(information[k]);
    EmptyIsKeyed();
    ReconcileIsExact(map[], information);
    var reconciled := Reconcile(map[], information).cache;
    assert id in reconciled && reconciled[id] == node by { ListedIsReconciled(information, k); }
    var wanted := AscendingIds(MemberIds(GroupMap(listed)), 0);
    RecoveringLeaves(reconciled, wanted, lookups, id);
    RecoveringKeepsKeyed(reconciled, wanted, lookups);
    var cache := Discovered(information, listed, lookups);
    SilentNodesAreForgotten(cache, EMPTY, CoverIds(cache), answers, heard, id);
    assert id in CoverIds(cache) <==> Controllable(node);
    ForgottenDescribes(node);
  }

  lemma EmptyIsKeyed()
    ensures Keyed(map[])
  {
  }

  lemma ListedIsReconciled(information: seq<NodeInformation>, k: nat)
    requires k < |information| && LastOfItsNode(information, k)
    ensures var after := Reconcile(map[], information).cache;
            information[k].nodeId in after && after[information[k].nodeId] == FromInformation(information[k])
  {
    hide FromInformation, Reconcile, Keyed, LastOfItsNode;
    ReconcileIsExact(map[], information);
    assert information[k].nodeId in Listed(information);
  }

  lemma ForgottenDescribes(n: Node)
    ensures Descriptions.DescriptionOf(StatusUnknown(n)) == Descriptions.DescriptionOf(n)
    ensures Readings.ReadingOf(StatusUnknown(n)) == Readings.UNKNOWN_READING
  {
  }
}
