/** What the bridge remembers of nodes and groups, which is none of the broker's business (src/bridge.rs). */
module Views {
  import opened Base
  import opened Values
  import opened SessionIds
  import opened Payloads
  import opened Protocol
  import opened Nodes
  import opened Retained
  import opened Discovery
  import opened Snapshots
  import opened Backoff
  import opened Bridge
  import Actor

  // ----- One response -----

  /** The groups after a response: as last told, and gone when deleted. */
  function Regrouped(groups: Groups, r: Response): Groups {
    match r
    case GroupInformationReceived(g) => groups[g.groupId := g]
    case GroupChange(1, _, Some(g)) => groups[g.groupId := g]
    case GroupChange(0, id, _) => groups - {id}
    case GroupDeleted(id) => groups - {id}
    case _ => groups
  }

  lemma GroupResponsesAreRemembered(b: BridgeState, r: Response)
    ensures var after := ApplyGroup(b, r);
            && after.view == b.view.(groups := Regrouped(b.view.groups, r))
            && Offstage(after) == Offstage(b).(view := after.view)
  {
    hide GroupMessages, DroppedMessages, KnownAfter;
    match r
    case GroupChange(changeType, id, information) =>
      if id !in b.view.groups {
        assert b.view.groups - {id} == b.view.groups;
      }
    case GroupDeleted(id) =>
      if id !in b.view.groups {
        assert b.view.groups - {id} == b.view.groups;
      }
    case _ =>
  }

  /** Whatever the gateway tells about nodes and groups is remembered, whether or not the broker is
      connected, and nothing else in the view changes. */
  lemma ResponsesAreRemembered(b: BridgeState, r: Response)
    ensures var after := HandleResponse(b, r);
            && after.view.cache == Apply(b.view.cache, r).cache
            && after.view.groups == Regrouped(b.view.groups, r)
            && after.view.discovery == b.view.discovery
            && Offstage(after) == Offstage(b).(view := after.view, ids := after.ids)
            && after.connected == b.connected
            && after.ids == if r.SessionFinished? then Bridge.Release(b, r.sessionId).ids else b.ids
  {
    hide Apply, Regrouped, ApplyGroup, NodeMessages, KnownAfter, Perform;
    var released := if r.SessionFinished? then Bridge.Release(b, r.sessionId) else b;
    GroupResponsesAreRemembered(released, r);
    GroupsKeepBroker(released, r);
  }

  lemma GroupsKeepBroker(b: BridgeState, r: Response)
    ensures ApplyGroup(b, r).connected == b.connected
  {
    hide GroupMessages, DroppedMessages, KnownAfter;
  }

  /** The gateway goes away, on its own or not. */
  predicate GoesOffline(i: Input) {
    i.GatewayGone? || i.Reboot? || (i.GatewayEvent? && i.event.Disconnected?)
  }

  /** Nodes change only as told, when the gateway goes away, by a setup or by a command to a cover. */
  lemma NodesChangeAsTold(b: BridgeState, i: Input)
    requires Possible(b, i) && !i.Ready? && !i.Cover?
    ensures Step(b, i).view.cache == if i.GatewayEvent? && i.event.Notification? then
                                       Apply(b.view.cache, i.event.response).cache
                                     else if GoesOffline(i) then SetAvailable(b.view.cache, false)
                                     else b.view.cache
  {
    hide HandleResponse, Perform, Refreshed, Snapshot, KnownAfter, Apply, Regrouped, SetAvailable, Publish, PublishAll;
    if i.GatewayEvent? && i.event.Notification? {
      ResponsesAreRemembered(b, i.event.response);
    } else if i.Refresh? {
      RefreshedOnlyAsks(b, StationaryIds(b.view.cache), i.answers);
    }
  }

  // ----- Without the broker -----

  /** All of the bridge's state that does not concern the broker. */
  function Offstage(b: BridgeState): BridgeState {
    b.(connected := false, known := {}, store := map[])
  }

  predicate AboutBroker(i: Input) {
    i.Connected? || i.ConnectionLost?
  }

  function WithoutBroker(inputs: seq<Input>): seq<Input> {
    if inputs == [] then []
    else
      var n := |inputs| - 1;
      WithoutBroker(inputs[..n]) + if AboutBroker(inputs[n]) then [] else [inputs[n]]
  }

  lemma BrokerStaysOffstage(b: BridgeState, i: Input)
    requires AboutBroker(i) && Possible(b, i)
    ensures Offstage(Step(b, i)) == Offstage(b)
  {
    hide Snapshot, KnownAfter;
  }

  lemma EventsWorkOffstage(b: BridgeState, e: Actor.Event, now: Bridge.Instant, jitter: nat)
    requires jitter <= JitterLimit(b.reconnect.current)
    ensures Offstage(HandleEvent(b, e, now, jitter)) == HandleEvent(Offstage(b), e, now, jitter)
  {
    hide HandleResponse, Perform, SetAvailable;
    match e
    case Notification(r) => ResponsesWorkOffstage(b, r);
    case _ =>
  }

  lemma ResponsesWorkOffstage(b: BridgeState, r: Response)
    ensures Offstage(HandleResponse(b, r)) == HandleResponse(Offstage(b), r)
  {
    hide Apply, Regrouped, HandleResponse, Perform;
    ResponsesAreRemembered(b, r);
    ResponsesAreRemembered(Offstage(b), r);
    NothingToTell(Offstage(b), r);
  }

  lemma NothingToTell(b: BridgeState, r: Response)
    requires !b.connected
    ensures HandleResponse(b, r).store == b.store && HandleResponse(b, r).known == b.known
  {
    hide Apply, Perform;
  }

  lemma SettledOffstage(b: BridgeState, id: NodeId, session: SessionId, e: Endpoint, answer: GatewayAnswer)
    requires id in b.view.cache
    ensures Offstage(Settled(b, id, session, e, answer)) == Settled(Offstage(b), id, session, e, answer)
  {
    hide Perform, Confirmed, NodeStatusPublications;
  }

  lemma AskedOffstage(b: BridgeState, node: NodeId, answer: GatewayAnswer)
    ensures Offstage(AskStatus(b, node, answer)) == AskStatus(Offstage(b), node, answer)
  {
    hide Perform;
  }

  lemma CoversMoveOffstage(b: BridgeState, id: NodeId, action: CoverAction, answer: GatewayAnswer)
    ensures Offstage(CoverAsked(b, id, action, answer)) == CoverAsked(Offstage(b), id, action, answer)
  {
    hide Perform, Resolve, CoverCommand, Settled, AskStatus;
    AskedOffstage(b, id, answer);
    var taken := Perform(b.ids, Allocate);
    if id in b.view.cache && Resolve(b.view.cache[id], action).Ok? && taken.result.Ok?
       && CoverCommand(b.view.cache[id], taken.result.value, action).Ok?
    {
      var command := CoverCommand(b.view.cache[id], taken.result.value, action).value;
      SettledOffstage(b.(ids := taken.allocator, asked := b.asked + [command]), id, taken.result.value,
                      Resolve(b.view.cache[id], action).value, answer);
    }
  }

  lemma {:induction false} RefreshedOffstage(b: BridgeState, nodes: seq<NodeId>, answers: seq<GatewayAnswer>)
    requires |nodes| == |answers|
    ensures Offstage(Refreshed(b, nodes, answers)) == Refreshed(Offstage(b), nodes, answers)
    decreases |answers|
  {
    hide AskStatus;
    if answers != [] {
      AskedOffstage(b, nodes[0], answers[0]);
      RefreshedOffstage(AskStatus(b, nodes[0], answers[0]), nodes[1..], answers[1..]);
    }
  }

  /** What concerns the broker neither decides which inputs there can be nor what they do to the rest. */
  lemma StepsWorkOffstage(b: BridgeState, i: Input)
    requires !AboutBroker(i)
    ensures Possible(b, i) <==> Possible(Offstage(b), i)
    ensures Possible(b, i) ==> Offstage(Step(b, i)) == Step(Offstage(b), i)
  {
    hide HandleEvent, CoverAsked, Refreshed, Perform, SetAvailable, AscendingIds, Cleared, Snapshot, KnownAfter;
    match i
    case GatewayEvent(e, now, jitter) =>
      if Possible(b, i) {
        EventsWorkOffstage(b, e, now, jitter);
      }
    case Cover(id, action, answer) => CoversMoveOffstage(b, id, action, answer);
    case Refresh(answers) =>
      if Possible(b, i) {
        RefreshedOffstage(b, StationaryIds(b.view.cache), answers);
      }
    case _ =>
  }

  /** The states that the other inputs alone lead through. */
  lemma {:induction false} RunOffstage(states: seq<BridgeState>, inputs: seq<Input>) returns (others: seq<BridgeState>)
    requires Bridge.Run(states, inputs)
    ensures Bridge.Run(others, WithoutBroker(inputs)) && others[0] == states[0]
    ensures others[|others| - 1] == Offstage(states[|inputs|])
    decreases |inputs|
  {
    hide Step, Possible, Offstage;
    if inputs == [] {
      InitialIsOffstage(states[0]);
      others := states;
    } else {
      var n := |inputs| - 1;
      var before := RunOffstage(states[..n + 1], inputs[..n]);
      if AboutBroker(inputs[n]) {
        BrokerStaysOffstage(states[n], inputs[n]);
        others := before;
      } else {
        StepsWorkOffstage(states[n], inputs[n]);
        others := before + [Step(Offstage(states[n]), inputs[n])];
      }
    }
  }

  lemma InitialIsOffstage(b: BridgeState)
    requires IsInitial(b)
    ensures Offstage(b) == b
  {
  }

  /** A run is determined by its inputs and where it starts. */
  lemma {:induction false} RunsAreDetermined(a: seq<BridgeState>, b: seq<BridgeState>, inputs: seq<Input>)
    requires Bridge.Run(a, inputs) && Bridge.Run(b, inputs) && a[0] == b[0]
    ensures a == b
    decreases |inputs|
  {
    hide Step, Possible, IsInitial;
    if inputs != [] {
      var n := |inputs| - 1;
      RunsAreDetermined(a[..n + 1], b[..n + 1], inputs[..n]);
      assert a[..n + 1][n] == b[..n + 1][n];
      assert a == a[..n + 1] + [a[n + 1]] && b == b[..n + 1] + [b[n + 1]];
    }
  }

  /** Two runs from one state whose inputs differ only in how the broker came and went agree in all but
      what concerns the broker: nodes, groups, session IDs, requests and retries are the same. */
  lemma BrokerDoesNotMatter(a: seq<BridgeState>, these: seq<Input>, b: seq<BridgeState>, those: seq<Input>)
    requires Bridge.Run(a, these) && Bridge.Run(b, those) && a[0] == b[0]
    requires WithoutBroker(these) == WithoutBroker(those)
    ensures var x, y := a[|these|], b[|those|];
            && x.view == y.view && x.gateway == y.gateway && x.ids == y.ids && x.asked == y.asked
            && x.reconnect == y.reconnect && x.retryAt == y.retryAt
  {
    hide Step, Possible, IsInitial;
    var others := RunOffstage(a, these);
    var same := RunOffstage(b, those);
    RunsAreDetermined(others, same, WithoutBroker(these));
  }

  // ----- Who is there -----

  /** The broker's last message was that it is connected. */
  predicate BrokerThere(inputs: seq<Input>) {
    inputs != []
    && var n := |inputs| - 1;
       inputs[n].Connected? || (!inputs[n].ConnectionLost? && BrokerThere(inputs[..n]))
  }

  /** A setup has succeeded, and the gateway has not gone since. */
  predicate GatewayThere(inputs: seq<Input>) {
    inputs != []
    && var n := |inputs| - 1;
       inputs[n].Ready? || (!GoesOffline(inputs[n]) && GatewayThere(inputs[..n]))
  }

  /** Without a gateway no session ID is in use and no node is available. */
  ghost predicate Bereft(b: BridgeState) {
    b.ids == EMPTY && forall id :: id in b.view.cache ==> !b.view.cache[id].available
  }

  lemma PresenceChanges(b: BridgeState, i: Input)
    requires Possible(b, i)
    ensures var after := Step(b, i);
            && (after.connected <==> i.Connected? || (b.connected && !i.ConnectionLost?))
            && (after.gateway <==> i.Ready? || (b.gateway && !GoesOffline(i)))
            && after.view.discovery == b.view.discovery
  {
    hide HandleResponse, Perform, Refreshed, Snapshot, KnownAfter, SetAvailable, Publish, PublishAll, Resolve,
         CoverCommand, Confirmed, NodeStatusPublications;
    if i.GatewayEvent? && i.event.Notification? {
      ResponsesAreRemembered(b, i.event.response);
      assert Offstage(HandleResponse(b, i.event.response)).gateway == b.gateway;
    } else if i.Refresh? {
      RefreshedOnlyAsks(b, StationaryIds(b.view.cache), i.answers);
    }
  }

  lemma GoneGatewayLeavesNothing(b: BridgeState, i: Input)
    requires Possible(b, i) && !Step(b, i).gateway && (!b.gateway ==> Bereft(b))
    ensures Bereft(Step(b, i))
  {
    hide Perform, Snapshot, KnownAfter, Publish, PublishAll, HandleResponse, Step;
    PresenceChanges(b, i);
    if GoesOffline(i) {
      OfflineIsBereft(b, i);
    } else {
      WithoutGatewayNothingChanges(b, i);
    }
  }

  lemma OfflineIsBereft(b: BridgeState, i: Input)
    requires Possible(b, i) && GoesOffline(i)
    ensures Bereft(Step(b, i))
  {
    hide Publish, PublishAll, HandleResponse;
  }

  lemma WithoutGatewayNothingChanges(b: BridgeState, i: Input)
    requires Possible(b, i) && !b.gateway && !i.Ready?
    ensures Step(b, i).ids == b.ids && Step(b, i).view == b.view
  {
    hide Publish, PublishAll, HandleResponse, Snapshot, KnownAfter;
  }

  /** In every state of every run: the bridge knows whether broker and gateway are there, the latter by the
      setups and failures so far; right after a setup its nodes, groups and session IDs are the setup's;
      and without a gateway no session ID is in use and no node available. */
  lemma {:induction false} PresenceIsTracked(states: seq<BridgeState>, inputs: seq<Input>, k: nat)
    requires Bridge.Run(states, inputs) && k < |states|
    ensures var b := states[k];
            && (b.connected <==> BrokerThere(inputs[..k]))
            && (b.gateway <==> GatewayThere(inputs[..k]))
            && b.view.discovery == states[0].view.discovery
            && (!b.gateway ==> Bereft(b))
            && (k > 0 && inputs[k - 1].Ready? ==>
                  var p := inputs[k - 1].prepared;
                  b.view.cache == p.cache && b.view.groups == p.groups && b.ids == p.ids)
    decreases k
  {
    hide Step, Possible, Bereft, GoesOffline, BrokerThere, GatewayThere;
    PresenceUnfolds(inputs, k);
    if k == 0 {
      InitialIsBereft(states[0]);
    } else {
      PresenceIsTracked(states, inputs, k - 1);
      PresenceChanges(states[k - 1], inputs[k - 1]);
      if !states[k].gateway {
        GoneGatewayLeavesNothing(states[k - 1], inputs[k - 1]);
      }
      if inputs[k - 1].Ready? {
        SetupIsAdopted(states[k - 1], inputs[k - 1]);
      }
    }
  }

  lemma PresenceUnfolds(inputs: seq<Input>, k: nat)
    requires k <= |inputs|
    ensures k == 0 ==> !BrokerThere(inputs[..k]) && !GatewayThere(inputs[..k])
    ensures k > 0 ==>
              var i, before := inputs[k - 1], inputs[..k - 1];
              && (BrokerThere(inputs[..k]) <==> i.Connected? || (BrokerThere(before) && !i.ConnectionLost?))
              && (GatewayThere(inputs[..k]) <==> i.Ready? || (GatewayThere(before) && !GoesOffline(i)))
  {
    hide GoesOffline;
    if k > 0 {
      assert inputs[..k][..k - 1] == inputs[..k - 1];
    }
  }

  lemma InitialIsBereft(b: BridgeState)
    requires IsInitial(b)
    ensures Bereft(b) && !b.connected && !b.gateway
  {
  }

  lemma SetupIsAdopted(b: BridgeState, i: Input)
    requires Possible(b, i) && i.Ready?
    ensures var after := Step(b, i);
            && after.view.cache == i.prepared.cache && after.view.groups == i.prepared.groups
            && after.ids == i.prepared.ids
  {
    hide Publish, PublishAll, Snapshot, KnownAfter, Cleared;
  }
}
