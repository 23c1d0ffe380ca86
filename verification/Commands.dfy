/** What the bridge's commands ask of the gateway, down to the bytes, and what becomes of the covers
    (src/bridge.rs, src/veluxnode.rs, src/klf200/command.rs). */
module Commands {
  import opened Base
  import opened Values
  import opened SessionIds
  import opened Payloads
  import opened Protocol
  import opened Nodes
  import opened Topics
  import opened Retained
  import opened Snapshots
  import opened Bridge
  import opened Readings
  import Discovery

  // ----- The requests, byte by byte -----

  /** Drive one node's main parameter to a raw position. */
  predicate IsCommand(r: Request, session: SessionId, node: NodeId, raw: u16) {
    && r.command == 0x0300 && r.sessionId == Some(session) && r.payload.Ok?
    && var p := r.payload.value;
       && |p| == 66
       && ReadU16(p, 0) == session && p[2] == 1 && p[3] == 3
       && ReadU16(p, 7) == raw && p[41] == 1 && p[42] == node
       && forall k :: 4 <= k < 66 && k != 7 && k != 8 && k != 41 && k != 42 ==> p[k] == 0
  }

  /** Report one node's main information. */
  predicate IsStatusRequest(r: Request, session: SessionId, node: NodeId) {
    && r.command == 0x0305 && r.sessionId == Some(session) && r.payload.Ok?
    && var p := r.payload.value;
       && |p| == 26
       && ReadU16(p, 0) == session && p[2] == 1 && p[3] == node && p[23] == 3
       && forall k :: 4 <= k < 26 && k != 23 ==> p[k] == 0
  }

  /** Drive a group to a raw position with the given velocity. */
  predicate IsActivation(r: Request, session: SessionId, group: GroupId, raw: u16, velocity: byte) {
    && r.command == 0x0447 && r.sessionId == Some(session) && r.payload.Ok?
    && var p := r.payload.value;
       && |p| == 13
       && ReadU16(p, 0) == session && p[2] == 1 && p[3] == 3 && p[4] == group
       && ReadU16(p, 6) == raw && p[8] == velocity
       && forall k :: 5 <= k < 13 && k != 6 && k != 7 && k != 8 ==> p[k] == 0
  }

  lemma CommandBytes(session: SessionId, node: NodeId, raw: u16)
    ensures IsCommand(CommandSend(session, node, raw), session, node, raw)
  {
  }

  lemma StatusBytes(session: SessionId, node: NodeId)
    ensures IsStatusRequest(StatusRequest(session, node), session, node)
  {
  }

  lemma ActivationBytes(session: SessionId, group: GroupId, raw: u16, velocity: byte)
    ensures IsActivation(ActivateGroup(session, group, raw, velocity), session, group, raw, velocity)
  {
  }

  // ----- Where a command drives a cover -----

  /** Open is raw 0 and close 0xC800. A toggle drives a resting cover from the half it is in to the other
      end, and a moving one back to where it comes from. */
  predicate Aims(r: Reading, action: CoverAction, raw: u16) {
    match action
    case OpenCover => raw == 0
    case CloseCover => raw == 0xC800
    case ToggleCover =>
      && (raw == 0 || raw == 0xC800)
      && (!Moving(r) && r.current.Some? ==> (raw == 0 <==> 2 * r.current.value >= 0xC800))
      && (Moving(r) && BothKnown(r) && r.current.value < r.target.value ==> raw == 0)
      && (Moving(r) && BothKnown(r) && r.target.value < r.current.value <= 0xC800 ==> raw == 0xC800)
      && (Moving(r) && r.target == Some(0xC800) ==> raw == 0)
      && (Moving(r) && r.target == Some(0) ==> raw == 0xC800)
  }

  /** Nothing tells a toggle where to go. */
  predicate Undecided(r: Reading, action: CoverAction) {
    action == ToggleCover && r.current.None? && !(Moving(r) && (r.target == Some(0) || r.target == Some(0xC800)))
  }

  lemma ActionsAim(n: Node, action: CoverAction)
    ensures Resolve(n, action).Err? <==> Undecided(ReadingOf(n), action)
    ensures Resolve(n, action).Ok? ==> Aims(ReadingOf(n), action, EndpointPosition(Resolve(n, action).value))
  {
  }

  /** The gateway has confirmed the command in its session. */
  predicate Accepts(answer: GatewayAnswer, session: SessionId) {
    answer == Ok(CommandAccepted(session, 1))
  }

  /** The cover is on its way to the position, and nothing else is new. */
  predicate Drives(before: View, after: View, id: NodeId, raw: u16)
    requires id in before.cache
  {
    && id in after.cache
    && after == before.(cache := before.cache[id := after.cache[id]])
    && ReadingOf(after.cache[id]) == ReadingOf(before.cache[id]).(operating := Executing, target := Some(raw))
  }

  lemma SettledDrives(b: BridgeState, id: NodeId, session: SessionId, e: Endpoint, answer: GatewayAnswer)
    requires id in b.view.cache
    ensures var after := Settled(b, id, session, e, answer);
            && after.asked == b.asked
            && if Accepts(answer, session) then Drives(b.view, after.view, id, EndpointPosition(e))
               else after.view == b.view
  {
    hide Perform, NodeStatusPublications;
    assert b.view.(cache := b.view.cache[id := b.view.cache[id]]) == b.view;
  }

  lemma CommandResolves(n: Node, session: SessionId, action: CoverAction)
    requires Controllable(n) && Resolve(n, action).Ok?
    ensures CoverCommand(n, session, action)
         == Ok(CommandSend(session, n.id, EndpointPosition(Resolve(n, action).value)))
  {
    hide Resolve;
  }

  /** A command to a cover sends exactly one request, which drives this cover to where the action aims;
      if the gateway accepts it the cover is on its way there, and otherwise no node changes. */
  lemma CommandsDrive(b: BridgeState, id: NodeId, action: CoverAction, answer: GatewayAnswer) returns (raw: u16)
    requires Keyed(b.view.cache) && id in b.view.cache && Controllable(b.view.cache[id])
    requires Perform(b.ids, Allocate).result.Ok? && !Undecided(ReadingOf(b.view.cache[id]), action)
    ensures Aims(ReadingOf(b.view.cache[id]), action, raw)
    ensures var after := CoverAsked(b, id, action, answer);
            var session := Perform(b.ids, Allocate).result.value;
            && |after.asked| == |b.asked| + 1 && b.asked <= after.asked
            && IsCommand(after.asked[|b.asked|], session, id, raw)
            && if Accepts(answer, session) then Drives(b.view, after.view, id, raw) else after.view == b.view
  {
    hide Perform, Resolve, CoverCommand, Settled, IsCommand, CommandSend, Drives, Controllable;
    var n := b.view.cache[id];
    var taken := Perform(b.ids, Allocate);
    var session := taken.result.value;
    ActionsAim(n, action);
    raw := EndpointPosition(Resolve(n, action).value);
    CommandResolves(n, session, action);
    CommandBytes(session, id, raw);
    var sent := b.(ids := taken.allocator, asked := b.asked + [CommandSend(session, id, raw)]);
    SettledDrives(sent, id, session, Resolve(n, action).value, answer);
    assert CoverAsked(b, id, action, answer) == Settled(sent, id, session, Resolve(n, action).value, answer);
  }

  /** A command that cannot be sent moves nothing: an undecided toggle asks for the node's status, and a
      node that is no cover or unknown is asked nothing. */
  lemma OtherCommandsMoveNothing(b: BridgeState, id: NodeId, action: CoverAction, answer: GatewayAnswer)
    requires id in b.view.cache ==> Undecided(ReadingOf(b.view.cache[id]), action) || !Controllable(b.view.cache[id])
    ensures var after := CoverAsked(b, id, action, answer);
            && after.view == b.view
            && if id in b.view.cache && Undecided(ReadingOf(b.view.cache[id]), action)
                  && Perform(b.ids, Allocate).result.Ok? then
                 && |after.asked| == |b.asked| + 1 && b.asked <= after.asked
                 && IsStatusRequest(after.asked[|b.asked|], Perform(b.ids, Allocate).result.value, id)
               else after.asked == b.asked
  {
    hide Perform, Resolve, IsStatusRequest, StatusRequest;
    if id in b.view.cache {
      ActionsAim(b.view.cache[id], action);
      if Perform(b.ids, Allocate).result.Ok? {
        StatusBytes(Perform(b.ids, Allocate).result.value, id);
      }
    }
  }

  // ----- Commands in a run -----

  /** With broker and gateway, an accepted command shows until the next news of the cover: it is driven
      to the open or closed end and opening or closing accordingly. */
  lemma CommandsAreShown(states: seq<BridgeState>, inputs: seq<Input>, k: nat, n: nat, id: NodeId, action: CoverAction)
    returns (raw: u16)
    requires Bridge.Run(states, inputs) && k < n <= |inputs|
    requires id in states[k].view.cache && Controllable(states[k].view.cache[id])
    requires !Undecided(ReadingOf(states[k].view.cache[id]), action)
    requires Perform(states[k].ids, Allocate).result.Ok?
    requires inputs[k].Cover? && inputs[k].node == id && inputs[k].action == action
    requires Accepts(inputs[k].answer, Perform(states[k].ids, Allocate).result.value)
    requires forall j :: k < j < n ==> Leaves(inputs[j], id)
    requires states[n].connected && states[n].gateway
    requires id in states[n].view.cache && Controllable(states[n].view.cache[id])
    ensures var before := ReadingOf(states[k].view.cache[id]);
            && Aims(before, action, raw)
            && Shows(states[n].store, id, before.(operating := Executing, target := Some(raw)))
            && (before.current.Some? && before.current.value != raw ==>
                  Lookup(states[n].store, NodeState(id))
                  == Some(StateLabel(if before.current.value < raw then Closing else Opening)))
  {
    hide Possible, CoverAsked, Shows, Snapshot, UpToDate, Untimed, Lookup, Discovery.ComponentsOf, ComponentsIn, Leaves,
         Perform, Aims, IsCommand, Undecided;
    var b := states[k];
    RunStaysInSync(states, inputs, k);
    CoverIsStep(b, inputs[k]);
    raw := CommandsDrive(b, id, action, inputs[k].answer);
    ReadingStays(states, inputs, k + 1, n, id);
    StoreShowsReadings(states, inputs, n, id);
    var current := b.view.cache[id].current;
    if current.Some? && current.value != raw {
      ShownStates(states[n].store, id, ReadingOf(states[n].view.cache[id]));
    }
  }

  lemma ShownStates(store: Store, id: NodeId, r: Reading)
    requires Shows(store, id, r) && Moving(r) && BothKnown(r) && r.current != r.target
    ensures Lookup(store, NodeState(id))
         == Some(StateLabel(if r.current.value < r.target.value then Closing else Opening))
  {
    hide Lookup, Rounded;
  }

  // ----- Groups and status requests -----

  /** A command to a group sends exactly one request, which drives this group with its own velocity to
      the open or the closed end. */
  lemma GroupCommandsDrive(b: BridgeState, id: GroupId, action: GroupAction, answer: GatewayAnswer)
    ensures var after := GroupAsked(b, id, action, answer);
            && after.view == b.view
            && if id in b.view.groups && Perform(b.ids, Allocate).result.Ok? then
                 && |after.asked| == |b.asked| + 1 && b.asked <= after.asked
                 && IsActivation(after.asked[|b.asked|], Perform(b.ids, Allocate).result.value, id,
                                 if action == OpenGroup then 0 else 0xC800, b.view.groups[id].velocity)
               else after.asked == b.asked
  {
    hide Perform, IsActivation, ActivateGroup;
    if id in b.view.groups && Perform(b.ids, Allocate).result.Ok? {
      ActivationBytes(Perform(b.ids, Allocate).result.value, id, GroupPosition(action), b.view.groups[id].velocity);
    }
  }

  lemma StatusIsAsked(b: BridgeState, node: NodeId, answer: GatewayAnswer)
    ensures var after := AskStatus(b, node, answer);
            if Perform(b.ids, Allocate).result.Ok? then
              && |after.asked| == |b.asked| + 1 && b.asked <= after.asked
              && IsStatusRequest(after.asked[|b.asked|], Perform(b.ids, Allocate).result.value, node)
            else after == b
  {
    hide Perform, IsStatusRequest, StatusRequest;
    if Perform(b.ids, Allocate).result.Ok? {
      StatusBytes(Perform(b.ids, Allocate).result.value, node);
    }
  }

  /** The requests are status requests to the nodes, in order. */
  ghost predicate AsksInOrder(requests: seq<Request>, nodes: seq<NodeId>) {
    && |requests| <= |nodes|
    && forall i :: 0 <= i < |requests| ==>
         requests[i].sessionId.Some? && IsStatusRequest(requests[i], requests[i].sessionId.value, nodes[i])
  }

  lemma {:induction false} AllAreAsked(b: BridgeState, nodes: seq<NodeId>, answers: seq<GatewayAnswer>)
    requires |nodes| == |answers|
    ensures var after := Refreshed(b, nodes, answers);
            && b.asked <= after.asked && AsksInOrder(after.asked[|b.asked|..], nodes)
            && (|after.asked| - |b.asked| < |nodes| ==> Perform(after.ids, Allocate).result.Err?)
            && (Perform(b.ids, Allocate).result.Err? ==> after == b)
    decreases |nodes|
  {
    hide Perform, IsStatusRequest, AskStatus;
    if nodes != [] {
      var first := AskStatus(b, nodes[0], answers[0]);
      StatusIsAsked(b, nodes[0], answers[0]);
      AllAreAsked(first, nodes[1..], answers[1..]);
      var after := Refreshed(b, nodes, answers);
      if Perform(b.ids, Allocate).result.Ok? {
        var requests := after.asked[|b.asked|..];
        assert requests[0] == first.asked[|b.asked|];
        assert requests[1..] == after.asked[|first.asked|..];
        forall i | 0 <= i < |requests|
          ensures requests[i].sessionId.Some? && IsStatusRequest(requests[i], requests[i].sessionId.value, nodes[i])
        {
          if i == 0 {
            StatusHasItsSession(requests[0], Perform(b.ids, Allocate).result.value, nodes[0]);
          } else {
            assert requests[i] == requests[1..][i - 1] && nodes[i] == nodes[1..][i - 1];
          }
        }
      }
    }
  }

  lemma StatusHasItsSession(r: Request, session: SessionId, node: NodeId)
    requires IsStatusRequest(r, session, node)
    ensures r.sessionId == Some(session)
  {
  }

  /** A refresh asks for the status of exactly the covers that are not known to be opening or closing, in
      the order of their IDs, and stops short only when the session IDs have run out. */
  lemma RefreshAsksStationaryCovers(b: BridgeState, answers: seq<GatewayAnswer>)
    requires b.gateway && Possible(b, Refresh(answers))
    ensures var nodes := StationaryIds(b.view.cache);
            var after := Step(b, Refresh(answers));
            && (forall id :: id in nodes <==>
                  && id in b.view.cache && Controllable(b.view.cache[id])
                  && var r := ReadingOf(b.view.cache[id]);
                     !(Moving(r) && BothKnown(r) && r.current != r.target))
            && (forall i, j :: 0 <= i < j < |nodes| ==> nodes[i] < nodes[j])
            && b.asked <= after.asked && AsksInOrder(after.asked[|b.asked|..], nodes)
            && (|after.asked| - |b.asked| < |nodes| ==> Perform(after.ids, Allocate).result.Err?)
  {
    hide Perform, Refreshed, AsksInOrder, IsStatusRequest, Controllable;
    AllAreAsked(b, StationaryIds(b.view.cache), answers);
    hide AscendingIds;
  }
}
