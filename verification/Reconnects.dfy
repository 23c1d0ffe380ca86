/** When the bridge tries to reach the gateway again, over whole runs (src/bridge.rs). */
module Reconnects {
  import opened Base
  import opened Bits
  import opened Backoff
  import opened Bridge
  import SessionIds
  import Nodes
  import Retained
  import Snapshots
  import Views

  /** The inputs after which there is no gateway although nobody asked for that. */
  predicate Fails(i: Input) {
    i.NotReady? || i.GatewayGone? || (i.GatewayEvent? && i.event.Disconnected?)
  }

  /** The failures since the last success, reboot or the start. */
  function Failures(inputs: seq<Input>): nat {
    if inputs == [] then 0
    else
      var n := |inputs| - 1;
      if inputs[n].Ready? || inputs[n].Reboot? then 0
      else Failures(inputs[..n]) + if Fails(inputs[n]) then 1 else 0
  }

  function NowOf(i: Input): Bridge.Instant
    requires Fails(i)
  {
    i.now
  }

  /** The retry is due after a delay of the given base and at most a quarter more. */
  predicate DueAfter(now: Bridge.Instant, base: Duration, retryAt: Bridge.Instant) {
    now + base <= retryAt && 4 * (retryAt - now) <= 5 * base
  }

  lemma OthersLeaveRetries(b: BridgeState, i: Input)
    requires Possible(b, i) && !Fails(i) && !i.Ready? && !i.Reboot?
    ensures Step(b, i).reconnect == b.reconnect && Step(b, i).retryAt == b.retryAt
  {
    hide HandleResponse, SessionIds.Perform, Nodes.Resolve, Nodes.CoverCommand, Refreshed, Snapshots.Snapshot,
         KnownAfter, Settled;
    if i.GatewayEvent? && i.event.Notification? {
      Views.ResponsesAreRemembered(b, i.event.response);
      assert Views.Offstage(HandleResponse(b, i.event.response)).retryAt == b.retryAt;
      assert Views.Offstage(HandleResponse(b, i.event.response)).reconnect == b.reconnect;
    } else if i.Refresh? {
      RefreshedOnlyAsks(b, StationaryIds(b.view.cache), i.answers);
    } else if i.Cover? {
      CoversLeaveRetries(b, i.node, i.action, i.answer);
    }
  }

  lemma CoversLeaveRetries(b: BridgeState, id: byte, action: Nodes.CoverAction, answer: GatewayAnswer)
    ensures var after := CoverAsked(b, id, action, answer);
            after.reconnect == b.reconnect && after.retryAt == b.retryAt
  {
    hide SessionIds.Perform, Nodes.Resolve, Nodes.CoverCommand, Nodes.Confirmed, NodeStatusPublications;
  }

  lemma FailuresDelay(b: BridgeState, i: Input)
    requires Possible(b, i) && Fails(i)
    ensures Step(b, i).reconnect == Advanced(b.reconnect)
    ensures DueAfter(NowOf(i), b.reconnect.current, Step(b, i).retryAt)
  {
    hide Nodes.SetAvailable, Retained.PublishAll;
    DelayIsWithinAQuarter(b.reconnect.current, i.jitter);
    hide Delay, Advanced;
  }

  lemma SuccessesReset(b: BridgeState, i: Input)
    requires Possible(b, i) && (i.Ready? || i.Reboot?)
    ensures Step(b, i).reconnect == Reset(b.reconnect)
    ensures Step(b, i).retryAt == if i.Reboot? then i.now + i.delay else b.retryAt
  {
    hide Nodes.SetAvailable, Retained.PublishAll, Snapshots.Snapshot, KnownAfter, Cleared;
  }

  lemma {:induction false} DelaysFollowFailures(states: seq<BridgeState>, inputs: seq<Input>, k: nat)
    requires Bridge.Run(states, inputs) && k < |states|
    ensures states[k].reconnect == AfterDelays(states[0].reconnect, Failures(inputs[..k]))
    decreases k
  {
    hide Step, Possible, Advanced, AfterDelays, Failures;
    FailuresUnfold(inputs, k);
    SchedulesUnfold(states[0].reconnect, Failures(inputs[..k]));
    if k == 0 {
      StartsFresh(states[0]);
    } else {
      DelaysFollowFailures(states, inputs, k - 1);
      var i := inputs[k - 1];
      var before := states[k - 1];
      if Fails(i) {
        FailuresDelay(before, i);
      } else if i.Ready? || i.Reboot? {
        SuccessesReset(before, i);
      } else {
        OthersLeaveRetries(before, i);
      }
    }
  }

  lemma FailuresUnfold(inputs: seq<Input>, k: nat)
    requires k <= |inputs|
    ensures k == 0 ==> Failures(inputs[..k]) == 0
    ensures k > 0 ==> Failures(inputs[..k]) == if inputs[k - 1].Ready? || inputs[k - 1].Reboot? then 0
                                               else Failures(inputs[..k - 1]) + if Fails(inputs[k - 1]) then 1 else 0
  {
    if k > 0 {
      assert inputs[..k][..k - 1] == inputs[..k - 1];
    }
  }

  lemma SchedulesUnfold(r: Reconnect, n: nat)
    ensures AfterDelays(r, 0) == Reset(r)
    ensures n > 0 ==> AfterDelays(r, n) == Advanced(AfterDelays(r, n - 1))
    ensures Reset(AfterDelays(r, n)) == Reset(r)
  {
  }

  lemma StartsFresh(b: BridgeState)
    requires IsInitial(b)
    ensures Reset(b.reconnect) == b.reconnect
  {
  }

  /** Over every run: after n failures in a row the next base delay is the n-th, which is the minimum
      doubled n times up to the maximum; a failure that comes after n others is followed by a retry after
      the n-th base delay and at most a quarter more, a reboot by one after exactly the configured delay,
      and nothing else moves the retry. */
  lemma RetriesFollowTheFailures(states: seq<BridgeState>, inputs: seq<Input>, k: nat)
    requires Bridge.Run(states, inputs) && k < |states|
    ensures var r := states[0].reconnect;
            && states[k].reconnect == r.(current := BaseDelay(r, Failures(inputs[..k])))
            && (r.minimum <= r.maximum ==>
                  states[k].reconnect.current == Min(r.minimum * Power2(Failures(inputs[..k])), r.maximum))
            && (k > 0 ==>
                  var before, i := states[k - 1], inputs[k - 1];
                  if Fails(i) then DueAfter(NowOf(i), BaseDelay(r, Failures(inputs[..k - 1])), states[k].retryAt)
                  else if i.Reboot? then states[k].retryAt == i.now + i.delay
                  else states[k].retryAt == before.retryAt)
  {
    hide Step, Possible, Failures, AfterDelays, Advanced, IsInitial;
    var r := states[0].reconnect;
    DelaysFollowFailures(states, inputs, k);
    if r.minimum <= r.maximum {
      BaseDelayIsCapped(r, Failures(inputs[..k]));
    }
    if k > 0 {
      DelaysFollowFailures(states, inputs, k - 1);
      var before, i := states[k - 1], inputs[k - 1];
      if Fails(i) {
        FailuresDelay(before, i);
      } else if i.Ready? || i.Reboot? {
        SuccessesReset(before, i);
      } else {
        OthersLeaveRetries(before, i);
      }
    }
  }

  // ----- One failure after the other -----

  /** A setup that fails was started when it was due. */
  ghost predicate Punctual(states: seq<BridgeState>, inputs: seq<Input>)
    requires |states| == |inputs| + 1
  {
    forall k :: 0 <= k < |inputs| && inputs[k].NotReady? ==> states[k].retryAt <= inputs[k].now
  }

  lemma FailuresLeaveNoGateway(b: BridgeState, i: Input)
    requires Possible(b, i) && (Fails(i) || (!b.gateway && !i.Ready?))
    ensures !Step(b, i).gateway
  {
    hide Step;
    Views.PresenceChanges(b, i);
  }

  lemma {:induction false} NothingHappensBetween(states: seq<BridgeState>, inputs: seq<Input>, i: nat, m: nat)
    requires Bridge.Run(states, inputs) && i < m <= |inputs| && Fails(inputs[i])
    requires forall k :: i < k < m ==> !inputs[k].NotReady? && !inputs[k].Ready?
    ensures !states[m].gateway && states[m].retryAt == states[i + 1].retryAt
    decreases m
  {
    hide Step, IsInitial;
    FailuresLeaveNoGateway(states[i], inputs[i]);
    if m > i + 1 {
      NothingHappensBetween(states, inputs, i, m - 1);
      FailuresLeaveNoGateway(states[m - 1], inputs[m - 1]);
      OthersLeaveRetries(states[m - 1], inputs[m - 1]);
    }
  }

  /** After a failure the next setup that fails, if started no earlier than due, does so at least the base
      delay later that belongs to the failures before. */
  lemma FailuresBackOff(states: seq<BridgeState>, inputs: seq<Input>, i: nat, j: nat)
    requires Bridge.Run(states, inputs) && Punctual(states, inputs)
    requires i < j < |inputs| && Fails(inputs[i]) && inputs[j].NotReady?
    requires forall k :: i < k < j ==> !inputs[k].NotReady? && !inputs[k].Ready?
    ensures NowOf(inputs[i]) + BaseDelay(states[0].reconnect, Failures(inputs[..i])) <= inputs[j].now
  {
    hide Step, Possible, IsInitial, Failures, AfterDelays;
    NothingHappensBetween(states, inputs, i, j);
    RetriesFollowTheFailures(states, inputs, i + 1);
  }
}
