/** Home Assistant discovery: the component inventory, its incremental publication and what a remote
    observer makes of it (src/hassdiscovery.rs). */
module Discovery {
  import opened Base
  import opened Values
  import opened Payloads
  import opened Topics
  import opened Retained
  import opened Identifiers
  import Nodes

  // ----- The inventory -----

  type Components = map<string, Component>

  function DeviceClass(code: u16): string {
    match code
    case 3 | 16 => "awning"
    case 19 => "curtain"
    case 5 => "garage"
    case 7 => "gate"
    case 4 => "window"
    case 2 | 8 | 10 | 24 => "shutter"
    case _ => "blind"
  }

  /** The length of the white-space character a UTF-8 text begins with; zero if it is another one. */
  function SpaceLength(s: seq<byte>): (n: nat)
    ensures n <= |s|
  {
    if |s| >= 1 && (9 <= s[0] <= 13 || s[0] == 32) then 1
    else if |s| >= 2 && s[0] == 0xC2 && (s[1] == 0x85 || s[1] == 0xA0) then 2
    else if |s| < 3 then 0
    else if s[0] == 0xE1 && s[1] == 0x9A && s[2] == 0x80 then 3
    else if s[0] == 0xE2 && s[1] == 0x80 && (0x80 <= s[2] <= 0x8A || 0xA8 <= s[2] <= 0xA9 || s[2] == 0xAF) then 3
    else if s[0] == 0xE2 && s[1] == 0x81 && s[2] == 0x9F then 3
    else if s[0] == 0xE3 && s[1] == 0x80 && s[2] == 0x80 then 3
    else 0
  }

  predicate Blank(s: seq<byte>)
    decreases |s|
  {
    s == [] || (SpaceLength(s) > 0 && Blank(s[SpaceLength(s)..]))
  }

  function UniqueId(client: string, n: Nodes.Node): string {
    NodeKey(client, n.id, n.serialNumber)
  }

  function NodeComponent(n: Nodes.Node): Component {
    NodeCover(Given(n.name), n.id, DeviceClass(n.actuatorCode))
  }

  function GroupComponent(g: GroupInformation): Component {
    GroupCover(if Blank(g.name) then Numbered(g.groupId) else Given(g.name), g.groupId)
  }

  function AddNode(before: Components, client: string, n: Nodes.Node): Components {
    if Nodes.Controllable(n) then before[UniqueId(client, n) := NodeComponent(n)] else before
  }

  function AddGroup(before: Components, client: string, g: GroupInformation): Components {
    before[GroupKey(client, g.groupId) := GroupComponent(g)]
  }

  function NodeComponents(client: string, nodes: seq<Nodes.Node>): Components {
    if nodes == [] then map[]
    else AddNode(NodeComponents(client, nodes[..|nodes| - 1]), client, nodes[|nodes| - 1])
  }

  /** The components of an inventory; of nodes that share a serial number the last one counts. */
  function ComponentsOf(client: string, nodes: seq<Nodes.Node>, groups: seq<GroupInformation>): Components
    decreases |groups|
  {
    if groups == [] then NodeComponents(client, nodes)
    else AddGroup(ComponentsOf(client, nodes, groups[..|groups| - 1]), client, groups[|groups| - 1])
  }

  ghost predicate HasNode(client: string, nodes: seq<Nodes.Node>, key: string) {
    exists i :: 0 <= i < |nodes| && Nodes.Controllable(nodes[i]) && UniqueId(client, nodes[i]) == key
  }

  ghost predicate HasGroup(client: string, groups: seq<GroupInformation>, key: string) {
    exists i :: 0 <= i < |groups| && GroupKey(client, groups[i].groupId) == key
  }

  lemma {:induction false} NodeComponentsAre(client: string, nodes: seq<Nodes.Node>, key: string)
    ensures key in NodeComponents(client, nodes) <==> HasNode(client, nodes, key)
    decreases |nodes|
  {
    hide NodeKey;
    if nodes != [] {
      var n := |nodes| - 1;
      NodeComponentsAre(client, nodes[..n], key);
      if HasNode(client, nodes, key) {
        var i :| 0 <= i < |nodes| && Nodes.Controllable(nodes[i]) && UniqueId(client, nodes[i]) == key;
        assert i < n ==> nodes[..n][i] == nodes[i];
      }
    }
  }

  /** The components are exactly those of the controllable nodes and of the groups. */
  lemma {:induction false} ComponentsAreTheInventory(client: string, nodes: seq<Nodes.Node>,
                                                     groups: seq<GroupInformation>, key: string)
    ensures key in ComponentsOf(client, nodes, groups) <==> HasNode(client, nodes, key) || HasGroup(client, groups, key)
    decreases |groups|
  {
    hide GroupKey, NodeKey;
    if groups == [] {
      NodeComponentsAre(client, nodes, key);
    } else {
      var n := |groups| - 1;
      ComponentsAreTheInventory(client, nodes, groups[..n], key);
      if HasGroup(client, groups, key) {
        var i :| 0 <= i < |groups| && GroupKey(client, groups[i].groupId) == key;
        assert i < n ==> groups[..n][i] == groups[i];
      }
    }
  }

  /** A group is described under its key, under its own name unless that is blank. */
  lemma {:induction false} GroupIsDescribed(client: string, nodes: seq<Nodes.Node>, groups: seq<GroupInformation>,
                                            i: nat)
    requires i < |groups| && forall j :: i < j < |groups| ==> groups[j].groupId != groups[i].groupId
    ensures var c := ComponentsOf(client, nodes, groups);
            var key := GroupKey(client, groups[i].groupId);
            && key in c && c[key].GroupCover? && c[key].group == groups[i].groupId
            && c[key].name == if Blank(groups[i].name) then Numbered(groups[i].groupId) else Given(groups[i].name)
    decreases |groups|
  {
    hide GroupKey, Blank, NodeKey;
    var n := |groups| - 1;
    if i < n {
      GroupIsDescribed(client, nodes, groups[..n], i);
      KeysAreCollisionFree(client, 0, [], 0, [], groups[i].groupId, groups[n].groupId);
    }
  }

  lemma {:induction false} NodeIsInNodes(client: string, nodes: seq<Nodes.Node>, i: nat)
    requires i < |nodes| && Nodes.Controllable(nodes[i])
    requires forall j :: i < j < |nodes| && Nodes.Controllable(nodes[j]) ==>
               UniqueId(client, nodes[j]) != UniqueId(client, nodes[i])
    ensures var c := NodeComponents(client, nodes);
            UniqueId(client, nodes[i]) in c && c[UniqueId(client, nodes[i])] == NodeComponent(nodes[i])
    decreases |nodes|
  {
    hide UniqueId, NodeComponent;
    var n := |nodes| - 1;
    if i < n {
      NodeIsInNodes(client, nodes[..n], i);
    }
  }

  /** A controllable node is described under its key, unless a later one shares its serial number;
      no group ever takes its place. */
  lemma {:induction false} NodeIsDescribed(client: string, nodes: seq<Nodes.Node>, groups: seq<GroupInformation>,
                                           i: nat)
    requires i < |nodes| && Nodes.Controllable(nodes[i])
    requires forall j :: i < j < |nodes| && Nodes.Controllable(nodes[j]) ==>
               UniqueId(client, nodes[j]) != UniqueId(client, nodes[i])
    ensures var c := ComponentsOf(client, nodes, groups);
            var key := UniqueId(client, nodes[i]);
            && key in c && c[key].NodeCover? && c[key].node == nodes[i].id && c[key].name == Given(nodes[i].name)
            && c[key].deviceClass == DeviceClass(nodes[i].actuatorCode)
    decreases |groups|
  {
    hide GroupKey, Blank, NodeKey;
    if groups == [] {
      NodeIsInNodes(client, nodes, i);
    } else {
      var n := |groups| - 1;
      NodeIsDescribed(client, nodes, groups[..n], i);
      KeysAreCollisionFree(client, nodes[i].id, nodes[i].serialNumber, 0, [], groups[n].groupId, 0);
    }
  }

  // ----- Publications -----

  function FullDocument(c: Components): map<string, Entry> {
    map key | key in c :: Full(c[key])
  }

  function RemovalDocument(c: Components, removed: set<string>): map<string, Entry> {
    FullDocument(c) + map key | key in removed :: Stub
  }

  function DevicePayload(c: Components): Option<Payload> {
    if c == map[] then None else Some(Document(FullDocument(c)))
  }

  function Migrations(order: seq<string>): seq<Publication> {
    if order == [] then []
    else Migrations(order[..|order| - 1]) + [Publication(Legacy(order[|order| - 1]), Some(Migrate))]
  }

  function Clears(order: seq<string>): seq<Publication> {
    if order == [] then []
    else Clears(order[..|order| - 1]) + [Publication(Legacy(order[|order| - 1]), None)]
  }

  function Removal(known: set<string>, c: Components): seq<Publication> {
    if known - c.Keys != {} && c != map[] then
      [Publication(Device, Some(Document(RemovalDocument(c, known - c.Keys))))]
    else []
  }

  /** The messages of one call; order is any enumeration of the component keys. */
  function Announcement(known: set<string>, c: Components, order: seq<string>): seq<Publication> {
    Migrations(order) + Removal(known, c) + [Publication(Device, DevicePayload(c))] + Clears(order)
  }

  lemma {:induction false} MigrationsTouchLegacy(order: seq<string>, t: Topic)
    ensures LastOn(Migrations(order), t).Some? ==> t.Legacy? && t.uniqueId in order
  {
    if order != [] {
      var n := |order| - 1;
      MigrationsTouchLegacy(order[..n], t);
      LastOnConcat(Migrations(order[..n]), [Publication(Legacy(order[n]), Some(Migrate))], t);
    }
  }

  lemma {:induction false} ClearsClear(order: seq<string>, t: Topic)
    ensures LastOn(Clears(order), t) == if t.Legacy? && t.uniqueId in order then Some(None) else None
  {
    if order != [] {
      var n := |order| - 1;
      ClearsClear(order[..n], t);
      LastOnConcat(Clears(order[..n]), [Publication(Legacy(order[n]), None)], t);
      assert order == order[..n] + [order[n]];
    }
  }

  lemma LastOnSingle(p: Publication, t: Topic)
    ensures LastOn([p], t) == if p.topic == t then Some(p.payload) else None
  {
    assert [p][1..] == [];
  }

  /** What a call leaves behind: the device configuration of this inventory alone, and cleared legacy
      topics for every component. */
  lemma AnnouncementLeaves(known: set<string>, c: Components, order: seq<string>, t: Topic)
    requires forall key :: key in order <==> key in c
    ensures LastOn(Announcement(known, c, order), t)
         == match t
            case Device => Some(DevicePayload(c))
            case Legacy(key) => if key in c then Some(None) else None
            case _ => None
  {
    hide Migrations, Clears, DevicePayload, RemovalDocument;
    var device := Publication(Device, DevicePayload(c));
    LastOnConcat(Migrations(order) + Removal(known, c) + [device], Clears(order), t);
    LastOnConcat(Migrations(order) + Removal(known, c), [device], t);
    LastOnConcat(Migrations(order), Removal(known, c), t);
    LastOnSingle(device, t);
    MigrationsTouchLegacy(order, t);
    ClearsClear(order, t);
    if Removal(known, c) != [] {
      LastOnSingle(Removal(known, c)[0], t);
      assert Removal(known, c) == [Removal(known, c)[0]];
    }
  }

  lemma {:induction false} MigrationsInOrder(order: seq<string>)
    ensures |Migrations(order)| == |order|
    ensures forall m :: 0 <= m < |order| ==> Migrations(order)[m] == Publication(Legacy(order[m]), Some(Migrate))
  {
    if order != [] {
      MigrationsInOrder(order[..|order| - 1]);
    }
  }

  lemma {:induction false} ClearsInOrder(order: seq<string>)
    ensures |Clears(order)| == |order|
    ensures forall m :: 0 <= m < |order| ==> Clears(order)[m] == Publication(Legacy(order[m]), None)
  {
    if order != [] {
      ClearsInOrder(order[..|order| - 1]);
    }
  }

  /** Every component is migrated before the device configuration is published, and its legacy topic is
      cleared only after. */
  lemma LegacyTopicsAreMigrated(known: set<string>, c: Components, order: seq<string>, key: string)
    returns (first: nat, last: nat)
    requires (forall k :: k in order <==> k in c) && key in c
    ensures var ps := Announcement(known, c, order);
            && first < last < |ps|
            && ps[first] == Publication(Legacy(key), Some(Migrate)) && ps[last] == Publication(Legacy(key), None)
            && (forall d :: 0 <= d < |ps| && ps[d].topic == Device ==> first < d < last)
            && exists d :: 0 <= d < |ps| && ps[d] == Publication(Device, DevicePayload(c))
  {
    hide DevicePayload, RemovalDocument, Migrations, Clears;
    MigrationsInOrder(order);
    ClearsInOrder(order);
    var m :| 0 <= m < |order| && order[m] == key;
    var removal := Removal(known, c);
    var ps := Announcement(known, c, order);
    first, last := m, |order| + |removal| + 1 + m;
    assert ps[|order| + |removal|] == Publication(Device, DevicePayload(c));
    forall d | 0 <= d < |order|
      ensures ps[d].topic != Device
    {
      assert ps[d] == Migrations(order)[d];
    }
    forall d | |order| + |removal| < d < |ps|
      ensures ps[d].topic != Device
    {
      assert ps[d] == Clears(order)[d - |order| - |removal| - 1];
    }
  }

  // ----- The observer -----

  /** Home Assistant's view: documents add what they describe and remove stubs, a cleared topic
      removes everything. */
  function ObserveOne(observed: Components, p: Publication): Components {
    if p.topic != Device then observed
    else
      match p.payload
      case None => map[]
      case Some(Document(entries)) =>
        map key | key in observed.Keys + entries.Keys && (key in entries ==> entries[key].Full?) ::
          if key in entries then entries[key].component else observed[key]
      case Some(_) => observed
  }

  function Observe(observed: Components, ps: seq<Publication>): Components
    decreases |ps|
  {
    if ps == [] then observed else Observe(ObserveOne(observed, ps[0]), ps[1..])
  }

  lemma {:induction false} ObserveConcat(observed: Components, a: seq<Publication>, b: seq<Publication>)
    ensures Observe(observed, a + b) == Observe(Observe(observed, a), b)
    decreases |a|
  {
    if a == [] {
      assert a + b == b;
    } else {
      assert (a + b)[1..] == a[1..] + b;
      ObserveConcat(ObserveOne(observed, a[0]), a[1..], b);
    }
  }

  lemma ObserveSingle(observed: Components, p: Publication)
    ensures Observe(observed, [p]) == ObserveOne(observed, p)
  {
    assert [p][1..] == [];
  }

  lemma {:induction false} LegacyIsNotObserved(observed: Components, order: seq<string>)
    ensures Observe(observed, Migrations(order)) == observed
    ensures Observe(observed, Clears(order)) == observed
  {
    if order != [] {
      var n := |order| - 1;
      LegacyIsNotObserved(observed, order[..n]);
      ObserveConcat(observed, Migrations(order[..n]), [Publication(Legacy(order[n]), Some(Migrate))]);
      ObserveConcat(observed, Clears(order[..n]), [Publication(Legacy(order[n]), None)]);
      ObserveSingle(observed, Publication(Legacy(order[n]), Some(Migrate)));
      ObserveSingle(observed, Publication(Legacy(order[n]), None));
    }
  }

  lemma CallIsObserved(observed: Components, known: set<string>, c: Components, order: seq<string>)
    ensures Observe(observed, Announcement(known, c, order))
         == ObserveOne(Observe(observed, Removal(known, c)), Publication(Device, DevicePayload(c)))
  {
    hide Migrations, Clears, DevicePayload, Removal, ObserveOne;
    var device := Publication(Device, DevicePayload(c));
    ObserveConcat(observed, Migrations(order) + Removal(known, c) + [device], Clears(order));
    ObserveConcat(observed, Migrations(order) + Removal(known, c), [device]);
    ObserveConcat(observed, Migrations(order), Removal(known, c));
    LegacyIsNotObserved(observed, order);
    ObserveSingle(Observe(observed, Removal(known, c)), device);
    LegacyIsNotObserved(ObserveOne(Observe(observed, Removal(known, c)), device), order);
  }

  lemma RemovalIsObserved(observed: Components, known: set<string>, c: Components)
    requires c != map[]
    ensures var after := Observe(observed, Removal(known, c));
            && (known - c.Keys != {} ==> after.Keys == observed.Keys + c.Keys - (known - c.Keys))
            && (known - c.Keys == {} ==> after == observed)
  {
    if known - c.Keys != {} {
      ObserveSingle(observed, Removal(known, c)[0]);
    }
  }

  lemma DocumentIsObserved(observed: Components, c: Components)
    requires c != map[]
    ensures ObserveOne(observed, Publication(Device, DevicePayload(c))) == observed + c
  {
  }

  /** Once what is known and gone has been removed, nothing foreign is left exactly if all that was there
      is known or current. */
  lemma RemovalLeaves(observed: set<string>, known: set<string>, current: set<string>)
    ensures observed + current - (known - current) <= current <==> observed <= known + current
    ensures known - current == {} ==> (observed <= current <==> observed <= known + current)
  {
    assert forall key :: key in known - current <==> key in known && key !in current;
    var left := observed + current - (known - current);
    assert forall key :: key in left <==> (key in observed || key in current) && !(key in known && key !in current);
    if known - current == {} {
      assert known + current == current by {
        assert forall key :: key in known ==> key in current || key in known - current;
      }
    }
  }

  /** After a call the observer holds exactly the current components if and only if nothing it knew
      had been forgotten by the publisher, or nothing is left to show. */
  lemma ObserverIsInSync(observed: Components, known: set<string>, c: Components, order: seq<string>)
    ensures Observe(observed, Announcement(known, c, order)) == c
       <==> c == map[] || observed.Keys <= known + c.Keys
  {
    hide Announcement, Removal, ObserveOne;
    CallIsObserved(observed, known, c, order);
    if c == map[] {
      EmptyIsObserved(Observe(observed, Removal(known, c)));
    } else {
      RemovalIsObserved(observed, known, c);
      var removed := Observe(observed, Removal(known, c));
      DocumentIsObserved(removed, c);
      RemovalLeaves(observed.Keys, known, c.Keys);
      assert removed + c == c <==> removed.Keys <= c.Keys by {
        if removed.Keys <= c.Keys {
          assert removed + c == c;
        }
        assert (removed + c).Keys == removed.Keys + c.Keys;
      }
    }
  }

  lemma EmptyIsObserved(observed: Components)
    ensures ObserveOne(observed, Publication(Device, DevicePayload(map[]))) == map[]
  {
  }

  // ----- Every sequence of inventories -----

  datatype Call = Call(nodes: seq<Nodes.Node>, groups: seq<GroupInformation>, order: seq<string>)

  function Current(client: string, call: Call): Components {
    ComponentsOf(client, call.nodes, call.groups)
  }

  datatype Sync = Sync(known: set<string>, observed: Components, store: Store)

  function Calls(client: string, start: Sync, calls: seq<Call>): Sync
    decreases |calls|
  {
    if calls == [] then start
    else
      var n := |calls| - 1;
      var before := Calls(client, start, calls[..n]);
      var c := Current(client, calls[n]);
      var ps := Announcement(before.known, c, calls[n].order);
      Sync(c.Keys, Observe(before.observed, ps), PublishAll(before.store, ps))
  }

  /** From a publisher and an observer that agree, every sequence of inventories keeps them agreeing;
      the retained configuration is that of the last inventory, and no component of any inventory
      has a legacy topic left. */
  lemma {:induction false} DiscoveryStaysInSync(client: string, start: Sync, calls: seq<Call>)
    requires start.known == start.observed.Keys && calls != []
    requires forall call :: call in calls ==> forall key :: key in call.order <==> key in Current(client, call)
    ensures var after := Calls(client, start, calls);
            var last := Current(client, calls[|calls| - 1]);
            && after.observed == last
            && after.known == last.Keys
            && Lookup(after.store, Device) == DevicePayload(last)
            && (forall call, key :: call in calls && key in Current(client, call) ==> Legacy(key) !in after.store)
    decreases |calls|
  {
    hide ComponentsOf, Announcement, DevicePayload;
    var n := |calls| - 1;
    var before := Calls(client, start, calls[..n]);
    if n > 0 {
      assert forall call :: call in calls[..n] ==> call in calls;
      DiscoveryStaysInSync(client, start, calls[..n]);
    } else {
      assert before == start;
    }
    var c := Current(client, calls[n]);
    var ps := Announcement(before.known, c, calls[n].order);
    assert calls[n] in calls;
    ObserverIsInSync(before.observed, before.known, c, calls[n].order);
    AnnouncementLeaves(before.known, c, calls[n].order, Device);
    PublishAllLeavesTheLast(before.store, ps, Device);
    forall call, key | call in calls && key in Current(client, call)
      ensures Legacy(key) !in PublishAll(before.store, ps)
    {
      AnnouncementLeaves(before.known, c, calls[n].order, Legacy(key));
      PublishAllLeavesTheLast(before.store, ps, Legacy(key));
      assert Lookup(PublishAll(before.store, ps), Legacy(key)) == None;
    }
  }

  /** A publisher that starts anew beside an observer that still shows an old component, and publishes
      an inventory without it, leaves it shown. */
  lemma RestartLeavesOldComponents(observed: Components, c: Components, order: seq<string>, old_: string)
    requires old_ in observed && old_ !in c && c != map[]
    ensures Observe(observed, Announcement({}, c, order)) != c
  {
    ObserverIsInSync(observed, {}, c, order);
  }

  // ----- The publisher -----

  class HomeAssistantDiscovery {
    const prefix: string
    const clientId: string
    var knownComponents: set<string>

    constructor (clientId: string)
      ensures this.clientId == clientId && prefix == "homeassistant" && knownComponents == {}
    {
      this.clientId := clientId;
      prefix := "homeassistant";
      knownComponents := {};
    }

    constructor Resumed(clientId: string, known: set<string>)
      ensures this.clientId == clientId && prefix == "homeassistant" && knownComponents == known
    {
      this.clientId := clientId;
      prefix := "homeassistant";
      knownComponents := known;
    }

    method Inventory(nodes: seq<Nodes.Node>, groups: seq<GroupInformation>) returns (components: Components)
      ensures components == ComponentsOf(clientId, nodes, groups)
    {
      hide NodeKey, GroupKey, GroupComponent;
      components := map[];
      for i := 0 to |nodes|
        invariant components == NodeComponents(clientId, nodes[..i])
      {
        assert nodes[..i + 1][..i] == nodes[..i];
        if Nodes.Controllable(nodes[i]) {
          components := components[UniqueId(clientId, nodes[i]) := NodeComponent(nodes[i])];
        }
      }
      assert nodes[..|nodes|] == nodes;
      for i := 0 to |groups|
        invariant components == ComponentsOf(clientId, nodes, groups[..i])
      {
        assert groups[..i + 1][..i] == groups[..i];
        components := components[GroupKey(clientId, groups[i].groupId) := GroupComponent(groups[i])];
      }
      assert groups[..|groups|] == groups;
    }

    method Publications(nodes: seq<Nodes.Node>, groups: seq<GroupInformation>)
      returns (publications: seq<Publication>, order: seq<string>)
      modifies this
      ensures forall key :: key in order <==> key in ComponentsOf(clientId, nodes, groups)
      ensures publications == Announcement(old(knownComponents), ComponentsOf(clientId, nodes, groups), order)
      ensures knownComponents == ComponentsOf(clientId, nodes, groups).Keys
    {
      hide ComponentsOf, DevicePayload, RemovalDocument;
      var components := Inventory(nodes, groups);
      var rest := components.Keys;
      order := [];
      var migrations, clears := [], [];
      while rest != {}
        invariant rest <= components.Keys
        invariant forall key :: key in order <==> key in components.Keys - rest
        invariant migrations == Migrations(order) && clears == Clears(order)
        decreases |rest|
      {
        var key :| key in rest;
        rest := rest - {key};
        assert (order + [key])[..|order|] == order;
        order := order + [key];
        migrations := migrations + [Publication(Legacy(key), Some(Migrate))];
        clears := clears + [Publication(Legacy(key), None)];
      }
      var removed := knownComponents - components.Keys;
      publications := migrations;
      if removed != {} && components != map[] {
        publications := publications + [Publication(Device, Some(Document(RemovalDocument(components, removed))))];
      }
      publications := publications + [Publication(Device, DevicePayload(components))] + clears;
      knownComponents := components.Keys;
    }
  }
}
