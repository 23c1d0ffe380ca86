/** The retained topics the bridge writes, as values and as the strings of src/mqtt.rs and
    src/hassdiscovery.rs. */
module Topics {
  import opened Base
  import opened Values

  datatype Topic =
    | Availability
    | NodeInventory
    | GroupInventory
    | NodeInfo(node: NodeId)
    | NodeStatus(node: NodeId)
    | NodeState(node: NodeId)
    | NodePosition(node: NodeId)
    | NodeTarget(node: NodeId)
    | GroupInfo(group: GroupId)
    | Legacy(uniqueId: string)
    | Device

  datatype Layout = Layout(base: string, prefix: string, deviceIdentifier: string)

  function Digit(d: nat): (c: char)
    requires d < 16
    ensures c != '_' && c != '/'
  {
    "0123456789abcdef"[d]
  }

  lemma DigitIsInjective(a: nat, b: nat)
    requires a < 16 && b < 16 && Digit(a) == Digit(b)
    ensures a == b
  {
  }

  function Decimal(n: byte): string {
    if n < 10 then [Digit(n)]
    else if n < 100 then [Digit(n / 10), Digit(n % 10)]
    else [Digit(n / 100), Digit(n / 10 % 10), Digit(n % 10)]
  }

  function FirstDigit(n: byte): (d: nat)
    ensures d < 10 && Decimal(n)[0] == Digit(d)
  {
    if n < 10 then n else if n < 100 then n / 10 else n / 100
  }

  lemma DecimalIsInjective(a: byte, b: byte)
    requires Decimal(a) == Decimal(b)
    ensures a == b
  {
    hide Digit;
    var s, t := Decimal(a), Decimal(b);
    assert |s| == |t|;
    DigitIsInjective(FirstDigit(a), FirstDigit(b));
    DigitIsInjective(a % 10, b % 10);
    assert s[|s| - 1] == t[|t| - 1];
    if a >= 100 {
      DigitIsInjective(a / 10 % 10, b / 10 % 10);
    }
  }

  function NodeLeaf(node: NodeId, leaf: string): string {
    "velux_node_" + Decimal(node) + leaf
  }

  /** The part of a topic under the base topic. */
  function Path(t: Topic): Option<string> {
    match t
    case Availability => Some("state")
    case NodeInventory => Some("nodes")
    case GroupInventory => Some("groups")
    case NodeInfo(node) => Some(NodeLeaf(node, "/info"))
    case NodeStatus(node) => Some(NodeLeaf(node, "/status"))
    case NodeState(node) => Some(NodeLeaf(node, "/state"))
    case NodePosition(node) => Some(NodeLeaf(node, "/position"))
    case NodeTarget(node) => Some(NodeLeaf(node, "/target"))
    case GroupInfo(group) => Some("velux_group_" + Decimal(group) + "/info")
    case _ => None
  }

  function Render(l: Layout, t: Topic): string {
    match t
    case Legacy(uniqueId) => l.prefix + "/cover/" + uniqueId + "/config"
    case Device => l.prefix + "/device/" + l.deviceIdentifier + "/config"
    case _ => l.base + "/" + Path(t).value
  }

  lemma PrefixCancels(p: string, a: string, b: string)
    requires p + a == p + b
    ensures a == b
  {
    assert a == (p + a)[|p|..] && b == (p + b)[|p|..];
  }

  lemma SuffixCancels(a: string, b: string, s: string)
    requires a + s == b + s
    ensures a == b
  {
    assert |a| == |b|;
    assert a == (a + s)[..|a|] && b == (b + s)[..|b|];
  }

  /** The leaves of the node topics; no two of them end alike and are as long. */
  lemma NodeLeavesAreDistinct(a: NodeId, b: NodeId, leafA: string, leafB: string)
    requires |leafA| > 0 && leafA[0] == '/' && |leafB| > 0 && leafB[0] == '/'
    requires NodeLeaf(a, leafA) == NodeLeaf(b, leafB)
    ensures a == b && leafA == leafB
  {
    hide Digit;
    var s, t := Decimal(a) + leafA, Decimal(b) + leafB;
    assert NodeLeaf(a, leafA) == "velux_node_" + s && NodeLeaf(b, leafB) == "velux_node_" + t;
    PrefixCancels("velux_node_", s, t);
    var m, n := |Decimal(a)|, |Decimal(b)|;
    assert s[m] == '/' && t[n] == '/';
    assert forall i :: 0 <= i < m ==> s[i] == Decimal(a)[i] != '/';
    assert forall i :: 0 <= i < n ==> t[i] == Decimal(b)[i] != '/';
    assert m == n;
    assert s[..m] == Decimal(a) && t[..n] == Decimal(b);
    DecimalIsInjective(a, b);
    PrefixCancels(Decimal(a), leafA, leafB);
  }

  function Leaf(t: Topic): Option<(NodeId, string)> {
    match t
    case NodeInfo(node) => Some((node, "/info"))
    case NodeStatus(node) => Some((node, "/status"))
    case NodeState(node) => Some((node, "/state"))
    case NodePosition(node) => Some((node, "/position"))
    case NodeTarget(node) => Some((node, "/target"))
    case _ => None
  }

  lemma PathShape(t: Topic)
    requires Path(t).Some?
    ensures Leaf(t).Some? <==> |Path(t).value| > 11 && Path(t).value[6] == 'n'
    ensures t.GroupInfo? <==> |Path(t).value| > 12 && Path(t).value[6] == 'g'
  {
  }

  lemma PathIsInjective(a: Topic, b: Topic)
    requires Path(a).Some? && Path(a) == Path(b)
    ensures a == b
  {
    hide Digit, Decimal;
    PathShape(a);
    PathShape(b);
    var s := Path(a).value;
    if Leaf(a).Some? && Leaf(b).Some? {
      NodeLeavesAreDistinct(Leaf(a).value.0, Leaf(b).value.0, Leaf(a).value.1, Leaf(b).value.1);
    } else if a.GroupInfo? && b.GroupInfo? {
      var x, y := Decimal(a.group), Decimal(b.group);
      assert s == "velux_group_" + (x + "/info") && s == "velux_group_" + (y + "/info");
      PrefixCancels("velux_group_", x + "/info", y + "/info");
      SuffixCancels(x, y, "/info");
      DecimalIsInjective(a.group, b.group);
    }
  }

  lemma LastCharacter(s: string, t: string)
    requires t != ""
    ensures (s + t)[|s + t| - 1] == t[|t| - 1]
  {
  }

  lemma PathNeverEndsInG(t: Topic)
    requires Path(t).Some?
    ensures Path(t).value != "" && Path(t).value[|Path(t).value| - 1] != 'g'
  {
    hide Decimal;
    if Leaf(t).Some? {
      LastCharacter("velux_node_" + Decimal(t.node), Leaf(t).value.1);
    } else if t.GroupInfo? {
      LastCharacter("velux_group_" + Decimal(t.group), "/info");
    }
  }

  lemma ConfigEndsInG(l: Layout, t: Topic)
    requires Path(t).None?
    ensures |Render(l, t)| > 0 && Render(l, t)[|Render(l, t)| - 1] == 'g'
  {
  }

  /** No two retained topics share a string, whatever base, prefix and client ID are configured. */
  lemma RenderIsInjective(l: Layout, a: Topic, b: Topic)
    requires Render(l, a) == Render(l, b)
    ensures a == b
  {
    hide Path, Decimal;
    assert Path(a).None? <==> a.Legacy? || a.Device? by { PathIsLayout(a); }
    assert Path(b).None? <==> b.Legacy? || b.Device? by { PathIsLayout(b); }
    if Path(a).Some? && Path(b).Some? {
      PrefixCancels(l.base + "/", Path(a).value, Path(b).value);
      PathIsInjective(a, b);
    } else if Path(a).Some? {
      PathNeverEndsInG(a);
      ConfigEndsInG(l, b);
      LastCharacter(l.base + "/", Path(a).value);
      assert false;
    } else if Path(b).Some? {
      PathNeverEndsInG(b);
      ConfigEndsInG(l, a);
      LastCharacter(l.base + "/", Path(b).value);
      assert false;
    } else {
      ConfigsAreDistinct(l, a, b);
    }
  }

  lemma PathIsLayout(t: Topic)
    ensures Path(t).None? <==> t.Legacy? || t.Device?
  {
  }

  lemma ConfigShape(l: Layout, t: Topic)
    requires Path(t).None?
    ensures var s := Render(l, t); |s| > |l.prefix| + 1 && s[|l.prefix| + 1] == if t.Legacy? then 'c' else 'd'
  {
  }

  lemma ConfigsAreDistinct(l: Layout, a: Topic, b: Topic)
    requires Path(a).None? && Path(b).None? && Render(l, a) == Render(l, b)
    ensures a == b
  {
    ConfigShape(l, a);
    ConfigShape(l, b);
    if a.Legacy? && b.Legacy? {
      SuffixCancels(l.prefix + "/cover/" + a.uniqueId, l.prefix + "/cover/" + b.uniqueId, "/config");
      PrefixCancels(l.prefix + "/cover/", a.uniqueId, b.uniqueId);
    }
  }
}
