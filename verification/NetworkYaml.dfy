/** The netplan file as netplan reads it: YAML, nested by indentation, with a reader of its own. */
module NetworkYaml {
  import opened Text
  import opened OrderedMap
  import opened NetworkFile
  import opened VdevStack

  datatype Yaml = Scalar(text: string) | List(items: seq<Yaml>) | Map(entries: seq<(string, Yaml)>)

  // ---- reading YAML ----

  /** A line's indentation and what follows it. */
  function RowOf(line: string): Row {
    var n := CountSpaces(line);
    Row(n, [line[n..]])
  }

  /** Blank lines and comments say nothing. */
  predicate Says(line: string) {
    var text := line[CountSpaces(line)..];
    text != "" && text[0] != '#'
  }

  function Rows(lines: seq<string>): seq<Row> {
    if lines == [] then [] else (if Says(lines[0]) then [RowOf(lines[0])] else []) + Rows(lines[1..])
  }

  function Scalars(parts: seq<string>): (r: seq<Yaml>)
    ensures |r| == |parts|
  {
    seq(|parts|, i requires 0 <= i < |parts| => Scalar(parts[i]))
  }

  /** A value on its key's line: a list in brackets, or plain. */
  function Flow(text: string): Yaml {
    if |text| >= 2 && text[0] == '[' && text[|text| - 1] == ']'
    then List(Scalars(TrimAll(Split(text[1..|text| - 1], ','))))
    else Scalar(text)
  }

  function TextOf(node: Vdev): string { if node.cols == [] then "" else node.cols[0] }

  predicate IsItem(node: Vdev) { StartsWith(TextOf(node), "- ") }

  function KeyOf(text: string): string { text[..IndexOf(text, ':')] }

  function ValueOf(text: string): string {
    var i := IndexOf(text, ':');
    if i == |text| then "" else Trim(text[i + 1..])
  }

  /** The nodes under a key: a list when the first begins with a dash, else keys with their values. */
  function ToYaml(nodes: seq<Vdev>): Yaml
    decreases nodes, 1
  {
    if nodes == [] then Scalar("") else if IsItem(nodes[0]) then List(Items(nodes)) else Map(Pairs(nodes))
  }

  function Pairs(nodes: seq<Vdev>): seq<(string, Yaml)>
    decreases nodes, 0
  {
    if nodes == [] then [] else [PairOf(nodes[0])] + Pairs(nodes[1..])
  }

  /** A key's value stands behind it, or under it. */
  function PairOf(node: Vdev): (string, Yaml)
    decreases node, 2
  {
    var text := TextOf(node);
    (KeyOf(text), if ValueOf(text) == "" then ToYaml(node.children) else Flow(ValueOf(text)))
  }

  /** An item's first key stands behind its dash, the others under it. */
  function Items(nodes: seq<Vdev>): seq<Yaml>
    decreases nodes, 0
  {
    if nodes == [] then [] else [ItemOf(nodes[0])] + Items(nodes[1..])
  }

  function ItemOf(node: Vdev): Yaml
    decreases node, 2
  {
    var text := TextOf(node);
    var first := if |text| >= 2 then text[2..] else "";
    Map([(KeyOf(first), Flow(ValueOf(first)))] + Pairs(node.children))
  }

  function ReadYaml(text: string): Yaml { ToYaml(Build(Rows(Split(text, '\n')))) }

  // ---- what the settings mean to netplan ----

  function Routes(gateway: Option<string>): seq<(string, Yaml)> {
    if gateway.None? then []
    else [("routes", List([Map([("to", Scalar("default")), ("via", Scalar(gateway.value))])]))]
  }

  function Servers(dns: seq<string>): seq<(string, Yaml)> {
    if dns == [] then [] else [("nameservers", Map([("addresses", List(Scalars(dns)))]))]
  }

  /** `addresses`: what the interface has for addresses. */
  function Means(c: Config, addresses: seq<string>): Yaml {
    match c
    case Dhcp => Map([("dhcp4", Scalar("true"))])
    case Static(_, gateway, dns) =>
      Map([("dhcp4", Scalar("false")), ("addresses", List(Scalars(addresses)))] + Routes(gateway) + Servers(dns))
  }

  /** What stands between the brackets, read as YAML reads it: a comma makes it two. */
  function AddressesOf(c: Config): seq<string> { if c.Static? then TrimAll(Split(c.address, ',')) else [] }

  function AllMean(m: Entries<Config>, as_: Config -> seq<string>): seq<(string, Yaml)> {
    if m == [] then [] else AllMean(m[..|m| - 1], as_) + [(m[|m| - 1].0, Means(m[|m| - 1].1, as_(m[|m| - 1].1)))]
  }

  function Netplan(ethernets: seq<(string, Yaml)>): Yaml {
    Map([("network", Map([("version", Scalar("2")), ("ethernets", Map(ethernets))]))])
  }

  // ---- the file as a tree ----

  function Leaf(text: string): Vdev { Vdev([text], []) }

  function RouteNodes(gateway: Option<string>): seq<Vdev> {
    if gateway.None? then []
    else [Vdev(["routes:"], [Vdev(["- to: default"], [Leaf("via: " + gateway.value)])])]
  }

  function ServerNodes(dns: seq<string>): seq<Vdev> {
    if dns == [] then [] else [Vdev(["nameservers:"], [Leaf("addresses: [" + JoinComma(dns) + "]")])]
  }

  function FieldNodes(c: Config): seq<Vdev> {
    match c
    case Dhcp => [Leaf("dhcp4: true")]
    case Static(address, gateway, dns) =>
      [Leaf("dhcp4: false"), Leaf("addresses: [" + address + "]")] + RouteNodes(gateway) + ServerNodes(dns)
  }

  function IfaceNode(iface: string, c: Config): Vdev { Vdev([iface + ":"], FieldNodes(c)) }

  function IfaceNodes(m: Entries<Config>): seq<Vdev> {
    if m == [] then [] else IfaceNodes(m[..|m| - 1]) + [IfaceNode(m[|m| - 1].0, m[|m| - 1].1)]
  }

  function Tree(m: Entries<Config>): seq<Vdev> {
    [Vdev(["network:"], [Leaf("version: 2"), Vdev(["ethernets:"], IfaceNodes(m))])]
  }

  // ---- the lines are the tree's rows ----

  lemma {:induction false} RowsJoined(a: seq<string>, b: seq<string>)
    ensures Rows(a + b) == Rows(a) + Rows(b)
    decreases |a|
  {
    if a == [] {
      assert a + b == b;
    } else {
      assert (a + b)[0] == a[0] && (a + b)[1..] == a[1..] + b;
      RowsJoined(a[1..], b);
      Associates(if Says(a[0]) then [RowOf(a[0])] else [], Rows(a[1..]), Rows(b));
    }
  }

  lemma RowsOne(line: string)
    ensures Rows([line]) == if Says(line) then [RowOf(line)] else []
  {
    assert [line][1..] == [];
  }

  /** A line that is so many spaces and a text. */
  lemma RowsIndented(n: nat, text: string)
    requires text != "" && !IsSpace(text[0]) && text[0] != '#'
    ensures Rows([Spaces(n) + text]) == [Row(n, [text])]
  {
    var line := Spaces(n) + text;
    LeadingSpaces(n, text);
    assert line[n..] == text;
    RowsOne(line);
  }

  lemma {:induction false} LaidJoined(a: seq<Vdev>, b: seq<Vdev>, depth: nat)
    ensures Laid(a + b, depth) == Laid(a, depth) + Laid(b, depth)
    decreases |a|
  {
    if a == [] {
      assert a + b == b;
    } else {
      assert (a + b)[0] == a[0] && (a + b)[1..] == a[1..] + b;
      LaidJoined(a[1..], b, depth);
      var first := [Row(2 * depth, a[0].cols)] + Laid(a[0].children, depth + 1);
      Associates(first, Laid(a[1..], depth), Laid(b, depth));
    }
  }

  lemma LaidOne(v: Vdev, depth: nat)
    ensures Laid([v], depth) == [Row(2 * depth, v.cols)] + Laid(v.children, depth + 1)
  {
    assert [v][1..] == [] && Laid([], depth) == [];
  }

  lemma LaidLeaf(text: string, depth: nat)
    ensures Laid([Leaf(text)], depth) == [Row(2 * depth, [text])]
  {
    LaidOne(Leaf(text), depth);
  }

  lemma SixSpaces()
    ensures Spaces(6) == "      " && Spaces(8) == "        " && Spaces(10) == "          "
    ensures Spaces(4) == "    " && Spaces(2) == "  " && Spaces(0) == ""
  {}

  /** A line six spaces in is a leaf of an interface. */
  lemma FieldRow(line: string, text: string)
    requires text != "" && !IsSpace(text[0]) && text[0] != '#' && line == "      " + text
    ensures Rows([line]) == Laid([Leaf(text)], 3)
  {
    SixSpaces();
    RowsIndented(6, text);
    LaidLeaf(text, 3);
  }

  lemma RouteRows(gateway: Option<string>)
    requires gateway.Some? ==> gateway.value != ""
    ensures Rows(GatewayLines(gateway)) == Laid(RouteNodes(gateway), 3)
  {
    if gateway.Some? {
      RouteLines(gateway.value);
      RouteLaid("via: " + gateway.value);
    }
  }

  lemma RouteLines(gateway: string)
    requires gateway != ""
    ensures
      Rows(GatewayLines(Some(gateway)))
      == [Row(6, ["routes:"])] + [Row(8, ["- to: default"])] + [Row(10, ["via: " + gateway])]
  {
    RouteTexts(gateway);
    ThreeRows(
      "      routes:", "routes:", "        - to: default", "- to: default", "          via: " + gateway,
      "via: " + gateway);
  }

  lemma RouteTexts(gateway: string)
    ensures "      routes:" == Spaces(6) + "routes:"
    ensures "        - to: default" == Spaces(8) + "- to: default"
    ensures "          via: " + gateway == Spaces(10) + ("via: " + gateway)
    ensures "routes:"[0] == 'r' && "- to: default"[0] == '-' && ("via: " + gateway)[0] == 'v'
  {}

  lemma ThreeRows(a: string, x: string, b: string, y: string, c: string, z: string)
    requires a == Spaces(6) + x && b == Spaces(8) + y && c == Spaces(10) + z
    requires x != "" && !IsSpace(x[0]) && x[0] != '#' && y != "" && !IsSpace(y[0]) && y[0] != '#'
    requires z != "" && !IsSpace(z[0]) && z[0] != '#'
    ensures Rows([a, b, c]) == [Row(6, [x])] + [Row(8, [y])] + [Row(10, [z])]
  {
    RowsIndented(6, x);
    RowsIndented(8, y);
    RowsIndented(10, z);
    RowsOfThree(a, b, c);
  }

  lemma RouteLaid(via: string)
    ensures
      Laid([Vdev(["routes:"], [Vdev(["- to: default"], [Leaf(via)])])], 3)
      == [Row(6, ["routes:"])] + [Row(8, ["- to: default"])] + [Row(10, [via])]
  {
    var item := Vdev(["- to: default"], [Leaf(via)]);
    LaidOne(Vdev(["routes:"], [item]), 3);
    LaidOne(item, 4);
    LaidLeaf(via, 5);
  }

  lemma RowsOfThree(a: string, b: string, c: string)
    ensures Rows([a, b, c]) == Rows([a]) + Rows([b]) + Rows([c])
  {
    RowsJoined([a], [b]);
    RowsJoined([a, b], [c]);
    assert [a] + [b] == [a, b] && [a, b] + [c] == [a, b, c];
  }

  lemma RowsOfTwo(a: string, b: string)
    ensures Rows([a, b]) == Rows([a]) + Rows([b])
  {
    RowsJoined([a], [b]);
    assert [a] + [b] == [a, b];
  }

  lemma ServerRows(dns: seq<string>)
    ensures Rows(DnsLines(dns)) == Laid(ServerNodes(dns), 3)
  {
    if dns != [] {
      ServerTexts(JoinComma(dns));
      TwoRows(
        "      nameservers:", "nameservers:", "        addresses: [" + JoinComma(dns) + "]",
        "addresses: [" + JoinComma(dns) + "]");
      ServerLaid("addresses: [" + JoinComma(dns) + "]");
    }
  }

  lemma ServerTexts(list: string)
    ensures "      nameservers:" == Spaces(6) + "nameservers:" && "nameservers:"[0] == 'n'
    ensures "        addresses: [" + list + "]" == Spaces(8) + ("addresses: [" + list + "]")
    ensures ("addresses: [" + list + "]")[0] == 'a'
  {}

  lemma TwoRows(a: string, x: string, b: string, y: string)
    requires a == Spaces(6) + x && x != "" && !IsSpace(x[0]) && x[0] != '#'
    requires b == Spaces(8) + y && y != "" && !IsSpace(y[0]) && y[0] != '#'
    ensures Rows([a, b]) == [Row(6, [x])] + [Row(8, [y])]
  {
    RowsIndented(6, x);
    RowsIndented(8, y);
    RowsOfTwo(a, b);
  }

  lemma ServerLaid(text: string)
    ensures
      Laid([Vdev(["nameservers:"], [Leaf(text)])], 3) == [Row(6, ["nameservers:"])] + [Row(8, [text])]
  {
    LaidOne(Vdev(["nameservers:"], [Leaf(text)]), 3);
    LaidLeaf(text, 4);
  }

  lemma FieldRows(c: Config)
    requires GatewayTold(c)
    ensures Rows(Fields(c)) == Laid(FieldNodes(c), 3)
  {
    match c
    case Dhcp =>
      assert "      dhcp4: true" == "      " + "dhcp4: true";
      FieldRow("      dhcp4: true", "dhcp4: true");
    case Static(address, gateway, dns) =>
      StaticRows(address);
      RouteRows(gateway);
      ServerRows(dns);
      var first := ["      dhcp4: false", "      addresses: [" + address + "]"];
      var nodes := [Leaf("dhcp4: false"), Leaf("addresses: [" + address + "]")];
      RowsJoined(first, GatewayLines(gateway));
      RowsJoined(first + GatewayLines(gateway), DnsLines(dns));
      LaidJoined(nodes, RouteNodes(gateway), 3);
      LaidJoined(nodes + RouteNodes(gateway), ServerNodes(dns), 3);
  }

  lemma StaticRows(address: string)
    ensures
      Rows(["      dhcp4: false", "      addresses: [" + address + "]"])
      == Laid([Leaf("dhcp4: false"), Leaf("addresses: [" + address + "]")], 3)
  {
    StaticTexts(address);
    TwoFields(
      "      dhcp4: false", "dhcp4: false", "      addresses: [" + address + "]", "addresses: [" + address + "]");
  }

  lemma StaticTexts(address: string)
    ensures "      dhcp4: false" == "      " + "dhcp4: false" && "dhcp4: false"[0] == 'd'
    ensures "      addresses: [" + address + "]" == "      " + ("addresses: [" + address + "]")
    ensures ("addresses: [" + address + "]")[0] == 'a'
  {}

  lemma TwoFields(a: string, x: string, b: string, y: string)
    requires a == "      " + x && x != "" && !IsSpace(x[0]) && x[0] != '#'
    requires b == "      " + y && y != "" && !IsSpace(y[0]) && y[0] != '#'
    ensures Rows([a, b]) == Laid([Leaf(x), Leaf(y)], 3)
  {
    FieldRow(a, x);
    FieldRow(b, y);
    RowsOfTwo(a, b);
    LaidTwo(Leaf(x), Leaf(y), 3);
  }

  lemma LaidTwo(a: Vdev, b: Vdev, depth: nat)
    ensures Laid([a, b], depth) == Laid([a], depth) + Laid([b], depth)
  {
    LaidJoined([a], [b], depth);
    assert [a] + [b] == [a, b];
  }

  lemma BlockRows(iface: string, c: Config)
    requires InterfaceName(iface) && GatewayTold(c)
    ensures Rows(Block(iface, c)) == Laid([IfaceNode(iface, c)], 2)
  {
    var line := "    " + iface + ":";
    SixSpaces();
    assert line == Spaces(4) + (iface + ":");
    RowsIndented(4, iface + ":");
    FieldRows(c);
    RowsJoined([line], Fields(c));
    LaidOne(IfaceNode(iface, c), 2);
  }

  lemma HeaderRows()
    ensures Rows(Header()) == [Row(0, ["network:"]), Row(2, ["version: 2"]), Row(2, ["ethernets:"])]
  {
    TitleSaysNothing();
    HeaderTexts();
    NetworkRows("network:", "network:", "  version: 2", "version: 2", "  ethernets:", "ethernets:");
    FourOf(Title(), "network:", "  version: 2", "  ethernets:");
    RowsJoined([Title()], ["network:", "  version: 2", "  ethernets:"]);
  }

  lemma FourOf(a: string, b: string, c: string, d: string)
    ensures [a, b, c, d] == [a] + [b, c, d]
  {}

  lemma HeaderTexts()
    ensures "network:" == Spaces(0) + "network:" && "  version: 2" == Spaces(2) + "version: 2"
    ensures "  ethernets:" == Spaces(2) + "ethernets:"
    ensures "network:"[0] == 'n' && "version: 2"[0] == 'v' && "ethernets:"[0] == 'e'
  {}

  lemma NetworkRows(a: string, x: string, b: string, y: string, c: string, z: string)
    requires a == Spaces(0) + x && b == Spaces(2) + y && c == Spaces(2) + z
    requires x != "" && !IsSpace(x[0]) && x[0] != '#' && y != "" && !IsSpace(y[0]) && y[0] != '#'
    requires z != "" && !IsSpace(z[0]) && z[0] != '#'
    ensures Rows([a, b, c]) == [Row(0, [x]), Row(2, [y]), Row(2, [z])]
  {
    RowsIndented(0, x);
    RowsIndented(2, y);
    RowsIndented(2, z);
    RowsOfThree(a, b, c);
  }

  lemma TitleSaysNothing()
    ensures Rows([Title()]) == []
  {
    assert Title()[0] == '#';
    RowsOne(Title());
  }

  ghost predicate Gateways(m: Entries<Config>) {
    forall e :: e in m ==> InterfaceName(e.0) && GatewayTold(e.1)
  }

  lemma {:induction false} BodyRows(m: Entries<Config>)
    requires m != [] && Gateways(m)
    ensures Rows(BodyLines(m)) == Rows(Header()) + Laid(IfaceNodes(m), 2)
    decreases |m|
  {
    var e, before := m[|m| - 1], m[..|m| - 1];
    assert e in m;
    BlockRows(e.0, e.1);
    LaidJoined(IfaceNodes(before), [IfaceNode(e.0, e.1)], 2);
    if |m| == 1 {
      RowsJoined(Header(), Block(e.0, e.1));
      assert IfaceNodes(before) == [] && [] + [IfaceNode(e.0, e.1)] == [IfaceNode(e.0, e.1)];
    } else {
      BodyRows(before);
      RowsJoined(Block(e.0, e.1), [""]);
      RowsOne("");
      assert Rows(Block(e.0, e.1)) + [] == Rows(Block(e.0, e.1));
      RowsJoined(BodyLines(before), Block(e.0, e.1) + [""]);
      Associates(Rows(Header()), Laid(IfaceNodes(before), 2), Rows(Block(e.0, e.1)));
    }
  }

  lemma TreeRows(m: Entries<Config>)
    ensures
      Laid(Tree(m), 0)
      == [Row(0, ["network:"]), Row(2, ["version: 2"]), Row(2, ["ethernets:"])] + Laid(IfaceNodes(m), 2)
  {
    var version, ethernets := Leaf("version: 2"), Vdev(["ethernets:"], IfaceNodes(m));
    LaidOne(Vdev(["network:"], [version, ethernets]), 0);
    UnderNetwork(version, ethernets, Laid(IfaceNodes(m), 2));
  }

  lemma UnderNetwork(version: Vdev, ethernets: Vdev, rows: seq<Row>)
    requires version == Leaf("version: 2") && ethernets.cols == ["ethernets:"] && Laid(ethernets.children, 2) == rows
    ensures
      [Row(0, ["network:"])] + Laid([version, ethernets], 1)
      == [Row(0, ["network:"]), Row(2, ["version: 2"]), Row(2, ["ethernets:"])] + rows
  {
    LaidTwo(version, ethernets, 1);
    LaidLeaf("version: 2", 1);
    LaidOne(ethernets, 1);
  }

  // ---- what the tree means ----

  lemma KeyValue(key: string, value: string)
    requires ':' !in key && value != "" && !IsSpace(value[0]) && !IsSpace(value[|value| - 1])
    ensures KeyOf(key + ": " + value) == key && ValueOf(key + ": " + value) == value
  {
    var text := key + ": " + value;
    assert text == key + [':'] + (" " + value);
    IndexOfFirst(key, ':', " " + value);
    assert text[|key| + 1..] == " " + value;
    TrimBehind(value);
  }

  lemma TrimBehind(value: string)
    requires value != "" && !IsSpace(value[0]) && !IsSpace(value[|value| - 1])
    ensures Trim(" " + value) == value
  {
    assert (" " + value)[1..] == value;
    TrimClean(value);
    assert TrimStart(" " + value) == TrimStart(value) == value;
  }

  lemma KeyAlone(key: string)
    requires ':' !in key
    ensures KeyOf(key + ":") == key && ValueOf(key + ":") == ""
  {
    assert key + ":" == key + [':'] + "";
    IndexOfFirst(key, ':', "");
    assert (key + ":")[|key| + 1..] == "";
  }

  lemma PairFirst(node: Vdev, rest: seq<Vdev>)
    ensures Pairs([node] + rest) == [PairOf(node)] + Pairs(rest)
  {
    assert ([node] + rest)[1..] == rest;
  }

  lemma PairOne(node: Vdev)
    ensures Pairs([node]) == [PairOf(node)]
  {
    PairFirst(node, []);
    assert [node] + [] == [node] && Pairs([]) == [];
  }

  lemma {:induction false} PairsJoined(a: seq<Vdev>, b: seq<Vdev>)
    ensures Pairs(a + b) == Pairs(a) + Pairs(b)
    decreases |a|
  {
    if a == [] {
      assert a + b == b;
    } else {
      FirstOfBoth(a, b);
      PairFirst(a[0], a[1..] + b);
      PairsJoined(a[1..], b);
      Associates([PairOf(a[0])], Pairs(a[1..]), Pairs(b));
    }
  }

  lemma FirstOfBoth(a: seq<Vdev>, b: seq<Vdev>)
    requires a != []
    ensures a + b == [a[0]] + (a[1..] + b)
  {}

  lemma PlainFlow(text: string)
    requires text == "" || text[0] != '['
    ensures Flow(text) == Scalar(text)
  {}

  lemma ListFlow(inner: string)
    ensures Flow("[" + inner + "]") == List(Scalars(TrimAll(Split(inner, ','))))
  {
    assert ("[" + inner + "]")[1..|inner| + 1] == inner;
  }

  lemma LeafPair(text: string, key: string, value: string)
    requires text == key + ": " + value && ':' !in key
    requires value != "" && !IsSpace(value[0]) && !IsSpace(value[|value| - 1])
    ensures Pairs([Leaf(text)]) == [(key, Flow(value))]
  {
    KeyValue(key, value);
    PairOne(Leaf(text));
  }

  lemma NodePair(text: string, key: string, children: seq<Vdev>)
    requires text == key + ":" && ':' !in key
    ensures Pairs([Vdev([text], children)]) == [(key, ToYaml(children))]
  {
    KeyAlone(key);
    PairOne(Vdev([text], children));
  }

  lemma ListPair(text: string, key: string, inner: string)
    requires text == key + ": " + ("[" + inner + "]") && ':' !in key
    ensures Pairs([Leaf(text)]) == [(key, List(Scalars(TrimAll(Split(inner, ',')))))]
  {
    var value := "[" + inner + "]";
    assert value[|value| - 1] == ']';
    LeafPair(text, key, value);
    ListFlow(inner);
  }

  lemma DhcpTrue()
    ensures Pairs([Leaf("dhcp4: true")]) == [("dhcp4", Scalar("true"))]
  {
    TrueText();
    PlainPair("dhcp4: true", "dhcp4", "true");
  }

  lemma DhcpFalse()
    ensures Pairs([Leaf("dhcp4: false")]) == [("dhcp4", Scalar("false"))]
  {
    FalseText();
    PlainPair("dhcp4: false", "dhcp4", "false");
  }

  lemma TrueText()
    ensures "dhcp4: true" == "dhcp4" + ": " + "true" && ':' !in "dhcp4" && "true"[0] == 't' && "true"[3] == 'e'
  {}

  lemma FalseText()
    ensures "dhcp4: false" == "dhcp4" + ": " + "false" && ':' !in "dhcp4" && "false"[0] == 'f' && "false"[4] == 'e'
  {}

  lemma PlainPair(text: string, key: string, value: string)
    requires text == key + ": " + value && ':' !in key
    requires value != "" && !IsSpace(value[0]) && !IsSpace(value[|value| - 1]) && value[0] != '['
    ensures Pairs([Leaf(text)]) == [(key, Scalar(value))]
  {
    LeafPair(text, key, value);
    PlainFlow(value);
  }

  lemma AddressPair(inner: string)
    ensures
      Pairs([Leaf("addresses: [" + inner + "]")]) == [("addresses", List(Scalars(TrimAll(Split(inner, ',')))))]
  {
    AddressText(inner);
    ListPair("addresses: [" + inner + "]", "addresses", inner);
  }

  lemma AddressText(inner: string)
    ensures "addresses: [" + inner + "]" == "addresses" + ": " + ("[" + inner + "]") && ':' !in "addresses"
  {}

  lemma RoutePairs(gateway: Option<string>)
    requires gateway.Some? ==> NetworkFile.Plain(gateway.value) && gateway.value[0] != '['
    ensures Pairs(RouteNodes(gateway)) == Routes(gateway)
  {
    if gateway.Some? {
      var via := Leaf("via: " + gateway.value);
      RouteText(gateway.value);
      PlainEnds(gateway.value);
      PlainPair("via: " + gateway.value, "via", gateway.value);
      DefaultItem(via, ("via", Scalar(gateway.value)));
      NodePair("routes:", "routes", [Vdev(["- to: default"], [via])]);
    }
  }

  lemma DefaultItem(via: Vdev, pair: (string, Yaml))
    requires Pairs([via]) == [pair]
    ensures ToYaml([Vdev(["- to: default"], [via])]) == List([Map([("to", Scalar("default")), pair])])
  {
    DefaultText();
    PlainFlow("default");
    ItemMeans(Vdev(["- to: default"], [via]), "to: default", "to", "default");
    PairUp(("to", Scalar("default")), pair);
    OneItem(Vdev(["- to: default"], [via]));
  }

  lemma OneItem(item: Vdev)
    requires IsItem(item)
    ensures ToYaml([item]) == List([ItemOf(item)])
  {
    assert [item][1..] == [] && Items([]) == [];
  }

  lemma DefaultText()
    ensures "- to: default" == "- " + "to: default" && "to: default" == "to" + ": " + "default" && ':' !in "to"
    ensures "default"[0] == 'd' && "default"[6] == 't'
  {}

  lemma PlainEnds(s: string)
    requires Plain(s)
    ensures s != "" && !IsSpace(s[0]) && !IsSpace(s[|s| - 1])
  {
    assert s[0] in s && s[|s| - 1] in s;
  }

  lemma RouteText(gateway: string)
    ensures
      "routes:" == "routes" + ":" && ':' !in "routes" && "via: " + gateway == "via" + ": " + gateway && ':' !in "via"
  {}

  /** An item with its first key behind the dash and the rest under it. */
  lemma ItemMeans(item: Vdev, text: string, key: string, value: string)
    requires item.cols == ["- " + text] && text == key + ": " + value && ':' !in key
    requires value != "" && !IsSpace(value[0]) && !IsSpace(value[|value| - 1])
    ensures IsItem(item) && ItemOf(item) == Map([(key, Flow(value))] + Pairs(item.children))
  {
    KeyValue(key, value);
    assert ("- " + text)[2..] == text;
  }

  lemma ServerPairs(dns: seq<string>)
    requires forall d :: d in dns ==> NetworkFile.Plain(d)
    ensures Pairs(ServerNodes(dns)) == Servers(dns)
  {
    if dns != [] {
      var leaf := Leaf("addresses: [" + JoinComma(dns) + "]");
      ServerText(JoinComma(dns));
      NodePair("nameservers:", "nameservers", [leaf]);
      AddressPair(JoinComma(dns));
      DnsReads(dns, "");
      assert "" + JoinComma(dns) == JoinComma(dns);
      MapOfLeaf(leaf);
    }
  }

  lemma ServerText(list: string)
    ensures "nameservers:" == "nameservers" + ":" && ':' !in "nameservers"
    ensures ("addresses: [" + list + "]")[0] == 'a'
  {}

  lemma MapOfLeaf(leaf: Vdev)
    requires TextOf(leaf) != "" && TextOf(leaf)[0] != '-'
    ensures ToYaml([leaf]) == Map(Pairs([leaf]))
  {}

  lemma FieldPairs(c: Config)
    requires c.Static? ==>
      && (c.gateway.Some? ==> NetworkFile.Plain(c.gateway.value) && c.gateway.value[0] != '[')
      && forall d :: d in c.dns ==> NetworkFile.Plain(d)
    ensures ToYaml(FieldNodes(c)) == Means(c, AddressesOf(c))
  {
    FirstField(c);
    if c.Dhcp? {
      DhcpTrue();
    } else {
      StaticPairs(c.address, c.gateway, c.dns);
    }
  }

  lemma StaticPairs(address: string, gateway: Option<string>, dns: seq<string>)
    requires gateway.Some? ==> NetworkFile.Plain(gateway.value) && gateway.value[0] != '['
    requires forall d :: d in dns ==> NetworkFile.Plain(d)
    ensures
      Pairs(FieldNodes(Static(address, gateway, dns)))
      == [("dhcp4", Scalar("false")), ("addresses", List(Scalars(TrimAll(Split(address, ',')))))]
         + Routes(gateway) + Servers(dns)
  {
    var dhcp, addresses := Leaf("dhcp4: false"), Leaf("addresses: [" + address + "]");
    DhcpFalse();
    AddressPair(address);
    RoutePairs(gateway);
    ServerPairs(dns);
    FourPairs(dhcp, addresses, RouteNodes(gateway), ServerNodes(dns));
    PairUp(("dhcp4", Scalar("false")), ("addresses", List(Scalars(TrimAll(Split(address, ','))))));
  }

  lemma PairUp(a: (string, Yaml), b: (string, Yaml))
    ensures [a] + [b] == [a, b]
  {}

  lemma FirstField(c: Config)
    ensures ToYaml(FieldNodes(c)) == Map(Pairs(FieldNodes(c)))
  {
    assert "dhcp4: true"[0] == 'd' && "dhcp4: false"[0] == 'd' && "- "[0] == '-';
  }

  lemma FourPairs(a: Vdev, b: Vdev, c: seq<Vdev>, d: seq<Vdev>)
    ensures Pairs([a, b] + c + d) == Pairs([a]) + Pairs([b]) + Pairs(c) + Pairs(d)
  {
    PairsJoined([a], [b]);
    assert [a] + [b] == [a, b];
    PairsJoined([a, b], c);
    PairsJoined([a, b] + c, d);
  }

  lemma {:induction false} IfacePairs(m: Entries<Config>)
    requires Settable(m)
    ensures Pairs(IfaceNodes(m)) == AllMean(m, AddressesOf)
    decreases |m|
  {
    if m != [] {
      var e, before := m[|m| - 1], m[..|m| - 1];
      assert e in m;
      IfacePairs(before);
      AcceptedIsPlain(e.1);
      FieldPairs(e.1);
      assert ':' !in e.0;
      NodePair(e.0 + ":", e.0, FieldNodes(e.1));
      PairsJoined(IfaceNodes(before), [IfaceNode(e.0, e.1)]);
    } else {
      assert Pairs([]) == [];
    }
  }

  lemma AcceptedIsPlain(c: Config)
    requires Accepted(c)
    ensures c.Static? ==>
      && (c.gateway.Some? ==> NetworkFile.Plain(c.gateway.value) && c.gateway.value[0] != '[')
      && forall d :: d in c.dns ==> NetworkFile.Plain(d)
  {
    if c.Static? {
      if c.gateway.Some? {
        Ipv4IsPlain(c.gateway.value);
      }
      forall d | d in c.dns ensures NetworkFile.Plain(d) {
        Ipv4IsPlain(d);
      }
    }
  }

  lemma TreeMeans(m: Entries<Config>)
    requires Settable(m) && m != []
    ensures ToYaml(Tree(m)) == Netplan(AllMean(m, AddressesOf))
  {
    IfacePairs(m);
    FirstIface(m);
    NetworkMeans(IfaceNodes(m), AllMean(m, AddressesOf));
  }

  lemma NetworkMeans(ifaces: seq<Vdev>, ethernets: seq<(string, Yaml)>)
    requires ToYaml(ifaces) == Map(ethernets)
    ensures ToYaml([Vdev(["network:"], [Leaf("version: 2"), Vdev(["ethernets:"], ifaces)])]) == Netplan(ethernets)
  {
    var under := [Leaf("version: 2"), Vdev(["ethernets:"], ifaces)];
    NetworkText();
    VersionMeans(ifaces, ethernets);
    NodePair("network:", "network", under);
    MapOfFirst([Vdev(["network:"], under)]);
  }

  lemma VersionMeans(ifaces: seq<Vdev>, ethernets: seq<(string, Yaml)>)
    requires ToYaml(ifaces) == Map(ethernets)
    ensures
      ToYaml([Leaf("version: 2"), Vdev(["ethernets:"], ifaces)])
      == Map([("version", Scalar("2")), ("ethernets", Map(ethernets))])
  {
    VersionText();
    PlainPair("version: 2", "version", "2");
    NodePair("ethernets:", "ethernets", ifaces);
    TwoPairs(Leaf("version: 2"), Vdev(["ethernets:"], ifaces));
    MapOfFirst([Leaf("version: 2"), Vdev(["ethernets:"], ifaces)]);
    PairUp(("version", Scalar("2")), ("ethernets", Map(ethernets)));
  }

  lemma TwoPairs(a: Vdev, b: Vdev)
    ensures Pairs([a, b]) == Pairs([a]) + Pairs([b])
  {
    PairsJoined([a], [b]);
    assert [a] + [b] == [a, b];
  }

  lemma NetworkText()
    ensures "network:" == "network" + ":" && ':' !in "network" && "network:"[0] == 'n'
  {}

  lemma VersionText()
    ensures "version: 2" == "version" + ": " + "2" && ':' !in "version" && "2"[0] == '2' && "version: 2"[0] == 'v'
    ensures "ethernets:" == "ethernets" + ":" && ':' !in "ethernets"
  {}

  lemma MapOfFirst(nodes: seq<Vdev>)
    requires nodes != [] && TextOf(nodes[0]) != "" && TextOf(nodes[0])[0] != '-'
    ensures ToYaml(nodes) == Map(Pairs(nodes))
  {}

  lemma {:induction false} FirstIface(m: Entries<Config>)
    requires m != [] && Settable(m)
    ensures IfaceNodes(m) != [] && ToYaml(IfaceNodes(m)) == Map(Pairs(IfaceNodes(m)))
  {
    FirstIs(m);
    var e := m[0];
    assert e in m;
    assert (e.0 + ":")[0] == e.0[0];
    MapOfFirst(IfaceNodes(m));
  }

  lemma {:induction false} FirstIs(m: Entries<Config>)
    requires m != []
    ensures IfaceNodes(m) != [] && IfaceNodes(m)[0] == IfaceNode(m[0].0, m[0].1)
    decreases |m|
  {
    if |m| > 1 {
      FirstIs(m[..|m| - 1]);
    } else {
      assert IfaceNodes(m[..0]) == [];
    }
  }

  // ---- what netplan reads ----

  /**
   * What netplan reads of the file of any settable interfaces with clean addresses: under network, version 2 and
   * ethernets, each interface in its order. dhcp4 is true exactly for one set so; a gateway is one route with both its
   * destination, the default, and its via; name servers are the addresses under nameservers; and there is nothing else.
   */
  lemma ContentMeans(m: Entries<Config>)
    requires Settable(m) && m != [] && forall e :: e in m && e.1.Static? ==> Clean(e.1.address)
    ensures ReadYaml(Content(m)) == Netplan(AllMean(m, AddressesOf))
  {
    forall e | e in m ensures InterfaceName(e.0) && Readable(e.1) && GatewayTold(e.1) {
      AcceptedIsReadable(e.1);
      AcceptedIsPlain(e.1);
    }
    ContentSplits(m);
    RowsJoined(BodyLines(m), [""]);
    RowsOne("");
    BodyRows(m);
    HeaderRows();
    TreeRows(m);
    assert Rows(BodyLines(m)) + [] == Rows(BodyLines(m));
    BuildLaid(Tree(m), 0);
    TreeMeans(m);
  }

  predicate GatewayTold(c: Config) { c.Static? && c.gateway.Some? ==> c.gateway.value != "" }

  // ---- exactly when each address is read as itself ----

  function OwnAddress(c: Config): seq<string> { if c.Static? then [c.address] else [] }

  lemma {:induction false} TrimAllParts(parts: seq<string>, x: string)
    requires x in TrimAll(parts)
    ensures exists i :: 0 <= i < |parts| && x == Trim(parts[i])
  {
    if x != Trim(parts[0]) {
      TrimAllParts(parts[1..], x);
      var i :| 0 <= i < |parts[1..]| && x == Trim(parts[1..][i]);
      assert x == Trim(parts[i + 1]);
    }
  }

  lemma OneAddressExactly(a: string)
    requires a != "" && !IsSpace(a[0]) && !IsSpace(a[|a| - 1])
    ensures TrimAll(Split(a, ',')) == [a] <==> ',' !in a
  {
    if ',' !in a {
      SplitNone(a, ',');
      TrimClean(a);
      assert TrimAll([]) == [] && [a][1..] == [];
    } else if TrimAll(Split(a, ',')) == [a] {
      assert a in TrimAll(Split(a, ','));
      TrimAllParts(Split(a, ','), a);
      assert false;
    }
  }

  lemma MeansSame(c: Config, a: seq<string>, b: seq<string>)
    ensures Means(c, a) == Means(c, b) <==> (c.Static? ==> a == b)
  {
    if c.Static? && Means(c, a) == Means(c, b) {
      assert Means(c, a).entries[1].1 == List(Scalars(a)) && Means(c, b).entries[1].1 == List(Scalars(b));
      ScalarsSame(a, b);
    }
  }

  lemma ScalarsSame(a: seq<string>, b: seq<string>)
    requires Scalars(a) == Scalars(b)
    ensures a == b
  {
    forall i | 0 <= i < |a| ensures a[i] == b[i] {
      assert Scalars(a)[i] == Scalar(a[i]) && Scalars(b)[i] == Scalar(b[i]);
    }
  }

  lemma {:induction false} AllMeanSame(m: Entries<Config>, f: Config -> seq<string>, g: Config -> seq<string>)
    ensures AllMean(m, f) == AllMean(m, g) <==> forall e :: e in m && e.1.Static? ==> f(e.1) == g(e.1)
    ensures |AllMean(m, f)| == |m| == |AllMean(m, g)|
    decreases |m|
  {
    if m != [] {
      var e, before := m[|m| - 1], m[..|m| - 1];
      AllMeanSame(before, f, g);
      MeansSame(e.1, f(e.1), g(e.1));
      LastSame(AllMean(before, f), (e.0, Means(e.1, f(e.1))), AllMean(before, g), (e.0, Means(e.1, g(e.1))));
      assert m == before + [e];
    }
  }

  lemma LastSame(a: seq<(string, Yaml)>, x: (string, Yaml), b: seq<(string, Yaml)>, y: (string, Yaml))
    requires |a| == |b|
    ensures a + [x] == b + [y] <==> a == b && x == y
  {
    if a + [x] == b + [y] {
      assert (a + [x])[..|a|] == a && (b + [y])[..|b|] == b && (a + [x])[|a|] == x && (b + [y])[|b|] == y;
    }
  }

  /**
   * With clean addresses netplan reads each interface's address as it was set, and all the rest as ContentMeans says,
   * exactly when there is no comma in any: what the check does not look at, behind a second slash, can hold one.
   */
  lemma ReadAsSetExactly(m: Entries<Config>)
    requires Settable(m) && m != [] && forall e :: e in m && e.1.Static? ==> Clean(e.1.address)
    ensures
      ReadYaml(Content(m)) == Netplan(AllMean(m, OwnAddress))
      <==> forall e :: e in m && e.1.Static? ==> ',' !in e.1.address
  {
    ContentMeans(m);
    AllMeanSame(m, AddressesOf, OwnAddress);
    forall e | e in m && e.1.Static? ensures AddressesOf(e.1) == OwnAddress(e.1) <==> ',' !in e.1.address {
      AcceptedIsReadable(e.1);
      OneAddressExactly(e.1.address);
    }
  }

  /** An address the agent accepts whose tail has a comma: netplan reads two. */
  lemma CommaIsAccepted(iface: string) returns (address: string)
    requires InterfaceName(iface)
    ensures
      var m := [(iface, Static(address, None, []))];
      Settable(m) && Clean(address) && ReadYaml(Content(m)) != Netplan(AllMean(m, OwnAddress))
  {
    address := CommaCidr();
    var c := Static(address, None, []);
    OneSettable(iface, c);
    CommaReadsApart([(iface, c)], iface, c);
  }

  lemma CommaReadsApart(m: Entries<Config>, iface: string, c: Config)
    requires m == [(iface, c)] && Settable(m) && c.Static? && Clean(c.address) && ',' in c.address
    ensures ReadYaml(Content(m)) != Netplan(AllMean(m, OwnAddress))
  {
    assert (iface, c) in m && forall e :: e in m ==> e == (iface, c);
    ReadAsSetExactly(m);
  }

  /** 1.1.1.1/1 with a slash, a comma and something after it. */
  lemma CommaCidr() returns (address: string)
    ensures Cidr(address) && Clean(address) && ',' in address
  {
    var accepted := AcceptedPlain();
    var tail := ",x";
    CidrIgnoresTail(accepted, tail);
    address := accepted + "/" + tail;
    CommaBehind(accepted);
  }

  lemma CommaBehind(accepted: string)
    requires forall c :: c in accepted ==> !IsLineEnd(c)
    ensures Clean(accepted + "/" + ",x") && ',' in accepted + "/" + ",x"
  {
    var address := accepted + "/" + ",x";
    assert address[|address| - 1] == 'x' && address[|address| - 2] == ',';
  }
}
