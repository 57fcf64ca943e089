/**
 * The one netplan file the agent owns: printed whole by `Content`, read back line by line by `ParseOwn`. Each interface
 * is a block of lines; the printer puts one block after another under one header, the reader keeps the interface it is
 * in and what it has read of it so far. A block is shown to add exactly the interface it was printed from, wherever it
 * stands, so the whole file is read back as it was set; which addresses break that is found out too.
 */
module NetworkFile {
  import opened Text
  import opened OrderedMap

  datatype Config = Dhcp | Static(address: string, gateway: Option<string>, dns: seq<string>)

  // ---- what network.set accepts ----

  predicate Digits(s: string) { forall c :: c in s ==> IsDigit(c) }

  function Value(s: string): nat
    requires Digits(s)
  {
    if s == "" then 0
    else
      var d := s[|s| - 1];
      assert IsDigit(d) && forall c :: c in s[..|s| - 1] ==> c in s;
      10 * Value(s[..|s| - 1]) + (d as int - '0' as int)
  }

  predicate Octet(s: string) { 1 <= |s| <= 3 && Digits(s) && Value(s) <= 255 }

  predicate Ipv4(s: string) {
    var p := Split(s, '.');
    |p| == 4 && Octet(p[0]) && Octet(p[1]) && Octet(p[2]) && Octet(p[3])
  }

  /** An address with a prefix, as the agent checks it: whatever follows a second slash is not looked at. */
  predicate Cidr(s: string) {
    var p := Split(s, '/');
    |p| >= 2 && Ipv4(p[0]) && 1 <= |p[1]| <= 2 && Digits(p[1]) && 1 <= Value(p[1]) <= 32
  }

  predicate LowerOrDigit(c: char) { 'a' <= c <= 'z' || IsDigit(c) }
  predicate NameChar(c: char) { LowerOrDigit(c) || c == '.' || c == '-' }

  predicate InterfaceName(s: string) {
    1 <= |s| <= 15 && 'a' <= s[0] <= 'z' && forall c :: c in s ==> NameChar(c)
  }

  predicate Accepted(c: Config) {
    c.Static? ==>
      && Cidr(c.address)
      && (c.gateway.Some? ==> Ipv4(c.gateway.value))
      && |c.dns| <= 3 && forall d :: d in c.dns ==> Ipv4(d)
  }

  ghost predicate Settable(m: Entries<Config>) {
    DistinctKeys(m) && forall e :: e in m ==> InterfaceName(e.0) && Accepted(e.1)
  }

  // ---- printing ----

  function Place(): string { " Change it on the Storage \U{2192} Network page," }

  function Title(): string { "# Written by mk-nasd." + Place() + " not here." }

  function Header(): seq<string> { [Title(), "network:", "  version: 2", "  ethernets:"] }

  function JoinComma(dns: seq<string>): string {
    if |dns| == 0 then "" else if |dns| == 1 then dns[0] else dns[0] + ", " + JoinComma(dns[1..])
  }

  function GatewayLines(gateway: Option<string>): seq<string> {
    if gateway.Some? && gateway.value != ""
    then ["      routes:", "        - to: default", "          via: " + gateway.value] else []
  }

  function DnsLines(dns: seq<string>): seq<string> {
    if dns != [] then ["      nameservers:", "        addresses: [" + JoinComma(dns) + "]"] else []
  }

  /** The lines under an interface's name. */
  function Fields(c: Config): seq<string> {
    match c
    case Dhcp => ["      dhcp4: true"]
    case Static(address, gateway, dns) =>
      ["      dhcp4: false", "      addresses: [" + address + "]"] + GatewayLines(gateway) + DnsLines(dns)
  }

  function Block(iface: string, c: Config): seq<string> {
    ["    " + iface + ":"] + Fields(c)
  }

  function Render(iface: string, c: Config): string {
    Join(Header() + Block(iface, c), '\n') + "\n"
  }

  /** A rendered interface from its fifth line on. */
  function WithoutHeader(text: string): string {
    var lines := Split(text, '\n');
    Join(lines[if |lines| < 4 then |lines| else 4..], '\n') + "\n"
  }

  /** The first interface's text whole, and after it each other one's without the header. */
  function Content(m: Entries<Config>): string {
    if m == [] then ""
    else if |m| == 1 then Render(m[0].0, m[0].1)
    else Content(m[..|m| - 1]) + WithoutHeader(Render(m[|m| - 1].0, m[|m| - 1].1))
  }

  // ---- reading ----

  function NameRun(s: string): (r: string)
    ensures r <= s && forall c :: c in r ==> NameChar(c)
    ensures |r| < |s| ==> !NameChar(s[|r|])
  {
    if s == "" || !NameChar(s[0]) then "" else [s[0]] + NameRun(s[1..])
  }

  /** /^    ([a-z][a-z0-9.-]*):\s*$/ */
  function InterfaceLine(line: string): Option<string> {
    if !StartsWith(line, "    ") then None
    else
      var name := NameRun(line[4..]);
      var rest := line[4 + |name|..];
      if name != "" && 'a' <= name[0] <= 'z' && rest != "" && rest[0] == ':' && TrimStart(rest[1..]) == ""
      then Some(name) else None
  }

  /** The part of s that `.*` can reach. */
  function DotRun(s: string): (r: string)
    ensures r <= s && forall c :: c in r ==> !IsLineEnd(c)
  {
    if s == "" || IsLineEnd(s[0]) then "" else [s[0]] + DotRun(s[1..])
  }

  function BeforeLast(s: string, c: char): (r: Option<string>)
    ensures r.Some? ==> r.value <= s
  {
    if s == "" then None
    else if s[|s| - 1] == c then Some(s[..|s| - 1])
    else BeforeLast(s[..|s| - 1], c)
  }

  /** /^<prefix>\[(.*)\]/ */
  function Bracketed(line: string, prefix: string): (r: Option<string>)
    ensures r.Some? ==> forall c :: c in r.value ==> !IsLineEnd(c)
  {
    if StartsWith(line, prefix + "[") then
      var run := DotRun(line[|prefix| + 1..]);
      var inside := BeforeLast(run, ']');
      assert inside.Some? ==> forall c :: c in inside.value ==> c in run;
      inside
    else None
  }

  function Word(s: string): string {
    if s == "" || IsSpace(s[0]) then "" else [s[0]] + Word(s[1..])
  }

  /** /^          via: (\S+)/ */
  function ViaLine(line: string): Option<string> {
    var prefix := "          via: ";
    if StartsWith(line, prefix) && Word(line[|prefix|..]) != "" then Some(Word(line[|prefix|..])) else None
  }

  function DhcpLine(line: string): Option<bool> {
    if StartsWith(line, "      dhcp4: true") then Some(true)
    else if StartsWith(line, "      dhcp4: false") then Some(false)
    else None
  }

  function TrimAll(parts: seq<string>): seq<string> {
    if parts == [] then []
    else
      var t := Trim(parts[0]);
      (if t == "" then [] else [t]) + TrimAll(parts[1..])
  }

  /** An interface as far as it has been read. */
  datatype Draft = Draft(dhcp: bool, address: string, gateway: Option<string>, dns: seq<string>)
  const BLANK := Draft(false, "", None, [])

  datatype Reading = Reading(found: Entries<Draft>, name: Option<string>)

  /** A line inside an interface. */
  function ReadField(d: Draft, line: string): Draft {
    if DhcpLine(line).Some? then d.(dhcp := DhcpLine(line).value)
    else if Bracketed(line, "      addresses: ").Some?
    then d.(address := Trim(Bracketed(line, "      addresses: ").value))
    else if ViaLine(line).Some? then d.(gateway := ViaLine(line))
    else if Bracketed(line, "        addresses: ").Some? then
      d.(dns := TrimAll(Split(Bracketed(line, "        addresses: ").value, ',')))
    else d
  }

  function Current(r: Reading): Draft {
    if r.name.Some? && Get(r.found, r.name.value).Some? then Get(r.found, r.name.value).value else BLANK
  }

  function ReadLine(r: Reading, line: string): Reading {
    match InterfaceLine(line)
    case Some(name) => Reading(Put(r.found, name, BLANK), Some(name))
    case None =>
      if r.name.None? then r else r.(found := Put(r.found, r.name.value, ReadField(Current(r), line)))
  }

  function ReadLines(r: Reading, lines: seq<string>): Reading
    decreases |lines|
  {
    if lines == [] then r else ReadLines(ReadLine(r, lines[0]), lines[1..])
  }

  function Finish(d: Draft): Config {
    if d.dhcp then Dhcp else Static(d.address, d.gateway, d.dns)
  }

  function FinishAll(m: Entries<Draft>): (r: Entries<Config>)
    ensures |r| == |m| && forall i :: 0 <= i < |m| ==> r[i] == (m[i].0, Finish(m[i].1))
  {
    seq(|m|, i requires 0 <= i < |m| => (m[i].0, Finish(m[i].1)))
  }

  function Parsed(text: string): Entries<Config> {
    FinishAll(ReadLines(Reading([], None), Split(text, '\n')).found)
  }

  /** The reading loop: the map, the interface being read, line after line. */
  method ParseOwn(text: Option<string>) returns (out: Entries<Config>)
    ensures out == if text.None? then [] else Parsed(text.value)
  {
    if text.None? {
      return [];
    }
    var lines := Split(text.value, '\n');
    var found: Entries<Draft>, name: Option<string> := [], None;
    for i := 0 to |lines|
      invariant ReadLines(Reading(found, name), lines[i..]) == ReadLines(Reading([], None), lines)
    {
      var line := lines[i];
      assert lines[i..][0] == line && lines[i..][1..] == lines[i + 1..];
      var iface := InterfaceLine(line);
      if iface.Some? {
        name := iface;
        found := Put(found, iface.value, BLANK);
      } else if name.Some? {
        found := Put(found, name.value, ReadField(Current(Reading(found, name)), line));
      }
    }
    out := FinishAll(found);
  }

  // ---- what one line reads as ----

  lemma NotPrefix(s: string, p: string, i: nat)
    requires i < |p| && (i >= |s| || s[i] != p[i])
    ensures !StartsWith(s, p)
  {}

  lemma {:induction false} NameRunStops(name: string, rest: string)
    requires forall c :: c in name ==> NameChar(c)
    requires rest == "" || !NameChar(rest[0])
    ensures NameRun(name + rest) == name
  {
    if name == "" {
      assert name + rest == rest;
    } else {
      assert (name + rest)[1..] == name[1..] + rest;
      assert forall c :: c in name[1..] ==> c in name;
      NameRunStops(name[1..], rest);
    }
  }

  lemma ReadsInterface(iface: string)
    requires InterfaceName(iface)
    ensures InterfaceLine("    " + iface + ":") == Some(iface)
  {
    var line := "    " + iface + ":";
    assert line[4..] == iface + ":" && line[4 + |iface|..] == ":";
    NameRunStops(iface, ":");
  }

  /** A line indented past an interface's is not one. */
  lemma DeepIsNoInterface(line: string)
    requires |line| <= 4 || line[4] == ' '
    ensures InterfaceLine(line) == None
  {}

  lemma {:induction false} DotRunAll(s: string)
    requires forall c :: c in s ==> !IsLineEnd(c)
    ensures DotRun(s) == s
  {
    if s != "" {
      assert forall c :: c in s[1..] ==> c in s;
      DotRunAll(s[1..]);
    }
  }

  lemma ReadsBracketed(prefix: string, inside: string)
    requires forall c :: c in inside ==> !IsLineEnd(c)
    ensures Bracketed(prefix + "[" + inside + "]", prefix) == Some(inside)
  {
    var line := prefix + "[" + inside + "]";
    assert line[..|prefix| + 1] == prefix + "[";
    assert line[|prefix| + 1..] == inside + "]";
    DotRunAll(inside + "]");
  }

  lemma {:induction false} WordAll(s: string)
    requires forall c :: c in s ==> !IsSpace(c)
    ensures Word(s) == s
  {
    if s != "" {
      assert forall c :: c in s[1..] ==> c in s;
      WordAll(s[1..]);
    }
  }

  lemma ReadsVia(gateway: string)
    requires gateway != "" && forall c :: c in gateway ==> !IsSpace(c)
    ensures ViaLine("          via: " + gateway) == Some(gateway)
  {
    assert ("          via: " + gateway)[15..] == gateway;
    WordAll(gateway);
  }

  /** The characters an address of a name server or a gateway is made of. */
  predicate Plain(s: string) { s != "" && forall c :: c in s ==> !IsSpace(c) && c != ',' }

  lemma {:induction false} TrimAllConcat(a: seq<string>, b: seq<string>)
    ensures TrimAll(a + b) == TrimAll(a) + TrimAll(b)
  {
    if a == [] {
      assert a + b == b;
    } else {
      assert (a + b)[1..] == a[1..] + b;
      TrimAllConcat(a[1..], b);
    }
  }

  lemma TrimIndented(d: string, indent: string)
    requires Plain(d) && (indent == "" || indent == " ")
    ensures Trim(indent + d) == d
  {
    assert d[0] in d && d[|d| - 1] in d;
    TrimClean(d);
    if indent == "" {
      assert indent + d == d;
    } else {
      assert (indent + d)[1..] == d;
    }
  }

  lemma OneServer(d: string, indent: string)
    requires Plain(d) && (indent == "" || indent == " ")
    ensures Split(indent + d, ',') == [indent + d] && TrimAll([indent + d]) == [d]
  {
    TrimIndented(d, indent);
    SplitNone(indent + d, ',');
    assert [indent + d][1..] == [];
  }

  lemma ServerFirst(d: string, indent: string, text: string, rest: seq<string>)
    requires Plain(d) && (indent == "" || indent == " ") && TrimAll(Split(text, ',')) == rest
    ensures TrimAll(Split((indent + d) + "," + text, ',')) == [d] + rest
  {
    OneServer(d, indent);
    SplitAppend(indent + d, text, ',');
    TrimAllConcat([indent + d], Split(text, ','));
  }

  lemma JoinCommaFirst(dns: seq<string>, indent: string)
    requires |dns| > 1
    ensures indent + JoinComma(dns) == (indent + dns[0]) + "," + (" " + JoinComma(dns[1..]))
  {}

  /** The list of name servers, as it is joined and as it is split and trimmed. */
  lemma {:induction false} DnsReads(dns: seq<string>, indent: string)
    requires dns != [] && forall d :: d in dns ==> Plain(d)
    requires indent == "" || indent == " "
    ensures TrimAll(Split(indent + JoinComma(dns), ',')) == dns
    decreases |dns|
  {
    if |dns| == 1 {
      OneServer(dns[0], indent);
      assert dns == [dns[0]];
    } else {
      DnsReads(dns[1..], " ");
      ServerFirst(dns[0], indent, " " + JoinComma(dns[1..]), dns[1..]);
      assert dns == [dns[0]] + dns[1..];
      JoinCommaFirst(dns, indent);
    }
  }

  // ---- what one interface reads as ----

  lemma FieldDhcp(d: Draft)
    ensures ReadField(d, "      dhcp4: true") == d.(dhcp := true)
    ensures ReadField(d, "      dhcp4: false") == d.(dhcp := false)
  {
    NotPrefix("      dhcp4: false", "      dhcp4: true", 13);
  }

  lemma FieldAddress(d: Draft, address: string)
    requires address != "" && !IsSpace(address[0]) && Clean(address)
    ensures ReadField(d, "      addresses: [" + address + "]") == d.(address := address)
  {
    var line := "      addresses: [" + address + "]";
    NotPrefix(line, "      dhcp4: true", 6);
    NotPrefix(line, "      dhcp4: false", 6);
    assert line == "      addresses: " + "[" + address + "]";
    ReadsBracketed("      addresses: ", address);
    TrimClean(address);
  }

  /** A line none of the fields matches at its place of difference leaves the draft as it is. */
  lemma FieldOther(d: Draft, line: string)
    requires line == "      routes:" || line == "        - to: default" || line == "      nameservers:"
    ensures ReadField(d, line) == d
  {
    NotPrefix(line, "      dhcp4: true", 6);
    NotPrefix(line, "      dhcp4: false", 6);
    NotPrefix(line, "      addresses: [", 6);
    NotPrefix(line, "          via: ", 8);
    NotPrefix(line, "        addresses: [", if line == "        - to: default" then 8 else 6);
  }

  lemma FieldVia(d: Draft, gateway: string)
    requires gateway != "" && forall c :: c in gateway ==> !IsSpace(c)
    ensures ReadField(d, "          via: " + gateway) == d.(gateway := Some(gateway))
  {
    var line := "          via: " + gateway;
    NotPrefix(line, "      dhcp4: true", 6);
    NotPrefix(line, "      dhcp4: false", 6);
    NotPrefix(line, "      addresses: [", 6);
    ReadsVia(gateway);
  }

  lemma FieldDns(d: Draft, dns: seq<string>)
    requires dns != [] && forall x :: x in dns ==> Plain(x)
    ensures ReadField(d, "        addresses: [" + JoinComma(dns) + "]") == d.(dns := dns)
  {
    var line := "        addresses: [" + JoinComma(dns) + "]";
    NotPrefix(line, "      dhcp4: true", 6);
    NotPrefix(line, "      dhcp4: false", 6);
    NotPrefix(line, "      addresses: [", 6);
    NotPrefix(line, "          via: ", 8);
    assert line == "        addresses: " + "[" + JoinComma(dns) + "]";
    JoinCommaChars(dns);
    ReadsBracketed("        addresses: ", JoinComma(dns));
    DnsReads(dns, "");
    assert "" + JoinComma(dns) == JoinComma(dns);
  }

  lemma {:induction false} JoinCommaChars(dns: seq<string>)
    requires forall d :: d in dns ==> Plain(d)
    ensures forall c :: c in JoinComma(dns) ==> !IsLineEnd(c)
  {
    if dns != [] {
      assert dns[0] in dns;
      if |dns| > 1 {
        JoinCommaChars(dns[1..]);
      }
    }
  }

  function ReadFields(d: Draft, lines: seq<string>): Draft
    decreases |lines|
  {
    if lines == [] then d else ReadFields(ReadField(d, lines[0]), lines[1..])
  }

  lemma {:induction false} ReadFieldsConcat(d: Draft, a: seq<string>, b: seq<string>)
    ensures ReadFields(d, a + b) == ReadFields(ReadFields(d, a), b)
    decreases |a|
  {
    if a == [] {
      assert a + b == b;
    } else {
      assert (a + b)[1..] == a[1..] + b;
      ReadFieldsConcat(ReadField(d, a[0]), a[1..], b);
    }
  }

  lemma ReadTwo(d: Draft, a: string, b: string)
    ensures ReadFields(d, [a, b]) == ReadField(ReadField(d, a), b)
  {
    assert [a, b][1..] == [b] && [b][1..] == [];
    assert ReadFields(ReadField(d, a), [b]) == ReadField(ReadField(d, a), b);
  }

  lemma FieldGateway(d: Draft, gateway: Option<string>)
    requires d.gateway == None && (gateway.Some? ==> Plain(gateway.value))
    ensures ReadFields(d, GatewayLines(gateway)) == d.(gateway := gateway)
  {
    if gateway.Some? {
      FieldOther(d, "      routes:");
      FieldOther(d, "        - to: default");
      FieldVia(d, gateway.value);
      var via := "          via: " + gateway.value;
      assert GatewayLines(gateway) == ["      routes:", "        - to: default"] + [via];
      ReadFieldsConcat(d, ["      routes:", "        - to: default"], [via]);
      ReadTwo(d, "      routes:", "        - to: default");
      assert [via][1..] == [];
    }
  }

  lemma FieldServers(d: Draft, dns: seq<string>)
    requires d.dns == [] && forall x :: x in dns ==> Plain(x)
    ensures ReadFields(d, DnsLines(dns)) == d.(dns := dns)
  {
    if dns != [] {
      FieldOther(d, "      nameservers:");
      FieldDns(d, dns);
      ReadTwo(d, "      nameservers:", "        addresses: [" + JoinComma(dns) + "]");
    }
  }

  /** An address that reads back: nothing in it ends a line, and nothing at its end is trimmed away. */
  predicate Clean(address: string) {
    address != "" && !IsSpace(address[|address| - 1]) && forall c :: c in address ==> !IsLineEnd(c)
  }

  predicate Readable(c: Config) {
    c.Static? ==>
      && Clean(c.address) && !IsSpace(c.address[0])
      && (c.gateway.Some? ==> Plain(c.gateway.value))
      && forall d :: d in c.dns ==> Plain(d)
  }

  lemma FieldsRead(c: Config)
    requires Readable(c)
    ensures Finish(ReadFields(BLANK, Fields(c))) == c
  {
    match c
    case Dhcp =>
      FieldDhcp(BLANK);
      assert ["      dhcp4: true"][1..] == [];
    case Static(address, gateway, dns) =>
      var two := ["      dhcp4: false", "      addresses: [" + address + "]"];
      FieldDhcp(BLANK);
      FieldAddress(BLANK, address);
      ReadTwo(BLANK, two[0], two[1]);
      var d := BLANK.(address := address);
      ReadFieldsConcat(BLANK, two + GatewayLines(gateway), DnsLines(dns));
      ReadFieldsConcat(BLANK, two, GatewayLines(gateway));
      FieldGateway(d, gateway);
      FieldServers(d.(gateway := gateway), dns);
  }

  lemma FieldsAreNoInterfaces(c: Config)
    ensures forall l :: l in Fields(c) ==> InterfaceLine(l) == None
  {
    forall l | l in Fields(c) ensures InterfaceLine(l) == None {
      DeepIsNoInterface(l);
    }
  }

  // ---- the whole text ----

  lemma {:induction false} ReadConcat(r: Reading, a: seq<string>, b: seq<string>)
    ensures ReadLines(r, a + b) == ReadLines(ReadLines(r, a), b)
    decreases |a|
  {
    if a == [] {
      assert a + b == b;
    } else {
      assert (a + b)[1..] == a[1..] + b;
      ReadConcat(ReadLine(r, a[0]), a[1..], b);
    }
  }

  lemma {:induction false} ReadUnder(found: Entries<Draft>, iface: string, d: Draft, lines: seq<string>)
    requires !HasKey(found, iface) && forall l :: l in lines ==> InterfaceLine(l) == None
    ensures ReadLines(Reading(found + [(iface, d)], Some(iface)), lines)
         == Reading(found + [(iface, ReadFields(d, lines))], Some(iface))
    decreases |lines|
  {
    if lines != [] {
      LastEntry(found, iface, d, ReadField(d, lines[0]));
      ReadUnder(found, iface, ReadField(d, lines[0]), lines[1..]);
    }
  }

  /** An interface's block adds exactly it, as it was, after what was read before. */
  lemma BlockReads(r: Reading, iface: string, c: Config)
    requires InterfaceName(iface) && Readable(c) && !HasKey(r.found, iface)
    ensures
      var t := ReadLines(r, Block(iface, c));
      && FinishAll(t.found) == FinishAll(r.found) + [(iface, c)]
      && InInterface(t)
  {
    var line := "    " + iface + ":";
    ReadsInterface(iface);
    PutNew(r.found, iface, BLANK);
    FieldsAreNoInterfaces(c);
    ReadUnder(r.found, iface, BLANK, Fields(c));
    FieldsRead(c);
    assert Block(iface, c)[1..] == Fields(c);
    var d := ReadFields(BLANK, Fields(c));
    LastEntry(r.found, iface, d, d);
    FinishOneMore(r.found, (iface, d));
  }

  lemma FinishOneMore(found: Entries<Draft>, e: (string, Draft))
    ensures FinishAll(found + [e]) == FinishAll(found) + [(e.0, Finish(e.1))]
  {}

  predicate InInterface(r: Reading) { r.name.Some? && Get(r.found, r.name.value).Some? }

  lemma BlankReads(r: Reading)
    requires InInterface(r)
    ensures ReadLines(r, [""]) == r
  {
    assert ReadField(Current(r), "") == Current(r);
    PutSame(r.found, r.name.value, Current(r));
    assert [""][1..] == [];
  }

  /** The text's lines but for the empty one after the last line end. */
  function BodyLines(m: Entries<Config>): seq<string>
    requires m != []
  {
    if |m| == 1 then Header() + Block(m[0].0, m[0].1)
    else BodyLines(m[..|m| - 1]) + (Block(m[|m| - 1].0, m[|m| - 1].1) + [""])
  }

  ghost predicate AllReadable(m: Entries<Config>) {
    DistinctKeys(m) && forall e :: e in m ==> InterfaceName(e.0) && Readable(e.1)
  }

  lemma HeaderOneLine()
    ensures OneLiners(Header())
  {
    TitleOneLine();
    assert OneLine(Header()[1]) && OneLine(Header()[2]) && OneLine(Header()[3]);
  }

  lemma TitleOneLine()
    ensures OneLine(Title())
  {
    assert OneLine("# Written by mk-nasd.");
    PlaceOneLine();
    assert OneLine(" not here.");
    OneLineConcat("# Written by mk-nasd.", Place());
    OneLineConcat("# Written by mk-nasd." + Place(), " not here.");
  }

  lemma PlaceOneLine()
    ensures OneLine(Place())
  {
  }

  lemma OneLineConcat(a: string, b: string)
    requires OneLine(a) && OneLine(b)
    ensures OneLine(a + b)
  {}

  lemma BlockOneLine(iface: string, c: Config)
    requires InterfaceName(iface) && Readable(c)
    ensures OneLiners(Block(iface, c))
  {
    assert OneLine(iface) && OneLine("    ") && OneLine(":");
    OneLineConcat("    ", iface);
    OneLineConcat("    " + iface, ":");
    FieldsOneLine(c);
  }

  lemma FieldsOneLine(c: Config)
    requires Readable(c)
    ensures OneLiners(Fields(c))
  {
    match c
    case Dhcp => assert OneLine("      dhcp4: true");
    case Static(address, gateway, dns) =>
      assert OneLine("      dhcp4: false") && OneLine("]");
      assert OneLine("      addresses: [");
      OneLineConcat("      addresses: [", address);
      OneLineConcat("      addresses: [" + address, "]");
      GatewayOneLine(gateway);
      DnsOneLine(dns);
  }

  lemma GatewayOneLine(gateway: Option<string>)
    requires gateway.Some? ==> Plain(gateway.value)
    ensures OneLiners(GatewayLines(gateway))
  {
    assert OneLine("      routes:");
    assert OneLine("        - to: default");
    assert OneLine("          via: ");
    if gateway.Some? {
      OneLineConcat("          via: ", gateway.value);
    }
  }

  lemma DnsOneLine(dns: seq<string>)
    requires forall d :: d in dns ==> Plain(d)
    ensures OneLiners(DnsLines(dns))
  {
    assert OneLine("      nameservers:");
    assert OneLine("        addresses: [") && OneLine("]");
    JoinCommaChars(dns);
    OneLineConcat("        addresses: [", JoinComma(dns));
    OneLineConcat("        addresses: [" + JoinComma(dns), "]");
  }

  lemma RenderSplits(iface: string, c: Config)
    requires InterfaceName(iface) && Readable(c)
    ensures Split(Render(iface, c), '\n') == Header() + Block(iface, c) + [""]
  {
    var lines := Header() + Block(iface, c);
    HeaderOneLine();
    BlockOneLine(iface, c);
    SplitEnded(lines);
  }

  lemma {:induction false} BodyOneLine(m: Entries<Config>)
    requires m != [] && forall e :: e in m ==> InterfaceName(e.0) && Readable(e.1)
    ensures BodyLines(m) != [] && OneLiners(BodyLines(m))
  {
    var e := m[|m| - 1];
    assert e in m;
    HeaderOneLine();
    BlockOneLine(e.0, e.1);
    if |m| > 1 {
      BodyOneLine(m[..|m| - 1]);
    }
  }

  lemma RestLines(iface: string, c: Config)
    requires InterfaceName(iface) && Readable(c)
    ensures WithoutHeader(Render(iface, c)) == Join(Block(iface, c) + [""], '\n') + "\n"
  {
    RenderSplits(iface, c);
    DropFirst(Header(), Block(iface, c), [""]);
  }

  lemma DropFirst(a: seq<string>, b: seq<string>, c: seq<string>)
    ensures (a + b + c)[|a|..] == b + c
  {}

  lemma {:induction false} ContentLines(m: Entries<Config>)
    requires m != [] && forall e :: e in m ==> InterfaceName(e.0) && Readable(e.1)
    ensures Content(m) == Join(BodyLines(m), '\n') + "\n" && BodyLines(m) != []
  {
    if |m| > 1 {
      var e, before := m[|m| - 1], m[..|m| - 1];
      assert e in m;
      ContentLines(before);
      RestLines(e.0, e.1);
      JoinEnded(BodyLines(before), Block(e.0, e.1) + [""]);
    }
  }

  lemma JoinEnded(a: seq<string>, b: seq<string>)
    requires a != [] && b != []
    ensures Join(a, '\n') + "\n" + (Join(b, '\n') + "\n") == Join(a + b, '\n') + "\n"
  {
    JoinAppend(a, b, '\n');
  }

  lemma ContentSplits(m: Entries<Config>)
    requires m != [] && forall e :: e in m ==> InterfaceName(e.0) && Readable(e.1)
    ensures Split(Content(m), '\n') == BodyLines(m) + [""]
  {
    ContentLines(m);
    BodyOneLine(m);
    SplitEnded(BodyLines(m));
  }

  lemma {:induction false} SkipsOutside(r: Reading, lines: seq<string>)
    requires r.name == None && forall l :: l in lines ==> InterfaceLine(l) == None
    ensures ReadLines(r, lines) == r
    decreases |lines|
  {
    if lines != [] {
      SkipsOutside(r, lines[1..]);
    }
  }

  lemma HeaderReads(r: Reading)
    requires r.name == None
    ensures ReadLines(r, Header()) == r
  {
    NotPrefix(Header()[0], "    ", 0);
    NotPrefix(Header()[1], "    ", 0);
    NotPrefix(Header()[2], "    ", 2);
    NotPrefix(Header()[3], "    ", 2);
    SkipsOutside(r, Header());
  }

  lemma BodyGrows(t: Reading, before: Entries<Config>, iface: string, c: Config)
    requires FinishAll(t.found) == before && InterfaceName(iface) && Readable(c) && !HasKey(before, iface)
    ensures
      var u := ReadLines(t, Block(iface, c) + [""]);
      FinishAll(u.found) == before + [(iface, c)] && InInterface(u)
  {
    assert forall i :: 0 <= i < |t.found| ==> before[i].0 == t.found[i].0;
    BlockReads(t, iface, c);
    ReadConcat(t, Block(iface, c), [""]);
    BlankReads(ReadLines(t, Block(iface, c)));
  }

  lemma {:induction false} BodyReads(m: Entries<Config>)
    requires m != [] && AllReadable(m)
    ensures
      var t := ReadLines(Reading([], None), BodyLines(m));
      FinishAll(t.found) == m && InInterface(t)
  {
    var e := m[|m| - 1];
    assert e in m;
    if |m| == 1 {
      FirstReads(e.0, e.1);
    } else {
      var before := m[..|m| - 1];
      ReadableFront(m);
      BodyReads(before);
      BodyGoesOn(BodyLines(before), before, e.0, e.1);
    }
  }

  lemma ReadableFront(m: Entries<Config>)
    requires |m| > 1 && AllReadable(m)
    ensures
      var before, e := m[..|m| - 1], m[|m| - 1];
      AllReadable(before) && InterfaceName(e.0) && Readable(e.1) && !HasKey(before, e.0) && m == before + [e]
  {
    assert m[|m| - 1] in m;
  }

  lemma BodyGoesOn(lines: seq<string>, before: Entries<Config>, iface: string, c: Config)
    requires FinishAll(ReadLines(Reading([], None), lines).found) == before
    requires InterfaceName(iface) && Readable(c) && !HasKey(before, iface)
    ensures
      var t := ReadLines(Reading([], None), lines + (Block(iface, c) + [""]));
      FinishAll(t.found) == before + [(iface, c)] && InInterface(t)
  {
    BodyGrows(ReadLines(Reading([], None), lines), before, iface, c);
    ReadConcat(Reading([], None), lines, Block(iface, c) + [""]);
  }

  lemma FirstReads(iface: string, c: Config)
    requires InterfaceName(iface) && Readable(c)
    ensures
      var t := ReadLines(Reading([], None), Header() + Block(iface, c));
      FinishAll(t.found) == [(iface, c)] && InInterface(t)
  {
    var start := Reading([], None);
    HeaderReads(start);
    ReadConcat(start, Header(), Block(iface, c));
    BlockReads(start, iface, c);
    assert FinishAll([]) == [] && [] + [(iface, c)] == [(iface, c)];
  }

  /** Readable configurations come back as they were, in the same order. */
  lemma ReadableComesBack(m: Entries<Config>)
    requires AllReadable(m)
    ensures Parsed(Content(m)) == m
  {
    if m == [] {
      assert Split("", '\n') == [""] && [""][1..] == [];
    } else {
      ContentSplits(m);
      BodyReads(m);
      ReadConcat(Reading([], None), BodyLines(m), [""]);
      BlankReads(ReadLines(Reading([], None), BodyLines(m)));
    }
  }

  // ---- exactly what comes back ----

  lemma {:induction false} JoinChars(lines: seq<string>, sep: char, c: char)
    requires c in Join(lines, sep)
    ensures c == sep || exists i :: 0 <= i < |lines| && c in lines[i]
  {
    if |lines| > 1 && c !in lines[0] && c != sep {
      JoinChars(lines[1..], sep, c);
      var i :| 0 <= i < |lines[1..]| && c in lines[1..][i];
      assert c in lines[i + 1];
    }
  }

  lemma Ipv4IsPlain(s: string)
    requires Ipv4(s)
    ensures Plain(s) && IsDigit(s[0]) && forall c :: c in s ==> IsDigit(c) || c == '.'
  {
    var p := Split(s, '.');
    forall c | c in s ensures IsDigit(c) || c == '.' {
      JoinChars(p, '.', c);
    }
    assert s[0] == p[0][0] && p[0][0] in p[0];
  }

  lemma AcceptedIsReadable(c: Config)
    requires Accepted(c)
    ensures Readable(c) <==> (c.Static? ==> Clean(c.address))
    ensures c.Static? ==> c.address != ""
  {
    if c.Static? {
      var p := Split(c.address, '/');
      Ipv4IsPlain(p[0]);
      assert c.address[0] == p[0][0];
      if c.gateway.Some? {
        Ipv4IsPlain(c.gateway.value);
      }
      forall d | d in c.dns ensures Plain(d) {
        Ipv4IsPlain(d);
      }
    }
  }

  ghost predicate AddressesClean(m: Entries<Draft>) { forall e :: e in m ==> CleanOrNone(e.1) }

  /** Whatever the text, an address it reads as is empty or clean. */
  lemma {:induction false} ReadsCleanAddresses(r: Reading, lines: seq<string>)
    requires AddressesClean(r.found)
    ensures AddressesClean(ReadLines(r, lines).found)
    decreases |lines|
  {
    if lines != [] {
      LineKeepsClean(r, lines[0]);
      ReadsCleanAddresses(ReadLine(r, lines[0]), lines[1..]);
    }
  }

  predicate CleanOrNone(d: Draft) { d.address == "" || Clean(d.address) }

  lemma FieldKeepsClean(d: Draft, line: string)
    requires CleanOrNone(d)
    ensures CleanOrNone(ReadField(d, line))
  {
    var address := Bracketed(line, "      addresses: ");
    if address.Some? {
      TrimmedIsClean(address.value);
    }
  }

  lemma TrimmedIsClean(s: string)
    requires forall c :: c in s ==> !IsLineEnd(c)
    ensures Trim(s) == "" || Clean(Trim(s))
  {
  }

  lemma PutKeepsClean(m: Entries<Draft>, k: string, d: Draft)
    requires AddressesClean(m) && CleanOrNone(d)
    ensures AddressesClean(Put(m, k, d))
  {
    PutEntries(m, k, d);
  }

  lemma LineKeepsClean(r: Reading, line: string)
    requires AddressesClean(r.found)
    ensures AddressesClean(ReadLine(r, line).found)
  {
    if InterfaceLine(line).Some? {
      PutKeepsClean(r.found, InterfaceLine(line).value, BLANK);
    } else if r.name.Some? {
      GetEntry(r.found, r.name.value);
      FieldKeepsClean(Current(r), line);
      PutKeepsClean(r.found, r.name.value, ReadField(Current(r), line));
    }
  }

  lemma ComesBackOnlyClean(m: Entries<Config>)
    requires Settable(m) && Parsed(Content(m)) == m
    ensures forall e :: e in m && e.1.Static? ==> Clean(e.1.address)
  {
    var found := ReadLines(Reading([], None), Split(Content(m), '\n')).found;
    ReadsCleanAddresses(Reading([], None), Split(Content(m), '\n'));
    FinishedIsClean(found, m);
  }

  lemma FinishedIsClean(found: Entries<Draft>, m: Entries<Config>)
    requires AddressesClean(found) && FinishAll(found) == m && forall e :: e in m ==> Accepted(e.1)
    ensures forall e :: e in m && e.1.Static? ==> Clean(e.1.address)
  {
    forall e | e in m && e.1.Static? ensures Clean(e.1.address) {
      var i :| 0 <= i < |m| && m[i] == e;
      assert found[i] in found;
      CleanWhenFinished(found[i].1, e.1);
    }
  }

  lemma CleanWhenFinished(d: Draft, c: Config)
    requires CleanOrNone(d) && Finish(d) == c && Accepted(c) && c.Static?
    ensures Clean(c.address)
  {
    AcceptedIsReadable(c);
  }

  /**
   * Of all the configurations network.set accepts, exactly those are read back as they were, all interfaces in their
   * order, whose addresses are clean. The check of an address does not look past a second slash, so an unclean one can
   * be accepted.
   */
  lemma ComesBackExactlyWhenClean(m: Entries<Config>)
    requires Settable(m)
    ensures Parsed(Content(m)) == m <==> forall e :: e in m && e.1.Static? ==> Clean(e.1.address)
  {
    if Parsed(Content(m)) == m {
      ComesBackOnlyClean(m);
    }
    if forall e :: e in m && e.1.Static? ==> Clean(e.1.address) {
      forall e | e in m ensures Readable(e.1) {
        AcceptedIsReadable(e.1);
      }
      ReadableComesBack(m);
    }
  }

  /** Setting one interface in the agent's file: it is read back as set, and every other one as it was. */
  lemma SettingOneKeepsTheOthers(m: Entries<Config>, iface: string, c: Config, other: string)
    requires Settable(m) && InterfaceName(iface) && Accepted(c)
    requires forall e :: e in m && e.1.Static? ==> Clean(e.1.address)
    requires c.Static? ==> Clean(c.address)
    ensures
      var before := Parsed(Content(m));
      var after := Parsed(Content(Put(before, iface, c)));
      && after == Put(m, iface, c)
      && Get(after, iface) == Some(c)
      && (other != iface ==> Get(after, other) == Get(m, other))
  {
    ComesBackExactlyWhenClean(m);
    PutEntries(m, iface, c);
    PutDistinct(m, iface, c);
    ComesBackExactlyWhenClean(Put(m, iface, c));
    PutGet(m, iface, c, iface);
    PutGet(m, iface, c, other);
  }

  /** An accepted address stays accepted whatever follows another slash. */
  lemma CidrIgnoresTail(address: string, tail: string)
    requires Cidr(address)
    ensures Cidr(address + "/" + tail)
  {
    SplitAppend(address, tail, '/');
  }

  /** A number in decimal has that value. */
  lemma {:induction false} ValueOfDec(n: nat)
    ensures Digits(Dec(n)) && Value(Dec(n)) == n
  {
    DigitIs(n % 10);
    if n < 10 {
      assert Dec(n)[..0] == "" && Dec(n)[0] == Digit(n);
      assert Value("") == 0;
    } else {
      ValueOfDec(n / 10);
      var s := Dec(n);
      assert s[..|s| - 1] == Dec(n / 10) && s[|s| - 1] == Digit(n % 10);
    }
  }

  lemma DecLengths(n: nat)
    ensures n < 1000 ==> |Dec(n)| <= 3
    ensures n < 100 ==> |Dec(n)| <= 2
  {
    DecLength(n);
    DecLength(n / 10);
    DecLength(n / 100);
  }

  /** A number is an octet exactly up to 255. */
  lemma OctetExactly(n: nat)
    ensures Octet(Dec(n)) <==> n <= 255
  {
    ValueOfDec(n);
    DecLengths(n);
  }

  function Dotted(a: nat, b: nat, c: nat, d: nat): string {
    Dec(a) + "." + (Dec(b) + "." + (Dec(c) + "." + Dec(d)))
  }

  /** Four octets and a prefix of 1 to 32 are an address, and only such. */
  lemma ProperExactly(a: nat, b: nat, c: nat, d: nat, len: nat)
    ensures Cidr(Dotted(a, b, c, d) + "/" + Dec(len))
       <==> a <= 255 && b <= 255 && c <= 255 && d <= 255 && 1 <= len <= 32
  {
    OctetExactly(a);
    OctetExactly(b);
    OctetExactly(c);
    OctetExactly(d);
    DottedSplits(a, b, c, d);
    NoSlashes(a, b, c, d);
    ValueOfDec(len);
    DecLengths(len);
    PrefixSplits(Dotted(a, b, c, d), len);
  }

  lemma PrefixSplits(ip: string, len: nat)
    requires '/' !in ip
    ensures Split(ip + "/" + Dec(len), '/') == [ip] + [Dec(len)]
  {
    SplitAppend(ip, Dec(len), '/');
    SplitNone(ip, '/');
    SplitNone(Dec(len), '/');
  }

  lemma DottedSplits(a: nat, b: nat, c: nat, d: nat)
    ensures Split(Dotted(a, b, c, d), '.') == [Dec(a)] + ([Dec(b)] + ([Dec(c)] + [Dec(d)]))
  {
    NoDots(a);
    NoDots(b);
    NoDots(c);
    NoDots(d);
    FourParts(Dec(a), Dec(b), Dec(c), Dec(d));
  }

  lemma NoDots(n: nat)
    ensures '.' !in Dec(n) && '/' !in Dec(n)
  {}

  lemma FourParts(a: string, b: string, c: string, d: string)
    requires '.' !in a && '.' !in b && '.' !in c && '.' !in d
    ensures Split(a + "." + (b + "." + (c + "." + d)), '.') == [a] + ([b] + ([c] + [d]))
  {
    var two := c + "." + d;
    var three := b + "." + two;
    DotFirst(c, d, two);
    SplitNone(d, '.');
    DotFirst(b, two, three);
    DotFirst(a, three, a + "." + three);
  }

  lemma NoSlashes(a: nat, b: nat, c: nat, d: nat)
    ensures '/' !in Dotted(a, b, c, d)
  {
    NoDots(a);
    NoDots(b);
    NoDots(c);
    NoDots(d);
  }

  lemma DotFirst(first: string, rest: string, all: string)
    requires all == first + "." + rest && '.' !in first
    ensures Split(all, '.') == [first] + Split(rest, '.')
  {
    SplitAppend(first, rest, '.');
    SplitNone(first, '.');
    assert first + ['.'] + rest == all;
  }

  lemma CidrOf(ip: string, len: string)
    requires Ipv4(ip) && 1 <= |len| <= 2 && Digits(len) && 1 <= Value(len) <= 32
    ensures Cidr(ip + "/" + len)
  {
    Ipv4IsPlain(ip);
    SplitNone(ip, '/');
    SplitNone(len, '/');
    SplitAppend(ip, len, '/');
  }

  lemma Ipv4Of(a: string, b: string, c: string, d: string)
    requires Octet(a) && Octet(b) && Octet(c) && Octet(d)
    ensures Ipv4(a + "." + (b + "." + (c + "." + d)))
  {
    SplitNone(a, '.');
    SplitNone(b, '.');
    SplitNone(c, '.');
    SplitNone(d, '.');
    SplitAppend(c, d, '.');
    SplitAppend(b, c + "." + d, '.');
    SplitAppend(a, b + "." + (c + "." + d), '.');
  }

  /** An address the agent accepts whose tail ends the line: the file no longer says what was set. */
  lemma UncleanIsAccepted(iface: string) returns (address: string)
    requires InterfaceName(iface)
    ensures
      var c := Static(address, None, []);
      Settable([(iface, c)]) && Parsed(Content([(iface, c)])) != [(iface, c)]
  {
    address := UncleanCidr();
    var c := Static(address, None, []);
    OneSettable(iface, c);
    ComesBackExactlyWhenClean([(iface, c)]);
    assert (iface, c) in [(iface, c)];
  }

  lemma OneSettable(iface: string, c: Config)
    requires InterfaceName(iface) && Accepted(c)
    ensures Settable([(iface, c)])
  {}

  /** 1.1.1.1/1 with a slash, a bracket and a line end after it. */
  lemma UncleanCidr() returns (address: string)
    ensures Cidr(address) && !Clean(address)
  {
    var accepted := AcceptedPlain();
    var tail := "]\n";
    CidrIgnoresTail(accepted, tail);
    address := accepted + "/" + tail;
    assert address[|address| - 1] == '\n';
  }

  /** 1.1.1.1/1 */
  lemma AcceptedPlain() returns (accepted: string)
    ensures Cidr(accepted) && forall c :: c in accepted ==> !IsLineEnd(c)
  {
    var one := "1";
    var ip := OneIp();
    OneIsOne();
    CidrOf(ip, one);
    accepted := ip + "/" + one;
    Ipv4IsPlain(ip);
  }

  lemma OneIsOne()
    ensures Digits("1") && |"1"| == 1 && Value("1") == 1 && Octet("1")
  {
    assert "1"[..0] == "" && "1"[0] == '1' && Value("1"[..0]) == 0;
  }

  lemma OneIp() returns (ip: string)
    ensures Ipv4(ip)
  {
    var one := "1";
    OneIsOne();
    Ipv4Of(one, one, one, one);
    ip := one + "." + (one + "." + (one + "." + one));
  }
}
