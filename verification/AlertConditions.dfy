/** What is wrong now, as keyed conditions, of which two hold on a little below their line. */
module AlertConditions {
  import opened Text
  import opened Alerts
  import opened AlertRuns

  const FULL_WARNING := 90
  const FULL_CRITICAL := 95
  const HYSTERESIS := 2
  const HOT := 55
  const COOL := 50

  /** A title and what follows it, where they come in with the reading. */
  datatype Says = Says(title: string, detail: string)

  datatype Pool = Pool(name: string, health: string, capacity: int, stateDetail: string, fullSays: Says)
  datatype Smart = Smart(
    passed: Option<bool>, reallocated: Option<int>, pending: Option<int>, temperature: Option<int>, smartDetail: string,
    hotSays: Says)
  datatype Disk = Disk(id: string, smart: Option<Smart>)
  datatype Backup = Backup(failed: bool, message: Option<string>)
  datatype Copy = Copy(id: nat, dataset: string, host: string, failed: bool, message: Option<string>)
  /** A row of the history of scrubs and resilvers, of which the last twenty are read. */
  datatype Scan = Scan(scrub: bool, target: string, failed: bool, message: Option<string>)
  /** `latest`: the newest release; `newer`: whether it is newer than what runs. */
  datatype Update = Update(error: Option<string>, latest: Option<string>, newer: bool)
  datatype Reading = Reading(
    pools: seq<Pool>, disks: seq<Disk>, backup: Option<Backup>, copies: seq<Copy>, scans: seq<Scan>,
    update: Option<Update>)

  function StateKey(name: string): string { "pool:" + name + ":state" }
  function FullKey(name: string): string { "pool:" + name + ":full" }
  function SmartKey(id: string): string { "disk:" + id + ":smart" }
  function HotKey(id: string): string { "disk:" + id + ":temp" }
  function BackupKey(): string { "backup:settings" }
  function CopyKey(id: nat): string { "replication:" + Dec(id) }
  function ScanKey(target: string): string { "scan:" + target }
  function CheckKey(): string { "update:check" }
  function ReleaseKey(): string { "update:available" }

  // ---- what is said ----

  function StateSays(p: Pool): Wording {
    Wording(Critical, "Pool " + p.name + " is " + p.health, Some(p.stateDetail))
  }

  function FullSays(p: Pool): Wording {
    Wording(if p.capacity >= FULL_CRITICAL then Critical else Warning, p.fullSays.title, Some(p.fullSays.detail))
  }

  function Or0(n: Option<int>): int { if n.Some? then n.value else 0 }

  /** What SMART says is wrong with a disk, the worst first. */
  function SmartSays(id: string, s: Smart): Option<Wording> {
    if s.passed == Some(false) then Some(Wording(Critical, "Disk " + id + " says it is failing", Some(s.smartDetail)))
    else if Or0(s.reallocated) > 0 then
      Some(Wording(
        Critical, "Disk " + id + " has " + Dec(Or0(s.reallocated)) + " reallocated sectors", Some(s.smartDetail)))
    else if Or0(s.pending) > 0 then
      Some(Wording(
        Warning, "Disk " + id + " has " + Dec(Or0(s.pending)) + " sectors waiting to be checked", Some(s.smartDetail)))
    else None
  }

  function HotSays(s: Smart): Wording { Wording(Warning, s.hotSays.title, Some(s.hotSays.detail)) }

  function BackupSays(b: Backup): Wording {
    Wording(
      Warning, "The settings backup failed",
      Some(if b.message.Some? then b.message.value else "The last run did not finish." + BackupAdvice()))
  }

  function BackupAdvice(): string { " Storage \U{2192} Settings backup says where it writes." }

  function CopySays(c: Copy): Wording {
    Wording(
      Warning, "Copying " + c.dataset + " to " + c.host + " failed",
      Some(if c.message.Some? then c.message.value else "The last run did not finish."))
  }

  function ScanSays(s: Scan): Wording {
    Wording(
      Warning, "The last " + (if s.scrub then "scrub" else "scan") + " of " + s.target + " did not come back clean",
      Some(if s.message.Some? then s.message.value else ScanAdvice()))
  }

  function ScanAdvice(): string { "Run it again from the Pools page;" + " if errors stay, the disks need attention." }

  function CheckSays(error: string): Wording { Wording(Info, "The box could not check for updates", Some(error)) }

  function ReleaseSays(version: string): Wording {
    Wording(Info, "mk-nas " + version
      + " is out", Some("Storage \U{2192} Overview \U{2192} System installs it." + FilesStay()))
  }

  function FilesStay(): string { " Your files stay where they are." }

  // ---- the conditions ----

  function OfPool(p: Pool, held: bool): seq<Condition> {
    (if p.health != "ONLINE" then [Condition(StateKey(p.name), StateSays(p))] else [])
    + (if p.capacity >= (if held then FULL_WARNING - HYSTERESIS else FULL_WARNING)
       then [Condition(FullKey(p.name), FullSays(p))] else [])
  }

  function OfDisk(d: Disk, held: bool): seq<Condition> {
    if d.smart.None? then []
    else
      var s := d.smart.value;
      var says := SmartSays(d.id, s);
      (if says.Some? then [Condition(SmartKey(d.id), says.value)] else [])
      + (if Or0(s.temperature) >= (if held then COOL else HOT) then [Condition(HotKey(d.id), HotSays(s))] else [])
  }

  /** The conditions of each thing in turn. */
  function Each<T>(xs: seq<T>, of: T -> seq<Condition>): seq<Condition> {
    if xs == [] then [] else Each(Front(xs), of) + of(xs[|xs| - 1])
  }

  lemma EachMore<T>(xs: seq<T>, i: nat, of: T -> seq<Condition>)
    requires i < |xs|
    ensures Each(xs[..i + 1], of) == Each(xs[..i], of) + of(xs[i])
  {
    assert Front(xs[..i + 1]) == xs[..i];
  }

  function PoolOf(held: string -> bool): Pool -> seq<Condition> { (p: Pool) => OfPool(p, held(FullKey(p.name))) }

  function DiskOf(held: string -> bool): Disk -> seq<Condition> { (d: Disk) => OfDisk(d, held(HotKey(d.id))) }

  function OfCopy(c: Copy): seq<Condition> { if c.failed then [Condition(CopyKey(c.id), CopySays(c))] else [] }

  function OfScan(s: Scan): seq<Condition> { if s.failed then [Condition(ScanKey(s.target), ScanSays(s))] else [] }

  function OfBackup(b: Option<Backup>): seq<Condition> {
    if b.Some? && b.value.failed then [Condition(BackupKey(), BackupSays(b.value))] else []
  }

  function OfUpdate(u: Option<Update>): seq<Condition> {
    if u.None? then []
    else if u.value.error.Some?
      && u.value.error.value != "" then [Condition(CheckKey(), CheckSays(u.value.error.value))]
    else if u.value.latest.Some? && u.value.newer then [Condition(ReleaseKey(), ReleaseSays(u.value.latest.value))]
    else []
  }

  function ConditionsOf(r: Reading, held: string -> bool): seq<Condition> {
    Each(r.pools, PoolOf(held)) + Each(r.disks, DiskOf(held)) + OfBackup(r.backup) + Each(r.copies, OfCopy)
    + Each(r.scans, OfScan) + OfUpdate(r.update)
  }

  method PoolConditions(pools: seq<Pool>, open: Open) returns (out: seq<Condition>)
    ensures out == Each(pools, PoolOf(key => key in open))
  {
    ghost var held := key => key in open;
    ghost var of := PoolOf(held);
    out := [];
    for i := 0 to |pools|
      invariant out == Each(pools[..i], of)
    {
      var p := pools[i];
      EachMore(pools, i, of);
      var full := if FullKey(p.name) in open then FULL_WARNING - HYSTERESIS else FULL_WARNING;
      var these := if p.health != "ONLINE" then [Condition(StateKey(p.name), StateSays(p))] else [];
      if p.capacity >= full {
        these := these + [Condition(FullKey(p.name), FullSays(p))];
      }
      assert these == OfPool(p, held(FullKey(p.name))) == of(p);
      out := out + these;
    }
    assert pools[..|pools|] == pools;
  }

  method DiskConditions(disks: seq<Disk>, open: Open) returns (out: seq<Condition>)
    ensures out == Each(disks, DiskOf(key => key in open))
  {
    ghost var held := key => key in open;
    ghost var of := DiskOf(held);
    out := [];
    for i := 0 to |disks|
      invariant out == Each(disks[..i], of)
    {
      var d := disks[i];
      EachMore(disks, i, of);
      var these := [];
      if d.smart.Some? {
        var s := d.smart.value;
        var says := SmartSays(d.id, s);
        these := if says.Some? then [Condition(SmartKey(d.id), says.value)] else [];
        var hot := if HotKey(d.id) in open then COOL else HOT;
        if Or0(s.temperature) >= hot {
          these := these + [Condition(HotKey(d.id), HotSays(s))];
        }
      }
      assert these == OfDisk(d, held(HotKey(d.id))) == of(d);
      out := out + these;
    }
    assert disks[..|disks|] == disks;
  }

  method CopyConditions(copies: seq<Copy>) returns (out: seq<Condition>)
    ensures out == Each(copies, OfCopy)
  {
    out := [];
    for i := 0 to |copies|
      invariant out == Each(copies[..i], OfCopy)
    {
      EachMore(copies, i, OfCopy);
      if copies[i].failed {
        out := out + [Condition(CopyKey(copies[i].id), CopySays(copies[i]))];
      }
    }
    assert copies[..|copies|] == copies;
  }

  method ScanConditions(scans: seq<Scan>) returns (out: seq<Condition>)
    ensures out == Each(scans, OfScan)
  {
    out := [];
    for i := 0 to |scans|
      invariant out == Each(scans[..i], OfScan)
    {
      EachMore(scans, i, OfScan);
      if scans[i].failed {
        out := out + [Condition(ScanKey(scans[i].target), ScanSays(scans[i]))];
      }
    }
    assert scans[..|scans|] == scans;
  }

  /** The loops, over pools, disks, copies and scans. */
  method Conditions(r: Reading, open: Open) returns (out: seq<Condition>)
    ensures out == ConditionsOf(r, key => key in open)
  {
    var pools := PoolConditions(r.pools, open);
    var disks := DiskConditions(r.disks, open);
    var copies := CopyConditions(r.copies);
    var scans := ScanConditions(r.scans);
    out := pools + disks + OfBackup(r.backup) + copies + scans + OfUpdate(r.update);
  }

  // ---- what is said under one key ----

  function Said(cs: seq<Condition>, key: string): seq<Wording> {
    if cs == [] then []
    else Said(Front(cs), key) + if cs[|cs| - 1].key == key then [cs[|cs| - 1].wording] else []
  }

  lemma {:induction false} SaidJoined(a: seq<Condition>, b: seq<Condition>, key: string)
    ensures Said(a + b, key) == Said(a, key) + Said(b, key)
    decreases |b|
  {
    if b == [] {
      assert a + b == a;
    } else {
      assert Front(a + b) == a + Front(b) && (a + b)[|a + b| - 1] == b[|b| - 1];
      SaidJoined(a, Front(b), key);
      Associates(Said(a, key), Said(Front(b), key), if b[|b| - 1].key == key then [b[|b| - 1].wording] else []);
    }
  }

  lemma SaidOne(c: Condition, key: string)
    ensures Said([c], key) == if c.key == key then [c.wording] else []
  {
    assert Front([c]) == [];
  }

  lemma {:induction false} SaidIs(cs: seq<Condition>, key: string)
    ensures Holds(cs, key) <==> Said(cs, key) != []
    ensures forall wording :: Agrees(cs, key, wording) <==> forall w :: w in Said(cs, key) ==> w == wording
    decreases |cs|
  {
    if cs != [] {
      SaidIs(Front(cs), key);
      HoldsFront(cs, key);
      AgreesFront(cs, key);
      SaidFront(cs, key);
      forall wording
        ensures Agrees(cs, key, wording) <==> forall w :: w in Said(cs, key) ==> w == wording
      {
        if cs[|cs| - 1].key == key {
          assert cs[|cs| - 1].wording in Said(cs, key);
        }
      }
    }
  }

  lemma SaidFront(cs: seq<Condition>, key: string)
    requires cs != []
    ensures
      forall w :: w in Said(cs, key) <==>
        w in Said(Front(cs), key) || (cs[|cs| - 1].key == key && w == cs[|cs| - 1].wording)
  {}

  lemma AgreesFront(cs: seq<Condition>, key: string)
    requires cs != []
    ensures
      forall wording :: Agrees(cs, key, wording) <==>
        Agrees(Front(cs), key, wording) && (cs[|cs| - 1].key == key ==> cs[|cs| - 1].wording == wording)
  {
    assert forall i :: 0 <= i < |cs| - 1 ==> Front(cs)[i] == cs[i];
  }

  // ---- keys ----

  /** All keys of these conditions begin with one letter. */
  predicate Begin(cs: seq<Condition>, letter: char) {
    forall i :: 0 <= i < |cs| ==> cs[i].key != "" && cs[i].key[0] == letter
  }

  lemma {:induction false} NotSaid(cs: seq<Condition>, letter: char, key: string)
    requires Begin(cs, letter) && key != "" && key[0] != letter
    ensures Said(cs, key) == []
    decreases |cs|
  {
    if cs != [] {
      NotSaid(Front(cs), letter, key);
    }
  }

  lemma PoolLetters(name: string)
    ensures StateKey(name)[0] == FullKey(name)[0] == 'p'
  {}

  lemma DiskLetters(id: string)
    ensures SmartKey(id)[0] == HotKey(id)[0] == 'd'
  {}

  lemma CopyLetter(id: nat)
    ensures CopyKey(id)[0] == 'r'
  {}

  lemma ScanLetter(target: string)
    ensures ScanKey(target)[0] == 's'
  {}

  lemma BackupLetter()
    ensures BackupKey()[0] == 'b'
  {}

  lemma UpdateLetters()
    ensures CheckKey()[0] == ReleaseKey()[0] == 'u'
  {}

  lemma {:induction false} EachBegins<T>(xs: seq<T>, of: T -> seq<Condition>, letter: char)
    requires forall x :: Begin(of(x), letter)
    ensures Begin(Each(xs, of), letter)
    decreases |xs|
  {
    if xs != [] {
      EachBegins(Front(xs), of, letter);
    }
  }

  lemma PoolBegins(p: Pool, held: bool)
    ensures Begin(OfPool(p, held), 'p')
  {
    PoolLetters(p.name);
  }

  lemma DiskBegins(d: Disk, held: bool)
    ensures Begin(OfDisk(d, held), 'd')
  {
    DiskLetters(d.id);
  }

  lemma KindsBegin(r: Reading, held: string -> bool)
    ensures Begin(Each(r.pools, PoolOf(held)), 'p') && Begin(Each(r.disks, DiskOf(held)), 'd')
    ensures Begin(Each(r.copies, OfCopy), 'r') && Begin(Each(r.scans, OfScan), 's')
  {
    forall p: Pool ensures Begin(PoolOf(held)(p), 'p') {
      PoolBegins(p, held(FullKey(p.name)));
    }
    EachBegins(r.pools, PoolOf(held), 'p');
    forall d: Disk ensures Begin(DiskOf(held)(d), 'd') {
      DiskBegins(d, held(HotKey(d.id)));
    }
    EachBegins(r.disks, DiskOf(held), 'd');
    forall c: Copy ensures Begin(OfCopy(c), 'r') {
      CopyLetter(c.id);
    }
    EachBegins(r.copies, OfCopy, 'r');
    forall s: Scan ensures Begin(OfScan(s), 's') {
      ScanLetter(s.target);
    }
    EachBegins(r.scans, OfScan, 's');
  }

  lemma RestBegins(b: Option<Backup>, u: Option<Update>)
    ensures Begin(OfBackup(b), 'b') && Begin(OfUpdate(u), 'u')
  {
    BackupLetter();
    UpdateLetters();
  }

  /** What is said under a key comes from the one kind of thing the key is about. */
  lemma SaidByKind(
      p: seq<Condition>, d: seq<Condition>, b: seq<Condition>, c: seq<Condition>, s: seq<Condition>, u: seq<Condition>,
      key: string)
    requires Begin(p, 'p') && Begin(d, 'd') && Begin(b, 'b') && Begin(c, 'r') && Begin(s, 's') && Begin(u, 'u')
    requires key != ""
    ensures key[0] == 'p' ==> Said(p + d + b + c + s + u, key) == Said(p, key)
    ensures key[0] == 'd' ==> Said(p + d + b + c + s + u, key) == Said(d, key)
    ensures key[0] == 'b' ==> Said(p + d + b + c + s + u, key) == Said(b, key)
    ensures key[0] == 'r' ==> Said(p + d + b + c + s + u, key) == Said(c, key)
    ensures key[0] == 's' ==> Said(p + d + b + c + s + u, key) == Said(s, key)
    ensures key[0] == 'u' ==> Said(p + d + b + c + s + u, key) == Said(u, key)
  {
    SaidOfSix(p, d, b, c, s, u, key);
    NotSaidBy(p, 'p', key);
    NotSaidBy(d, 'd', key);
    NotSaidBy(b, 'b', key);
    NotSaidBy(c, 'r', key);
    NotSaidBy(s, 's', key);
    NotSaidBy(u, 'u', key);
    OneOfSix(Said(p, key), Said(d, key), Said(b, key), Said(c, key), Said(s, key), Said(u, key));
  }

  /** Of six, five of them empty, the sum is the sixth. */
  lemma OneOfSix(
      a: seq<Wording>, b: seq<Wording>, c: seq<Wording>, d: seq<Wording>, e: seq<Wording>, f: seq<Wording>)
    ensures |b| == |c| == |d| == |e| == |f| == 0 ==> a + b + c + d + e + f == a
    ensures |a| == |c| == |d| == |e| == |f| == 0 ==> a + b + c + d + e + f == b
    ensures |a| == |b| == |d| == |e| == |f| == 0 ==> a + b + c + d + e + f == c
    ensures |a| == |b| == |c| == |e| == |f| == 0 ==> a + b + c + d + e + f == d
    ensures |a| == |b| == |c| == |d| == |f| == 0 ==> a + b + c + d + e + f == e
    ensures |a| == |b| == |c| == |d| == |e| == 0 ==> a + b + c + d + e + f == f
  {}

  lemma ReadingSays(r: Reading, held: string -> bool, key: string)
    requires key != ""
    ensures key[0] == 'p' ==> Said(ConditionsOf(r, held), key) == Said(Each(r.pools, PoolOf(held)), key)
    ensures key[0] == 'd' ==> Said(ConditionsOf(r, held), key) == Said(Each(r.disks, DiskOf(held)), key)
    ensures key[0] == 'b' ==> Said(ConditionsOf(r, held), key) == Said(OfBackup(r.backup), key)
    ensures key[0] == 'r' ==> Said(ConditionsOf(r, held), key) == Said(Each(r.copies, OfCopy), key)
    ensures key[0] == 's' ==> Said(ConditionsOf(r, held), key) == Said(Each(r.scans, OfScan), key)
    ensures key[0] == 'u' ==> Said(ConditionsOf(r, held), key) == Said(OfUpdate(r.update), key)
  {
    KindsBegin(r, held);
    RestBegins(r.backup, r.update);
    SaidByKind(
      Each(r.pools, PoolOf(held)), Each(r.disks, DiskOf(held)), OfBackup(r.backup), Each(r.copies, OfCopy),
      Each(r.scans, OfScan), OfUpdate(r.update), key);
  }

  lemma NotSaidBy(cs: seq<Condition>, letter: char, key: string)
    requires Begin(cs, letter) && key != ""
    ensures key[0] != letter ==> Said(cs, key) == []
  {
    if key[0] != letter {
      NotSaid(cs, letter, key);
    }
  }

  lemma SaidOfSix(
      p: seq<Condition>, d: seq<Condition>, b: seq<Condition>, c: seq<Condition>, s: seq<Condition>, u: seq<Condition>,
      key: string)
    ensures
      Said(p + d + b + c + s + u, key)
      == Said(p, key) + Said(d, key) + Said(b, key) + Said(c, key) + Said(s, key) + Said(u, key)
  {
    SaidJoined(p, d, key);
    SaidJoined(p + d, b, key);
    SaidJoined(p + d + b, c, key);
    SaidJoined(p + d + b + c, s, key);
    SaidJoined(p + d + b + c + s, u, key);
  }

  lemma PoolKeys(a: string, b: string)
    ensures FullKey(a) == FullKey(b) <==> a == b
    ensures StateKey(a) == StateKey(b) <==> a == b
    ensures StateKey(a) != FullKey(b)
  {
    assert FullKey(a)[5..|FullKey(a)| - 5] == a && FullKey(b)[5..|FullKey(b)| - 5] == b;
    assert StateKey(a)[5..|StateKey(a)| - 6] == a && StateKey(b)[5..|StateKey(b)| - 6] == b;
    assert StateKey(a)[|StateKey(a)| - 1] == 'e' && FullKey(b)[|FullKey(b)| - 1] == 'l';
  }

  lemma DiskKeys(a: string, b: string)
    ensures HotKey(a) == HotKey(b) <==> a == b
    ensures SmartKey(a) == SmartKey(b) <==> a == b
    ensures SmartKey(a) != HotKey(b)
  {
    assert HotKey(a)[5..|HotKey(a)| - 5] == a && HotKey(b)[5..|HotKey(b)| - 5] == b;
    assert SmartKey(a)[5..|SmartKey(a)| - 6] == a && SmartKey(b)[5..|SmartKey(b)| - 6] == b;
    assert SmartKey(a)[|SmartKey(a)| - 1] == 't' && HotKey(b)[|HotKey(b)| - 1] == 'p';
  }

  lemma CopyKeys(a: nat, b: nat)
    ensures CopyKey(a) == CopyKey(b) <==> a == b
  {
    assert CopyKey(a)[12..] == Dec(a) && CopyKey(b)[12..] == Dec(b);
    if CopyKey(a) == CopyKey(b) {
      DecInjective(a, b);
    }
  }

  lemma ScanKeys(a: string, b: string)
    ensures ScanKey(a) == ScanKey(b) <==> a == b
  {
    assert ScanKey(a)[5..] == a && ScanKey(b)[5..] == b;
  }

  lemma UpdateKeys()
    ensures CheckKey() != ReleaseKey()
  {
    assert CheckKey()[7] == 'c' && ReleaseKey()[7] == 'a';
  }

  // ---- what each kind of thing says ----

  lemma {:induction false} SaidOfEach<T>(xs: seq<T>, of: T -> seq<Condition>, key: string, w: Wording)
    ensures w in Said(Each(xs, of), key) <==> exists x :: x in xs && w in Said(of(x), key)
    decreases |xs|
  {
    if xs != [] {
      var last := xs[|xs| - 1];
      SaidOfEach(Front(xs), of, key, w);
      SaidJoined(Each(Front(xs), of), of(last), key);
      assert xs == Front(xs) + [last];
      assert forall x :: x in xs <==> x in Front(xs) || x == last;
    }
  }

  lemma SaidOfTwo(a: seq<Condition>, b: seq<Condition>, key: string)
    requires |a| <= 1 && |b| <= 1
    ensures
      Said(a + b, key)
      == (if a != [] && a[0].key == key then [a[0].wording] else [])
         + if b != [] && b[0].key == key then [b[0].wording] else []
  {
    SaidJoined(a, b, key);
    SaidOfOne(a, key);
    SaidOfOne(b, key);
  }

  lemma SaidOfOne(cs: seq<Condition>, key: string)
    requires |cs| <= 1
    ensures Said(cs, key) == if cs != [] && cs[0].key == key then [cs[0].wording] else []
  {
    if cs != [] {
      SaidOne(cs[0], key);
      assert cs == [cs[0]];
    }
  }

  lemma SaidOfPool(p: Pool, held: bool, name: string)
    ensures
      Said(OfPool(p, held), StateKey(name)) == if p.name == name && p.health != "ONLINE" then [StateSays(p)] else []
    ensures
      Said(OfPool(p, held), FullKey(name))
      == if p.name == name && p.capacity >= (if held then 88 else 90) then [FullSays(p)] else []
  {
    PoolKeys(p.name, name);
    PoolKeys(name, p.name);
    var a := if p.health != "ONLINE" then [Condition(StateKey(p.name), StateSays(p))] else [];
    var b := if p.capacity >= (if held then 88 else 90) then [Condition(FullKey(p.name), FullSays(p))] else [];
    SaidOfTwo(a, b, StateKey(name));
    SaidOfTwo(a, b, FullKey(name));
  }

  lemma SaidOfDisk(d: Disk, s: Smart, held: bool, id: string)
    requires d.smart == Some(s)
    ensures
      Said(OfDisk(d, held), SmartKey(id))
      == if d.id == id && SmartSays(id, s).Some? then [SmartSays(id, s).value] else []
    ensures
      Said(OfDisk(d, held), HotKey(id))
      == if d.id == id && Or0(s.temperature) >= (if held then 50 else 55) then [HotSays(s)] else []
  {
    DiskKeys(d.id, id);
    DiskKeys(id, d.id);
    var says := SmartSays(d.id, s);
    var a := if says.Some? then [Condition(SmartKey(d.id), says.value)] else [];
    var b := if Or0(s.temperature) >= (if held then 50 else 55) then [Condition(HotKey(d.id), HotSays(s))] else [];
    SaidOfTwo(a, b, SmartKey(id));
    SaidOfTwo(a, b, HotKey(id));
  }

  lemma SmartOfDisk(d: Disk, held: bool, id: string, w: Wording)
    ensures
      w in Said(OfDisk(d, held), SmartKey(id)) <==>
      d.id == id && d.smart.Some? && SmartSays(id, d.smart.value) == Some(w)
  {
    if d.smart.Some? {
      SaidOfDisk(d, d.smart.value, held, id);
      var says := SmartSays(id, d.smart.value);
      assert says.Some? ==> (says.value == w <==> says == Some(w));
    }
  }

  lemma HotOfDisk(d: Disk, held: bool, id: string, w: Wording)
    ensures
      w in Said(OfDisk(d, held), HotKey(id)) <==>
      && d.id == id && d.smart.Some? && w == HotSays(d.smart.value)
      && Or0(d.smart.value.temperature) >= if held then 50 else 55
  {
    if d.smart.Some? {
      SaidOfDisk(d, d.smart.value, held, id);
    }
  }

  lemma StateSaid(pools: seq<Pool>, held: string -> bool, name: string, w: Wording)
    ensures
      w in Said(Each(pools, PoolOf(held)), StateKey(name)) <==>
      exists p :: p in pools && p.name == name && p.health != "ONLINE" && w == StateSays(p)
  {
    SaidOfEach(pools, PoolOf(held), StateKey(name), w);
    forall p: Pool
      ensures
        w in Said(PoolOf(held)(p), StateKey(name)) <==> p.name == name && p.health != "ONLINE" && w == StateSays(p)
    {
      SaidOfPool(p, held(FullKey(p.name)), name);
    }
  }

  lemma FullSaid(pools: seq<Pool>, held: string -> bool, name: string, w: Wording)
    ensures
      w in Said(Each(pools, PoolOf(held)), FullKey(name)) <==>
      exists p ::
        p in pools && p.name == name && p.capacity >= (if held(FullKey(name)) then 88 else 90) && w == FullSays(p)
  {
    SaidOfEach(pools, PoolOf(held), FullKey(name), w);
    forall p: Pool
      ensures
        w in Said(PoolOf(held)(p), FullKey(name)) <==>
        p.name == name && p.capacity >= (if held(FullKey(name)) then 88 else 90) && w == FullSays(p)
    {
      SaidOfPool(p, held(FullKey(p.name)), name);
    }
  }

  lemma SmartSaid(disks: seq<Disk>, held: string -> bool, id: string, w: Wording)
    ensures
      w in Said(Each(disks, DiskOf(held)), SmartKey(id)) <==>
      exists d :: d in disks && d.id == id && d.smart.Some? && SmartSays(id, d.smart.value) == Some(w)
  {
    SaidOfEach(disks, DiskOf(held), SmartKey(id), w);
    forall d: Disk
      ensures
        w in Said(DiskOf(held)(d), SmartKey(id)) <==>
        d.id == id && d.smart.Some? && SmartSays(id, d.smart.value) == Some(w)
    {
      SmartOfDisk(d, held(HotKey(d.id)), id, w);
    }
  }

  lemma HotSaid(disks: seq<Disk>, held: string -> bool, id: string, w: Wording)
    ensures
      w in Said(Each(disks, DiskOf(held)), HotKey(id)) <==>
      exists d ::
        && d in disks && d.id == id && d.smart.Some? && w == HotSays(d.smart.value)
        && Or0(d.smart.value.temperature) >= if held(HotKey(id)) then 50 else 55
  {
    SaidOfEach(disks, DiskOf(held), HotKey(id), w);
    forall d: Disk
      ensures
        w in Said(DiskOf(held)(d), HotKey(id)) <==>
        && d.id == id && d.smart.Some? && w == HotSays(d.smart.value)
        && Or0(d.smart.value.temperature) >= if held(HotKey(id)) then 50 else 55
    {
      HotOfDisk(d, held(HotKey(d.id)), id, w);
    }
  }

  lemma CopySaid(copies: seq<Copy>, id: nat, w: Wording)
    ensures
      w in Said(Each(copies, OfCopy), CopyKey(id)) <==>
      exists c :: c in copies && c.id == id && c.failed && w == CopySays(c)
  {
    SaidOfEach(copies, OfCopy, CopyKey(id), w);
    forall c: Copy
      ensures w in Said(OfCopy(c), CopyKey(id)) <==> c.id == id && c.failed && w == CopySays(c)
    {
      CopyKeys(c.id, id);
      SaidOfOne(OfCopy(c), CopyKey(id));
    }
  }

  lemma ScanSaid(scans: seq<Scan>, target: string, w: Wording)
    ensures
      w in Said(Each(scans, OfScan), ScanKey(target)) <==>
      exists s :: s in scans && s.target == target && s.failed && w == ScanSays(s)
  {
    SaidOfEach(scans, OfScan, ScanKey(target), w);
    forall s: Scan
      ensures w in Said(OfScan(s), ScanKey(target)) <==> s.target == target && s.failed && w == ScanSays(s)
    {
      ScanKeys(s.target, target);
      SaidOfOne(OfScan(s), ScanKey(target));
    }
  }

  lemma BackupSaid(b: Option<Backup>, w: Wording)
    ensures w in Said(OfBackup(b), BackupKey()) <==> b.Some? && b.value.failed && w == BackupSays(b.value)
  {
    if b.Some? {
      SaidOne(Condition(BackupKey(), BackupSays(b.value)), BackupKey());
    }
  }

  lemma UpdateSaid(u: Option<Update>, w: Wording)
    ensures
      w in Said(OfUpdate(u), CheckKey()) <==>
      u.Some? && u.value.error.Some? && u.value.error.value != "" && w == CheckSays(u.value.error.value)
    ensures
      w in Said(OfUpdate(u), ReleaseKey()) <==>
      && u.Some? && !(u.value.error.Some? && u.value.error.value != "") && u.value.newer && u.value.latest.Some?
      && w == ReleaseSays(u.value.latest.value)
  {
    UpdateKeys();
    if u.Some? {
      if u.value.error.Some? {
        SaidOne(Condition(CheckKey(), CheckSays(u.value.error.value)), CheckKey());
        SaidOne(Condition(CheckKey(), CheckSays(u.value.error.value)), ReleaseKey());
      }
      if u.value.latest.Some? {
        SaidOne(Condition(ReleaseKey(), ReleaseSays(u.value.latest.value)), CheckKey());
        SaidOne(Condition(ReleaseKey(), ReleaseSays(u.value.latest.value)), ReleaseKey());
      }
    }
  }
}
