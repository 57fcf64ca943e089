/**
 * The sections of the smb.conf that is written: one for each share in it, under names that Samba tells apart. What
 * counts is the text, so it is split into lines again: nothing that goes into a line can break it, and the lines that
 * open a section are the global one and those of the shares, no two of them the same but for the case of their letters.
 */
module ShareSections {
  import opened Text
  import opened ShareTable
  import opened ShareFiles

  predicate IsHeader(line: string) { line != "" && line[0] == '[' }

  function Headers(lines: seq<string>): seq<string> {
    if lines == [] then []
    else Headers(lines[..|lines| - 1]) + if IsHeader(lines[|lines| - 1]) then [lines[|lines| - 1]] else []
  }

  function HeaderOf(x: Share): string { "[" + NameOf(x.dataset) + "]" }

  function HeadersOf(offers: seq<Offer>): seq<string> {
    if offers == [] then []
    else
      var o := offers[|offers| - 1];
      HeadersOf(offers[..|offers| - 1]) + if InConf(o) then [HeaderOf(o.share)] else []
  }

  lemma {:induction false} HeadersJoined(a: seq<string>, b: seq<string>)
    ensures Headers(a + b) == Headers(a) + Headers(b)
    decreases |b|
  {
    if b == [] {
      assert a + b == a;
    } else {
      var front, last := b[..|b| - 1], b[|b| - 1];
      assert (a + b)[..|a + b| - 1] == a + front && (a + b)[|a + b| - 1] == last;
      HeadersJoined(a, front);
    }
  }

  lemma {:induction false} NoHeaders(lines: seq<string>)
    requires forall i :: 0 <= i < |lines| ==> !IsHeader(lines[i])
    ensures Headers(lines) == []
    decreases |lines|
  {
    if lines != [] {
      NoHeaders(lines[..|lines| - 1]);
    }
  }

  lemma FirstOnly(first: string, rest: seq<string>)
    requires IsHeader(first) && forall i :: 0 <= i < |rest| ==> !IsHeader(rest[i])
    ensures Headers([first] + rest) == [first]
  {
    HeadersJoined([first], rest);
    NoHeaders(rest);
    HeadersOfOne(first);
  }

  lemma HeadersOfOne(line: string)
    ensures Headers([line]) == if IsHeader(line) then [line] else []
  {
    assert [line][..0] == [];
  }

  lemma OpeningHeader(c: Config)
    ensures Headers(Opening(c)) == ["[global]"]
  {
    var lines := Opening(c);
    assert lines == [lines[0]] + ([lines[1]] + [lines[2]]);
    HeadersJoined([lines[0]], [lines[1]] + [lines[2]]);
    HeadersJoined([lines[1]], [lines[2]]);
    assert lines[0][0] == '#' && lines[2][0] == ' ';
    HeadersOfOne(lines[0]);
    HeadersOfOne(lines[1]);
    HeadersOfOne(lines[2]);
  }

  lemma SettingsHaveNone()
    ensures Headers(Serving()) == [] && Headers(Logging()) == [] && Headers(Printing()) == []
  {
    NoHeaders(Serving());
    NoHeaders(Logging());
    NoHeaders(Printing());
  }

  lemma MacSettingsHaveNone()
    ensures Headers(ForMacs()) == [] && Headers(ForMacsToo()) == []
  {
    NoHeaders(ForMacs());
    NoHeaders(ForMacsToo());
  }

  lemma OwnSettingsHaveNone()
    ensures Headers(OwnSettings()) == []
  {
    SettingsHaveNone();
    MacSettingsHaveNone();
    HeadersOfFive(Serving(), Logging(), Printing(), ForMacs(), ForMacsToo());
  }

  lemma HeadersOfFive(a: seq<string>, b: seq<string>, c: seq<string>, d: seq<string>, e: seq<string>)
    requires Headers(a) == [] && Headers(b) == [] && Headers(c) == [] && Headers(d) == [] && Headers(e) == []
    ensures Headers(a + b + c + d + e) == []
  {
    HeadersJoined(a, b);
    HeadersJoined(a + b, c);
    HeadersJoined(a + b + c, d);
    HeadersJoined(a + b + c + d, e);
  }

  lemma HeadersOfSection(o: Offer, c: Config)
    requires o.mountpoint.Some?
    ensures Headers(Section(o, c)) == [HeaderOf(o.share)]
  {
    var lines := Section(o, c);
    assert lines[0] == HeaderOf(o.share) && lines[0][0] == '[';
    assert lines == [lines[0]] + lines[1..];
    FirstOnly(lines[0], lines[1..]);
  }

  lemma {:induction false} HeadersOfSections(offers: seq<Offer>, c: Config)
    ensures Headers(Sections(offers, c)) == HeadersOf(offers)
    decreases |offers|
  {
    if offers != [] {
      var front, o := offers[..|offers| - 1], offers[|offers| - 1];
      HeadersOfSections(front, c);
      if InConf(o) {
        HeadersJoined(Sections(front, c), Section(o, c));
        HeadersOfSection(o, c);
      } else {
        assert Sections(front, c) + [] == Sections(front, c);
      }
    }
  }

  // ---- the text is these lines ----

  /** The settings fit, as the agent's own do, and nothing from outside breaks a line. */
  ghost predicate Plain(offers: seq<Offer>, c: Config) { Fits(c.settings) && Outside(offers, c) }

  /** Nothing that comes from outside the table holds a line feed: ZFS lists mountpoints a line each. */
  ghost predicate Outside(offers: seq<Offer>, c: Config) {
    && OneLine(c.hostname) && OneLine(c.group) && OneLine(c.owner) && OneLine(c.ownerGroup)
    && forall i :: 0 <= i < |offers| && offers[i].mountpoint.Some? ==> OneLine(offers[i].mountpoint.value)
  }

  /** The settings of the global section open no other section and break no line. */
  ghost predicate Fits(settings: seq<string>) { OneLiners(settings) && Headers(settings) == [] }

  lemma OwnSettingsFit()
    ensures Fits(OwnSettings())
  {
    OwnSettingsHaveNone();
    ServingPlain();
    LoggingPlain();
    PrintingPlain();
    ForMacsPlain();
    ForMacsTooPlain();
    FivePlain(Serving(), Logging(), Printing(), ForMacs(), ForMacsToo());
  }

  lemma FivePlain(a: seq<string>, b: seq<string>, c: seq<string>, d: seq<string>, e: seq<string>)
    requires OneLiners(a) && OneLiners(b) && OneLiners(c) && OneLiners(d) && OneLiners(e)
    ensures OneLiners(a + b + c + d + e)
  {
    OneLinersJoined(a, b);
    OneLinersJoined(a + b, c);
    OneLinersJoined(a + b + c, d);
    OneLinersJoined(a + b + c + d, e);
  }

  lemma OriginPlain()
    ensures OneLine(Origin())
  {
  }

  lemma WarningPlain()
    ensures OneLine(Warning())
  {
  }

  lemma WrittenPlain()
    ensures OneLine(Written())
  {
    OriginPlain();
    WarningPlain();
    assert OneLine(" use the drive.");
    PairPlain(Origin(), Warning());
    PairPlain(Origin() + Warning(), " use the drive.");
  }

  lemma OpeningPlain(c: Config)
    requires OneLine(c.hostname)
    ensures OneLiners(Opening(c))
  {
    WrittenPlain();
    assert OneLine("[global]");
    assert OneLine("   server string = ");
    PairPlain("   server string = ", c.hostname);
    ThreePlain(Written(), "[global]", "   server string = " + c.hostname);
  }

  lemma PairPlain(a: string, b: string)
    requires OneLine(a) && OneLine(b)
    ensures OneLine(a + b)
  {
  }

  lemma ThreePlain(a: string, b: string, c: string)
    requires OneLine(a) && OneLine(b) && OneLine(c)
    ensures OneLiners([a, b, c])
  {
  }

  lemma ServingPlain()
    ensures OneLiners(Serving())
  {
    var lines := Serving();
    assert OneLine(lines[0]);
    assert OneLine(lines[1]);
    assert OneLine(lines[2]);
    assert OneLine(lines[3]);
    assert OneLine(lines[4]);
  }

  lemma LoggingPlain()
    ensures OneLiners(Logging())
  {
    var lines := Logging();
    assert OneLine(lines[0]);
    assert OneLine(lines[1]);
    assert OneLine(lines[2]);
    assert OneLine(lines[3]);
    assert OneLine(lines[4]);
  }

  lemma PrintingPlain()
    ensures OneLiners(Printing())
  {
    var lines := Printing();
    assert OneLine(lines[0]);
    assert OneLine(lines[1]);
    assert OneLine(lines[2]);
    assert OneLine(lines[3]);
    assert OneLine(lines[4]);
  }

  lemma ForMacsPlain()
    ensures OneLiners(ForMacs())
  {
    var lines := ForMacs();
    assert OneLine(lines[0]);
    assert OneLine(lines[1]);
    assert OneLine(lines[2]);
    assert OneLine(lines[3]);
  }

  lemma ForMacsTooPlain()
    ensures OneLiners(ForMacsToo())
  {
    var lines := ForMacsToo();
    assert OneLine("   fruit:wipe_intentionally_left_blank_rfork") && OneLine(" = yes");
    PairPlain("   fruit:wipe_intentionally_left_blank_rfork", " = yes");
    assert OneLine(lines[0]);
    assert OneLine(lines[1]);
    assert OneLine(lines[2]);
    assert OneLine(lines[3]);
  }

  lemma {:induction false} AllOfPlain(s: string, ok: char -> bool)
    requires AllOf(s, ok) && !ok('\n')
    ensures OneLine(s)
  {
    if s != "" {
      AllOfPlain(s[1..], ok);
      assert s == [s[0]] + s[1..];
    }
  }

  lemma NamePlain(x: Share)
    requires Sound(x)
    ensures OneLine(NameOf(x.dataset))
  {
    LastPlain(Split(x.dataset, '/'));
  }

  lemma LastPlain(parts: seq<string>)
    requires parts != [] && IsComponent(parts[0]) && forall p :: p in parts[1..] ==> IsChild(p)
    ensures OneLine(parts[|parts| - 1])
  {
    var name := parts[|parts| - 1];
    if |parts| > 1 {
      assert parts[1..][|parts| - 2] == name;
      assert IsChild(name);
    }
    AllOfPlain(name[1..], IsNameChar);
    assert name == [name[0]] + name[1..];
  }

  lemma {:induction false} JoinPlain(words: seq<string>)
    requires OneLiners(words)
    ensures OneLine(Join(words, ' '))
  {
    assert words != [] ==> words[0] in words;
    if |words| > 1 {
      JoinPlain(words[1..]);
    }
  }

  lemma UserPlain(user: string)
    requires IsUser(user)
    ensures OneLine(user)
  {
    AllOfPlain(user[1..], IsUserChar);
    assert user == [user[0]] + user[1..];
  }

  lemma {:induction false} WritersAre(list: seq<Access>)
    ensures forall a :: a in Writers(list) ==> a in list
  {
    if list != [] {
      WritersAre(list[1..]);
    }
  }

  lemma UsersPlain(list: seq<Access>)
    requires forall a :: a in list ==> IsUser(a.user)
    ensures OneLine(Join(UsersOf(list), ' '))
  {
    forall i | 0 <= i < |list| ensures OneLine(UsersOf(list)[i]) {
      assert list[i] in list;
      UserPlain(list[i].user);
    }
    JoinPlain(UsersOf(list));
  }

  lemma AccessPlain(x: Share, c: Config)
    requires Sound(x) && OneLine(c.group)
    ensures OneLiners(AccessLines(x, c))
  {
    if x.access.Some? {
      var list := x.access.value;
      UsersPlain(list);
      WritersAre(list);
      UsersPlain(Writers(list));
    }
  }

  lemma SectionPlain(o: Offer, c: Config)
    requires Sound(o.share) && o.mountpoint.Some? && OneLine(o.mountpoint.value)
    requires OneLine(c.group) && OneLine(c.owner) && OneLine(c.ownerGroup)
    ensures OneLiners(Section(o, c))
  {
    WherePlain(o);
    AccessPlain(o.share, c);
    MasksPlain(o, c);
    OneLinersJoined(Where(o), AccessLines(o.share, c));
    OneLinersJoined(Where(o) + AccessLines(o.share, c), Masks(o, c));
  }

  lemma WherePlain(o: Offer)
    requires Sound(o.share) && o.mountpoint.Some? && OneLine(o.mountpoint.value)
    ensures OneLiners(Where(o))
  {
    NamePlain(o.share);
  }

  lemma MasksPlain(o: Offer, c: Config)
    requires OneLine(c.owner) && OneLine(c.ownerGroup)
    ensures OneLiners(Masks(o, c))
  {
    var lines := Masks(o, c);
    assert OneLine(lines[0]);
    assert OneLine(lines[1]);
    assert OneLine(lines[2]);
    assert OneLine(lines[3]);
    assert OneLine(lines[4]);
    assert OneLine(lines[5]);
  }

  lemma OneLinersJoined(a: seq<string>, b: seq<string>)
    requires OneLiners(a) && OneLiners(b)
    ensures OneLiners(a + b)
  {
  }

  lemma {:induction false} SectionsPlain(offers: seq<Offer>, c: Config)
    requires Plain(offers, c) && forall i :: 0 <= i < |offers| ==> Sound(offers[i].share)
    ensures OneLiners(Sections(offers, c))
    decreases |offers|
  {
    if offers != [] {
      SectionsPlain(offers[..|offers| - 1], c);
      if InConf(offers[|offers| - 1]) {
        SectionPlain(offers[|offers| - 1], c);
      }
    }
  }

  // ---- the sections of the file ----

  ghost predicate ApartNames(offers: seq<Offer>) {
    forall i, j :: 0 <= i < j < |offers| && offers[i].share.smb && offers[j].share.smb ==>
      SmbName(offers[i].share.dataset) != SmbName(offers[j].share.dataset)
  }

  lemma LowerJoined(a: string, b: string)
    ensures Lower(a + b) == Lower(a) + Lower(b)
  {
    if a == "" {
      assert a + b == b;
    } else {
      assert (a + b)[0] == a[0] && (a + b)[1..] == a[1..] + b;
      LowerJoined(a[1..], b);
    }
  }

  lemma HeaderName(x: Share)
    ensures Lower(HeaderOf(x)) == "[" + SmbName(x.dataset) + "]"
  {
    LowerJoined("[" + NameOf(x.dataset), "]");
    LowerJoined("[", NameOf(x.dataset));
    assert Lower("[") == "[" && Lower("]") == "]";
  }

  lemma SameHeader(x: Share, y: Share)
    requires Lower(HeaderOf(x)) == Lower(HeaderOf(y))
    ensures SmbName(x.dataset) == SmbName(y.dataset)
  {
    HeaderName(x);
    HeaderName(y);
    WithinBrackets(SmbName(x.dataset));
    WithinBrackets(SmbName(y.dataset));
  }

  lemma WithinBrackets(a: string)
    ensures |"[" + a + "]"| == |a| + 2 && ("[" + a + "]")[1..|a| + 1] == a
  {}

  lemma GlobalWithinBrackets()
    ensures "[global]"[1..7] == "global"
  {}

  lemma GlobalIsReserved(x: Share)
    requires Lower(HeaderOf(x)) == "[global]"
    ensures Reserved(SmbName(x.dataset))
  {
    HeaderName(x);
    WithinBrackets(SmbName(x.dataset));
    GlobalWithinBrackets();
  }

  lemma {:induction false} InHeaders(offers: seq<Offer>, h: string)
    requires h in HeadersOf(offers)
    ensures exists i :: 0 <= i < |offers| && InConf(offers[i]) && h == HeaderOf(offers[i].share)
    decreases |offers|
  {
    var front, o := offers[..|offers| - 1], offers[|offers| - 1];
    if h in HeadersOf(front) {
      InHeaders(front, h);
      var i :| 0 <= i < |front| && InConf(front[i]) && h == HeaderOf(front[i].share);
      assert offers[i] == front[i];
    }
  }

  lemma {:induction false} HeadersApart(offers: seq<Offer>, i: nat, j: nat)
    requires ApartNames(offers) && i < j < |HeadersOf(offers)|
    ensures Lower(HeadersOf(offers)[i]) != Lower(HeadersOf(offers)[j])
    decreases |offers|
  {
    var front, o := offers[..|offers| - 1], offers[|offers| - 1];
    if j < |HeadersOf(front)| {
      HeadersApart(front, i, j);
    } else {
      var h := HeadersOf(front)[i];
      InHeaders(front, h);
      var k :| 0 <= k < |front| && InConf(front[k]) && h == HeaderOf(front[k].share);
      assert offers[k] == front[k];
      if Lower(h) == Lower(HeaderOf(o.share)) {
        SameHeader(front[k].share, o.share);
        assert false;
      }
    }
  }

  /**
   * The text read line by line has the global section and then one section for each share that is in, in their order;
   * and for any table at all, a restored one included, no two of them are the same to Samba.
   */
  lemma SectionsApart(rows: seq<Share>, mounts: Mounts, c: Config)
    requires Plain(Mounted(Listed(rows), mounts), c)
    ensures
      var offers := Mounted(Listed(rows), mounts);
      var headers := Headers(Split(SmbConfText(offers, c), '\n'));
      headers == ["[global]"] + HeadersOf(offers) && NoneTwice(headers)
  {
    var offers := Mounted(Listed(rows), mounts);
    ListedIsSound(rows, mounts);
    ConfLines(offers, c);
    HeadersNotTwice(offers);
  }

  /** The agent's own settings are such settings. */
  lemma OwnSectionsApart(rows: seq<Share>, mounts: Mounts, c: Config)
    requires c.settings == OwnSettings()
    requires Outside(Mounted(Listed(rows), mounts), c)
    ensures
      var offers := Mounted(Listed(rows), mounts);
      var headers := Headers(Split(SmbConfText(offers, c), '\n'));
      headers == ["[global]"] + HeadersOf(offers) && NoneTwice(headers)
  {
    OwnSettingsFit();
    SectionsApart(rows, mounts, c);
  }

  ghost predicate NoneTwice(headers: seq<string>) {
    forall i, j :: 0 <= i < j < |headers| ==> Lower(headers[i]) != Lower(headers[j])
  }

  lemma ListedIsSound(rows: seq<Share>, mounts: Mounts)
    ensures
      var offers := Mounted(Listed(rows), mounts);
      ApartNames(offers) && forall i :: 0 <= i < |offers| ==> Sound(offers[i].share)
  {
    var offers := Mounted(Listed(rows), mounts);
    ListedNames(rows, {});
    forall i | 0 <= i < |offers| ensures Sound(offers[i].share) {
      assert offers[i].share == Listed(rows)[i];
      assert Listed(rows)[i] in Listed(rows);
    }
  }

  lemma HeadersNotTwice(offers: seq<Offer>)
    requires ApartNames(offers) && forall i :: 0 <= i < |offers| ==> Sound(offers[i].share)
    ensures NoneTwice(["[global]"] + HeadersOf(offers))
  {
    forall i, j | 0 <= i < j < |HeadersOf(offers)| ensures Lower(HeadersOf(offers)[i]) != Lower(HeadersOf(offers)[j]) {
      HeadersApart(offers, i, j);
    }
    forall j | 0 <= j < |HeadersOf(offers)| ensures Lower("[global]") != Lower(HeadersOf(offers)[j]) {
      NotGlobal(offers, j);
    }
    NoneTwiceMore("[global]", HeadersOf(offers));
  }

  lemma NoneTwiceMore(first: string, rest: seq<string>)
    requires NoneTwice(rest) && forall j :: 0 <= j < |rest| ==> Lower(first) != Lower(rest[j])
    ensures NoneTwice([first] + rest)
  {
  }

  lemma HeadersOfText(a: seq<string>, b: seq<string>)
    requires a != [] && OneLiners(a) && OneLiners(b)
    ensures Headers(Split(Join(a + b, '\n'), '\n')) == Headers(a) + Headers(b)
  {
    OneLinersJoined(a, b);
    assert forall i :: 0 <= i < |a + b| ==> (a + b)[i] in a + b;
    SplitJoin(a + b, '\n');
    HeadersJoined(a, b);
  }

  lemma ConfLines(offers: seq<Offer>, c: Config)
    requires Plain(offers, c) && forall i :: 0 <= i < |offers| ==> Sound(offers[i].share)
    ensures Headers(Split(SmbConfText(offers, c), '\n')) == ["[global]"] + HeadersOf(offers)
  {
    FirstLinesAre(c);
    SectionsAre(offers, c);
    TextHeaders(FirstLines(c), Sections(offers, c), ["[global]"], HeadersOf(offers));
  }

  lemma FirstLinesAre(c: Config)
    requires OneLine(c.hostname) && Fits(c.settings)
    ensures OneLiners(FirstLines(c)) && Headers(FirstLines(c)) == ["[global]"]
  {
    OpeningPlain(c);
    OpeningHeader(c);
    OneLinersJoined(Opening(c), c.settings);
    HeadersJoined(Opening(c), c.settings);
  }

  lemma SectionsAre(offers: seq<Offer>, c: Config)
    requires Plain(offers, c) && forall i :: 0 <= i < |offers| ==> Sound(offers[i].share)
    ensures OneLiners(Sections(offers, c)) && Headers(Sections(offers, c)) == HeadersOf(offers)
  {
    SectionsPlain(offers, c);
    HeadersOfSections(offers, c);
  }

  lemma TextHeaders(a: seq<string>, b: seq<string>, ha: seq<string>, hb: seq<string>)
    requires OneLiners(a) && OneLiners(b) && Headers(a) == ha && Headers(b) == hb && ha != []
    ensures Headers(Split(Join(a + b, '\n'), '\n')) == ha + hb
  {
    HeadersOfText(a, b);
  }

  lemma NotGlobal(offers: seq<Offer>, j: nat)
    requires j < |HeadersOf(offers)| && forall i :: 0 <= i < |offers| ==> Sound(offers[i].share)
    ensures Lower("[global]") == "[global]" && Lower(HeadersOf(offers)[j]) != "[global]"
  {
    InHeaders(offers, HeadersOf(offers)[j]);
    var k :| 0 <= k < |offers| && InConf(offers[k]) && HeadersOf(offers)[j] == HeaderOf(offers[k].share);
    if Lower(HeadersOf(offers)[j]) == "[global]" {
      GlobalIsReserved(offers[k].share);
      assert false;
    }
    LowerGlobal();
  }

  lemma LowerGlobal()
    ensures Lower("[global]") == "[global]"
  {
    LowerJoined("[gl", "obal]");
    assert "[gl" + "obal]" == "[global]";
    assert Lower("[gl") == "[gl" by {
      LowerJoined("[g", "l");
      LowerJoined("[", "g");
    }
    assert Lower("obal]") == "obal]" by {
      LowerJoined("oba", "l]");
      LowerJoined("ob", "a");
      LowerJoined("o", "b");
      LowerJoined("l", "]");
    }
  }
}
