/** Who may open an SMB share and who may write to it, read from the text of smb.conf as Samba reads it. */
module ShareAccess {
  import opened Text
  import opened ShareTable
  import opened ShareFiles
  import opened ShareSections

  // ---- reading ----

  /** The lines of the section that a header opens. */
  function SectionUnder(lines: seq<string>, header: string): seq<string> {
    if lines == [] then []
    else if lines[0] == header then UpToHeader(lines[1..])
    else SectionUnder(lines[1..], header)
  }

  function UpToHeader(lines: seq<string>): seq<string> {
    if lines == [] || IsHeader(lines[0]) then [] else [lines[0]] + UpToHeader(lines[1..])
  }

  /** A parameter and its value, blanks around either aside. */
  function Setting(line: string): seq<(string, string)> {
    var i := IndexOf(line, '=');
    if i == |line| then [] else [(Trim(line[..i]), Trim(line[i + 1..]))]
  }

  function Settings(lines: seq<string>): seq<(string, string)> {
    if lines == [] then [] else Setting(lines[0]) + Settings(lines[1..])
  }

  function Values(settings: seq<(string, string)>, key: string): seq<string> {
    if settings == [] then []
    else (if settings[0].0 == key then [settings[0].1] else []) + Values(settings[1..], key)
  }

  /** What the file sets for a share. */
  function SetFor(text: string, x: Share): seq<(string, string)> {
    Settings(SectionUnder(Split(text, '\n'), HeaderOf(x)))
  }

  // ---- what it should say ----

  /** The users of the list, one by one. */
  ghost predicate Lists(words: seq<string>, list: seq<Access>) {
    |words| == |list| && forall i :: 0 <= i < |list| ==> words[i] == list[i].user
  }

  ghost predicate MayWrite(list: seq<Access>, user: string) {
    exists a :: a in list && a.user == user && a.level == "write"
  }

  /**
   * A share without a list is for the whole group; one with a list for exactly those on it, its writers alone to write.
   */
  ghost predicate AccessTold(settings: seq<(string, string)>, x: Share, group: string) {
    match x.access
    case None =>
      && Values(settings, "read only") == ["no"] && Values(settings, "write list") == []
      && Values(settings, "valid users") == [Trim("@" + group)]
    case Some(list) =>
      && Values(settings, "read only") == ["yes"]
      && |Values(settings, "valid users")| == 1 && Lists(Split(Values(settings, "valid users")[0], ' '), list)
      && if forall user :: !MayWrite(list, user) then Values(settings, "write list") == []
         else
           && |Values(settings, "write list")| == 1
           && forall user :: user in Split(Values(settings, "write list")[0], ' ') <==> MayWrite(list, user)
  }

  /** The other parameters of a section, and that there are no more. */
  ghost predicate RestTold(settings: seq<(string, string)>, o: Offer, c: Config)
    requires o.mountpoint.Some?
  {
    && PlaceGiven(settings, o.mountpoint.value) && MasksGiven(settings, o, c) && OnlyKnown(settings)
  }

  ghost predicate PlaceGiven(settings: seq<(string, string)>, at: string) {
    Values(settings, "path") == [Trim(at)] && Values(settings, "browseable") == ["yes"]
  }

  ghost predicate MasksGiven(settings: seq<(string, string)>, o: Offer, c: Config) {
    && Values(settings, "force user") == [Trim(c.owner)] && Values(settings, "force group") == [Trim(c.ownerGroup)]
    && Values(settings, "create mask") == ["0664"] && Values(settings, "directory mask") == ["0775"]
    && Values(settings, "veto files") == ["/.mk-drive/.zfs/"]
    && Values(settings, "fruit:time machine") == (if o.share.timeMachine then ["yes"] else [])
  }

  ghost predicate OnlyKnown(settings: seq<(string, string)>) { forall s :: s in settings ==> Known(s.0) }

  predicate Known(key: string) {
    key in {
      "path", "browseable", "read only", "valid users", "write list", "force user", "force group", "create mask",
      "directory mask", "veto files", "fruit:time machine"
    }
  }

  // ---- lists of settings ----

  lemma {:induction false} SettingsJoined(a: seq<string>, b: seq<string>)
    ensures Settings(a + b) == Settings(a) + Settings(b)
    decreases |a|
  {
    if a == [] {
      assert a + b == b;
    } else {
      assert (a + b)[0] == a[0] && (a + b)[1..] == a[1..] + b;
      SettingsJoined(a[1..], b);
      Associates(Setting(a[0]), Settings(a[1..]), Settings(b));
    }
  }

  lemma {:induction false} ValuesJoined(a: seq<(string, string)>, b: seq<(string, string)>, key: string)
    ensures Values(a + b, key) == Values(a, key) + Values(b, key)
    decreases |a|
  {
    if a == [] {
      assert a + b == b;
    } else {
      assert (a + b)[0] == a[0] && (a + b)[1..] == a[1..] + b;
      ValuesJoined(a[1..], b, key);
      Associates(if a[0].0 == key then [a[0].1] else [], Values(a[1..], key), Values(b, key));
    }
  }

  lemma SettingsFirst(line: string, rest: seq<string>)
    ensures Settings([line] + rest) == Setting(line) + Settings(rest)
  {
    assert ([line] + rest)[1..] == rest;
  }

  /** A line of a section as the agent writes it. */
  lemma SettingOf(line: string, key: string, value: string)
    requires line == "   " + key + " = " + value
    requires key != "" && '=' !in key && !IsSpace(key[0]) && !IsSpace(key[|key| - 1])
    ensures Setting(line) == [(key, Trim(value))]
  {
    var before, after := "   " + key + " ", " " + value;
    assert line == before + ['='] + after;
    IndexOfFirst(before, '=', after);
    assert line[..|before|] == before && line[|before| + 1..] == after;
    TrimAround(key);
    TrimAfter(value);
  }

  lemma TrimAround(key: string)
    requires key != "" && !IsSpace(key[0]) && !IsSpace(key[|key| - 1])
    ensures Trim("   " + key + " ") == key
  {
    var s := "   " + key + " ";
    assert s == "   " + (key + " ") && (key + " ")[0] == key[0];
    TrimStartThree(key + " ");
    assert (key + " ")[..|key|] == key;
    assert TrimEnd(key + " ") == TrimEnd(key) == key;
  }

  lemma TrimStartThree(s: string)
    requires s != "" && !IsSpace(s[0])
    ensures TrimStart("   " + s) == s
  {
    assert ("   " + s)[1..] == "  " + s && ("  " + s)[1..] == " " + s && (" " + s)[1..] == s;
    assert TrimStart(s) == s && TrimStart(" " + s) == s && TrimStart("  " + s) == s;
  }

  lemma TrimAfter(value: string)
    ensures Trim(" " + value) == Trim(value)
  {
    assert (" " + value)[1..] == value;
    assert TrimStart(" " + value) == TrimStart(value);
  }

  predicate IsKey(key: string) { key != "" && '=' !in key && !IsSpace(key[0]) && !IsSpace(key[|key| - 1]) }

  /** Lines that each set one parameter. */
  ghost predicate SetEach(lines: seq<string>, keys: seq<string>, values: seq<string>) {
    && |lines| == |keys| == |values|
    && forall i :: 0 <= i < |lines| ==> IsKey(keys[i]) && lines[i] == "   " + keys[i] + " = " + values[i]
  }

  function Paired(keys: seq<string>, values: seq<string>): seq<(string, string)>
    requires |keys| == |values|
  {
    if keys == [] then [] else [(keys[0], Trim(values[0]))] + Paired(keys[1..], values[1..])
  }

  lemma {:induction false} SettingsOfEach(lines: seq<string>, keys: seq<string>, values: seq<string>)
    requires SetEach(lines, keys, values)
    ensures Settings(lines) == Paired(keys, values)
  {
    if lines != [] {
      SettingOf(lines[0], keys[0], values[0]);
      SettingsOfEach(lines[1..], keys[1..], values[1..]);
    }
  }

  lemma {:induction false} ValuesAbsent(keys: seq<string>, values: seq<string>, key: string)
    requires |keys| == |values| && key !in keys
    ensures Values(Paired(keys, values), key) == []
  {
    if keys != [] {
      ValuesAbsent(keys[1..], values[1..], key);
      assert ([(keys[0], Trim(values[0]))] + Paired(keys[1..], values[1..]))[1..] == Paired(keys[1..], values[1..]);
    }
  }

  /** A parameter that is set once. */
  lemma {:induction false} ValuesOnce(keys: seq<string>, values: seq<string>, i: nat)
    requires |keys| == |values| && i < |keys| && forall j :: 0 <= j < |keys| && j != i ==> keys[j] != keys[i]
    ensures Values(Paired(keys, values), keys[i]) == [Trim(values[i])]
  {
    var rest := Paired(keys[1..], values[1..]);
    assert ([(keys[0], Trim(values[0]))] + rest)[1..] == rest;
    if i == 0 {
      forall k | k in keys[1..] ensures k != keys[0] {
        var j :| 0 <= j < |keys[1..]| && keys[1..][j] == k;
        assert keys[j + 1] == k;
      }
      ValuesAbsent(keys[1..], values[1..], keys[0]);
    } else {
      ValuesOnce(keys[1..], values[1..], i - 1);
    }
  }

  ghost predicate NoneTwice(keys: seq<string>) { forall i, j :: 0 <= i < j < |keys| ==> keys[i] != keys[j] }

  /** Parameters that are set once each. */
  ghost predicate Gives(settings: seq<(string, string)>, keys: seq<string>, values: seq<string>) {
    && |keys| == |values|
    && (forall i :: 0 <= i < |keys| ==> Values(settings, keys[i]) == [Trim(values[i])])
    && forall key :: key !in keys ==> Values(settings, key) == []
  }

  lemma PairedGives(keys: seq<string>, values: seq<string>)
    requires |keys| == |values| && NoneTwice(keys)
    ensures Gives(Paired(keys, values), keys, values)
  {
    forall i | 0 <= i < |keys| ensures Values(Paired(keys, values), keys[i]) == [Trim(values[i])] {
      ValuesOnce(keys, values, i);
    }
    forall key | key !in keys ensures Values(Paired(keys, values), key) == [] {
      ValuesAbsent(keys, values, key);
    }
  }

  // ---- what a section sets ----

  function AccessKeys(x: Share): seq<string> {
    ["read only", "valid users"]
    + if x.access.Some? && Writers(x.access.value) != [] then ["write list"] else []
  }

  function AccessValues(x: Share, c: Config): seq<string> {
    match x.access
    case None => ["no", "@" + c.group]
    case Some(list) =>
      ["yes", Join(UsersOf(list), ' ')]
      + if Writers(list) != [] then [Join(UsersOf(Writers(list)), ' ')] else []
  }

  function MaskKeys(o: Offer): seq<string> {
    ["force user", "force group", "create mask", "directory mask", "veto files"]
    + if o.share.timeMachine then ["fruit:time machine"] else []
  }

  function MaskValues(o: Offer, c: Config): seq<string> {
    [c.owner, c.ownerGroup, "0664", "0775", "/.mk-drive/.zfs/"] + if o.share.timeMachine then ["yes"] else []
  }

  lemma WhereSets(o: Offer)
    requires o.mountpoint.Some?
    ensures SetEach(Where(o)[1..], ["path", "browseable"], [o.mountpoint.value, "yes"])
  {
    PathText(o.mountpoint.value);
    BrowseText();
  }

  lemma PathText(at: string)
    ensures "   path = " + at == "   " + "path" + " = " + at && IsKey("path")
  {}

  lemma BrowseText()
    ensures "   browseable = yes" == "   " + "browseable" + " = " + "yes" && IsKey("browseable")
  {}

  lemma ReadText()
    ensures "   read only = no" == "   " + "read only" + " = " + "no" && IsKey("read only")
    ensures "   read only = yes" == "   " + "read only" + " = " + "yes"
  {}

  lemma UsersText(users: string, group: string)
    ensures "   valid users = " + users == "   " + "valid users" + " = " + users && IsKey("valid users")
    ensures "   valid users = @" + group == "   " + "valid users" + " = " + ("@" + group)
  {}

  lemma WriteText(users: string)
    ensures "   write list = " + users == "   " + "write list" + " = " + users && IsKey("write list")
  {}

  lemma AccessSets(x: Share, c: Config)
    ensures SetEach(AccessLines(x, c), AccessKeys(x), AccessValues(x, c))
  {
    ReadText();
    match x.access
    case None => UsersText("", c.group);
    case Some(list) =>
      UsersText(Join(UsersOf(list), ' '), "");
      WriteText(Join(UsersOf(Writers(list)), ' '));
  }

  lemma ForceText(owner: string, group: string)
    ensures "   force user = " + owner == "   " + "force user" + " = " + owner && IsKey("force user")
    ensures "   force group = " + group == "   " + "force group" + " = " + group && IsKey("force group")
  {}

  lemma MaskText()
    ensures "   create mask = 0664" == "   " + "create mask" + " = " + "0664" && IsKey("create mask")
    ensures "   directory mask = 0775" == "   " + "directory mask" + " = " + "0775" && IsKey("directory mask")
  {}

  lemma VetoText()
    ensures
      "   veto files = /.mk-drive/.zfs/" == "   " + "veto files" + " = " + "/.mk-drive/.zfs/" && IsKey("veto files")
  {}

  lemma TimeText()
    ensures "   fruit:time machine = yes" == "   " + "fruit:time machine" + " = " + "yes" && IsKey("fruit:time machine")
  {}

  lemma MaskSets(o: Offer, c: Config)
    ensures
      var lines := Masks(o, c);
      lines != [] && lines[|lines| - 1] == "" && SetEach(lines[..|lines| - 1], MaskKeys(o), MaskValues(o, c))
  {
    ForceText(c.owner, c.ownerGroup);
    MaskText();
    VetoText();
    TimeText();
  }

  lemma FirstLetters()
    ensures |"path"| == 4 && |"browseable"| == 10 && "browseable"[0] == 'b' && |"read only"| == 9
    ensures |"valid users"| == 11 && "valid users"[0] == 'v' && |"write list"| == 10 && "write list"[0] == 'w'
    ensures |"force user"| == 10 && "force user"[0] == 'f' && |"force group"| == 11 && "force group"[0] == 'f'
    ensures |"create mask"| == 11 && "create mask"[0] == 'c' && |"directory mask"| == 14
    ensures |"veto files"| == 10 && "veto files"[0] == 'v' && |"fruit:time machine"| == 18
  {}

  /** The first parameters of a section, and no others. */
  ghost predicate WherePart(settings: seq<(string, string)>, at: string) {
    PlaceGiven(settings, at) && forall key :: !IsPlace(key) ==> Values(settings, key) == []
  }

  lemma WhereValues(at: string)
    ensures WherePart(Paired(["path", "browseable"], [at, "yes"]), at)
  {
    var keys, values := ["path", "browseable"], [at, "yes"];
    FirstLetters();
    TrimClean("yes");
    ValuesOnce(keys, values, 0);
    ValuesOnce(keys, values, 1);
    forall key | !IsPlace(key) ensures Values(Paired(keys, values), key) == [] {
      ValuesAbsent(keys, values, key);
    }
  }

  /** Those about access, and no others. */
  ghost predicate AccessPart(settings: seq<(string, string)>, x: Share, c: Config) {
    && AccessGiven(settings, x, c)
    && forall key :: !AboutAccess(key) ==> Values(settings, key) == []
  }

  ghost predicate AccessGiven(settings: seq<(string, string)>, x: Share, c: Config) {
    && Values(settings, "read only") == [if x.access.None? then "no" else "yes"]
    && Values(settings, "valid users") == [Trim(AccessValues(x, c)[1])]
    && Values(settings, "write list")
       == (if x.access.Some? && Writers(x.access.value) != [] then [Trim(AccessValues(x, c)[2])] else [])
  }

  lemma AccessValuesAre(x: Share, c: Config)
    ensures |AccessKeys(x)| == |AccessValues(x, c)|
    ensures AccessPart(Paired(AccessKeys(x), AccessValues(x, c)), x, c)
  {
    AccessKeysApart(x);
    PairedGives(AccessKeys(x), AccessValues(x, c));
    YesNoTrimmed();
    AccessFrom(Paired(AccessKeys(x), AccessValues(x, c)), x, c);
  }

  lemma YesNoTrimmed()
    ensures Trim("yes") == "yes" && Trim("no") == "no"
  {
    TrimClean("yes");
    TrimClean("no");
  }

  lemma AccessKeysApart(x: Share)
    ensures NoneTwice(AccessKeys(x)) && forall key :: key in AccessKeys(x) ==> AboutAccess(key)
    ensures |AccessKeys(x)| == 2 ==> "write list" !in AccessKeys(x)
  {
    FirstLetters();
  }

  lemma AccessFrom(settings: seq<(string, string)>, x: Share, c: Config)
    requires
      Gives(settings, AccessKeys(x), AccessValues(x, c)) && forall key :: key in AccessKeys(x) ==> AboutAccess(key)
    requires |AccessKeys(x)| == 2 ==> "write list" !in AccessKeys(x)
    requires Trim("yes") == "yes" && Trim("no") == "no"
    ensures AccessPart(settings, x, c)
  {
    GivesFirst(settings, AccessKeys(x), AccessValues(x, c));
    if |AccessKeys(x)| == 3 {
      GivesAt(settings, AccessKeys(x), AccessValues(x, c), 2);
    } else {
      GivesNone(settings, AccessKeys(x), AccessValues(x, c), "write list");
    }
    forall key | !AboutAccess(key) ensures Values(settings, key) == [] {
      GivesNone(settings, AccessKeys(x), AccessValues(x, c), key);
    }
  }

  lemma GivesAt(settings: seq<(string, string)>, keys: seq<string>, values: seq<string>, i: nat)
    requires Gives(settings, keys, values) && i < |keys|
    ensures Values(settings, keys[i]) == [Trim(values[i])]
  {}

  lemma GivesFirst(settings: seq<(string, string)>, keys: seq<string>, values: seq<string>)
    requires Gives(settings, keys, values) && |keys| >= 2
    ensures Values(settings, keys[0]) == [Trim(values[0])] && Values(settings, keys[1]) == [Trim(values[1])]
  {}

  lemma GivesNone(settings: seq<(string, string)>, keys: seq<string>, values: seq<string>, key: string)
    requires Gives(settings, keys, values) && key !in keys
    ensures Values(settings, key) == []
  {}

  predicate IsMask(key: string) {
    || key == "force user" || key == "force group" || key == "create mask" || key == "directory mask"
    || key == "veto files" || key == "fruit:time machine"
  }

  /** The last ones, and no others. */
  ghost predicate MaskPart(settings: seq<(string, string)>, o: Offer, c: Config) {
    MasksGiven(settings, o, c) && forall key :: !IsMask(key) ==> Values(settings, key) == []
  }

  lemma MaskValuesAre(o: Offer, c: Config)
    ensures |MaskKeys(o)| == |MaskValues(o, c)|
    ensures MaskPart(Paired(MaskKeys(o), MaskValues(o, c)), o, c)
  {
    MaskKeysApart(o);
    PairedGives(MaskKeys(o), MaskValues(o, c));
    MasksTrimmed();
    MasksFrom(Paired(MaskKeys(o), MaskValues(o, c)), o, c);
  }

  lemma MaskKeysApart(o: Offer)
    ensures NoneTwice(MaskKeys(o)) && forall key :: key in MaskKeys(o) ==> IsMask(key)
    ensures !o.share.timeMachine ==> "fruit:time machine" !in MaskKeys(o)
  {
    FirstLetters();
  }

  lemma MasksFrom(settings: seq<(string, string)>, o: Offer, c: Config)
    requires Gives(settings, MaskKeys(o), MaskValues(o, c)) && forall key :: key in MaskKeys(o) ==> IsMask(key)
    requires !o.share.timeMachine ==> "fruit:time machine" !in MaskKeys(o)
    requires Trim("0664") == "0664" && Trim("0775") == "0775" && Trim("yes") == "yes"
    requires Trim("/.mk-drive/.zfs/") == "/.mk-drive/.zfs/"
    ensures MaskPart(settings, o, c)
  {
    GivesFirst(settings, MaskKeys(o), MaskValues(o, c));
    GivesAt(settings, MaskKeys(o), MaskValues(o, c), 2);
    GivesAt(settings, MaskKeys(o), MaskValues(o, c), 3);
    GivesAt(settings, MaskKeys(o), MaskValues(o, c), 4);
    TimeMachineFrom(settings, o, c);
    forall key | !IsMask(key) ensures Values(settings, key) == [] {
      GivesNone(settings, MaskKeys(o), MaskValues(o, c), key);
    }
  }

  lemma TimeMachineFrom(settings: seq<(string, string)>, o: Offer, c: Config)
    requires Gives(settings, MaskKeys(o), MaskValues(o, c)) && Trim("yes") == "yes"
    requires !o.share.timeMachine ==> "fruit:time machine" !in MaskKeys(o)
    ensures Values(settings, "fruit:time machine") == if o.share.timeMachine then ["yes"] else []
  {
    if o.share.timeMachine {
      GivesAt(settings, MaskKeys(o), MaskValues(o, c), 5);
    } else {
      GivesNone(settings, MaskKeys(o), MaskValues(o, c), "fruit:time machine");
    }
  }

  lemma MasksTrimmed()
    ensures Trim("0664") == "0664" && Trim("0775") == "0775" && Trim("yes") == "yes"
    ensures Trim("/.mk-drive/.zfs/") == "/.mk-drive/.zfs/"
  {
    TrimClean("0664");
    TrimClean("0775");
    TrimClean("yes");
    assert "/.mk-drive/.zfs/"[15] == '/';
    TrimClean("/.mk-drive/.zfs/");
  }

  lemma {:induction false} PairedKeys(keys: seq<string>, values: seq<string>)
    requires |keys| == |values|
    ensures forall s :: s in Paired(keys, values) ==> s.0 in keys
  {
    if keys != [] {
      PairedKeys(keys[1..], values[1..]);
    }
  }

  lemma SectionSettings(o: Offer, c: Config)
    requires o.mountpoint.Some?
    ensures |AccessKeys(o.share)| == |AccessValues(o.share, c)| && |MaskKeys(o)| == |MaskValues(o, c)|
    ensures
      Settings(Section(o, c)[1..])
      == WhereSet(o) + Paired(AccessKeys(o.share), AccessValues(o.share, c)) + Paired(MaskKeys(o), MaskValues(o, c))
  {
    var where, access, masks := Where(o)[1..], AccessLines(o.share, c), Masks(o, c);
    var front := masks[..|masks| - 1];
    WhereSets(o);
    AccessSets(o.share, c);
    MaskSets(o, c);
    SettingsOfEach(where, ["path", "browseable"], [o.mountpoint.value, "yes"]);
    SettingsOfEach(access, AccessKeys(o.share), AccessValues(o.share, c));
    SettingsOfEach(front, MaskKeys(o), MaskValues(o, c));
    BodyOf(Where(o), access, masks);
    SettingsJoined(where, access);
    SettingsJoined(where + access, masks);
    LastSetsNothing(masks);
  }

  lemma BodyOf(a: seq<string>, b: seq<string>, c: seq<string>)
    requires a != []
    ensures (a + b + c)[1..] == a[1..] + b + c
  {}

  lemma LastSetsNothing(lines: seq<string>)
    requires lines != [] && lines[|lines| - 1] == ""
    ensures Settings(lines) == Settings(lines[..|lines| - 1])
  {
    var front := lines[..|lines| - 1];
    assert lines == front + [""];
    SettingsJoined(front, [""]);
    SettingsFirst("", []);
    assert [""] + [] == [""] && Setting("") == [] && Settings([]) == [];
    assert Settings(front) + [] == Settings(front);
  }

  // ---- the words of a list ----

  lemma {:induction false} AllOfAre(s: string, ok: char -> bool)
    requires AllOf(s, ok)
    ensures forall c :: c in s ==> ok(c)
  {
    if s != "" {
      AllOfAre(s[1..], ok);
      assert s == [s[0]] + s[1..];
    }
  }

  lemma UserIsWord(user: string)
    requires IsUser(user)
    ensures IsWord(user) && ' ' !in user
  {
    AllOfAre(user[1..], IsUserChar);
    UserCharsAreNoSpaces();
    assert user == [user[0]] + user[1..];
    forall i | 0 <= i < |user| ensures !IsSpace(user[i]) {
      assert i > 0 ==> user[i] == user[1..][i - 1];
    }
    assert forall c :: c in user ==> !IsSpace(c);
  }

  lemma UserCharsAreNoSpaces()
    ensures forall c :: IsUserChar(c) || IsLower(c) ==> !IsSpace(c)
  {}

  lemma WordsOfUsers(list: seq<Access>)
    requires list != [] && forall a :: a in list ==> IsUser(a.user)
    ensures Split(Trim(Join(UsersOf(list), ' ')), ' ') == UsersOf(list)
  {
    var users := UsersOf(list);
    forall i | 0 <= i < |users| ensures IsWord(users[i]) && ' ' !in users[i] {
      assert list[i] in list;
      UserIsWord(list[i].user);
    }
    JoinEnds(users);
    TrimClean(Join(users, ' '));
    SplitJoin(users, ' ');
  }

  lemma {:induction false} WritersExactly(list: seq<Access>, a: Access)
    ensures a in Writers(list) <==> a in list && a.level == "write"
  {
    if list != [] {
      WritersExactly(list[1..], a);
      assert list == [list[0]] + list[1..];
    }
  }

  lemma WritersMayWrite(list: seq<Access>, user: string)
    ensures user in UsersOf(Writers(list)) <==> MayWrite(list, user)
  {
    var writers := Writers(list);
    if user in UsersOf(writers) {
      var i :| 0 <= i < |UsersOf(writers)| && UsersOf(writers)[i] == user;
      assert writers[i] in writers;
      WritersExactly(list, writers[i]);
    }
    if MayWrite(list, user) {
      var a :| a in list && a.user == user && a.level == "write";
      WritersExactly(list, a);
      var i :| 0 <= i < |writers| && writers[i] == a;
      assert UsersOf(writers)[i] == user;
    }
  }

  lemma WritersTold(list: seq<Access>)
    requires forall a :: a in list ==> IsUser(a.user)
    ensures Writers(list) == [] <==> forall user :: !MayWrite(list, user)
    ensures
      Writers(list) != [] ==>
        forall user :: user in Split(Trim(Join(UsersOf(Writers(list)), ' ')), ' ') <==> MayWrite(list, user)
  {
    forall user ensures user in UsersOf(Writers(list)) <==> MayWrite(list, user) {
      WritersMayWrite(list, user);
    }
    if Writers(list) != [] {
      assert UsersOf(Writers(list))[0] in UsersOf(Writers(list));
      WritersAre(list);
      WordsOfUsers(Writers(list));
    }
  }

  // ---- the section says it ----

  lemma SectionTells(o: Offer, c: Config)
    requires Sound(o.share) && InConf(o)
    ensures AccessTold(Settings(Section(o, c)[1..]), o.share, c.group) && RestTold(Settings(Section(o, c)[1..]), o, c)
  {
    SectionSettings(o, c);
    var w := WhereSet(o);
    var a, m := Paired(AccessKeys(o.share), AccessValues(o.share, c)), Paired(MaskKeys(o), MaskValues(o, c));
    WhereValues(o.mountpoint.value);
    AccessValuesAre(o.share, c);
    MaskValuesAre(o, c);
    forall key
      ensures IsPlace(key) ==> Values(w + a + m, key) == Values(w, key)
      ensures AboutAccess(key) ==> Values(w + a + m, key) == Values(a, key)
      ensures IsMask(key) ==> Values(w + a + m, key) == Values(m, key)
    {
      PartsSum(w, a, m, o, c, key);
    }
    AccessSame(w + a + m, a, o.share, c);
    ToldByValues(w + a + m, o.share, c);
    PlaceSame(w + a + m, w, o.mountpoint.value);
    MasksSame(w + a + m, m, o, c);
    KnownOnly(o, c);
  }

  lemma ValuesOfThree(
      a: seq<(string, string)>, b: seq<(string, string)>, c: seq<(string, string)>, key: string)
    ensures Values(a + b + c, key) == Values(a, key) + Values(b, key) + Values(c, key)
  {
    ValuesJoined(a, b, key);
    ValuesJoined(a + b, c, key);
  }

  function WhereSet(o: Offer): seq<(string, string)>
    requires o.mountpoint.Some?
  {
    Paired(["path", "browseable"], [o.mountpoint.value, "yes"])
  }

  /** What no part but one gives is what that one gives. */
  lemma FromOne(a: seq<(string, string)>, b: seq<(string, string)>, c: seq<(string, string)>, key: string)
    ensures Values(a, key) == [] && Values(c, key) == [] ==> Values(a + b + c, key) == Values(b, key)
    ensures Values(a, key) == [] && Values(b, key) == [] ==> Values(a + b + c, key) == Values(c, key)
    ensures Values(b, key) == [] && Values(c, key) == [] ==> Values(a + b + c, key) == Values(a, key)
  {
    ValuesOfThree(a, b, c, key);
  }

  predicate IsPlace(key: string) { key == "path" || key == "browseable" }

  predicate AboutAccess(key: string) { key == "read only" || key == "valid users" || key == "write list" }

  lemma KindsApart(key: string)
    ensures !(IsPlace(key) && AboutAccess(key)) && !(IsPlace(key) && IsMask(key)) && !(AboutAccess(key) && IsMask(key))
  {
    FirstLetters();
  }

  /** Each parameter comes from its own part. */
  lemma PartsSum(
      w: seq<(string, string)>, a: seq<(string, string)>, m: seq<(string, string)>, o: Offer, c: Config, key: string)
    requires o.mountpoint.Some? && WherePart(w, o.mountpoint.value) && AccessPart(a, o.share, c) && MaskPart(m, o, c)
    ensures IsPlace(key) ==> Values(w + a + m, key) == Values(w, key)
    ensures AboutAccess(key) ==> Values(w + a + m, key) == Values(a, key)
    ensures IsMask(key) ==> Values(w + a + m, key) == Values(m, key)
  {
    KindsApart(key);
    FromOne(w, a, m, key);
    assert !IsPlace(key) ==> Values(w, key) == [];
    assert !AboutAccess(key) ==> Values(a, key) == [];
    assert !IsMask(key) ==> Values(m, key) == [];
  }

  lemma AccessSame(all: seq<(string, string)>, a: seq<(string, string)>, x: Share, c: Config)
    requires
      |AccessValues(x, c)| >= 2 && (x.access.Some? && Writers(x.access.value) != [] ==> |AccessValues(x, c)| == 3)
    requires AccessGiven(a, x, c) && forall key :: AboutAccess(key) ==> Values(all, key) == Values(a, key)
    ensures AccessGiven(all, x, c)
  {
    assert AboutAccess("read only") && AboutAccess("valid users") && AboutAccess("write list");
  }

  lemma MasksSame(all: seq<(string, string)>, m: seq<(string, string)>, o: Offer, c: Config)
    requires MasksGiven(m, o, c) && forall key :: IsMask(key) ==> Values(all, key) == Values(m, key)
    ensures MasksGiven(all, o, c)
  {
    assert IsMask("force user") && IsMask("force group") && IsMask("create mask") && IsMask("directory mask");
    assert IsMask("veto files") && IsMask("fruit:time machine");
  }

  lemma PlaceSame(all: seq<(string, string)>, w: seq<(string, string)>, at: string)
    requires PlaceGiven(w, at) && forall key :: IsPlace(key) ==> Values(all, key) == Values(w, key)
    ensures PlaceGiven(all, at)
  {
    assert IsPlace("path") && IsPlace("browseable");
  }

  lemma ToldByValues(settings: seq<(string, string)>, x: Share, c: Config)
    requires Sound(x) && x.access != Some([]) && AccessGiven(settings, x, c)
    ensures AccessTold(settings, x, c.group)
  {
    if x.access.Some? {
      WordsOfUsers(x.access.value);
      WritersTold(x.access.value);
    }
  }

  lemma KnownOnly(o: Offer, c: Config)
    requires o.mountpoint.Some?
    requires |AccessKeys(o.share)| == |AccessValues(o.share, c)| && |MaskKeys(o)| == |MaskValues(o, c)|
    ensures
      OnlyKnown(
        WhereSet(o) + Paired(AccessKeys(o.share), AccessValues(o.share, c)) + Paired(MaskKeys(o), MaskValues(o, c)))
  {
    PlacesKnown();
    AccessKnown(o.share);
    MasksKnown(o);
    PairedKeys(["path", "browseable"], [o.mountpoint.value, "yes"]);
    PairedKeys(AccessKeys(o.share), AccessValues(o.share, c));
    PairedKeys(MaskKeys(o), MaskValues(o, c));
  }

  lemma PlacesKnown()
    ensures forall key :: key in ["path", "browseable"] ==> Known(key)
  {}

  lemma AccessKnown(x: Share)
    ensures forall key :: key in AccessKeys(x) ==> Known(key)
  {}

  lemma MasksKnown(o: Offer)
    ensures forall key :: key in MaskKeys(o) ==> Known(key)
  {}

  // ---- where the section is ----

  lemma {:induction false} SectionsJoined(a: seq<Offer>, b: seq<Offer>, c: Config)
    ensures Sections(a + b, c) == Sections(a, c) + Sections(b, c)
    decreases |b|
  {
    if b == [] {
      assert a + b == a && Sections(a, c) + [] == Sections(a, c);
    } else {
      var front, o := b[..|b| - 1], b[|b| - 1];
      assert (a + b)[..|a + b| - 1] == a + front && (a + b)[|a + b| - 1] == o;
      SectionsJoined(a, front, c);
      Associates(Sections(a, c), Sections(front, c), if InConf(o) then Section(o, c) else []);
    }
  }

  /** What follows a section is another one or nothing. */
  lemma {:induction false} SectionsBegin(offers: seq<Offer>, c: Config)
    ensures Sections(offers, c) == [] || IsHeader(Sections(offers, c)[0])
    decreases |offers|
  {
    if offers != [] {
      var o := offers[|offers| - 1];
      SectionsBegin(offers[..|offers| - 1], c);
      if InConf(o) {
        assert Section(o, c)[0] == HeaderOf(o.share) && HeaderOf(o.share)[0] == '[';
      }
    }
  }

  lemma {:induction false} UpToHeaderIs(body: seq<string>, rest: seq<string>)
    requires (forall i :: 0 <= i < |body| ==> !IsHeader(body[i])) && (rest == [] || IsHeader(rest[0]))
    ensures UpToHeader(body + rest) == body
  {
    if body == [] {
      assert body + rest == rest;
    } else {
      assert (body + rest)[0] == body[0] && (body + rest)[1..] == body[1..] + rest;
      UpToHeaderIs(body[1..], rest);
    }
  }

  lemma {:induction false} SectionUnderIs(before: seq<string>, header: string, body: seq<string>, rest: seq<string>)
    requires header !in before
    requires (forall i :: 0 <= i < |body| ==> !IsHeader(body[i])) && (rest == [] || IsHeader(rest[0]))
    ensures SectionUnder(before + ([header] + body + rest), header) == body
    decreases |before|
  {
    var lines := before + ([header] + body + rest);
    if before == [] {
      assert lines[0] == header && lines[1..] == body + rest;
      UpToHeaderIs(body, rest);
    } else {
      assert lines[0] == before[0] && lines[1..] == before[1..] + ([header] + body + rest);
      SectionUnderIs(before[1..], header, body, rest);
    }
  }

  lemma {:induction false} HeadersHave(lines: seq<string>, h: string)
    requires h in lines && IsHeader(h)
    ensures h in Headers(lines)
    decreases |lines|
  {
    if h != lines[|lines| - 1] {
      assert lines == lines[..|lines| - 1] + [lines[|lines| - 1]];
      HeadersHave(lines[..|lines| - 1], h);
    }
  }

  lemma BodyHasNone(o: Offer, c: Config)
    requires o.mountpoint.Some?
    ensures Section(o, c) == [HeaderOf(o.share)] + Section(o, c)[1..]
    ensures forall i :: 0 <= i < |Section(o, c)[1..]| ==> !IsHeader(Section(o, c)[1..][i])
  {
    var lines := Section(o, c);
    assert lines[0] == HeaderOf(o.share);
    assert lines == [lines[0]] + lines[1..];
  }

  /** The header of a share is no earlier line of the file. */
  lemma HeaderIsNew(a: seq<Offer>, o: Offer, b: seq<Offer>, c: Config)
    requires ApartNames(a + [o] + b) && forall i :: 0 <= i < |a + [o] + b| ==> Sound((a + [o] + b)[i].share)
    requires InConf(o) && OneLine(c.hostname) && Fits(c.settings)
    ensures HeaderOf(o.share) !in FirstLines(c) + Sections(a, c)
  {
    var h := HeaderOf(o.share);
    assert h[0] == '[';
    var all := a + [o] + b;
    assert all[|a|] == o;
    if h in FirstLines(c) {
      FirstLinesAre(c);
      HeadersHave(FirstLines(c), h);
      LowerGlobal();
      assert Lower(h) == "[global]";
      GlobalIsReserved(o.share);
      assert false;
    }
    if h in Sections(a, c) {
      HeadersHave(Sections(a, c), h);
      HeadersOfSections(a, c);
      InHeaders(a, h);
      var k :| 0 <= k < |a| && InConf(a[k]) && h == HeaderOf(a[k].share);
      assert all[k] == a[k];
      SameHeader(a[k].share, o.share);
      assert false;
    }
  }

  lemma FileParts(a: seq<Offer>, o: Offer, b: seq<Offer>, c: Config)
    requires InConf(o)
    ensures
      FirstLines(c) + Sections(a + [o] + b, c)
      == FirstLines(c) + Sections(a, c) + ([HeaderOf(o.share)] + Section(o, c)[1..] + Sections(b, c))
  {
    SectionsJoined(a + [o], b, c);
    SectionsJoined(a, [o], c);
    SectionsOne(o, c);
    BodyHasNone(o, c);
    Reassociated(FirstLines(c), Sections(a, c), Section(o, c), Sections(b, c));
  }

  lemma SectionsOne(o: Offer, c: Config)
    requires InConf(o)
    ensures Sections([o], c) == Section(o, c)
  {
    assert [o][..0] == [] && Sections([], c) == [] && [] + Section(o, c) == Section(o, c);
  }

  lemma Reassociated(a: seq<string>, b: seq<string>, c: seq<string>, d: seq<string>)
    ensures a + (b + c + d) == a + b + (c + d)
  {}

  lemma SectionIs(a: seq<Offer>, o: Offer, b: seq<Offer>, c: Config)
    requires ApartNames(a + [o] + b) && forall i :: 0 <= i < |a + [o] + b| ==> Sound((a + [o] + b)[i].share)
    requires InConf(o) && Plain(a + [o] + b, c)
    ensures SetFor(SmbConfText(a + [o] + b, c), o.share) == Settings(Section(o, c)[1..])
  {
    TextLines(a + [o] + b, c);
    FileParts(a, o, b, c);
    HeaderIsNew(a, o, b, c);
    BodyHasNone(o, c);
    SectionsBegin(b, c);
    SectionUnderIs(FirstLines(c) + Sections(a, c), HeaderOf(o.share), Section(o, c)[1..], Sections(b, c));
  }

  lemma TextLines(offers: seq<Offer>, c: Config)
    requires Plain(offers, c) && forall i :: 0 <= i < |offers| ==> Sound(offers[i].share)
    ensures Split(SmbConfText(offers, c), '\n') == FirstLines(c) + Sections(offers, c)
  {
    FirstLinesAre(c);
    SectionsAre(offers, c);
    OneLinersJoined(FirstLines(c), Sections(offers, c));
    SplitOneLiners(FirstLines(c) + Sections(offers, c));
  }

  lemma SplitOneLiners(lines: seq<string>)
    requires lines != [] && OneLiners(lines)
    ensures Split(Join(lines, '\n'), '\n') == lines
  {
    assert forall i :: 0 <= i < |lines| ==> lines[i] in lines;
    SplitJoin(lines, '\n');
  }

  lemma HeaderIsIn(a: seq<Offer>, o: Offer, b: seq<Offer>, c: Config)
    requires InConf(o)
    ensures HeaderOf(o.share) in FirstLines(c) + Sections(a + [o] + b, c)
  {
    FileParts(a, o, b, c);
    assert HeaderOf(o.share) in [HeaderOf(o.share)] + Section(o, c)[1..] + Sections(b, c);
  }

  lemma HeaderNotIn(offers: seq<Offer>, i: nat, c: Config)
    requires ApartNames(offers) && forall k :: 0 <= k < |offers| ==> Sound(offers[k].share)
    requires i < |offers| && offers[i].share.smb && !InConf(offers[i]) && OneLine(c.hostname) && Fits(c.settings)
    ensures HeaderOf(offers[i].share) !in FirstLines(c) + Sections(offers, c)
  {
    var h := HeaderOf(offers[i].share);
    assert h[0] == '[';
    if h in FirstLines(c) {
      FirstLinesAre(c);
      HeadersHave(FirstLines(c), h);
      LowerGlobal();
      GlobalIsReserved(offers[i].share);
      assert false;
    }
    if h in Sections(offers, c) {
      HeadersHave(Sections(offers, c), h);
      HeadersOfSections(offers, c);
      InHeaders(offers, h);
      var k :| 0 <= k < |offers| && InConf(offers[k]) && h == HeaderOf(offers[k].share);
      SameHeader(offers[k].share, offers[i].share);
      assert false;
    }
  }

  /** Offers as listing makes them: sound, and no two of one SMB name. */
  ghost predicate Offered(offers: seq<Offer>) {
    ApartNames(offers) && forall i :: 0 <= i < |offers| ==> Sound(offers[i].share)
  }

  lemma PartsOf(offers: seq<Offer>, i: nat)
    requires i < |offers|
    ensures offers == offers[..i] + [offers[i]] + offers[i + 1..]
  {}

  lemma HeaderOfOffer(offers: seq<Offer>, i: nat, c: Config)
    requires Offered(offers) && Plain(offers, c) && i < |offers| && offers[i].share.smb
    ensures HeaderOf(offers[i].share) in Split(SmbConfText(offers, c), '\n') <==> InConf(offers[i])
  {
    TextLines(offers, c);
    if InConf(offers[i]) {
      PartsOf(offers, i);
      HeaderIsIn(offers[..i], offers[i], offers[i + 1..], c);
    } else {
      HeaderNotIn(offers, i, c);
    }
  }

  lemma AccessOfOffer(offers: seq<Offer>, i: nat, c: Config)
    requires Offered(offers) && Plain(offers, c) && i < |offers| && InConf(offers[i])
    ensures AccessTold(SetFor(SmbConfText(offers, c), offers[i].share), offers[i].share, c.group)
    ensures RestTold(SetFor(SmbConfText(offers, c), offers[i].share), offers[i], c)
  {
    PartsOf(offers, i);
    SectionIs(offers[..i], offers[i], offers[i + 1..], c);
    SectionTells(offers[i], c);
  }

  // ---- who may open a share ----

  /**
   * For any table at all, a restored one included, read from the text: an SMB share that is listed has a section
   * exactly when it is mounted and its list, if it has one, has somebody on it.
   */
  lemma HeaderExactly(rows: seq<Share>, mounts: Mounts, c: Config, o: Offer)
    requires Plain(Mounted(Listed(rows), mounts), c) && o in Mounted(Listed(rows), mounts) && o.share.smb
    ensures
      HeaderOf(o.share) in Split(SmbConfText(Mounted(Listed(rows), mounts), c), '\n')
      <==> o.mountpoint.Some? && o.share.access != Some([])
  {
    var i := OfferAt(rows, mounts, o);
    HeaderOfOffer(Mounted(Listed(rows), mounts), i, c);
  }

  lemma OfferAt(rows: seq<Share>, mounts: Mounts, o: Offer) returns (i: nat)
    requires o in Mounted(Listed(rows), mounts)
    ensures i < |Mounted(Listed(rows), mounts)| && Mounted(Listed(rows), mounts)[i] == o
    ensures Offered(Mounted(Listed(rows), mounts))
  {
    ListedIsSound(rows, mounts);
    i :| i < |Mounted(Listed(rows), mounts)| && Mounted(Listed(rows), mounts)[i] == o;
  }

  /** And what stands in its section is its own: users, writers and the rest as AccessTold and RestTold put it. */
  lemma AccessExactly(rows: seq<Share>, mounts: Mounts, c: Config, o: Offer)
    requires Plain(Mounted(Listed(rows), mounts), c) && o in Mounted(Listed(rows), mounts)
    requires o.share.smb && o.mountpoint.Some? && o.share.access != Some([])
    ensures
      var settings := SetFor(SmbConfText(Mounted(Listed(rows), mounts), c), o.share);
      AccessTold(settings, o.share, c.group) && RestTold(settings, o, c)
  {
    var i := OfferAt(rows, mounts, o);
    AccessOfOffer(Mounted(Listed(rows), mounts), i, c);
  }
}
