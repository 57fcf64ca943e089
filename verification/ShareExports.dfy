/** The NFS exports that are written: who may mount what, and that nobody gets options of their own. */
module ShareExports {
  import opened Text
  import opened ShareTable
  import opened ShareFiles
  import opened ShareSections

  /** The offers that are exported: NFS is on and the dataset is mounted. */
  function Exported(offers: seq<Offer>): seq<Offer> {
    if offers == [] then []
    else
      var o := offers[|offers| - 1];
      Exported(offers[..|offers| - 1]) + if o.share.nfs && o.mountpoint.Some? then [o] else []
  }

  lemma {:induction false} ExportedAre(offers: seq<Offer>)
    ensures forall o :: o in Exported(offers) <==> o in offers && o.share.nfs && o.mountpoint.Some?
    decreases |offers|
  {
    if offers != [] {
      ExportedAre(offers[..|offers| - 1]);
      assert offers == offers[..|offers| - 1] + [offers[|offers| - 1]];
    }
  }

  /** One line after another, the i-th about the i-th export. */
  ghost predicate LinesOf(lines: seq<string>, exports: seq<Offer>, c: Config) {
    && |lines| == |exports|
    && forall i :: 0 <= i < |exports| ==> exports[i].mountpoint.Some? && lines[i] == ExportLine(exports[i], c)
  }

  lemma {:induction false} ExportLinesAre(offers: seq<Offer>, c: Config)
    ensures ExportLines(offers, c) != [] && ExportLines(offers, c)[0] == Written()
    ensures LinesOf(ExportLines(offers, c)[1..], Exported(offers), c)
    decreases |offers|
  {
    if offers != [] {
      var front, o := offers[..|offers| - 1], offers[|offers| - 1];
      ExportLinesAre(front, c);
      var lines := ExportLines(front, c);
      if o.share.nfs && o.mountpoint.Some? {
        assert (lines + [ExportLine(o, c)])[1..] == lines[1..] + [ExportLine(o, c)];
      } else {
        assert lines + [] == lines && Exported(front) + [] == Exported(front);
      }
    }
  }

  // ---- no line is broken ----

  predicate OneWord(s: string) { ' ' !in s && OneLine(s) }

  lemma OptionsAreOneWord(c: Config)
    ensures OneWord(OptionsOf(c)) && OptionsOf(c)[0] == '('
  {
    FixedOptions();
    var uid, gid := Dec(c.uid), Dec(c.gid);
    assert OneWord(uid) && OneWord(gid);
    OneWordOf("(rw,sync,no_subtree_check,", "all_squash,anonuid=", uid, ",anongid=", gid, ")");
  }

  lemma FixedOptions()
    ensures
      OneWord("(rw,sync,no_subtree_check,") && OneWord("all_squash,anonuid=") && OneWord(",anongid=") && OneWord(")")
  {
    assert OneWord("(rw,sync,no_subtree_check,");
    assert OneWord("all_squash,anonuid=");
    assert OneWord(",anongid=");
  }

  lemma OneWordOf(a: string, b: string, c: string, d: string, e: string, f: string)
    requires OneWord(a) && OneWord(b) && OneWord(c) && OneWord(d) && OneWord(e) && OneWord(f)
    ensures OneWord(a + b + c + d + e + f)
  {}

  lemma {:induction false} AllOfWithout(s: string, ok: char -> bool, c: char)
    requires AllOf(s, ok) && !ok(c)
    ensures c !in s
  {
    if s != "" {
      AllOfWithout(s[1..], ok, c);
      assert s == [s[0]] + s[1..];
    }
  }

  lemma ClientIsOneWord(client: string)
    requires IsClient(client)
    ensures ' ' !in client && OneLine(client) && '(' !in client && ')' !in client && ',' !in client
  {
    AllOfWithout(client[1..], IsClientChar, ' ');
    AllOfWithout(client[1..], IsClientChar, '\n');
    AllOfWithout(client[1..], IsClientChar, '(');
    AllOfWithout(client[1..], IsClientChar, ')');
    AllOfWithout(client[1..], IsClientChar, ',');
    assert client == [client[0]] + client[1..];
  }

  lemma EntriesAreWords(clients: seq<string>, c: Config)
    requires forall x :: x in clients ==> IsClient(x)
    ensures
      forall i :: 0 <= i < |clients| ==> ' ' !in ClientEntries(clients, c)[i] && OneLine(ClientEntries(clients, c)[i])
  {
    OptionsAreOneWord(c);
    forall i | 0 <= i < |clients|
      ensures ' ' !in ClientEntries(clients, c)[i] && OneLine(ClientEntries(clients, c)[i])
    {
      assert clients[i] in clients;
      ClientIsOneWord(clients[i]);
    }
  }

  lemma ExportLinePlain(o: Offer, c: Config)
    requires Sound(o.share) && o.mountpoint.Some? && OneLine(o.mountpoint.value)
    ensures OneLine(ExportLine(o, c))
  {
    if o.share.clients == [] {
      NotYetPlain(o.mountpoint.value);
    } else {
      EntriesAreWords(o.share.clients, c);
      JoinPlain(ClientEntries(o.share.clients, c));
      assert OneLine(" ");
    }
  }

  lemma NotYetPlain(at: string)
    requires OneLine(at)
    ensures OneLine("# " + at + ": NFS is on but no hosts or networks" + " are allowed yet, so it is not exported")
  {
    NotYetWords();
    FourPlain("# ", at, ": NFS is on but no hosts or networks", " are allowed yet, so it is not exported");
  }

  lemma NotYetWords()
    ensures OneLine(": NFS is on but no hosts or networks") && OneLine(" are allowed yet, so it is not exported")
  {
    assert OneLine(": NFS is on but no hosts or networks");
    assert OneLine(" are allowed yet, so it is not exported");
  }

  lemma FourPlain(a: string, b: string, c: string, d: string)
    requires OneLine(a) && OneLine(b) && OneLine(c) && OneLine(d)
    ensures OneLine(a + b + c + d)
  {}

  // ---- what a line says ----

  /**
   * A line of the exports, read word by word: the mountpoint's own words, and then each host or network of the share
   * with the agent's options right behind it.
   */
  lemma ExportWords(o: Offer, c: Config)
    requires Sound(o.share) && o.mountpoint.Some? && o.share.clients != []
    ensures Split(ExportLine(o, c), ' ') == Split(o.mountpoint.value, ' ') + ClientEntries(o.share.clients, c)
  {
    var entries := ClientEntries(o.share.clients, c);
    EntriesAreWords(o.share.clients, c);
    SplitJoin(entries, ' ');
    SplitAppend(o.mountpoint.value, Join(entries, ' '), ' ');
    assert o.mountpoint.value + [' '] + Join(entries, ' ') == ExportLine(o, c);
  }

  /**
   * So the first word, a word being what stands between blanks, is the mountpoint, and every other is somebody who may
   * mount it, exactly when no blank is in its path.
   */
  lemma ExportWordsExactly(o: Offer, c: Config)
    requires Sound(o.share) && o.mountpoint.Some? && o.share.clients != []
    ensures
      Split(ExportLine(o, c), ' ') == [o.mountpoint.value] + ClientEntries(o.share.clients, c)
      <==> ' ' !in o.mountpoint.value
  {
    var at, entries := o.mountpoint.value, ClientEntries(o.share.clients, c);
    ExportWords(o, c);
    if ' ' !in at {
      SplitNone(at, ' ');
    }
    if Split(at, ' ') + entries == [at] + entries {
      assert |Split(at, ' ')| == 1;
      assert (Split(at, ' ') + entries)[0] == at && Split(at, ' ')[0] == at;
    }
  }

  /** A path with a space in it reads as a path and a host. */
  lemma SpaceReadsAsHost(o: Offer, c: Config, path: string, rest: string)
    requires ' ' !in path && ' ' !in rest && o.mountpoint == Some(path + " " + rest)
    requires Sound(o.share) && o.share.clients != []
    ensures Split(ExportLine(o, c), ' ') == [path, rest] + ClientEntries(o.share.clients, c)
  {
    ExportWords(o, c);
    TwoWords(path, rest);
  }

  lemma TwoWords(a: string, b: string)
    requires ' ' !in a && ' ' !in b
    ensures Split(a + " " + b, ' ') == [a, b]
  {
    SplitAppend(a, b, ' ');
    SplitNone(a, ' ');
    SplitNone(b, ' ');
    assert a + [' '] + b == a + " " + b;
  }

  /** What stands in brackets behind a host or a network is the agent's, from the first bracket on. */
  lemma OptionsAreTheAgents(clients: seq<string>, c: Config, i: nat)
    requires i < |clients| && forall x :: x in clients ==> IsClient(x)
    ensures
      var entry := ClientEntries(clients, c)[i];
      IndexOf(entry, '(') == |clients[i]| && entry[..|clients[i]|] == clients[i]
        && entry[|clients[i]|..] == OptionsOf(c)
  {
    assert clients[i] in clients;
    ClientIsOneWord(clients[i]);
    OptionsAreOneWord(c);
    Behind(clients[i], OptionsOf(c));
  }

  lemma Behind(client: string, options: string)
    requires '(' !in client && options != "" && options[0] == '('
    ensures
      var entry := client + options;
      IndexOf(entry, '(') == |client| && entry[..|client|] == client && entry[|client|..] == options
  {
    IndexOfFirst(client, '(', options[1..]);
    assert client + ['('] + options[1..] == client + options;
  }

  /** The options between the brackets, one by one: everybody is the owner, whoever asks. */
  lemma OptionsSay(c: Config)
    ensures |OptionsOf(c)| >= 2 && OptionsOf(c)[0] == '(' && OptionsOf(c)[|OptionsOf(c)| - 1] == ')'
    ensures
      Split(OptionsOf(c)[1..|OptionsOf(c)| - 1], ',')
      == ["rw", "sync", "no_subtree_check", "all_squash", "anonuid=" + Dec(c.uid), "anongid=" + Dec(c.gid)]
  {
    OptionTexts();
    NoCommas(c);
    SixOptions("rw", "sync", "no_subtree_check", "all_squash", "anonuid=" + Dec(c.uid), "anongid=" + Dec(c.gid));
    OptionsText(Dec(c.uid), Dec(c.gid));
  }

  lemma OptionTexts()
    ensures "(rw,sync,no_subtree_check," == "(" + "rw" + "," + "sync" + "," + "no_subtree_check" + ","
    ensures "all_squash,anonuid=" == "all_squash" + "," + "anonuid=" && ",anongid=" == "," + "anongid="
  {}

  /** The text is the options joined, in brackets. */
  lemma OptionsText(uid: string, gid: string)
    requires "(rw,sync,no_subtree_check," == "(" + "rw" + "," + "sync" + "," + "no_subtree_check" + ","
    requires "all_squash,anonuid=" == "all_squash" + "," + "anonuid=" && ",anongid=" == "," + "anongid="
    ensures
      var options := "(rw,sync,no_subtree_check," + "all_squash,anonuid=" + uid + ",anongid=" + gid + ")";
      && |options| >= 2 && options[0] == '(' && options[|options| - 1] == ')'
      && options[1..|options| - 1]
         == "rw" + "," + "sync" + "," + "no_subtree_check" + "," + "all_squash" + "," + ("anonuid=" + uid)
            + "," + ("anongid=" + gid)
  {
    Bracketed("rw", "sync", "no_subtree_check", "all_squash", "anonuid=", uid, "anongid=", gid);
  }

  lemma Bracketed(a: string, b: string, c: string, d: string, e: string, uid: string, f: string, gid: string)
    ensures
      var options :=
        ("(" + a + "," + b + "," + c + ",") + (d + "," + e) + uid + ("," + f) + gid + ")";
      && |options| >= 2 && options[0] == '(' && options[|options| - 1] == ')'
      && options[1..|options| - 1] == a + "," + b + "," + c + "," + d + "," + (e + uid) + "," + (f + gid)
  {}

  lemma NoCommas(c: Config)
    ensures ',' !in "rw" && ',' !in "sync" && ',' !in "no_subtree_check" && ',' !in "all_squash"
    ensures ',' !in "anonuid=" + Dec(c.uid) && ',' !in "anongid=" + Dec(c.gid)
  {
    assert ',' !in Dec(c.uid) && ',' !in Dec(c.gid) && ',' !in "anonuid=" && ',' !in "anongid=";
  }

  lemma SixOptions(a: string, b: string, c: string, d: string, e: string, f: string)
    requires ',' !in a && ',' !in b && ',' !in c && ',' !in d && ',' !in e && ',' !in f
    ensures Split(a + "," + b + "," + c + "," + d + "," + e + "," + f, ',') == [a, b, c, d, e, f]
  {
    var two := a + "," + b;
    var three := two + "," + c;
    var four := three + "," + d;
    var five := four + "," + e;
    SplitNone(a, ',');
    OneOption(a, two, b);
    OneOption(two, three, c);
    OneOption(three, four, d);
    OneOption(four, five, e);
    OneOption(five, five + "," + f, f);
    OneByOne(a, b, c, d, e, f);
  }

  lemma OneOption(s: string, more: string, last: string)
    requires more == s + "," + last && ',' !in last
    ensures Split(more, ',') == Split(s, ',') + [last]
  {
    SplitAppend(s, last, ',');
    SplitNone(last, ',');
    assert s + [','] + last == s + "," + last;
  }

  lemma OneByOne(a: string, b: string, c: string, d: string, e: string, f: string)
    ensures [a] + [b] + [c] + [d] + [e] + [f] == [a, b, c, d, e, f]
  {}

  predicate Commented(line: string) { line != "" && line[0] == '#' }

  /** A share with nobody allowed is a comment and no other is, unless its path is no path. */
  lemma NobodyIsAComment(o: Offer, c: Config)
    requires o.mountpoint.Some?
    ensures Commented(ExportLine(o, c)) <==> o.share.clients == [] || Commented(o.mountpoint.value)
  {
    if o.share.clients == [] {
      assert "# "[0] == '#';
    } else {
      FirstOf(o.mountpoint.value, " ", Join(ClientEntries(o.share.clients, c), ' '));
    }
  }

  lemma FirstOf(at: string, blank: string, rest: string)
    requires blank == " "
    ensures Commented(at + blank + rest) <==> Commented(at)
  {
    if at == "" {
      assert (at + blank + rest)[0] == blank[0];
    }
  }

  // ---- the file ----

  /**
   * Read line by line it has, after its first line, one line for each export, in their order, a comment exactly when
   * nobody may mount it (or its path is none).
   */
  ghost predicate ReadsAs(text: string, exports: seq<Offer>, c: Config) {
    var lines := Split(text, '\n');
    && |lines| == |exports| + 2 && lines[0] == Written() && lines[|lines| - 1] == ""
    && LinesOf(lines[1..|lines| - 1], exports, c) && CommentsOf(lines[1..|lines| - 1], exports)
  }

  /**
   * For any table at all, a restored one included: the lines of the file are those of the listed NFS shares that are
   * mounted, and every host or network in them is one share.set would take.
   */
  lemma ExportsAre(rows: seq<Share>, mounts: Mounts, c: Config)
    requires forall o :: o in Mounted(Listed(rows), mounts) && o.mountpoint.Some? ==> OneLine(o.mountpoint.value)
    ensures
      var offers := Mounted(Listed(rows), mounts);
      ReadsAs(ExportsText(offers, c), Exported(offers), c)
    ensures
      forall o :: o in Exported(Mounted(Listed(rows), mounts)) ==>
        Sound(o.share) && forall x :: x in o.share.clients ==> IsClient(x)
  {
    var offers := Mounted(Listed(rows), mounts);
    OffersSound(rows, mounts);
    ExportedAre(offers);
    ExportLinesAre(offers, c);
    FileReads(ExportLines(offers, c), Exported(offers), c);
  }

  lemma OffersSound(rows: seq<Share>, mounts: Mounts)
    ensures forall o :: o in Mounted(Listed(rows), mounts) ==> Sound(o.share)
  {
    var offers := Mounted(Listed(rows), mounts);
    ListedIsSound(rows, mounts);
    forall o | o in offers ensures Sound(o.share) {
      var i :| 0 <= i < |offers| && offers[i] == o;
    }
  }

  lemma FileReads(lines: seq<string>, exports: seq<Offer>, c: Config)
    requires lines != [] && lines[0] == Written() && LinesOf(lines[1..], exports, c)
    requires forall o :: o in exports ==> Sound(o.share) && (o.mountpoint.Some? ==> OneLine(o.mountpoint.value))
    ensures ReadsAs(Join(lines, '\n') + "\n", exports, c)
  {
    WrittenPlain();
    LinesPlain(lines[1..], exports, c);
    FirstPlain(lines);
    SplitEnded(lines);
    WithinEnds(lines, "");
    CommentsAre(lines[1..], exports, c);
  }

  lemma FirstPlain(lines: seq<string>)
    requires lines != [] && OneLine(lines[0]) && OneLiners(lines[1..])
    ensures OneLiners(lines)
  {
    assert lines == [lines[0]] + lines[1..];
  }

  lemma WithinEnds(lines: seq<string>, end: string)
    requires lines != []
    ensures
      var all := lines + [end];
      |all| == |lines| + 1 && all[0] == lines[0] && all[|all| - 1] == end && all[1..|all| - 1] == lines[1..]
  {}

  /** The i-th line is commented out when nobody may mount the i-th export. */
  ghost predicate CommentsOf(lines: seq<string>, exports: seq<Offer>) {
    && |lines| == |exports|
    && forall i :: 0 <= i < |exports| && exports[i].mountpoint.Some? ==>
      (Commented(lines[i]) <==> exports[i].share.clients == [] || Commented(exports[i].mountpoint.value))
  }

  lemma CommentsAre(lines: seq<string>, exports: seq<Offer>, c: Config)
    requires LinesOf(lines, exports, c)
    ensures CommentsOf(lines, exports)
  {
    forall i | 0 <= i < |exports|
      ensures Commented(lines[i]) <==> exports[i].share.clients == [] || Commented(exports[i].mountpoint.value)
    {
      NobodyIsAComment(exports[i], c);
    }
  }

  lemma LinesPlain(lines: seq<string>, exports: seq<Offer>, c: Config)
    requires LinesOf(lines, exports, c)
    requires forall o :: o in exports ==> Sound(o.share) && (o.mountpoint.Some? ==> OneLine(o.mountpoint.value))
    ensures OneLiners(lines)
  {
    forall l | l in lines ensures OneLine(l) {
      var i :| 0 <= i < |lines| && lines[i] == l;
      assert exports[i] in exports;
      ExportLinePlain(exports[i], c);
    }
  }
}
