/** Which of the backup's values are taken, told by the lines as they are written. */
module DriveEnvValues {
  import opened Text
  import opened OrderedMap
  import opened KeyedLines
  import opened DriveEnv

  // ---- the key of a line ----

  predicate Word(s: string) { s != "" && WordStart(s[0]) && forall c :: c in s ==> WordPart(c) }

  /** NAME=, blanks allowed before the sign. */
  ghost predicate Names(s: string, key: string) {
    exists gap, rest :: Word(key) && Blanks(gap) && s == key + gap + "=" + rest
  }

  /** A line that sets a key: NAME=, or export NAME=, blanks allowed before either and before the sign. */
  ghost predicate Sets(line: string, key: string) {
    exists lead, s :: Blanks(lead) && line == lead + s && (Names(s, key) || Exports(s, key))
  }

  ghost predicate Exports(s: string, key: string) {
    exists sep, rest :: Blanks(sep) && sep != "" && s == "export" + sep + rest && Names(rest, key)
  }

  lemma {:induction false} TrimStartParts(s: string) returns (lead: string)
    ensures Blanks(lead) && s == lead + TrimStart(s)
  {
    if s == "" || !IsSpace(s[0]) {
      lead := "";
    } else {
      var more := TrimStartParts(s[1..]);
      lead := [s[0]] + more;
    }
  }

  lemma {:induction false} WordRunOf(word: string, rest: string)
    requires (forall c :: c in word ==> WordPart(c)) && (rest == "" || !WordPart(rest[0]))
    ensures WordRun(word + rest) == word
  {
    if word == "" {
      assert word + rest == rest;
    } else {
      assert (word + rest)[1..] == word[1..] + rest && word[0] in word;
      WordRunOf(word[1..], rest);
    }
  }

  lemma KeyAtExactly(s: string, key: string)
    ensures KeyAt(s) == Some(key) <==> Names(s, key)
  {
    if KeyAt(s) == Some(key) {
      KeyIsNamed(s, key);
    }
    if Names(s, key) {
      var gap, rest :| Word(key) && Blanks(gap) && s == key + gap + "=" + rest;
      NamesAt(key, gap, rest);
    }
  }

  lemma KeyIsNamed(s: string, key: string)
    requires KeyAt(s) == Some(key)
    ensures Names(s, key)
  {
    WordRunParts(s);
    var rest := s[|key|..];
    var gap := TrimStartParts(rest);
    NamedByParts(s, key, gap, TrimStart(rest));
  }

  lemma NamedByParts(s: string, key: string, gap: string, end: string)
    requires Word(key) && Blanks(gap) && key <= s && s[|key|..] == gap + end && end != "" && end[0] == '='
    ensures Names(s, key)
  {
    assert end == "=" + end[1..];
    assert s == key + (gap + end) && s == key + gap + "=" + end[1..];
  }

  lemma NamesAt(key: string, gap: string, rest: string)
    requires Word(key) && Blanks(gap)
    ensures KeyAt(key + gap + "=" + rest) == Some(key)
  {
    var s, behind := key + gap + "=" + rest, gap + ("=" + rest);
    assert s == key + behind;
    SpacesAreNoWord();
    assert gap != "" ==> gap[0] in gap;
    WordRunOf(key, behind);
    TrimStartOf(gap, "=" + rest);
    assert s[|key|..] == behind;
  }

  lemma SpacesAreNoWord()
    ensures forall c :: IsSpace(c) ==> !WordPart(c)
  {}

  /** The key of a line is the name it sets, told from the line as it is written, and no other line has a key. */
  lemma KeyExactly(line: string, key: string)
    ensures KeyOf(line) == Some(key) <==> Sets(line, key)
  {
    if KeyOf(line) == Some(key) {
      KeyIsSet(line, key);
    }
    if Sets(line, key) {
      var lead, s :| Blanks(lead) && line == lead + s && (Names(s, key) || Exports(s, key));
      SetIsKey(lead, s, key);
    }
  }

  lemma KeyIsSet(line: string, key: string)
    requires KeyOf(line) == Some(key)
    ensures Sets(line, key)
  {
    var s := TrimStart(line);
    var lead := TrimStartParts(line);
    if StartsWith(s, "export") && |s| > 6 && IsSpace(s[6]) && KeyAt(TrimStart(s[6..])).Some? {
      var sep := TrimStartParts(s[6..]);
      KeyAtExactly(TrimStart(s[6..]), key);
      assert sep != "";
      assert s == "export" + sep + TrimStart(s[6..]);
      assert Exports(s, key);
    } else {
      KeyAtExactly(s, key);
    }
  }

  lemma SetIsKey(lead: string, s: string, key: string)
    requires Blanks(lead) && (Names(s, key) || Exports(s, key))
    ensures KeyOf(lead + s) == Some(key)
  {
    if Exports(s, key) {
      var sep, rest :| Blanks(sep) && sep != "" && s == "export" + sep + rest && Names(rest, key);
      ExportIsKey(lead, sep, rest, key);
    } else {
      NameFirst(s, key);
      TrimStartOf(lead, s);
      KeyAtExactly(s, key);
      if StartsWith(s, "export") && |s| > 6 && IsSpace(s[6]) {
        ExportAlone(s, key);
      }
    }
  }

  lemma NameFirst(s: string, key: string)
    requires Names(s, key)
    ensures s != "" && !IsSpace(s[0])
  {
    SpacesAreNoWord();
    var gap, rest :| Word(key) && Blanks(gap) && s == key + gap + "=" + rest;
    assert s[0] == key[0] && key[0] in key;
  }

  lemma ExportIsKey(lead: string, sep: string, rest: string, key: string)
    requires Blanks(lead) && Blanks(sep) && sep != "" && Names(rest, key)
    ensures KeyOf(lead + ("export" + sep + rest)) == Some(key)
  {
    var s := "export" + sep + rest;
    assert s[0] == 'e' && s[6..] == sep + rest && s[6] == sep[0] && sep[0] in sep;
    TrimStartOf(lead, s);
    NameFirst(rest, key);
    TrimStartOf(sep, rest);
    KeyAtExactly(rest, key);
  }

  /** The word export can itself be the key. */
  lemma ExportAlone(s: string, key: string)
    requires Names(s, key) && StartsWith(s, "export") && |s| > 6 && IsSpace(s[6])
    ensures KeyAt(TrimStart(s[6..])) == None
  {
    SpacesAreNoWord();
    var gap, rest :| Word(key) && Blanks(gap) && s == key + gap + "=" + rest;
    ExportLetters(s);
    assert s[|key|] == (gap + "=")[0] && (gap != "" ==> gap[0] in gap);
    assert forall i :: 0 <= i < |key| ==> s[i] == key[i] && key[i] in key;
    if |key| < 6 || |key| > 6 {
      assert false;
    }
    assert s[6..] == gap + ("=" + rest);
    TrimStartOf(gap, "=" + rest);
    assert WordRun("=" + rest) == "";
  }

  lemma ExportLetters(s: string)
    requires StartsWith(s, "export")
    ensures forall i :: 0 <= i < 6 ==> s[i] != '=' && !IsSpace(s[i])
  {
    assert s[0] == 'e' && s[1] == 'x' && s[2] == 'p' && s[3] == 'o' && s[4] == 'r' && s[5] == 't';
  }

  // ---- the value of a line ----

  /** A value without the one pair of equal quotes around it. */
  ghost predicate Bare(v: string, w: string) {
    v == "\"" + w + "\"" || v == "'" + w + "'" || (v == w && !Quoted(v))
  }

  ghost predicate Quoted(v: string) { exists u :: v == "\"" + u + "\"" || v == "'" + u + "'" }

  lemma BareExactly(v: string, w: string)
    ensures Unquoted(v) == w <==> Bare(v, w)
  {
    if |v| >= 2 && (v[0] == '"' || v[0] == '\'') && v[|v| - 1] == v[0] {
      var u := v[1..|v| - 1];
      assert v == [v[0]] + u + [v[0]];
      assert Quoted(v);
      if v == "\"" + w + "\"" || v == "'" + w + "'" {
        assert v[1..|v| - 1] == w;
      }
    } else {
      if u :| v == "\"" + u + "\"" || v == "'" + u + "'" {
        QuoteEnds(v, u);
        assert false;
      }
    }
  }

  lemma QuoteEnds(v: string, u: string)
    requires v == "\"" + u + "\"" || v == "'" + u + "'"
    ensures |v| >= 2 && (v[0] == '"' || v[0] == '\'') && v[|v| - 1] == v[0]
  {}

  predicate NoLineEnd(v: string) { forall c :: c in v ==> !IsLineEnd(c) }

  predicate Capital(s: string) { s != "" && Upper(s[0]) && forall c :: c in s ==> Upper(c) || IsDigit(c) }

  lemma {:induction false} UpperRunOf(word: string, rest: string)
    requires (forall c :: c in word ==> Upper(c) || IsDigit(c)) && rest != "" && rest[0] == '='
    ensures UpperRun(word + rest) == word
  {
    if word == "" {
      assert word + rest == rest;
    } else {
      assert (word + rest)[1..] == word[1..] + rest && word[0] in word;
      UpperRunOf(word[1..], rest);
    }
  }

  lemma {:induction false} UpperRunParts(s: string)
    ensures forall c :: c in UpperRun(s) ==> Upper(c) || IsDigit(c)
  {
    if s != "" && (Upper(s[0]) || IsDigit(s[0])) {
      UpperRunParts(s[1..]);
    }
  }

  /**
   * A line has a plain value exactly when it is its key, the sign and that value, on one line and with nothing before
   * it.
   */
  lemma PlainExactly(line: string, key: string, v: string)
    requires KeyOf(line) == Some(key) && Capital(key)
    ensures PlainValue(line) == Some(v) <==> line == key + "=" + v && NoLineEnd(v)
  {
    if PlainValue(line) == Some(v) {
      PlainIsKey(line, key, v);
    }
    if line == key + "=" + v && NoLineEnd(v) {
      KeyIsPlain(key, v);
    }
  }

  lemma PlainIsKey(line: string, key: string, v: string)
    requires KeyOf(line) == Some(key) && PlainValue(line) == Some(v)
    ensures line == key + "=" + v && NoLineEnd(v)
  {
    var name := UpperRun(line);
    UpperRunParts(line);
    assert line == name + "=" + v;
    assert forall c :: c in v ==> c in line[|name|..];
    NamesItself(name, v);
    KeyExactly(line, name);
  }

  lemma NamesItself(name: string, v: string)
    requires Word(name)
    ensures Sets(name + "=" + v, name)
  {
    var s := name + "=" + v;
    assert s == name + "" + "=" + v && s == "" + s && Blanks("");
    assert Names(s, name);
  }

  lemma KeyIsPlain(key: string, v: string)
    requires Capital(key) && NoLineEnd(v)
    ensures PlainValue(key + "=" + v) == Some(v)
  {
    var line := key + "=" + v;
    assert line == key + ("=" + v);
    UpperRunOf(key, "=" + v);
    assert line[|key|..] == "=" + v && line[|key| + 1..] == v;
  }

  lemma KeysAreCapital()
    ensures forall key :: key in ENV_KEYS ==> Capital(key)
  {
    ShortKeys();
    OidcKeys();
    LongKeys();
  }

  lemma ShortKeys()
    ensures Capital("DRIVE_UID") && Capital("DRIVE_GID") && Capital("TZ") && Capital("DRIVE_PASSWORD_LOGIN")
  {}

  lemma OidcKeys()
    ensures Capital("DRIVE_OIDC_ISSUER") && Capital("DRIVE_OIDC_CLIENT_ID") && Capital("DRIVE_OIDC_NAME")
  {}

  lemma LongKeys()
    ensures Capital("DRIVE_OIDC_CLIENT_SECRET")
    ensures Capital("DRIVE_NAS_MONITOR_TOKEN")
    ensures Capital("CLOUDFLARE_TUNNEL_TOKEN")
  {}

  // ---- what a restore takes ----

  /** The line is the key, the sign and a value that is empty or passes the key's check, quotes around it aside. */
  ghost predicate Passes(line: string, key: string, check: Check) {
    exists v, w :: line == key + "=" + v && NoLineEnd(v) && Bare(v, w) && (w == "" || check(key, w))
  }

  lemma VettedExactly(line: string, key: string, check: Check)
    requires KeyOf(line) == Some(key) && Capital(key)
    ensures Vetted(key, line, check) == if Passes(line, key, check) then Some(line) else None
  {
    var v := PlainValue(line);
    if v.Some? {
      PlainExactly(line, key, v.value);
      BareExactly(v.value, Unquoted(v.value));
    }
    if Passes(line, key, check) {
      var v, w :| line == key + "=" + v && NoLineEnd(v) && Bare(v, w) && (w == "" || check(key, w));
      PlainExactly(line, key, v);
      BareExactly(v, w);
    }
  }

  lemma {:induction false} LinesHaveKey(lines: seq<string>, key: string, keyOf: KeyFn)
    ensures forall l :: l in KeyLines(lines, key, keyOf) ==> keyOf(l) == Some(key)
  {
    if lines != [] {
      LinesHaveKey(lines[1..], key, keyOf);
    }
  }

  /**
   * A key of the list that the backup sets: when its last line there passes, that line is all this box's file has of
   * the key; when it does not, this box keeps its own lines and a note says so.
   */
  lemma RestoresExactly(current: string, backup: string, check: Check, key: string)
    requires key in ENV_KEYS && KeyLines(BackupLines(backup), key, KeyOf) != []
    ensures
      var given := KeyLines(BackupLines(backup), key, KeyOf);
      var line := given[|given| - 1];
      var merged := MergedLines(current, backup, check);
      if Passes(line, key, check) then KeyLines(merged, key, KeyOf) == [line]
      else KeyLines(merged, key, KeyOf) == KeyLines(BoxLines(current), key, KeyOf) && NoteFor(key) in merged
  {
    var given := KeyLines(BackupLines(backup), key, KeyOf);
    var line := given[|given| - 1];
    KeysAreCapital();
    LinesHaveKey(BackupLines(backup), key, KeyOf);
    VettedExactly(line, key, check);
    MergeIsOverride(current, backup, check, key);
    if !Passes(line, key, check) {
      LastLineWins([], BackupLines(backup), ENV_KEYS, Vet(check), KeyOf, key);
      TakenIsSound(backup, check);
      GetHas(Taken(backup, check), key);
      MergeAllNotes(BoxLines(current), Taken(backup, check), (key, None), KeyOf);
    }
  }

  lemma {:induction false} GetHas<V>(m: Entries<V>, key: string)
    requires Get(m, key).Some?
    ensures (key, Get(m, key).value) in m
  {
    if m[0].0 != key {
      GetHas(m[1..], key);
    }
  }

  /** A key that is not on the list, or that the backup does not set, stays as it is on this box. */
  lemma OthersStay(current: string, backup: string, check: Check, key: string)
    requires key !in ENV_KEYS || KeyLines(BackupLines(backup), key, KeyOf) == []
    ensures KeyLines(MergedLines(current, backup, check), key, KeyOf) == KeyLines(BoxLines(current), key, KeyOf)
  {
    MergeIsOverride(current, backup, check, key);
  }

  /** The image the drive runs and this box's group are never taken from a backup, whatever it says. */
  lemma ImageAndGroupStay(current: string, backup: string, check: Check)
    ensures
      forall key :: key == "DRIVE_IMAGE" || key == "MK_NAS_GID" ==>
        KeyLines(MergedLines(current, backup, check), key, KeyOf) == KeyLines(BoxLines(current), key, KeyOf)
  {
    NotOnTheList();
    OthersStay(current, backup, check, "DRIVE_IMAGE");
    OthersStay(current, backup, check, "MK_NAS_GID");
  }

  lemma NotOnTheList()
    ensures "DRIVE_IMAGE" !in ENV_KEYS && "MK_NAS_GID" !in ENV_KEYS
  {
    assert |"DRIVE_IMAGE"| == 11 && |"MK_NAS_GID"| == 10;
    assert |"DRIVE_UID"| == 9 && |"DRIVE_GID"| == 9 && |"TZ"| == 2 && |"DRIVE_PASSWORD_LOGIN"| == 20;
    assert |"DRIVE_OIDC_ISSUER"| == 17 && |"DRIVE_OIDC_CLIENT_ID"| == 20 && |"DRIVE_OIDC_CLIENT_SECRET"| == 24;
    assert |"DRIVE_OIDC_NAME"| == 15 && |"DRIVE_NAS_MONITOR_TOKEN"| == 23 && |"CLOUDFLARE_TUNNEL_TOKEN"| == 23;
  }

  /** A note is a comment that names its key. */
  lemma NoteNamesKey(key: string)
    ensures StartsWith(NoteFor(key), "# " + key + " ")
  {
    assert " from the settings backup was not restored:"[0] == ' ';
    assert NoteFor(key)[..|"# " + key + " "|] == "# " + key + " ";
  }

  // ---- the backup's lines ----

  /** These lines, each ended by a line feed or by a carriage return and one, the last by nothing. */
  function Ended(lines: seq<string>, crlf: seq<bool>): seq<string>
    requires |crlf| == |lines|
  {
    if |lines| <= 1 then lines
    else [if crlf[0] then lines[0] + "\r" else lines[0]] + Ended(lines[1..], crlf[1..])
  }

  predicate NoEnds(line: string) { '\n' !in line && (line != "" ==> line[|line| - 1] != '\r') }

  /** Whichever line ends the backup was written with, its lines are read as they were. */
  lemma EitherLineEnd(lines: seq<string>, crlf: seq<bool>)
    requires |crlf| == |lines| > 0 && forall i :: 0 <= i < |lines| ==> NoEnds(lines[i])
    ensures BackupLines(Join(Ended(lines, crlf), '\n')) == lines
  {
    EndedPlain(lines, crlf);
    SplitJoin(Ended(lines, crlf), '\n');
    UnendsEnded(lines, crlf);
  }

  lemma {:induction false} EndedPlain(lines: seq<string>, crlf: seq<bool>)
    requires |crlf| == |lines| > 0 && forall i :: 0 <= i < |lines| ==> NoEnds(lines[i])
    ensures Ended(lines, crlf) != [] && forall i :: 0 <= i < |Ended(lines, crlf)| ==> '\n' !in Ended(lines, crlf)[i]
  {
    if |lines| > 1 {
      EndedPlain(lines[1..], crlf[1..]);
    }
  }

  lemma {:induction false} UnendsEnded(lines: seq<string>, crlf: seq<bool>)
    requires |crlf| == |lines| && forall i :: 0 <= i < |lines| ==> NoEnds(lines[i])
    ensures |Ended(lines, crlf)| == |lines| && Unended(Ended(lines, crlf)) == lines
  {
    if |lines| > 1 {
      UnendsEnded(lines[1..], crlf[1..]);
      FirstUnended(lines[0], crlf[0]);
      var first := if crlf[0] then lines[0] + "\r" else lines[0];
      assert ([first] + Ended(lines[1..], crlf[1..]))[1..] == Ended(lines[1..], crlf[1..]);
      assert lines == [lines[0]] + lines[1..];
    }
  }

  lemma FirstUnended(line: string, crlf: bool)
    requires NoEnds(line)
    ensures WithoutReturn(if crlf then line + "\r" else line) == line
  {
    if crlf {
      assert (line + "\r")[..|line|] == line;
    }
  }
}
