/**
 * The drive's .env after a restore: this box's file, line for line, with the allow-listed keys set to the backup's
 * lines. The text edit is shown to be an override of a map from keys to lines.
 */
module DriveEnv {
  import opened Text
  import opened OrderedMap
  import opened KeyedLines
  import opened RepeatedMerge

  const ENV_KEYS: set<string> := {
    "DRIVE_UID", "DRIVE_GID", "TZ", "DRIVE_PASSWORD_LOGIN", "DRIVE_OIDC_ISSUER", "DRIVE_OIDC_CLIENT_ID",
    "DRIVE_OIDC_CLIENT_SECRET", "DRIVE_OIDC_NAME", "DRIVE_NAS_MONITOR_TOKEN", "CLOUDFLARE_TUNNEL_TOKEN"
  }

  /** Whether a value may be restored for a key: the agent's per-key checks. */
  type Check = (string, string) -> bool

  // ---- keys of lines ----

  predicate Upper(c: char) { 'A' <= c <= 'Z' || c == '_' }
  predicate WordStart(c: char) { Upper(c) || 'a' <= c <= 'z' }
  predicate WordPart(c: char) { WordStart(c) || IsDigit(c) }

  function WordRun(s: string): (r: string)
    ensures r <= s
  {
    if s == "" || !WordPart(s[0]) then "" else [s[0]] + WordRun(s[1..])
  }

  /** A name followed by = */
  function KeyAt(s: string): Option<string> {
    var name := WordRun(s);
    var rest := TrimStart(s[|name|..]);
    if name != "" && WordStart(name[0]) && rest != "" && rest[0] == '=' then Some(name) else None
  }

  /** /^\s*(?:export\s+)?([A-Za-z_][A-Za-z0-9_]*)\s*=/ */
  function KeyOf(line: string): Option<string> {
    var s := TrimStart(line);
    if StartsWith(s, "export") && |s| > 6 && IsSpace(s[6]) && KeyAt(TrimStart(s[6..])).Some?
    then KeyAt(TrimStart(s[6..]))
    else KeyAt(s)
  }

  // ---- what the backup gives ----

  function UpperRun(s: string): (r: string)
    ensures r <= s
  {
    if s == "" || !(Upper(s[0]) || IsDigit(s[0])) then "" else [s[0]] + UpperRun(s[1..])
  }

  /** /^([A-Z_][A-Z0-9_]*)=(.*)$/, its value. */
  function PlainValue(line: string): Option<string> {
    var name := UpperRun(line);
    if name != "" && Upper(name[0]) && |name| < |line| && line[|name|] == '='
       && (forall c :: c in line[|name|..] ==> !IsLineEnd(c))
    then Some(line[|name| + 1..])
    else None
  }

  function Unquoted(v: string): string {
    if |v| >= 2 && (v[0] == '"' || v[0] == '\'') && v[|v| - 1] == v[0] then v[1..|v| - 1] else v
  }

  /** The line itself when its value passes the check, else nothing. */
  function Vetted(key: string, line: string, check: Check): Option<string> {
    var v := PlainValue(line);
    if v.Some? && (Unquoted(v.value) == "" || check(key, Unquoted(v.value))) then Some(line) else None
  }

  /** A line without the carriage return that belongs to its line end. */
  function WithoutReturn(line: string): string {
    if line != "" && line[|line| - 1] == '\r' then line[..|line| - 1] else line
  }

  /** All but the last line end with a line feed. */
  function Unended(lines: seq<string>): seq<string> {
    if |lines| <= 1 then lines else [WithoutReturn(lines[0])] + Unended(lines[1..])
  }

  /** String.prototype.split on /\r?\n/. */
  function BackupLines(text: string): seq<string> { Unended(Split(text, '\n')) }

  function TextOf(lines: seq<string>): string {
    if lines == [] then "" else Join(lines, '\n') + "\n"
  }

  function Vet(check: Check): VetFn { (key, line) => Vetted(key, line, check) }

  function Taken(backup: string, check: Check): Entries<Option<string>> {
    TakeAll([], BackupLines(backup), ENV_KEYS, Vet(check), KeyOf)
  }

  function BoxLines(current: string): seq<string> { DropBlankEnd(Split(current, '\n')) }

  function MergedLines(current: string, backup: string, check: Check): seq<string> {
    MergeAll(BoxLines(current), Taken(backup, check), KeyOf)
  }

  function Merged(current: string, backup: string, check: Check): string {
    TextOf(MergedLines(current, backup, check))
  }

  /** The edit as it runs: lines popped, overwritten, spliced out from the end, pushed. */
  method MergeDriveEnv(current: string, backup: string, check: Check) returns (text: string)
    ensures text == Merged(current, backup, check)
  {
    var lines := BackupLines(backup);
    var taken: Entries<Option<string>> := [];
    for i := 0 to |lines|
      invariant TakeAll(taken, lines[i..], ENV_KEYS, Vet(check), KeyOf) == Taken(backup, check)
    {
      assert lines[i..][0] == lines[i] && lines[i..][1..] == lines[i + 1..];
      var key := KeyOf(lines[i]);
      if key.Some? && key.value in ENV_KEYS {
        taken := Put(taken, key.value, Vetted(key.value, lines[i], check));
      }
    }
    var out := Split(current, '\n');
    while out != [] && out[|out| - 1] == ""
      invariant DropBlankEnd(out) == BoxLines(current)
    {
      out := out[..|out| - 1];
    }
    for i := 0 to |taken|
      invariant MergeAll(out, taken[i..], KeyOf) == MergedLines(current, backup, check)
    {
      assert taken[i..][0] == taken[i] && taken[i..][1..] == taken[i + 1..];
      var (key, line) := taken[i];
      if line.None? {
        if NoteFor(key) !in out {
          out := out + [NoteFor(key)];
        }
      } else {
        out := SetKeyInPlace(out, key, line.value, KeyOf);
      }
    }
    text := TextOf(out);
  }

  // ---- what it comes to ----

  lemma NoteHasNoKey(key: string)
    ensures KeyOf(NoteFor(key)) == None
  {
    var note := NoteFor(key);
    assert note[0] == '#';
    assert TrimStart(note) == note && WordRun(note) == "";
  }

  lemma TakenIsSound(backup: string, check: Check)
    ensures TakenSound(Taken(backup, check), KeyOf)
  {
    forall l | l in BackupLines(backup) && KeyOf(l).Some? ensures KeyOf(NoteFor(KeyOf(l).value)) == None {
      NoteHasNoKey(KeyOf(l).value);
    }
    TakeAllSound([], BackupLines(backup), ENV_KEYS, Vet(check), KeyOf);
  }

  /** The backup's last line for a key when the key may be restored and the line passes its check. */
  function Restored(backup: string, check: Check, key: string): Option<string> {
    var given := KeyLines(BackupLines(backup), key, KeyOf);
    if key in ENV_KEYS && given != [] then Vetted(key, given[|given| - 1], check) else None
  }

  lemma RestoredIsTaken(backup: string, check: Check, key: string)
    ensures
      var taken := Get(Taken(backup, check), key);
      Restored(backup, check, key) == if taken.Some? then taken.value else None
  {
    LastLineWins([], BackupLines(backup), ENV_KEYS, Vet(check), KeyOf, key);
  }

  lemma VettedIsLine(key: string, line: string, check: Check)
    ensures Vetted(key, line, check).Some? ==> Vetted(key, line, check).value == line
  {}

  /**
   * The merge is a plain override. A key of the list whose last line in the backup passes its check is left with
   * exactly that line; every other key keeps this box's lines, in content and order; the lines without a key keep
   * theirs, and only notes come after them.
   */
  lemma MergeIsOverride(current: string, backup: string, check: Check, key: string)
    ensures
      var restored := Restored(backup, check, key);
      KeyLines(MergedLines(current, backup, check), key, KeyOf)
      == if restored.Some? then [restored.value] else KeyLines(BoxLines(current), key, KeyOf)
    ensures Keyless(MergedLines(current, backup, check), KeyOf)
         == Keyless(BoxLines(current), KeyOf) + NotesAdded(BoxLines(current), Taken(backup, check), KeyOf)
  {
    TakenIsSound(backup, check);
    RestoredIsTaken(backup, check, key);
    MergeAllOverrides(BoxLines(current), Taken(backup, check), key, KeyOf);
    MergeAllKeyless(BoxLines(current), Taken(backup, check), KeyOf);
  }

  /** What is restored is a line of the backup itself, the last that sets its key. */
  lemma RestoredIsLastLine(backup: string, check: Check, key: string)
    requires Restored(backup, check, key).Some?
    ensures
      var given := KeyLines(BackupLines(backup), key, KeyOf);
      given != [] && Restored(backup, check, key).value == given[|given| - 1]
  {
    var given := KeyLines(BackupLines(backup), key, KeyOf);
    VettedIsLine(key, given[|given| - 1], check);
  }

  // ---- merging the same backup again ----

  lemma BlankHasNoKey()
    ensures KeyOf("") == None
  {}

  lemma {:induction false} WordRunParts(s: string)
    ensures forall c :: c in WordRun(s) ==> WordPart(c)
  {
    if s != "" && WordPart(s[0]) {
      WordRunParts(s[1..]);
    }
  }

  lemma KeyIsWord(line: string)
    ensures KeyOf(line).Some? ==> '\n' !in KeyOf(line).value
  {
    var s := TrimStart(line);
    WordRunParts(s);
    if |s| > 6 {
      WordRunParts(TrimStart(s[6..]));
    }
  }

  lemma NoteIsOneLine(key: string)
    requires '\n' !in key
    ensures '\n' !in NoteFor(key)
  {
    assert '\n' !in "# " && '\n' !in " from the settings backup";
    assert '\n' !in " was not restored: its";
    assert '\n' !in " value did not pass the check";
  }

  lemma {:induction false} TakeAllOneLiners(taken: Entries<Option<string>>, lines: seq<string>, check: Check)
    requires TakenOneLiners(taken) && OneLiners(lines)
    ensures TakenOneLiners(TakeAll(taken, lines, ENV_KEYS, Vet(check), KeyOf))
    decreases |lines|
  {
    if lines != [] {
      assert lines[0] in lines;
      var key := KeyOf(lines[0]);
      KeyIsWord(lines[0]);
      if key.Some? && key.value in ENV_KEYS {
        NoteIsOneLine(key.value);
        PutEntries(taken, key.value, Vet(check)(key.value, lines[0]));
      }
      TakeAllOneLiners(Take(taken, lines[0], ENV_KEYS, Vet(check), KeyOf), lines[1..], check);
    }
  }

  lemma {:induction false} UnendedOneLiners(lines: seq<string>)
    requires forall i :: 0 <= i < |lines| ==> OneLine(lines[i])
    ensures OneLiners(Unended(lines))
  {
    if |lines| > 1 {
      UnendedOneLiners(lines[1..]);
    }
  }

  lemma MergedOneLiners(current: string, backup: string, check: Check)
    ensures OneLiners(MergedLines(current, backup, check))
  {
    UnendedOneLiners(Split(backup, '\n'));
    TakeAllOneLiners([], BackupLines(backup), check);
    MergeAllOneLiners(BoxLines(current), Taken(backup, check), KeyOf);
  }

  /** Reading back what was written gives the lines, but for blank ones at the end. */
  lemma TextReadsBack(lines: seq<string>)
    requires OneLiners(lines)
    ensures BoxLines(TextOf(lines)) == DropBlankEnd(lines)
  {
    if lines == [] {
      SplitNone("", '\n');
      assert [""][..0] == [];
    } else {
      SplitEnded(lines);
      BlankDrops(lines);
    }
  }

  lemma BlankDrops(lines: seq<string>)
    ensures DropBlankEnd(lines + [""]) == DropBlankEnd(lines)
  {
    assert (lines + [""])[..|lines|] == lines;
  }

  lemma {:induction false} DropBlankEndTwice(lines: seq<string>)
    ensures DropBlankEnd(DropBlankEnd(lines)) == DropBlankEnd(lines)
  {}

  /**
   * Merging the same backup a second time gives the first result with its trailing blank lines removed; a third merge
   * changes nothing more.
   */
  lemma MergingAgain(current: string, backup: string, check: Check)
    ensures
      var once := Merged(current, backup, check);
      var twice := Merged(once, backup, check);
      && twice == TextOf(DropBlankEnd(MergedLines(current, backup, check)))
      && Merged(twice, backup, check) == twice
  {
    var lines := MergedLines(current, backup, check);
    MergedOneLiners(current, backup, check);
    TextReadsBack(lines);
    TakenIsSound(backup, check);
    BlankHasNoKey();
    MergeAgain(BoxLines(current), Taken(backup, check), KeyOf);
    TextReadsBack(DropBlankEnd(lines));
    DropBlankEndTwice(lines);
  }

  lemma NoBlankSame(lines: seq<string>)
    requires NoBlankEnd(lines)
    ensures DropBlankEnd(lines) == lines
  {}

  lemma {:induction false} DroppedIsShorter(lines: seq<string>)
    ensures |TextOf(DropBlankEnd(lines))| <= |TextOf(lines)|
    ensures lines != [] && lines[|lines| - 1] == "" ==> |TextOf(DropBlankEnd(lines))| < |TextOf(lines)|
    decreases |lines|
  {
    if lines != [] && lines[|lines| - 1] == "" {
      var front := lines[..|lines| - 1];
      DroppedIsShorter(front);
      assert lines == front + [""];
      if front != [] {
        JoinAppend(front, [""], '\n');
      }
    }
  }

  lemma TextStaysExactly(lines: seq<string>)
    ensures TextOf(DropBlankEnd(lines)) == TextOf(lines) <==> NoBlankEnd(lines)
  {
    DroppedIsShorter(lines);
    if NoBlankEnd(lines) {
      NoBlankSame(lines);
    }
  }

  /**
   * The second merge changes nothing exactly when the first one adds a line at the end, for a key this box does not set
   * or a note it does not have, or when no blank line of this box's file is followed by nothing but later lines of
   * taken keys.
   */
  lemma MergingAgainSameExactly(current: string, backup: string, check: Check)
    ensures
      var box, taken := BoxLines(current), Taken(backup, check);
      Merged(Merged(current, backup, check), backup, check) == Merged(current, backup, check)
      <==> Adds(box, taken, KeyOf) || !BlankBeforeLater(box, TakenKeys(taken), KeyOf)
  {
    var box, taken := BoxLines(current), Taken(backup, check);
    MergingAgain(current, backup, check);
    TextStaysExactly(MergedLines(current, backup, check));
    TakenIsSound(backup, check);
    BlankHasNoKey();
    EndsExactly(box, taken, KeyOf);
    KeepFirstEnds(box, TakenKeys(taken), KeyOf);
  }

  /** So it changes nothing when no key taken from the backup is set twice on this box. */
  lemma MergingAgainSame(current: string, backup: string, check: Check)
    requires forall e :: e in Taken(backup, check) && e.1.Some? ==> |KeyLines(BoxLines(current), e.0, KeyOf)| <= 1
    ensures Merged(Merged(current, backup, check), backup, check) == Merged(current, backup, check)
  {
    MergingAgainSameExactly(current, backup, check);
    OnceHidesNothing(BoxLines(current), Taken(backup, check), KeyOf);
  }

  lemma TimeZoneLine(value: string)
    requires value == "a" || value == "b" || value == "c"
    ensures KeyOf("TZ=" + value) == Some("TZ") && PlainValue("TZ=" + value) == Some(value) && '\n' !in "TZ=" + value
  {
    var line := "TZ=" + value;
    assert line[1..] == "Z=" + value && line[1..][1..] == "=" + value && line[2..] == "=" + value && line[3..] == value;
    assert WordRun("=" + value) == "" && UpperRun("=" + value) == "";
    assert WordRun("Z=" + value) == "Z" && UpperRun("Z=" + value) == "Z";
    assert WordRun(line) == "TZ" && UpperRun(line) == "TZ";
    assert TrimStart(line) == line && TrimStart("=" + value) == "=" + value;
    assert line[0] == 'T' && "export"[0] == 'e';
  }

  /**
   * This box sets TZ twice with a blank line between, the backup once: the second merge drops what the first one left.
   */
  lemma MergingAgainDiffers(check: Check)
    requires check("TZ", "c")
    ensures
      var current, backup := "TZ=a\n\nTZ=b\n", "TZ=c";
      Merged(Merged(current, backup, check), backup, check) != Merged(current, backup, check)
  {
    TwoTimeZones();
    OneTimeZone(check);
    MergedTimeZone();
    MergingAgain("TZ=a\n\nTZ=b\n", "TZ=c", check);
    TextStaysExactly(["TZ=c", ""]);
  }

  lemma MergedTimeZone()
    ensures MergeAll(["TZ=a", "", "TZ=b"], [("TZ", Some("TZ=c"))], KeyOf) == ["TZ=c", ""]
  {
    TimeZoneLine("a");
    TimeZoneLine("b");
    BlankHasNoKey();
    assert "TZ=" + "a" == "TZ=a" && "TZ=" + "b" == "TZ=b";
    MergeLeavesBlank("TZ=a", "TZ=b", "TZ=c", "TZ", KeyOf);
  }

  lemma BlankBetween(a: string, b: string)
    requires '\n' !in a && '\n' !in b && b != ""
    ensures BoxLines(a + "\n" + ("\n" + b) + "\n") == [a, "", b]
  {
    var lines := [a, "", b];
    assert lines[1..] == ["", b] && ["", b][1..] == [b];
    assert Join(["", b], '\n') == "" + ['\n'] + b;
    assert Join(lines, '\n') == a + "\n" + ("\n" + b);
    TextReadsBack(lines);
  }

  lemma TwoTimeZones()
    ensures BoxLines("TZ=a\n\nTZ=b\n") == ["TZ=a", "", "TZ=b"]
  {
    BlankBetween("TZ=a", "TZ=b");
    assert "TZ=a" + "\n" + ("\n" + "TZ=b") + "\n" == "TZ=a\n\nTZ=b\n";
  }

  lemma OneTimeZone(check: Check)
    requires check("TZ", "c")
    ensures Taken("TZ=c", check) == [("TZ", Some("TZ=c"))]
  {
    TimeZoneLine("c");
    assert "TZ=" + "c" == "TZ=c";
    SplitNone("TZ=c", '\n');
    assert BackupLines("TZ=c") == ["TZ=c"] && ["TZ=c"][1..] == [];
    assert Vetted("TZ", "TZ=c", check) == Some("TZ=c");
    assert Take([], "TZ=c", ENV_KEYS, Vet(check), KeyOf) == [("TZ", Some("TZ=c"))];
  }
}
