/**
 * Editing a file whose lines may set keys, for any way of reading a line's key: one line put in place of a key's lines,
 * a note added at the end. The edits are overrides of the map from keys to lines.
 */
module KeyedLines {
  import opened Text
  import opened OrderedMap

  type KeyFn = string -> Option<string>

  predicate HasKeyOf(line: string, key: string, keyOf: KeyFn) { keyOf(line) == Some(key) }

  /** The lines of a file that set a key, in order: what the file says about it. */
  function KeyLines(lines: seq<string>, key: string, keyOf: KeyFn): seq<string> {
    if lines == [] then []
    else (if HasKeyOf(lines[0], key, keyOf) then [lines[0]] else []) + KeyLines(lines[1..], key, keyOf)
  }

  /** The other lines: comments, blanks, anything without a key. */
  function Keyless(lines: seq<string>, keyOf: KeyFn): seq<string> {
    if lines == [] then []
    else (if keyOf(lines[0]).None? then [lines[0]] else []) + Keyless(lines[1..], keyOf)
  }

  // ---- what another file gives ----

  /** What may be taken of a key's line: the line, or nothing when it does not pass. */
  type VetFn = (string, string) -> Option<string>

  function Take(
      taken: Entries<Option<string>>, line: string, allowed: set<string>, vet: VetFn, keyOf: KeyFn)
      : Entries<Option<string>>
  {
    match keyOf(line)
    case None => taken
    case Some(key) => if key in allowed then Put(taken, key, vet(key, line)) else taken
  }

  function TakeAll(
      taken: Entries<Option<string>>, lines: seq<string>, allowed: set<string>, vet: VetFn, keyOf: KeyFn)
      : Entries<Option<string>>
    decreases |lines|
  {
    if lines == [] then taken else TakeAll(Take(taken, lines[0], allowed, vet, keyOf), lines[1..], allowed, vet, keyOf)
  }

  // ---- the edit ----

  function NoteFor(key: string): string {
    "# " + key + " from the settings backup was not restored:" + " its value did not pass the check"
  }

  function DropKey(lines: seq<string>, key: string, keyOf: KeyFn): seq<string> {
    if lines == [] then []
    else (if HasKeyOf(lines[0], key, keyOf) then [] else [lines[0]]) + DropKey(lines[1..], key, keyOf)
  }

  /** The first line of the key, or |lines|. */
  function FindKey(lines: seq<string>, key: string, keyOf: KeyFn): (i: nat)
    ensures i <= |lines|
    ensures i < |lines| ==> HasKeyOf(lines[i], key, keyOf)
  {
    if lines == [] || HasKeyOf(lines[0], key, keyOf) then 0 else 1 + FindKey(lines[1..], key, keyOf)
  }

  function SetKey(out: seq<string>, key: string, line: string, keyOf: KeyFn): seq<string> {
    var at := FindKey(out, key, keyOf);
    if at == |out| then out + [line] else out[..at] + [line] + DropKey(out[at + 1..], key, keyOf)
  }

  function MergeOne(out: seq<string>, key: string, line: Option<string>, keyOf: KeyFn): seq<string> {
    match line
    case None => if NoteFor(key) in out then out else out + [NoteFor(key)]
    case Some(l) => SetKey(out, key, l, keyOf)
  }

  function MergeAll(out: seq<string>, taken: Entries<Option<string>>, keyOf: KeyFn): seq<string>
    decreases |taken|
  {
    if taken == [] then out else MergeAll(MergeOne(out, taken[0].0, taken[0].1, keyOf), taken[1..], keyOf)
  }

  method SetKeyInPlace(lines: seq<string>, key: string, line: string, keyOf: KeyFn) returns (out: seq<string>)
    ensures out == SetKey(lines, key, line, keyOf)
  {
    out := lines;
    var at := 0;
    while at < |out| && !HasKeyOf(out[at], key, keyOf)
      invariant 0 <= at <= |out| && FindKey(out, key, keyOf) == at + FindKey(out[at..], key, keyOf)
    {
      assert out[at..][1..] == out[at + 1..];
      at := at + 1;
    }
    if at == |out| {
      return out + [line];
    }
    assert FindKey(lines, key, keyOf) == at;
    out := out[at := line];
    out := DropAfter(out, at, key, keyOf);
    assert lines[at := line][..at + 1] == lines[..at] + [line];
    assert lines[at := line][at + 1..] == lines[at + 1..];
  }

  /** The key's other lines, spliced out from the end. */
  method DropAfter(lines: seq<string>, at: nat, key: string, keyOf: KeyFn) returns (out: seq<string>)
    requires at < |lines|
    ensures out == lines[..at + 1] + DropKey(lines[at + 1..], key, keyOf)
  {
    out := lines;
    var i := |out| - 1;
    assert lines[i + 1..] == [];
    while i > at
      invariant at <= i < |lines|
      invariant out == lines[..i + 1] + DropKey(lines[i + 1..], key, keyOf)
    {
      assert lines[i..][0] == lines[i] && lines[i..][1..] == lines[i + 1..];
      assert out[i] == lines[i];
      if HasKeyOf(out[i], key, keyOf) {
        out := out[..i] + out[i + 1..];
      }
      assert lines[..i + 1] == lines[..i] + [lines[i]];
      i := i - 1;
    }
  }

  // ---- an override of the map from keys to lines ----

  lemma {:induction false} KeyLinesConcat(a: seq<string>, b: seq<string>, key: string, keyOf: KeyFn)
    ensures KeyLines(a + b, key, keyOf) == KeyLines(a, key, keyOf) + KeyLines(b, key, keyOf)
  {
    if a == [] {
      assert a + b == b;
    } else {
      var first := if HasKeyOf(a[0], key, keyOf) then [a[0]] else [];
      assert (a + b)[0] == a[0] && (a + b)[1..] == a[1..] + b;
      KeyLinesConcat(a[1..], b, key, keyOf);
      Regroup(first, KeyLines(a[1..], key, keyOf), KeyLines(b, key, keyOf));
    }
  }

  lemma {:induction false} KeylessConcat(a: seq<string>, b: seq<string>, keyOf: KeyFn)
    ensures Keyless(a + b, keyOf) == Keyless(a, keyOf) + Keyless(b, keyOf)
  {
    if a == [] {
      assert a + b == b;
    } else {
      var first := if keyOf(a[0]).None? then [a[0]] else [];
      assert (a + b)[0] == a[0] && (a + b)[1..] == a[1..] + b;
      KeylessConcat(a[1..], b, keyOf);
      Regroup(first, Keyless(a[1..], keyOf), Keyless(b, keyOf));
    }
  }

  lemma KeyLinesOne(line: string, key: string, keyOf: KeyFn)
    ensures KeyLines([line], key, keyOf) == if HasKeyOf(line, key, keyOf) then [line] else []
    ensures Keyless([line], keyOf) == if keyOf(line).None? then [line] else []
  {
    assert [line][1..] == [];
  }

  lemma KeyLinesFirst(first: string, rest: seq<string>, key: string, keyOf: KeyFn)
    ensures
      KeyLines([first] + rest, key, keyOf)
      == (if HasKeyOf(first, key, keyOf) then [first] else []) + KeyLines(rest, key, keyOf)
    ensures Keyless([first] + rest, keyOf) == (if keyOf(first).None? then [first] else []) + Keyless(rest, keyOf)
  {
    KeyLinesConcat([first], rest, key, keyOf);
    KeylessConcat([first], rest, keyOf);
    KeyLinesOne(first, key, keyOf);
  }

  lemma KeyLinesAt(lines: seq<string>, at: nat, key: string, keyOf: KeyFn)
    requires at < |lines|
    ensures KeyLines(lines, key, keyOf)
         == KeyLines(lines[..at], key, keyOf)
           + ((if HasKeyOf(lines[at], key, keyOf) then [lines[at]] else []) + KeyLines(lines[at + 1..], key, keyOf))
    ensures Keyless(lines, keyOf)
         == Keyless(lines[..at], keyOf)
           + ((if keyOf(lines[at]).None? then [lines[at]] else []) + Keyless(lines[at + 1..], keyOf))
  {
    assert lines == lines[..at] + ([lines[at]] + lines[at + 1..]);
    KeyLinesConcat(lines[..at], [lines[at]] + lines[at + 1..], key, keyOf);
    KeylessConcat(lines[..at], [lines[at]] + lines[at + 1..], keyOf);
    KeyLinesFirst(lines[at], lines[at + 1..], key, keyOf);
  }

  lemma {:induction false} DropKeyLines(lines: seq<string>, key: string, other: string, keyOf: KeyFn)
    ensures
      KeyLines(DropKey(lines, key, keyOf), other, keyOf) == if other == key then [] else KeyLines(lines, other, keyOf)
    ensures Keyless(DropKey(lines, key, keyOf), keyOf) == Keyless(lines, keyOf)
  {
    if lines != [] {
      DropKeyLines(lines[1..], key, other, keyOf);
      KeyLinesFirst(lines[0], DropKey(lines[1..], key, keyOf), other, keyOf);
      if HasKeyOf(lines[0], key, keyOf) {
        assert DropKey(lines, key, keyOf) == DropKey(lines[1..], key, keyOf);
      }
    }
  }

  lemma {:induction false} BeforeFirst(lines: seq<string>, key: string, keyOf: KeyFn)
    ensures KeyLines(lines[..FindKey(lines, key, keyOf)], key, keyOf) == []
  {
    if lines != [] && !HasKeyOf(lines[0], key, keyOf) {
      BeforeFirst(lines[1..], key, keyOf);
      assert lines[..FindKey(lines, key, keyOf)][1..] == lines[1..][..FindKey(lines[1..], key, keyOf)];
    }
  }

  /** Setting a key's line overrides that key and nothing else. */
  lemma SetKeyOverrides(out: seq<string>, key: string, line: string, other: string, keyOf: KeyFn)
    requires HasKeyOf(line, key, keyOf)
    ensures
      KeyLines(SetKey(out, key, line, keyOf), other, keyOf)
      == if other == key then [line] else KeyLines(out, other, keyOf)
    ensures Keyless(SetKey(out, key, line, keyOf), keyOf) == Keyless(out, keyOf)
  {
    var at := FindKey(out, key, keyOf);
    if at == |out| {
      BeforeFirst(out, key, keyOf);
      assert out[..at] == out;
      KeyLinesConcat(out, [line], other, keyOf);
      KeylessConcat(out, [line], keyOf);
      KeyLinesOne(line, other, keyOf);
    } else {
      SetFoundOverrides(out, at, key, line, other, keyOf);
    }
  }

  lemma SetFoundOverrides(out: seq<string>, at: nat, key: string, line: string, other: string, keyOf: KeyFn)
    requires HasKeyOf(line, key, keyOf) && at == FindKey(out, key, keyOf) < |out|
    ensures
      KeyLines(SetKey(out, key, line, keyOf), other, keyOf)
      == if other == key then [line] else KeyLines(out, other, keyOf)
    ensures Keyless(SetKey(out, key, line, keyOf), keyOf) == Keyless(out, keyOf)
  {
    var after := out[at + 1..];
    var edited := SetKey(out, key, line, keyOf);
    BeforeFirst(out, key, keyOf);
    KeyLinesAt(out, at, other, keyOf);
    KeyLinesAt(edited, at, other, keyOf);
    assert edited[..at] == out[..at] && edited[at] == line && edited[at + 1..] == DropKey(after, key, keyOf);
    DropKeyLines(after, key, other, keyOf);
  }

  /** The last of the other file's lines for an allowed key decides, whatever came before it. */
  lemma {:induction false} LastLineWins(
      taken: Entries<Option<string>>, lines: seq<string>, allowed: set<string>, vet: VetFn,
                                        keyOf: KeyFn, key: string)
    ensures
      var mine := KeyLines(lines, key, keyOf);
      Get(TakeAll(taken, lines, allowed, vet, keyOf), key)
      == if key in allowed && mine != [] then Some(vet(key, mine[|mine| - 1])) else Get(taken, key)
    decreases |lines|
  {
    if lines != [] {
      var k := keyOf(lines[0]);
      if k.Some? && k.value in allowed {
        PutGet(taken, k.value, vet(k.value, lines[0]), key);
      }
      LastLineWins(Take(taken, lines[0], allowed, vet, keyOf), lines[1..], allowed, vet, keyOf, key);
    }
  }

  /** Every taken line sets the key it is taken for, no key is taken twice, and notes set none. */
  ghost predicate TakenSound(taken: Entries<Option<string>>, keyOf: KeyFn) {
    && DistinctKeys(taken)
    && forall e :: e in taken ==> keyOf(NoteFor(e.0)) == None && (e.1.Some? ==> HasKeyOf(e.1.value, e.0, keyOf))
  }

  lemma TailSound(taken: Entries<Option<string>>, keyOf: KeyFn)
    requires TakenSound(taken, keyOf) && taken != []
    ensures TakenSound(taken[1..], keyOf) && Get(taken[1..], taken[0].0) == None
    ensures taken[0] in taken
  {
    GetNone(taken[1..], taken[0].0);
  }

  lemma {:induction false} GetNone<V>(m: Entries<V>, k: string)
    requires forall i :: 0 <= i < |m| ==> m[i].0 != k
    ensures Get(m, k) == None
  {
    if m != [] {
      GetNone(m[1..], k);
    }
  }

  /** What the merged file says about each key. */
  lemma {:induction false} MergeAllOverrides(
      out: seq<string>, taken: Entries<Option<string>>, key: string, keyOf: KeyFn)
    requires TakenSound(taken, keyOf)
    ensures
      var given := Get(taken, key);
      KeyLines(MergeAll(out, taken, keyOf), key, keyOf)
      == if given.Some? && given.value.Some? then [given.value.value] else KeyLines(out, key, keyOf)
    decreases |taken|
  {
    if taken != [] {
      TailSound(taken, keyOf);
      var (k, line) := taken[0];
      match line {
        case Some(l) => SetKeyOverrides(out, k, l, key, keyOf);
        case None =>
          KeyLinesConcat(out, [NoteFor(k)], key, keyOf);
          KeyLinesOne(NoteFor(k), key, keyOf);
      }
      MergeAllOverrides(MergeOne(out, k, line, keyOf), taken[1..], key, keyOf);
    }
  }

  /** The notes a merge adds, in the order of the keys it could not take. */
  function NotesAdded(out: seq<string>, taken: Entries<Option<string>>, keyOf: KeyFn): (notes: seq<string>)
    decreases |taken|
  {
    if taken == [] then []
    else
      var (k, line) := taken[0];
      (if line.None? && NoteFor(k) !in out then [NoteFor(k)] else [])
        + NotesAdded(MergeOne(out, k, line, keyOf), taken[1..], keyOf)
  }

  lemma Regroup(a: seq<string>, b: seq<string>, c: seq<string>)
    ensures (a + b) + c == a + (b + c)
  {}

  lemma MergeOneKeyless(out: seq<string>, key: string, line: Option<string>, keyOf: KeyFn)
    requires keyOf(NoteFor(key)) == None && (line.Some? ==> HasKeyOf(line.value, key, keyOf))
    ensures Keyless(MergeOne(out, key, line, keyOf), keyOf)
         == Keyless(out, keyOf) + if line.None? && NoteFor(key) !in out then [NoteFor(key)] else []
  {
    match line
    case Some(l) => SetKeyOverrides(out, key, l, key, keyOf);
    case None =>
      KeylessConcat(out, [NoteFor(key)], keyOf);
      KeyLinesOne(NoteFor(key), key, keyOf);
  }

  lemma {:induction false} MergeAllKeyless(out: seq<string>, taken: Entries<Option<string>>, keyOf: KeyFn)
    requires TakenSound(taken, keyOf)
    ensures Keyless(MergeAll(out, taken, keyOf), keyOf) == Keyless(out, keyOf) + NotesAdded(out, taken, keyOf)
    decreases |taken|
  {
    if taken != [] {
      TailSound(taken, keyOf);
      var (k, line) := taken[0];
      var next := MergeOne(out, k, line, keyOf);
      MergeOneKeyless(out, k, line, keyOf);
      MergeAllKeyless(next, taken[1..], keyOf);
      Regroup(
        Keyless(out, keyOf), if line.None? && NoteFor(k) !in out then [NoteFor(k)] else [],
        NotesAdded(next, taken[1..], keyOf));
    }
  }

  lemma {:induction false} TakeAllSound(
      taken: Entries<Option<string>>, lines: seq<string>, allowed: set<string>, vet: VetFn, keyOf: KeyFn)
    requires TakenSound(taken, keyOf)
    requires forall k, l :: vet(k, l).Some? ==> vet(k, l).value == l
    requires forall l :: l in lines && keyOf(l).Some? ==> keyOf(NoteFor(keyOf(l).value)) == None
    ensures TakenSound(TakeAll(taken, lines, allowed, vet, keyOf), keyOf)
    decreases |lines|
  {
    if lines != [] {
      var key := keyOf(lines[0]);
      assert lines[0] in lines;
      if key.Some? && key.value in allowed {
        PutEntries(taken, key.value, vet(key.value, lines[0]));
        PutDistinct(taken, key.value, vet(key.value, lines[0]));
      }
      TakeAllSound(Take(taken, lines[0], allowed, vet, keyOf), lines[1..], allowed, vet, keyOf);
    }
  }

  // ---- merging again ----

  function DropBlankEnd(lines: seq<string>): (r: seq<string>)
    ensures r <= lines
    ensures r != [] ==> r[|r| - 1] != ""
  {
    if lines == [] || lines[|lines| - 1] != "" then lines else DropBlankEnd(lines[..|lines| - 1])
  }

  lemma {:induction false} NoKeyLines(lines: seq<string>, key: string, keyOf: KeyFn)
    requires KeyLines(lines, key, keyOf) == []
    ensures DropKey(lines, key, keyOf) == lines && FindKey(lines, key, keyOf) == |lines|
  {
    if lines != [] {
      NoKeyLines(lines[1..], key, keyOf);
    }
  }

  /** Setting a key to the one line it has changes nothing. */
  lemma SetKeySame(out: seq<string>, key: string, line: string, keyOf: KeyFn)
    requires KeyLines(out, key, keyOf) == [line]
    ensures SetKey(out, key, line, keyOf) == out
  {
    var at := FindKey(out, key, keyOf);
    OnlyLine(out, key, line, keyOf);
    NoKeyLines(out[at + 1..], key, keyOf);
    Parts(out, at);
  }

  lemma Parts(lines: seq<string>, at: nat)
    requires at < |lines|
    ensures lines == lines[..at] + [lines[at]] + lines[at + 1..]
  {
  }

  lemma OnlyLine(out: seq<string>, key: string, line: string, keyOf: KeyFn)
    requires KeyLines(out, key, keyOf) == [line]
    ensures
      var at := FindKey(out, key, keyOf);
      at < |out| && out[at] == line && KeyLines(out[at + 1..], key, keyOf) == []
  {
    var at := FindKey(out, key, keyOf);
    HasKeyFound(out, key, keyOf);
    BeforeFirst(out, key, keyOf);
    KeyLinesAt(out, at, key, keyOf);
    var rest := KeyLines(out[at + 1..], key, keyOf);
    assert [] + ([out[at]] + rest) == [line];
    assert ([] + ([out[at]] + rest))[0] == out[at] && |[] + ([out[at]] + rest)| == 1 + |rest|;
  }

  lemma {:induction false} HasKeyFound(lines: seq<string>, key: string, keyOf: KeyFn)
    ensures FindKey(lines, key, keyOf) < |lines| <==> KeyLines(lines, key, keyOf) != []
  {
    if lines != [] {
      HasKeyFound(lines[1..], key, keyOf);
    }
  }

  /** The file already says all that is taken. */
  ghost predicate Says(out: seq<string>, taken: Entries<Option<string>>, keyOf: KeyFn) {
    forall e :: e in taken ==> if e.1.Some? then KeyLines(out, e.0, keyOf) == [e.1.value] else NoteFor(e.0) in out
  }

  lemma {:induction false} MergeAllSame(out: seq<string>, taken: Entries<Option<string>>, keyOf: KeyFn)
    requires Says(out, taken, keyOf)
    ensures MergeAll(out, taken, keyOf) == out
    decreases |taken|
  {
    if taken != [] {
      assert taken[0] in taken;
      if taken[0].1.Some? {
        SetKeySame(out, taken[0].0, taken[0].1.value, keyOf);
      }
      MergeAllSame(out, taken[1..], keyOf);
    }
  }

  lemma {:induction false} InKeyless(lines: seq<string>, line: string, keyOf: KeyFn)
    requires keyOf(line) == None
    ensures line in lines <==> line in Keyless(lines, keyOf)
  {
    if lines != [] {
      InKeyless(lines[1..], line, keyOf);
    }
  }

  lemma MergeOneKeeps(out: seq<string>, key: string, line: Option<string>, note: string, keyOf: KeyFn)
    requires keyOf(note) == None && note in out && (line.Some? ==> HasKeyOf(line.value, key, keyOf))
    ensures note in MergeOne(out, key, line, keyOf)
  {
    if line.Some? {
      SetKeyOverrides(out, key, line.value, key, keyOf);
      InKeyless(out, note, keyOf);
      InKeyless(SetKey(out, key, line.value, keyOf), note, keyOf);
    }
  }

  lemma {:induction false} MergeAllKeeps(out: seq<string>, taken: Entries<Option<string>>, note: string, keyOf: KeyFn)
    requires TakenSound(taken, keyOf) && keyOf(note) == None && note in out
    ensures note in MergeAll(out, taken, keyOf)
    decreases |taken|
  {
    if taken != [] {
      TailSound(taken, keyOf);
      MergeOneKeeps(out, taken[0].0, taken[0].1, note, keyOf);
      MergeAllKeeps(MergeOne(out, taken[0].0, taken[0].1, keyOf), taken[1..], note, keyOf);
    }
  }

  lemma {:induction false} MergeAllNotes(
      out: seq<string>, taken: Entries<Option<string>>, e: (string, Option<string>), keyOf: KeyFn)
    requires TakenSound(taken, keyOf) && e in taken && e.1 == None
    ensures NoteFor(e.0) in MergeAll(out, taken, keyOf)
    decreases |taken|
  {
    TailSound(taken, keyOf);
    var next := MergeOne(out, taken[0].0, taken[0].1, keyOf);
    if taken[0] == e {
      MergeAllKeeps(next, taken[1..], NoteFor(e.0), keyOf);
    } else {
      MergeAllNotes(next, taken[1..], e, keyOf);
    }
  }

  lemma {:induction false} GetIs<V>(m: Entries<V>, e: (string, V))
    requires DistinctKeys(m) && e in m
    ensures Get(m, e.0) == Some(e.1)
  {
    if m[0] != e {
      assert e in m[1..];
      GetIs(m[1..], e);
      var i :| 0 <= i < |m| && m[i] == e;
    }
  }

  /** After a merge the file says all that was taken. */
  lemma MergedSays(out: seq<string>, taken: Entries<Option<string>>, keyOf: KeyFn)
    requires TakenSound(taken, keyOf)
    ensures Says(MergeAll(out, taken, keyOf), taken, keyOf)
  {
    forall e | e in taken
      ensures
        if e.1.Some? then KeyLines(MergeAll(out, taken, keyOf), e.0, keyOf) == [e.1.value]
        else NoteFor(e.0) in MergeAll(out, taken, keyOf)
    {
      GetIs(taken, e);
      MergeAllOverrides(out, taken, e.0, keyOf);
      if e.1.None? {
        MergeAllNotes(out, taken, e, keyOf);
      }
    }
  }

  lemma {:induction false} DropBlankEndKeeps(lines: seq<string>, key: string, line: string, keyOf: KeyFn)
    requires keyOf("") == None
    ensures KeyLines(DropBlankEnd(lines), key, keyOf) == KeyLines(lines, key, keyOf)
    ensures line != "" && line in lines ==> line in DropBlankEnd(lines)
  {
    if lines != [] && lines[|lines| - 1] == "" {
      var before := lines[..|lines| - 1];
      assert lines == before + [""];
      KeyLinesConcat(before, [""], key, keyOf);
      KeyLinesOne("", key, keyOf);
      DropBlankEndKeeps(before, key, line, keyOf);
    }
  }

  /** Merging the same again into what was merged, blank lines at its end dropped, changes nothing. */
  lemma MergeAgain(out: seq<string>, taken: Entries<Option<string>>, keyOf: KeyFn)
    requires TakenSound(taken, keyOf) && keyOf("") == None
    ensures
      var merged := DropBlankEnd(MergeAll(out, taken, keyOf));
      MergeAll(merged, taken, keyOf) == merged
  {
    var merged := MergeAll(out, taken, keyOf);
    MergedSays(out, taken, keyOf);
    forall e | e in taken
      ensures
        if e.1.Some? then KeyLines(DropBlankEnd(merged), e.0, keyOf) == [e.1.value]
        else NoteFor(e.0) in DropBlankEnd(merged)
    {
      DropBlankEndKeeps(merged, e.0, NoteFor(e.0), keyOf);
    }
    MergeAllSame(DropBlankEnd(merged), taken, keyOf);
  }

  // ---- when the end stays as it is ----

  predicate NoBlankEnd(lines: seq<string>) { lines != [] ==> lines[|lines| - 1] != "" }

  /** Dropping a second line of a key can leave a blank line at the end. */
  lemma TwiceLeavesBlank(first: string, second: string, line: string, key: string, keyOf: KeyFn)
    requires HasKeyOf(first, key, keyOf) && HasKeyOf(second, key, keyOf) && keyOf("") == None
    ensures SetKey([first, "", second], key, line, keyOf) == [line, ""]
  {
    var rest := ["", second];
    assert [first, "", second][1..] == rest && rest[1..] == [second] && [second][1..] == [];
    assert DropKey([second], key, keyOf) == [];
    assert DropKey(rest, key, keyOf) == [""];
  }

  lemma MergeLeavesBlank(first: string, second: string, line: string, key: string, keyOf: KeyFn)
    requires HasKeyOf(first, key, keyOf) && HasKeyOf(second, key, keyOf) && keyOf("") == None
    ensures MergeAll([first, "", second], [(key, Some(line))], keyOf) == [line, ""]
  {
    TwiceLeavesBlank(first, second, line, key, keyOf);
    assert [(key, Some(line))][1..] == [];
  }

  // ---- lines stay lines ----

  lemma {:induction false} DropKeyIn(lines: seq<string>, key: string, keyOf: KeyFn)
    ensures forall l :: l in DropKey(lines, key, keyOf) ==> l in lines
  {
    if lines != [] {
      DropKeyIn(lines[1..], key, keyOf);
    }
  }

  lemma SetKeyIn(out: seq<string>, key: string, line: string, keyOf: KeyFn)
    ensures forall l :: l in SetKey(out, key, line, keyOf) ==> l in out || l == line
  {
    var at := FindKey(out, key, keyOf);
    if at < |out| {
      DropKeyIn(out[at + 1..], key, keyOf);
    }
  }

  /** Neither what is taken nor the notes about it span lines. */
  ghost predicate TakenOneLiners(taken: Entries<Option<string>>) {
    forall e :: e in taken ==> '\n' !in NoteFor(e.0) && (e.1.Some? ==> '\n' !in e.1.value)
  }

  lemma {:induction false} MergeAllOneLiners(out: seq<string>, taken: Entries<Option<string>>, keyOf: KeyFn)
    requires OneLiners(out) && TakenOneLiners(taken)
    ensures OneLiners(MergeAll(out, taken, keyOf))
    decreases |taken|
  {
    if taken != [] {
      assert taken[0] in taken;
      if taken[0].1.Some? {
        SetKeyIn(out, taken[0].0, taken[0].1.value, keyOf);
      }
      MergeAllOneLiners(MergeOne(out, taken[0].0, taken[0].1, keyOf), taken[1..], keyOf);
    }
  }
}
