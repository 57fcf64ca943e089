/** When merging the same lines again changes nothing, told from the file and from what is taken, before any merge. */
module RepeatedMerge {
  import opened Text
  import opened OrderedMap
  import opened KeyedLines

  /** The keys a line is taken for. */
  function TakenKeys(taken: Entries<Option<string>>): set<string> {
    if taken == [] then {} else (if taken[0].1.Some? then {taken[0].0} else {}) + TakenKeys(taken[1..])
  }

  /** The entry puts a line at the end: its key has none in the file, or its note is not there yet. */
  predicate Due(lines: seq<string>, e: (string, Option<string>), keyOf: KeyFn) {
    if e.1.Some? then KeyLines(lines, e.0, keyOf) == [] else NoteFor(e.0) !in lines
  }

  ghost predicate Adds(lines: seq<string>, taken: Entries<Option<string>>, keyOf: KeyFn) {
    exists e :: e in taken && Due(lines, e, keyOf)
  }

  /** Line j sets a taken key that an earlier line sets too. */
  predicate IsLater(lines: seq<string>, j: nat, keys: set<string>, keyOf: KeyFn)
    requires j < |lines|
  {
    Repeats(lines[..j], lines[j], keys, keyOf)
  }

  predicate Repeats(before: seq<string>, line: string, keys: set<string>, keyOf: KeyFn) {
    keyOf(line).Some? && keyOf(line).value in keys && KeyLines(before, keyOf(line).value, keyOf) != []
  }

  /** A blank line that nothing but later lines of taken keys come after. */
  ghost predicate BlankBeforeLater(lines: seq<string>, keys: set<string>, keyOf: KeyFn) {
    exists i :: 0 <= i < |lines| && lines[i] == "" && forall j :: i < j < |lines| ==> IsLater(lines, j, keys, keyOf)
  }

  // ---- the file without the later lines ----

  function KeepFirst(lines: seq<string>, keys: set<string>, keyOf: KeyFn): seq<string> {
    if lines == [] then []
    else
      var before, last := lines[..|lines| - 1], lines[|lines| - 1];
      KeepFirst(before, keys, keyOf) + if Repeats(before, last, keys, keyOf) then [] else [last]
  }

  lemma KeepFirstMore(lines: seq<string>, last: string, keys: set<string>, keyOf: KeyFn)
    ensures
      KeepFirst(lines + [last], keys, keyOf)
      == KeepFirst(lines, keys, keyOf) + if Repeats(lines, last, keys, keyOf) then [] else [last]
  {
    assert (lines + [last])[..|lines|] == lines;
  }

  lemma FrontAndLast(lines: seq<string>)
    requires lines != []
    ensures lines == lines[..|lines| - 1] + [lines[|lines| - 1]]
  {
  }

  lemma {:induction false} KeepFirstNone(lines: seq<string>, keyOf: KeyFn)
    ensures KeepFirst(lines, {}, keyOf) == lines
    decreases |lines|
  {
    if lines != [] {
      var before, last := lines[..|lines| - 1], lines[|lines| - 1];
      KeepFirstNone(before, keyOf);
      FrontAndLast(lines);
      assert !Repeats(before, last, {}, keyOf);
    }
  }

  /** A key is there with the later lines exactly when it is there without them. */
  lemma {:induction false} KeepFirstKeys(lines: seq<string>, keys: set<string>, key: string, keyOf: KeyFn)
    ensures KeyLines(KeepFirst(lines, keys, keyOf), key, keyOf) == [] <==> KeyLines(lines, key, keyOf) == []
    decreases |lines|
  {
    if lines != [] {
      var before, last := lines[..|lines| - 1], lines[|lines| - 1];
      KeepFirstKeys(before, keys, key, keyOf);
      FrontAndLast(lines);
      KeyLinesConcat(before, [last], key, keyOf);
      KeyLinesConcat(KeepFirst(before, keys, keyOf), [last], key, keyOf);
      KeyLinesOne(last, key, keyOf);
      assert KeepFirst(before, keys, keyOf) + [] == KeepFirst(before, keys, keyOf);
    }
  }

  /** Keys can be looked at one after another. */
  lemma {:induction false} KeepFirstTwice(lines: seq<string>, key: string, keys: set<string>, keyOf: KeyFn)
    ensures KeepFirst(KeepFirst(lines, {key}, keyOf), keys, keyOf) == KeepFirst(lines, {key} + keys, keyOf)
    decreases |lines|
  {
    if lines != [] {
      var before, last := lines[..|lines| - 1], lines[|lines| - 1];
      var kept := KeepFirst(before, {key}, keyOf);
      KeepFirstTwice(before, key, keys, keyOf);
      if Repeats(before, last, {key}, keyOf) {
        assert kept + [] == kept;
      } else {
        KeepFirstMore(kept, last, keys, keyOf);
        if keyOf(last).Some? {
          KeepFirstKeys(before, {key}, keyOf(last).value, keyOf);
        }
      }
    }
  }

  lemma {:induction false} DropKeyMore(lines: seq<string>, last: string, key: string, keyOf: KeyFn)
    ensures
      DropKey(lines + [last], key, keyOf)
      == DropKey(lines, key, keyOf) + if HasKeyOf(last, key, keyOf) then [] else [last]
  {
    if lines == [] {
      assert [last][1..] == [] && lines + [last] == [last];
    } else {
      assert (lines + [last])[0] == lines[0] && (lines + [last])[1..] == lines[1..] + [last];
      DropKeyMore(lines[1..], last, key, keyOf);
    }
  }

  lemma {:induction false} KeepFirstWithout(lines: seq<string>, key: string, keyOf: KeyFn)
    requires KeyLines(lines, key, keyOf) == []
    ensures KeepFirst(lines, {key}, keyOf) == lines
    decreases |lines|
  {
    if lines != [] {
      var before, last := lines[..|lines| - 1], lines[|lines| - 1];
      FrontAndLast(lines);
      KeyLinesConcat(before, [last], key, keyOf);
      KeepFirstWithout(before, key, keyOf);
    }
  }

  /** What is left of a key's lines is the first, where it is. */
  lemma {:induction false} KeepFirstParts(a: seq<string>, first: string, b: seq<string>, key: string, keyOf: KeyFn)
    requires KeyLines(a, key, keyOf) == [] && HasKeyOf(first, key, keyOf)
    ensures KeepFirst(a + [first] + b, {key}, keyOf) == a + [first] + DropKey(b, key, keyOf)
    decreases |b|
  {
    if b == [] {
      assert a + [first] + b == a + [first] && a + [first] + [] == a + [first];
      KeepFirstWithout(a, key, keyOf);
      KeepFirstMore(a, first, {key}, keyOf);
    } else {
      var front, last := b[..|b| - 1], b[|b| - 1];
      FrontAndLast(b);
      KeepFirstParts(a, first, front, key, keyOf);
      Associates(a + [first], front, [last]);
      KeepFirstMore(a + [first] + front, last, {key}, keyOf);
      DropKeyMore(front, last, key, keyOf);
      HasIt(a, first, front, key, keyOf);
    }
  }

  lemma HasIt(a: seq<string>, first: string, b: seq<string>, key: string, keyOf: KeyFn)
    requires HasKeyOf(first, key, keyOf)
    ensures KeyLines(a + [first] + b, key, keyOf) != []
  {
    KeyLinesConcat(a + [first], b, key, keyOf);
    KeyLinesConcat(a, [first], key, keyOf);
    KeyLinesOne(first, key, keyOf);
  }

  /** Another line for the same key in the same place leaves the end as blank as it was. */
  lemma {:induction false} SwapOne(
      a: seq<string>, first: string, other: string, b: seq<string>, keys: set<string>, keyOf: KeyFn)
    requires keyOf(first) == keyOf(other) && first != "" && other != ""
    ensures NoBlankEnd(KeepFirst(a + [first] + b, keys, keyOf)) <==> NoBlankEnd(KeepFirst(a + [other] + b, keys, keyOf))
    decreases |b|
  {
    if b == [] {
      assert a + [first] + b == a + [first] && a + [other] + b == a + [other];
      KeepFirstMore(a, first, keys, keyOf);
      KeepFirstMore(a, other, keys, keyOf);
      assert KeepFirst(a, keys, keyOf) + [] == KeepFirst(a, keys, keyOf);
    } else {
      var front, last := b[..|b| - 1], b[|b| - 1];
      FrontAndLast(b);
      SwapOne(a, first, other, front, keys, keyOf);
      assert a + [first] + b == (a + [first] + front) + [last];
      assert a + [other] + b == (a + [other] + front) + [last];
      if keyOf(last).Some? {
        SameKeys(a, first, other, front, keyOf(last).value, keyOf);
      }
      SwapLast(a + [first] + front, a + [other] + front, last, keys, keyOf);
    }
  }

  lemma EndOfMore(lines: seq<string>, last: string, keys: set<string>, keyOf: KeyFn)
    ensures
      NoBlankEnd(KeepFirst(lines + [last], keys, keyOf))
      <==> if Repeats(lines, last, keys, keyOf) then NoBlankEnd(KeepFirst(lines, keys, keyOf)) else last != ""
  {
    KeepFirstMore(lines, last, keys, keyOf);
    assert KeepFirst(lines, keys, keyOf) + [] == KeepFirst(lines, keys, keyOf);
  }

  lemma SwapLast(x: seq<string>, y: seq<string>, last: string, keys: set<string>, keyOf: KeyFn)
    requires NoBlankEnd(KeepFirst(x, keys, keyOf)) <==> NoBlankEnd(KeepFirst(y, keys, keyOf))
    requires Repeats(x, last, keys, keyOf) <==> Repeats(y, last, keys, keyOf)
    ensures NoBlankEnd(KeepFirst(x + [last], keys, keyOf)) <==> NoBlankEnd(KeepFirst(y + [last], keys, keyOf))
  {
    EndOfMore(x, last, keys, keyOf);
    EndOfMore(y, last, keys, keyOf);
  }

  lemma SameKeys(a: seq<string>, first: string, other: string, b: seq<string>, key: string, keyOf: KeyFn)
    requires keyOf(first) == keyOf(other)
    ensures KeyLines(a + [first] + b, key, keyOf) == [] <==> KeyLines(a + [other] + b, key, keyOf) == []
  {
    KeyLinesConcat(a + [first], b, key, keyOf);
    KeyLinesConcat(a, [first], key, keyOf);
    KeyLinesConcat(a + [other], b, key, keyOf);
    KeyLinesConcat(a, [other], key, keyOf);
    KeyLinesOne(first, key, keyOf);
    KeyLinesOne(other, key, keyOf);
  }

  // ---- the end after a merge ----

  /** Setting a key that is there: the end is as if its later lines had gone before. */
  lemma SetKeyEnds(out: seq<string>, key: string, line: string, keys: set<string>, keyOf: KeyFn)
    requires HasKeyOf(line, key, keyOf) && keyOf("") == None && KeyLines(out, key, keyOf) != []
    ensures
      NoBlankEnd(KeepFirst(SetKey(out, key, line, keyOf), keys, keyOf))
      <==> NoBlankEnd(KeepFirst(out, {key} + keys, keyOf))
  {
    var at := FindKey(out, key, keyOf);
    HasKeyFound(out, key, keyOf);
    BeforeFirst(out, key, keyOf);
    var a, first, b := out[..at], out[at], out[at + 1..];
    Parts(out, at);
    KeepFirstParts(a, first, b, key, keyOf);
    KeepFirstTwice(out, key, keys, keyOf);
    SwapOne(a, first, line, DropKey(b, key, keyOf), keys, keyOf);
  }

  lemma {:induction false} TakenKeysAre(taken: Entries<Option<string>>, key: string)
    requires key in TakenKeys(taken)
    ensures exists i :: 0 <= i < |taken| && taken[i].0 == key && taken[i].1.Some?
  {
    if !(taken[0].1.Some? && taken[0].0 == key) {
      TakenKeysAre(taken[1..], key);
      var i :| 0 <= i < |taken[1..]| && taken[1..][i].0 == key && taken[1..][i].1.Some?;
      assert taken[i + 1].0 == key;
    }
  }

  lemma DueStays(out: seq<string>, key: string, line: string, e: (string, Option<string>), keyOf: KeyFn)
    requires HasKeyOf(line, key, keyOf) && e.0 != key && keyOf(NoteFor(e.0)) == None
    ensures Due(SetKey(out, key, line, keyOf), e, keyOf) <==> Due(out, e, keyOf)
  {
    SetKeyOverrides(out, key, line, e.0, keyOf);
    InKeyless(out, NoteFor(e.0), keyOf);
    InKeyless(SetKey(out, key, line, keyOf), NoteFor(e.0), keyOf);
  }

  lemma AddsStays(out: seq<string>, taken: Entries<Option<string>>, keyOf: KeyFn)
    requires TakenSound(taken, keyOf) && taken != [] && taken[0].1.Some? && KeyLines(out, taken[0].0, keyOf) != []
    ensures Adds(SetKey(out, taken[0].0, taken[0].1.value, keyOf), taken[1..], keyOf) <==> Adds(out, taken, keyOf)
  {
    var next := SetKey(out, taken[0].0, taken[0].1.value, keyOf);
    assert taken[0] in taken;
    forall e | e in taken[1..] ensures Due(next, e, keyOf) <==> Due(out, e, keyOf) {
      var i :| 0 <= i < |taken[1..]| && taken[1..][i] == e;
      assert taken[i + 1] == e;
      DueStays(out, taken[0].0, taken[0].1.value, e, keyOf);
    }
    assert forall e :: e in taken <==> e == taken[0] || e in taken[1..];
    if e :| e in taken && Due(out, e, keyOf) {
      assert e in taken[1..] && Due(next, e, keyOf);
    }
    if e :| e in taken[1..] && Due(next, e, keyOf) {
      assert e in taken && Due(out, e, keyOf);
    }
  }

  /** What is put at the end stays there: its key is taken once. */
  lemma AddedEnds(out: seq<string>, line: string, taken: Entries<Option<string>>, keyOf: KeyFn)
    requires line != "" && (keyOf(line).Some? ==> keyOf(line).value !in TakenKeys(taken))
    ensures NoBlankEnd(KeepFirst(out + [line], TakenKeys(taken), keyOf))
  {
    KeepFirstMore(out, line, TakenKeys(taken), keyOf);
  }

  lemma AddsNothingFirst(out: seq<string>, taken: Entries<Option<string>>, keyOf: KeyFn)
    requires taken != [] && !Due(out, taken[0], keyOf)
    ensures Adds(out, taken, keyOf) <==> Adds(out, taken[1..], keyOf)
  {
    assert forall e :: e in taken <==> e == taken[0] || e in taken[1..];
  }

  /**
   * A merge leaves no blank line at the end exactly when it adds a line, or the later lines of what it takes hide no
   * blank.
   */
  lemma {:induction false} EndsExactly(out: seq<string>, taken: Entries<Option<string>>, keyOf: KeyFn)
    requires TakenSound(taken, keyOf) && keyOf("") == None
    ensures
      NoBlankEnd(MergeAll(out, taken, keyOf))
      <==> Adds(out, taken, keyOf) || NoBlankEnd(KeepFirst(out, TakenKeys(taken), keyOf))
    decreases |taken|
  {
    if taken == [] {
      KeepFirstNone(out, keyOf);
    } else {
      var (key, line) := taken[0];
      TailSound(taken, keyOf);
      EndsExactly(MergeOne(out, key, line, keyOf), taken[1..], keyOf);
      if Due(out, taken[0], keyOf) {
        DueEnds(out, taken, keyOf);
      } else if line.Some? {
        AddsStays(out, taken, keyOf);
        SetKeyEnds(out, key, line.value, TakenKeys(taken[1..]), keyOf);
      } else {
        AddsNothingFirst(out, taken, keyOf);
        NoteTakesNoKey(taken);
      }
    }
  }

  lemma NoteTakesNoKey(taken: Entries<Option<string>>)
    requires taken != [] && taken[0].1.None?
    ensures TakenKeys(taken) == TakenKeys(taken[1..])
  {
  }

  lemma DueEnds(out: seq<string>, taken: Entries<Option<string>>, keyOf: KeyFn)
    requires TakenSound(taken, keyOf) && keyOf("") == None && taken != [] && Due(out, taken[0], keyOf)
    ensures
      var (key, line) := taken[0];
      NoBlankEnd(KeepFirst(MergeOne(out, key, line, keyOf), TakenKeys(taken[1..]), keyOf))
    ensures Adds(out, taken, keyOf)
  {
    var (key, line) := taken[0];
    assert taken[0] in taken;
    if key in TakenKeys(taken[1..]) {
      TakenKeysAre(taken[1..], key);
      assert false;
    }
    if line.Some? {
      HasKeyFound(out, key, keyOf);
      AddedEnds(out, line.value, taken[1..], keyOf);
    } else {
      AddedEnds(out, NoteFor(key), taken[1..], keyOf);
    }
  }

  // ---- told line by line ----

  lemma {:induction false} KeepFirstEnds(lines: seq<string>, keys: set<string>, keyOf: KeyFn)
    requires keyOf("") == None
    ensures NoBlankEnd(KeepFirst(lines, keys, keyOf)) <==> !BlankBeforeLater(lines, keys, keyOf)
    decreases |lines|
  {
    if lines != [] {
      var n := |lines| - 1;
      var before := lines[..n];
      KeepFirstEnds(before, keys, keyOf);
      assert forall j :: 0 <= j < n ==> before[..j] == lines[..j] && before[j] == lines[j];
      assert IsLater(lines, n, keys, keyOf) <==> Repeats(before, lines[n], keys, keyOf);
      if IsLater(lines, n, keys, keyOf) {
        assert KeepFirst(before, keys, keyOf) + [] == KeepFirst(before, keys, keyOf);
        LaterEnds(lines, keys, keyOf);
      } else if lines[n] == "" {
        assert BlankBeforeLater(lines, keys, keyOf);
      }
    }
  }

  lemma LaterEnds(lines: seq<string>, keys: set<string>, keyOf: KeyFn)
    requires lines != [] && keyOf("") == None && IsLater(lines, |lines| - 1, keys, keyOf)
    ensures BlankBeforeLater(lines, keys, keyOf) <==> BlankBeforeLater(lines[..|lines| - 1], keys, keyOf)
  {
    var n := |lines| - 1;
    var before := lines[..n];
    assert forall j :: 0 <= j < n ==> before[..j] == lines[..j] && before[j] == lines[j];
    assert forall j :: 0 <= j < n ==> (IsLater(before, j, keys, keyOf) <==> IsLater(lines, j, keys, keyOf));
    if i :| 0 <= i < |lines| && lines[i] == "" && forall j :: i < j < |lines| ==> IsLater(lines, j, keys, keyOf) {
      assert i < n && before[i] == "" && forall j :: i < j < n ==> IsLater(before, j, keys, keyOf);
    }
    if i :| 0 <= i < n && before[i] == "" && forall j :: i < j < n ==> IsLater(before, j, keys, keyOf) {
      assert lines[i] == "" && forall j :: i < j < |lines| ==> IsLater(lines, j, keys, keyOf);
    }
  }

  lemma LaterIsSecond(lines: seq<string>, j: nat, keys: set<string>, keyOf: KeyFn)
    requires j < |lines| && IsLater(lines, j, keys, keyOf)
    ensures |KeyLines(lines, keyOf(lines[j]).value, keyOf)| >= 2
  {
    KeyLinesAt(lines, j, keyOf(lines[j]).value, keyOf);
  }

  /** When no taken key is set twice there are no later lines, and an end that is not blank stays so. */
  lemma OnceHidesNothing(lines: seq<string>, taken: Entries<Option<string>>, keyOf: KeyFn)
    requires NoBlankEnd(lines) && forall e :: e in taken && e.1.Some? ==> |KeyLines(lines, e.0, keyOf)| <= 1
    ensures !BlankBeforeLater(lines, TakenKeys(taken), keyOf)
  {
    if i :| 0 <= i < |lines| && lines[i] == ""
            && forall j :: i < j < |lines| ==> IsLater(lines, j, TakenKeys(taken), keyOf)
    {
      var last := |lines| - 1;
      LaterIsSecond(lines, last, TakenKeys(taken), keyOf);
      TakenKeysAre(taken, keyOf(lines[last]).value);
      assert false;
    }
  }
}
