/** What is shown of the event tail, newest first: a run of the same thing on the same disk is one line with a count. */
module EventLines {
  import opened Text
  import opened Events

  predicate Same(a: Event, b: Event) { a.thing == b.thing }

  /** The events asked for, newest first, back to the first one that is too old. */
  function Matching(tail: seq<Event>, all: bool, since: Option<int>): seq<Event> {
    if tail == [] then []
    else
      var e, rest := tail[|tail| - 1], tail[..|tail| - 1];
      if !all && !e.matters then Matching(rest, all, since)
      else if since.Some? && e.time < since.value then []
      else [e] + Matching(rest, all, since)
  }

  predicate Wanted(e: Event, all: bool) { all || e.matters }

  predicate Recently(e: Event, since: Option<int>) { since.Some? ==> e.time >= since.value }

  /** From here on no wanted event is too old. */
  predicate Reached(tail: seq<Event>, i: nat, all: bool, since: Option<int>) {
    forall j :: i <= j < |tail| && Wanted(tail[j], all) ==> Recently(tail[j], since)
  }

  /** Exactly what is asked for: the wanted events from which on none wanted is too old. */
  lemma {:induction false} MatchingExactly(tail: seq<Event>, all: bool, since: Option<int>, e: Event)
    ensures
      e in Matching(tail, all, since) <==>
      exists i :: 0 <= i < |tail| && tail[i] == e && Wanted(e, all) && Reached(tail, i, all, since)
    decreases |tail|
  {
    if tail != [] {
      var n, last, rest := |tail| - 1, tail[|tail| - 1], tail[..|tail| - 1];
      MatchingExactly(rest, all, since, e);
      forall i | 0 <= i < n
        ensures
          Reached(tail, i, all, since)
          <==> Reached(rest, i, all, since) && (Wanted(last, all) ==> Recently(last, since))
      {
        ReachedMore(tail, i, all, since);
      }
      assert tail[n] == last && forall i :: 0 <= i < n ==> tail[i] == rest[i];
    }
  }

  lemma ReachedMore(tail: seq<Event>, i: nat, all: bool, since: Option<int>)
    requires i < |tail| - 1
    ensures
      var rest, last := tail[..|tail| - 1], tail[|tail| - 1];
      Reached(tail, i, all, since)
      <==> Reached(rest, i, all, since) && (Wanted(last, all) ==> Recently(last, since))
  {
    var rest := tail[..|tail| - 1];
    assert forall j :: 0 <= j < |rest| ==> rest[j] == tail[j];
    if Reached(tail, i, all, since) {
      forall j | i <= j < |rest| && Wanted(rest[j], all) ensures Recently(rest[j], since) {
        assert Wanted(tail[j], all);
      }
    }
  }

  ghost predicate Descending(m: seq<Event>) { forall i, j :: 0 <= i < j < |m| ==> m[i].eid > m[j].eid }

  lemma NewestFirst(e: Event, shown: seq<Event>)
    requires forall i :: 0 <= i < |shown| ==> shown[i].eid < e.eid
    requires Descending(shown)
    ensures Descending([e] + shown)
  {}

  /** And newest first: later events of the tail stand before earlier ones. */
  lemma {:induction false} MatchingNewestFirst(tail: seq<Event>, all: bool, since: Option<int>)
    requires forall i, j :: 0 <= i < j < |tail| ==> tail[i].eid < tail[j].eid
    ensures Descending(Matching(tail, all, since))
    decreases |tail|
  {
    if tail != [] {
      var rest := tail[..|tail| - 1];
      MatchingNewestFirst(rest, all, since);
      var shown := Matching(rest, all, since);
      forall i | 0 <= i < |shown| ensures shown[i].eid < tail[|tail| - 1].eid {
        assert shown[i] in shown;
        MatchingExactly(rest, all, since, shown[i]);
      }
      NewestFirst(tail[|tail| - 1], shown);
    }
  }

  /** The first n events are the same thing. */
  predicate AllSame(m: seq<Event>, n: nat)
    requires n <= |m|
  {
    n <= 1 || (AllSame(m, n - 1) && Same(m[0], m[n - 1]))
  }

  /** A run is of the same thing, and as long as it can be. */
  predicate IsRun(m: seq<Event>, n: nat) {
    1 <= n <= |m| && AllSame(m, n) && (n < |m| ==> !Same(m[0], m[n]))
  }

  function RunLength(m: seq<Event>): (n: nat)
    requires |m| > 0
    ensures IsRun(m, n)
  {
    RunFrom(m, 1)
  }

  function RunFrom(m: seq<Event>, k: nat): (n: nat)
    requires 1 <= k <= |m| && AllSame(m, k)
    ensures k <= n && IsRun(m, n)
    decreases |m| - k
  {
    if k < |m| && Same(m[0], m[k]) then RunFrom(m, k + 1) else k
  }

  lemma {:induction false} SameAt(m: seq<Event>, n: nat, i: nat)
    requires i < n <= |m| && AllSame(m, n)
    ensures Same(m[0], m[i])
    decreases n
  {
    if i < n - 1 {
      SameAt(m, n - 1, i);
    }
  }

  /** One line a run: its first event, counting the rest. */
  function Fold(m: seq<Event>): (r: seq<Event>)
    ensures |r| == 0 <==> |m| == 0
    decreases |m|
  {
    if |m| == 0 then []
    else
      var n := RunLength(m);
      [Counted(m[0], n - 1)] + Fold(m[n..])
  }

  function Counted(e: Event, more: nat): Event { e.(count := e.count + more) }

  // ---- what folding keeps ----

  predicate Single(m: seq<Event>) { forall i :: 0 <= i < |m| ==> m[i].count == 1 }

  /** Every line's thing as often as it counts. */
  function Unfold(lines: seq<Event>): seq<Thing> {
    if lines == [] then [] else seq(lines[0].count, _ => lines[0].thing) + Unfold(lines[1..])
  }

  function Things(m: seq<Event>): (r: seq<Thing>)
    ensures |r| == |m|
  {
    seq(|m|, i requires 0 <= i < |m| => m[i].thing)
  }

  /** The counts lose nothing: unfolded, the lines are the events again, in order. */
  lemma {:induction false} UnfoldFold(m: seq<Event>)
    requires Single(m)
    ensures Unfold(Fold(m)) == Things(m)
    decreases |m|
  {
    if m != [] {
      var n := RunLength(m);
      UnfoldFold(m[n..]);
      UnfoldFirst(Counted(m[0], n - 1), Fold(m[n..]));
      ThingsOfRun(m, n);
    }
  }

  lemma UnfoldFirst(line: Event, lines: seq<Event>)
    ensures Unfold([line] + lines) == seq(line.count, _ => line.thing) + Unfold(lines)
  {
    assert ([line] + lines)[1..] == lines;
  }

  lemma ThingsOfRun(m: seq<Event>, n: nat)
    requires 1 <= n <= |m| && m[0].count == 1 && AllSame(m, n)
    ensures Things(m) == seq(Counted(m[0], n - 1).count, _ => Counted(m[0], n - 1).thing) + Things(m[n..])
  {
    forall i | 0 <= i < n ensures Things(m)[i] == m[0].thing {
      SameAt(m, n, i);
    }
  }

  /** No two lines next to each other are the same thing. */
  lemma {:induction false} FoldAlternates(m: seq<Event>, i: nat)
    requires i + 1 < |Fold(m)|
    ensures Fold(m)[i].thing != Fold(m)[i + 1].thing
    decreases |m|
  {
    var n := RunLength(m);
    if i > 0 {
      FoldAlternates(m[n..], i - 1);
    }
  }

  // ---- the loop ----

  /** One more event: counted on the last line when it is the same thing, or a line of its own. */
  function Push(lines: seq<Event>, e: Event): seq<Event> {
    if |lines| > 0 && Same(lines[|lines| - 1], e) then
      lines[..|lines| - 1] + [Counted(lines[|lines| - 1], 1)]
    else lines + [e]
  }

  lemma PushBehind(line: Event, lines: seq<Event>, e: Event)
    requires lines != []
    ensures Push([line] + lines, e) == [line] + Push(lines, e)
  {
    var all := [line] + lines;
    assert all[|all| - 1] == lines[|lines| - 1] && all[..|all| - 1] == [line] + lines[..|lines| - 1];
  }

  lemma RunIs(m: seq<Event>, n: nat)
    requires IsRun(m, n)
    ensures RunLength(m) == n
  {
    var r := RunLength(m);
    if r < n {
      SameAt(m, n, r);
    }
    if n < r {
      SameAt(m, r, n);
    }
  }

  lemma FoldUnfolds(m: seq<Event>)
    requires m != []
    ensures Fold(m) == [Counted(m[0], RunLength(m) - 1)] + Fold(m[RunLength(m)..])
  {
  }

  lemma FoldIs(m: seq<Event>, n: nat)
    requires IsRun(m, n)
    ensures Fold(m) == [Counted(m[0], n - 1)] + Fold(m[n..])
  {
    RunIs(m, n);
    FoldUnfolds(m);
  }

  lemma FoldOfOneRun(m: seq<Event>)
    requires IsRun(m, |m|)
    ensures Fold(m) == [Counted(m[0], |m| - 1)]
  {
    FoldIs(m, |m|);
    assert |Fold(m[|m|..])| == 0;
  }

  lemma RunGrows(m: seq<Event>, e: Event)
    requires IsRun(m, |m|) && Same(m[0], e)
    ensures IsRun(m + [e], |m| + 1) && (m + [e])[0] == m[0]
  {
    SameInBoth(m, [e], |m|);
    assert (m + [e])[|m|] == e;
  }

  lemma OneLine(m: seq<Event>, first: Event, more: nat)
    requires |m| == more + 1 && IsRun(m, more + 1) && m[0] == first
    ensures Fold(m) == [Counted(first, more)]
  {
    FoldOfOneRun(m);
  }

  lemma OneRunLonger(m: seq<Event>, e: Event)
    requires IsRun(m, |m|) && Same(m[0], e)
    ensures Fold(m + [e]) == [Counted(m[0], |m|)]
  {
    RunGrows(m, e);
    OneLine(m + [e], m[0], |m|);
  }

  lemma {:induction false} OneRunEnds(m: seq<Event>, e: Event)
    requires IsRun(m, |m|) && !Same(m[0], e)
    ensures Fold(m + [e]) == [Counted(m[0], |m| - 1)] + [Counted(e, 0)]
  {
    RunOfBoth(m, [e], |m|);
    OneLine([e], e, 0);
    RestIsOne(m, e);
    FoldOfTwo(m + [e], |m|, [e], Counted(e, 0));
    assert (m + [e])[0] == m[0];
  }

  lemma {:induction false} FoldOfTwo(m: seq<Event>, n: nat, rest: seq<Event>, line: Event)
    requires IsRun(m, n) && m[n..] == rest && Fold(rest) == [line]
    ensures Fold(m) == [Counted(m[0], n - 1)] + [line]
  {
    FoldIs(m, n);
  }

  lemma RestIsOne(m: seq<Event>, e: Event)
    ensures (m + [e])[|m|..] == [e]
  {
  }

  lemma CountedMore(e: Event, more: nat)
    ensures Counted(e, 0) == e && Counted(Counted(e, more), 1) == Counted(e, more + 1)
  {
  }

  lemma PushOnOne(line: Event, e: Event)
    ensures Push([line], e) == if Same(line, e) then [Counted(line, 1)] else [line] + [e]
  {
    assert [line][..0] + [Counted(line, 1)] == [Counted(line, 1)];
  }

  lemma {:induction false} OneRunMore(m: seq<Event>, e: Event)
    requires IsRun(m, |m|)
    ensures Fold(m + [e]) == Push([Counted(m[0], |m| - 1)], e)
  {
    if Same(m[0], e) {
      OneRunLonger(m, e);
      PushSame(m[0], |m|, e, Fold(m + [e]));
    } else {
      OneRunEnds(m, e);
      PushOther(m[0], |m|, e, Fold(m + [e]));
    }
  }

  lemma PushSame(first: Event, n: nat, e: Event, folded: seq<Event>)
    requires n > 0 && Same(first, e) && folded == [Counted(first, n)]
    ensures folded == Push([Counted(first, n - 1)], e)
  {
    PushOnOne(Counted(first, n - 1), e);
    CountedMore(first, n - 1);
  }

  lemma PushOther(first: Event, n: nat, e: Event, folded: seq<Event>)
    requires n > 0 && !Same(first, e) && folded == [Counted(first, n - 1)] + [Counted(e, 0)]
    ensures folded == Push([Counted(first, n - 1)], e)
  {
    PushOnOne(Counted(first, n - 1), e);
    CountedMore(e, 0);
  }

  lemma FoldOfMore(m: seq<Event>, e: Event, n: nat)
    requires n < |m| && IsRun(m, n)
    ensures Fold(m + [e]) == [Counted(m[0], n - 1)] + Fold(m[n..] + [e])
  {
    RunOfBoth(m, [e], n);
    FoldIs(m + [e], n);
  }

  lemma {:induction false} FoldPush(m: seq<Event>, e: Event)
    ensures Fold(m + [e]) == Push(Fold(m), e)
    decreases |m|
  {
    if m == [] {
      FoldOfOneRun([e]);
      assert [] + [e] == [e] && Counted(e, 0) == e;
    } else {
      var n := RunLength(m);
      if n < |m| {
        FoldPush(m[n..], e);
        FoldOfMore(m, e, n);
        FoldIs(m, n);
        PushBehind(Counted(m[0], n - 1), Fold(m[n..]), e);
      } else {
        FoldOfOneRun(m);
        OneRunMore(m, e);
      }
    }
  }

  lemma MoveOver(seen: seq<Event>, e: Event, rest: seq<Event>)
    ensures seen + ([e] + rest) == (seen + [e]) + rest
    ensures (seen + [e])[..|seen|] == seen
  {
  }

  /**
   * What the loop has: the folding of the events it looked at, which reached the limit with the last of them if at all.
   */
  ghost predicate Shows(limit: int, seen: seq<Event>, out: seq<Event>) {
    && out == Fold(seen)
    && |out| <= (if limit > 0 then limit else 0)
    && (seen != [] ==> |Fold(seen[..|seen| - 1])| < limit)
  }

  /** The loop: newest first until the limit is reached, the same thing as the line before only counted. */
  method Recent(tail: seq<Event>, limit: int, all: bool, since: Option<int>) returns (out: seq<Event>)
    ensures out == Shown(Matching(tail, all, since), limit)
  {
    ghost var m := Matching(tail, all, since);
    ghost var rest := m;
    ghost var seen := [];
    out := [];
    var i := |tail| - 1;
    assert tail[..i + 1] == tail;
    while i >= 0 && |out| < limit
      invariant -1 <= i < |tail|
      invariant rest == Matching(tail[..i + 1], all, since) && m == seen + rest
      invariant Shows(limit, seen, out)
      decreases i
    {
      var e := tail[i];
      MatchingNext(tail, i, all, since);
      i := i - 1;
      if !all && !e.matters {
        continue;
      }
      if since.Some? && e.time < since.value {
        break;
      }
      rest := Matching(tail[..i + 1], all, since);
      MoveOver(seen, e, rest);
      FoldPush(seen, e);
      out := PushLine(out, e);
      seen := seen + [e];
    }
    ShownIs(m, limit, seen, out);
  }

  /** The same thing as the line before is counted on it, anything else is pushed. */
  method PushLine(lines: seq<Event>, e: Event) returns (out: seq<Event>)
    ensures out == Push(lines, e)
    ensures |lines| <= |out| <= |lines| + 1
  {
    out := lines;
    if |out| > 0 && Same(out[|out| - 1], e) {
      out := out[..|out| - 1] + [Counted(out[|out| - 1], 1)];
    } else {
      out := out + [e];
    }
  }

  lemma MatchingNext(tail: seq<Event>, i: nat, all: bool, since: Option<int>)
    requires i < |tail|
    ensures
      Matching(tail[..i + 1], all, since)
      == if !all && !tail[i].matters then Matching(tail[..i], all, since)
      else if since.Some? && tail[i].time < since.value then []
      else [tail[i]] + Matching(tail[..i], all, since)
  {
    assert tail[..i + 1][..i] == tail[..i];
  }

  // ---- the limit ----

  lemma RunOfBoth(a: seq<Event>, b: seq<Event>, n: nat)
    requires IsRun(a, n) && (n == |a| && b != [] ==> !Same(a[0], b[0]))
    ensures IsRun(a + b, n) && (a + b)[0] == a[0] && (a + b)[n..] == a[n..] + b
  {
    SameInBoth(a, b, n);
  }

  lemma {:induction false} SameInBoth(a: seq<Event>, b: seq<Event>, n: nat)
    requires n <= |a| && AllSame(a, n)
    ensures AllSame(a + b, n)
    decreases n
  {
    if n > 1 {
      SameInBoth(a, b, n - 1);
      assert (a + b)[0] == a[0] && (a + b)[n - 1] == a[n - 1];
    }
  }

  lemma FoldOfFirst(a: seq<Event>, b: seq<Event>, n: nat)
    requires IsRun(a, n) && (n == |a| && b != [] ==> !Same(a[0], b[0]))
    ensures Fold(a + b) == [Counted(a[0], n - 1)] + Fold(a[n..] + b)
  {
    RunOfBoth(a, b, n);
    FoldIs(a + b, n);
  }

  lemma FirstApart(a: seq<Event>, b: seq<Event>) returns (first: Event, rest: seq<Event>)
    requires a != [] && b != [] && !Same(a[|a| - 1], b[0])
    ensures |rest| < |a| && (rest != [] ==> !Same(rest[|rest| - 1], b[0]))
    ensures Fold(a) == [first] + Fold(rest) && Fold(a + b) == [first] + Fold(rest + b)
  {
    var n := RunLength(a);
    first, rest := Counted(a[0], n - 1), a[n..];
    if n == |a| {
      SameAt(a, n, n - 1);
    }
    FoldUnfolds(a);
    FoldOfFirst(a, b, n);
    assert rest != [] ==> rest[|rest| - 1] == a[|a| - 1];
  }

  /** Where one thing stops and another starts, the two sides fold apart. */
  lemma {:induction false} FoldApart(a: seq<Event>, b: seq<Event>)
    requires b != [] && (a != [] ==> !Same(a[|a| - 1], b[0]))
    ensures Fold(a + b) == Fold(a) + Fold(b)
    decreases |a|
  {
    if a == [] {
      assert a + b == b;
    } else {
      var first, rest := FirstApart(a, b);
      FoldApart(rest, b);
      Associates([first], Fold(rest), Fold(b));
    }
  }

  lemma Associates(a: seq<Event>, b: seq<Event>, c: seq<Event>)
    ensures a + (b + c) == (a + b) + c
  {
  }

  lemma {:induction false} LastOfFold(m: seq<Event>)
    requires m != []
    ensures Same(Fold(m)[|Fold(m)| - 1], m[|m| - 1])
    decreases |m|
  {
    var n := RunLength(m);
    if n < |m| {
      LastOfFold(m[n..]);
    } else {
      FoldOfOneRun(m);
    }
  }

  /** The event the k-th line begins with. */
  function HeadOf(m: seq<Event>, k: nat): Event
    requires k < |Fold(m)|
    decreases |m|
  {
    if k == 0 then m[0] else HeadOf(m[RunLength(m)..], k - 1)
  }

  /**
   * Short of the limit, what is shown is the folding of everything that matches. At the limit it is the first `limit`
   * lines of that, but the last of them counts only the one event that reached the limit, whatever its run.
   */
  function Shown(m: seq<Event>, limit: int): seq<Event> {
    if limit <= 0 then []
    else if |Fold(m)| < limit then Fold(m)
    else Fold(m)[..limit - 1] + [HeadOf(m, limit - 1)]
  }

  lemma BothGoOn(a: seq<Event>, b: seq<Event>)
    requires a != [] && b != [] && !Same(a[|a| - 1], b[0])
    ensures
      var n := RunLength(a);
      && RunLength(a + b) == n && (a + b)[n..] == a[n..] + b && |Fold(a)| == 1 + |Fold(a[n..])|
      && (a[n..] != [] ==> !Same(a[n..][|a[n..]| - 1], b[0]))
  {
    var n := RunLength(a);
    if n == |a| {
      SameAt(a, n, n - 1);
    }
    RunOfBoth(a, b, n);
    RunIs(a + b, n);
    FoldUnfolds(a);
  }

  lemma {:induction false} HeadAfter(a: seq<Event>, b: seq<Event>)
    requires b != [] && (a != [] ==> !Same(a[|a| - 1], b[0]))
    ensures |Fold(a)| < |Fold(a + b)| && HeadOf(a + b, |Fold(a)|) == b[0]
    decreases |a|
  {
    FoldApart(a, b);
    if a == [] {
      assert a + b == b;
    } else {
      BothGoOn(a, b);
      HeadAfter(a[RunLength(a)..], b);
    }
  }

  lemma FirstPart(m: seq<Event>, seen: seq<Event>)
    requires seen <= m && seen != []
    ensures
      var before, e := seen[..|seen| - 1], seen[|seen| - 1];
      var rest := m[|before|..];
      seen == before + [e] && m == before + rest && rest != [] && rest[0] == e
  {
  }

  lemma ShownIs(m: seq<Event>, limit: int, seen: seq<Event>, out: seq<Event>)
    requires seen <= m && Shows(limit, seen, out) && (|out| < limit ==> seen == m)
    ensures out == Shown(m, limit)
  {
    if limit > 0 && |out| == limit {
      var before, e := seen[..|seen| - 1], seen[|seen| - 1];
      FirstPart(m, seen);
      FoldPush(before, e);
      if before != [] {
        LastOfFold(before);
      }
      ShownAtLimit(before, m[|before|..], limit);
    }
  }

  lemma ShownAtLimit(before: seq<Event>, rest: seq<Event>, limit: int)
    requires rest != [] && |Fold(before)| == limit - 1 && (before != [] ==> !Same(before[|before| - 1], rest[0]))
    ensures Shown(before + rest, limit) == Fold(before) + [rest[0]]
  {
    FoldApart(before, rest);
    HeadAfter(before, rest);
    assert Fold(before + rest)[..limit - 1] == Fold(before);
  }

  /** The line the limit cuts is the whole line but for its count, which is that of its first event alone. */
  lemma {:induction false} CutLineCountsOne(m: seq<Event>, k: nat)
    requires Single(m) && k < |Fold(m)|
    ensures HeadOf(m, k).count == 1 && Fold(m)[k].count >= 1
    ensures Fold(m)[k] == HeadOf(m, k).(count := Fold(m)[k].count)
    decreases |m|
  {
    FoldUnfolds(m);
    if k > 0 {
      CutLineCountsOne(m[RunLength(m)..], k - 1);
    }
  }

  /**
   * What is shown is the first lines of the folding exactly when the limit cuts no line that counts more than one
   * event.
   */
  lemma ShownIsFirstLinesExactly(m: seq<Event>, limit: nat)
    requires Single(m)
    ensures
      Shown(m, limit) == Fold(m)[..if limit < |Fold(m)| then limit else |Fold(m)|]
      <==> limit == 0 || |Fold(m)| < limit || Fold(m)[limit - 1].count == 1
  {
    if 0 < limit <= |Fold(m)| {
      CutLineCountsOne(m, limit - 1);
      SplitLast(Fold(m), HeadOf(m, limit - 1), limit);
    }
  }

  lemma SplitLast(lines: seq<Event>, head: Event, n: nat)
    requires 0 < n <= |lines|
    ensures lines[..n - 1] + [head] == lines[..n] <==> head == lines[n - 1]
  {
    assert lines[..n] == lines[..n - 1] + [lines[n - 1]];
    assert (lines[..n - 1] + [head])[n - 1] == head;
  }

  /** Two events of the same thing and room for one line: the line says one. */
  lemma TwoCountAsOne(a: Event, b: Event)
    requires Same(a, b) && a.count == 1 && b.count == 1
    ensures Fold([a, b]) == [a.(count := 2)] && Shown([a, b], 1) == [a]
  {
    var m := [a, b];
    assert AllSame(m, 1) && AllSame(m, 2);
    FoldOfOneRun(m);
    assert Fold(m)[..0] + [a] == [a];
  }
}
