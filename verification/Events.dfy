/**
 * The event log: polls of the kernel's list, which is a window that slides over a stream, and the tail that is kept of
 * what the polls found; then what is shown of that tail, runs of one thing as one line.
 */
module Events {
  import opened Text

  const KEEP: nat := 500

  /** What happened to what: the event's class, its pool, its disk and the disk's state. */
  datatype Thing = Thing(kind: string, pool: Option<string>, vdev: Option<string>, state: Option<string>)

  datatype Event = Event(eid: int, time: int, thing: Thing, matters: bool, count: nat)

  // ---- a poll ----

  /** Ids that start over are read from the start again. */
  function Since(all: seq<Event>, lastEid: int): int {
    if all != [] && all[|all| - 1].eid < lastEid then -1 else lastEid
  }

  function Newer(all: seq<Event>, eid: int): seq<Event> {
    if all == [] then [] else (if all[0].eid > eid then [all[0]] else []) + Newer(all[1..], eid)
  }

  function Found(all: seq<Event>, lastEid: int): seq<Event> { Newer(all, Since(all, lastEid)) }

  function LastEid(all: seq<Event>, lastEid: int): int {
    var found := Found(all, lastEid);
    if found == [] then Since(all, lastEid) else found[|found| - 1].eid
  }

  /** A poll with a reply, or with none when the command failed or another poll was still at it. */
  function FoundBy(reply: Option<seq<Event>>, lastEid: int): seq<Event> {
    if reply.Some? then Found(reply.value, lastEid) else []
  }

  function LastBy(reply: Option<seq<Event>>, lastEid: int): int {
    if reply.Some? then LastEid(reply.value, lastEid) else lastEid
  }

  function Latest(s: seq<Event>, n: nat): seq<Event> { if |s| <= n then s else s[|s| - n..] }

  class EventLog {
    var tail: seq<Event>
    var lastEid: int
    /** Everything the polls returned. */
    ghost var got: seq<Event>

    ghost predicate Valid()
      reads this
    {
      tail == Latest(got, KEEP)
    }

    constructor ()
      ensures Valid() && got == [] && lastEid == -1
    {
      tail, lastEid, got := [], -1, [];
    }

    method Poll(reply: Option<seq<Event>>) returns (found: seq<Event>)
      requires Valid()
      modifies this
      ensures Valid() && got == old(got) + found
      ensures found == FoundBy(reply, old(lastEid)) && lastEid == LastBy(reply, old(lastEid))
    {
      found := [];
      if reply.None? {
        return;
      }
      var all := reply.value;
      if all != [] && all[|all| - 1].eid < lastEid {
        lastEid := -1;
      }
      found := Newer(all, lastEid);
      if found == [] {
        return;
      }
      lastEid := found[|found| - 1].eid;
      tail := tail + found;
      got := got + found;
      if |tail| > KEEP {
        tail := tail[|tail| - KEEP..];
      }
    }
  }

  // ---- a window that slides ----

  predicate Increasing(stream: seq<Event>) {
    (forall i :: 0 <= i < |stream| ==> stream[i].eid >= 0)
    && forall i, j :: 0 <= i < j < |stream| ==> stream[i].eid < stream[j].eid
  }

  /** What the list holds at a poll: the events of the stream from `lo` up to `hi`; a failed poll sees nothing. */
  datatype Poll = Missed | Window(lo: nat, hi: nat) {
    predicate Sees() { Window? && lo < hi }
  }

  /** How far the stream was seen. */
  function Reach(polls: seq<Poll>): nat {
    if polls == [] then 0
    else
      var last := polls[|polls| - 1];
      if last.Sees() then last.hi else Reach(polls[..|polls| - 1])
  }

  /** Where the list of the last poll that saw something began. */
  function Floor(polls: seq<Poll>): nat {
    if polls == [] then 0
    else
      var last := polls[|polls| - 1];
      if last.Sees() then last.lo else Floor(polls[..|polls| - 1])
  }

  /** Neither end of the list ever goes back. */
  predicate Slides(polls: seq<Poll>, length: nat) {
    polls == [] ||
    ( var before, last := polls[..|polls| - 1], polls[|polls| - 1];
      && Slides(before, length)
      && (last.Window? ==> last.lo <= last.hi <= length)
      && (last.Sees() ==> Floor(before) <= last.lo && Reach(before) <= last.hi))
  }

  predicate InWindow(poll: Poll, i: nat) { poll.Window? && poll.lo <= i < poll.hi }

  predicate Seen(polls: seq<Poll>, i: nat) { exists k :: 0 <= k < |polls| && InWindow(polls[k], i) }

  /** The events that were in some window, in the order of the stream. */
  function SeenEvents(stream: seq<Event>, polls: seq<Poll>, upto: nat): seq<Event>
    requires upto <= |stream|
  {
    if upto == 0 then []
    else SeenEvents(stream, polls, upto - 1) + if Seen(polls, upto - 1) then [stream[upto - 1]] else []
  }

  function ReplyOf(stream: seq<Event>, poll: Poll): Option<seq<Event>>
    requires poll.Window? ==> poll.lo <= poll.hi <= |stream|
  {
    match poll
    case Missed => None
    case Window(lo, hi) => Some(stream[lo..hi])
  }

  function IdBefore(stream: seq<Event>, reach: nat): int
    requires reach <= |stream|
  {
    if reach == 0 then -1 else stream[reach - 1].eid
  }

  lemma {:induction false} NewerOfWindow(stream: seq<Event>, lo: nat, hi: nat, reach: nat)
    requires Increasing(stream) && lo <= hi <= |stream| && reach <= hi
    ensures Newer(stream[lo..hi], IdBefore(stream, reach)) == stream[if lo < reach then reach else lo..hi]
    decreases hi - lo
  {
    if lo < hi {
      NewerOfWindow(stream, lo + 1, hi, reach);
      assert stream[lo..hi][1..] == stream[lo + 1..hi];
    }
  }

  /** A poll returns what its window adds, and remembers how far it saw. */
  lemma PollOfWindow(stream: seq<Event>, lo: nat, hi: nat, reach: nat)
    requires Increasing(stream) && lo <= hi <= |stream| && reach <= hi
    ensures Found(stream[lo..hi], IdBefore(stream, reach)) == stream[if lo < reach then reach else lo..hi]
    ensures LastEid(stream[lo..hi], IdBefore(stream, reach)) == IdBefore(stream, if lo < hi then hi else reach)
  {
    NewerOfWindow(stream, lo, hi, reach);
    NoRestart(stream, lo, hi, reach);
  }

  lemma NoRestart(stream: seq<Event>, lo: nat, hi: nat, reach: nat)
    requires Increasing(stream) && lo <= hi <= |stream| && reach <= hi
    ensures Since(stream[lo..hi], IdBefore(stream, reach)) == IdBefore(stream, reach)
  {
  }

  lemma {:induction false} SlidesBounds(polls: seq<Poll>, length: nat)
    requires Slides(polls, length)
    ensures Floor(polls) <= Reach(polls) <= length
    ensures forall k, i: nat :: 0 <= k < |polls| && InWindow(polls[k], i) ==> i < Reach(polls)
    ensures forall i: nat :: Floor(polls) <= i < Reach(polls) ==> Seen(polls, i)
    decreases |polls|
  {
    if polls != [] {
      var n := |polls| - 1;
      SlidesBounds(polls[..n], length);
      forall k, i: nat | 0 <= k < |polls| && InWindow(polls[k], i) ensures i < Reach(polls) {
        if k < n {
          assert InWindow(polls[..n][k], i);
        }
      }
      forall i: nat | Floor(polls) <= i < Reach(polls) ensures Seen(polls, i) {
        if polls[n].Sees() {
          assert InWindow(polls[n], i);
        } else {
          SeenBefore(polls, i);
        }
      }
    }
  }

  lemma SeenBefore(polls: seq<Poll>, i: nat)
    requires polls != []
    ensures Seen(polls, i) <==> Seen(polls[..|polls| - 1], i) || InWindow(polls[|polls| - 1], i)
  {
    var before := polls[..|polls| - 1];
    if k :| 0 <= k < |before| && InWindow(before[k], i) {
      assert InWindow(polls[k], i);
    }
    if k :| 0 <= k < |polls| && InWindow(polls[k], i) {
      assert k < |before| ==> InWindow(before[k], i);
    }
  }

  lemma SeenByLast(polls: seq<Poll>, i: nat, length: nat)
    requires polls != [] && Slides(polls, length)
    ensures
      var before, last := polls[..|polls| - 1], polls[|polls| - 1];
      Seen(polls, i) <==>
        if i < Reach(before) || !last.Sees() then Seen(before, i) else last.lo <= i < last.hi
  {
    SlidesBounds(polls[..|polls| - 1], length);
    SeenBefore(polls, i);
  }

  lemma {:induction false} SeenAsBefore(stream: seq<Event>, polls: seq<Poll>, upto: nat)
    requires polls != [] && Slides(polls, |stream|) && upto <= |stream|
    requires upto <= Reach(polls[..|polls| - 1]) || !polls[|polls| - 1].Sees()
    ensures SeenEvents(stream, polls, upto) == SeenEvents(stream, polls[..|polls| - 1], upto)
  {
    if upto > 0 {
      SeenAsBefore(stream, polls, upto - 1);
      SeenByLast(polls, upto - 1, |stream|);
    }
  }

  /** The part of a stretch of the stream before a position. */
  function Part(stream: seq<Event>, lo: nat, hi: nat, upto: nat): seq<Event>
    requires lo <= hi <= |stream|
  {
    if upto <= lo then [] else stream[lo..if upto < hi then upto else hi]
  }

  lemma PartMore(stream: seq<Event>, lo: nat, hi: nat, upto: nat)
    requires lo <= hi <= |stream| && 0 < upto
    ensures
      Part(stream, lo, hi, upto)
      == Part(stream, lo, hi, upto - 1) + if lo <= upto - 1 < hi then [stream[upto - 1]] else []
  {
  }

  /** Beyond what was seen before, the last window is all there is. */
  lemma {:induction false} SeenMore(stream: seq<Event>, polls: seq<Poll>, upto: nat)
    requires polls != [] && Slides(polls, |stream|) && polls[|polls| - 1].Sees()
    requires Reach(polls[..|polls| - 1]) <= upto <= |stream|
    ensures
      var before, last := polls[..|polls| - 1], polls[|polls| - 1];
      var reach := Reach(before);
      SeenEvents(stream, polls, upto)
      == SeenEvents(stream, before, reach) + Part(stream, if last.lo < reach then reach else last.lo, last.hi, upto)
  {
    var before, last := polls[..|polls| - 1], polls[|polls| - 1];
    var reach := Reach(before);
    if upto == reach {
      SeenAsBefore(stream, polls, upto);
    } else {
      SeenMore(stream, polls, upto - 1);
      SeenByLast(polls, upto - 1, |stream|);
      PartMore(stream, if last.lo < reach then reach else last.lo, last.hi, upto);
    }
  }

  // ---- what the polls return together ----

  /** The polls in turn, with this id remembered from before: all they return, and the id remembered then. */
  function Returned(stream: seq<Event>, polls: seq<Poll>, lastEid: int): (r: (seq<Event>, int))
    requires Slides(polls, |stream|)
  {
    if polls == [] then ([], lastEid)
    else
      var before := Returned(stream, polls[..|polls| - 1], lastEid);
      var reply := ReplyOf(stream, polls[|polls| - 1]);
      (before.0 + FoundBy(reply, before.1), LastBy(reply, before.1))
  }

  /** How far the first list that held anything reached. */
  function FirstReach(polls: seq<Poll>): nat {
    if polls == [] then 0
    else
      var last, first := polls[|polls| - 1], FirstReach(polls[..|polls| - 1]);
      if first > 0 then first else if last.Sees() then last.hi else 0
  }

  lemma {:induction false} FirstReachIs(polls: seq<Poll>, length: nat)
    requires Slides(polls, length)
    ensures FirstReach(polls) <= Reach(polls) <= length && (FirstReach(polls) == 0 <==> Reach(polls) == 0)
    decreases |polls|
  {
    if polls != [] {
      FirstReachIs(polls[..|polls| - 1], length);
    }
  }

  /** What is not returned: the ids up to this one. A first list that ends below the id remembered tells a restart. */
  function Cut(stream: seq<Event>, polls: seq<Poll>, lastEid: int): int {
    var first := FirstReach(polls);
    if 0 < first <= |stream| && stream[first - 1].eid < lastEid then -1 else lastEid
  }

  lemma {:induction false} NewerConcat(a: seq<Event>, b: seq<Event>, eid: int)
    ensures Newer(a + b, eid) == Newer(a, eid) + Newer(b, eid)
    decreases |a|
  {
    if a == [] {
      assert a + b == b;
    } else {
      assert (a + b)[0] == a[0] && (a + b)[1..] == a[1..] + b;
      NewerConcat(a[1..], b, eid);
    }
  }

  lemma {:induction false} AllNewer(all: seq<Event>, eid: int)
    requires forall i :: 0 <= i < |all| ==> all[i].eid > eid
    ensures Newer(all, eid) == all
  {
    if all != [] {
      AllNewer(all[1..], eid);
    }
  }

  /** The id remembered after a list is its last one. */
  lemma {:induction false} LastOfNewer(all: seq<Event>, eid: int)
    requires Increasing(all) && all != [] && eid <= all[|all| - 1].eid
    ensures (if Newer(all, eid) == [] then eid else Newer(all, eid)[|Newer(all, eid)| - 1].eid) == all[|all| - 1].eid
    decreases |all|
  {
    var front, last := all[..|all| - 1], all[|all| - 1];
    assert all == front + [last] && Newer([], eid) == [] && [last][1..] == [];
    NewerConcat(front, [last], eid);
    if last.eid == eid {
      NewerSkips(front, [], eid);
      assert front + [] == front;
    }
  }

  /** The id remembered after a list that holds anything is its last one, whatever was remembered before. */
  lemma ListIsRemembered(all: seq<Event>, lastEid: int)
    requires Increasing(all) && all != [] && lastEid >= -1
    ensures LastEid(all, lastEid) == all[|all| - 1].eid
  {
    LastOfNewer(all, Since(all, lastEid));
  }

  lemma PartIncreases(stream: seq<Event>, lo: nat, hi: nat)
    requires Increasing(stream) && lo < hi <= |stream|
    ensures Increasing(stream[lo..hi]) && stream[lo..hi] != [] && stream[lo..hi][hi - lo - 1] == stream[hi - 1]
  {}

  /**
   * Whatever id is remembered from before: the polls together return, once and in order, the events that were in some
   * window and lie beyond the cut. After a first list with something in it the id remembered is that of the last event
   * seen.
   */
  lemma {:induction false} ReturnedIs(stream: seq<Event>, polls: seq<Poll>, lastEid: int)
    requires Increasing(stream) && Slides(polls, |stream|) && lastEid >= -1
    ensures Reach(polls) <= |stream|
    ensures
      Returned(stream, polls, lastEid).0 == Newer(SeenEvents(stream, polls, |stream|), Cut(stream, polls, lastEid))
    ensures Returned(stream, polls, lastEid).1 == if Reach(polls) == 0 then lastEid else IdBefore(stream, Reach(polls))
    decreases |polls|
  {
    SlidesBounds(polls, |stream|);
    if polls == [] {
      NothingSeen(stream, |stream|);
    } else {
      ReturnedIs(stream, polls[..|polls| - 1], lastEid);
      if polls[|polls| - 1].Sees() {
        ListReturned(stream, polls, lastEid);
      } else {
        SeenAsBefore(stream, polls, |stream|);
        NothingReturned(stream, polls, lastEid);
      }
    }
  }

  lemma NothingReturned(stream: seq<Event>, polls: seq<Poll>, lastEid: int)
    requires Slides(polls, |stream|) && polls != [] && !polls[|polls| - 1].Sees()
    ensures Returned(stream, polls, lastEid) == Returned(stream, polls[..|polls| - 1], lastEid)
  {
    var before, last := Returned(stream, polls[..|polls| - 1], lastEid), polls[|polls| - 1];
    if last.Window? {
      assert stream[last.lo..last.hi] == [];
    }
    assert before.0 + [] == before.0;
  }

  lemma ListReturned(stream: seq<Event>, polls: seq<Poll>, lastEid: int)
    requires Increasing(stream) && Slides(polls, |stream|) && lastEid >= -1 && polls != [] && polls[|polls| - 1].Sees()
    requires Reach(polls[..|polls| - 1]) <= |stream|
    requires
      var front := polls[..|polls| - 1];
      && Returned(stream, front, lastEid).0 == Newer(SeenEvents(stream, front, |stream|), Cut(stream, front, lastEid))
      && Returned(stream, front, lastEid).1 == if Reach(front) == 0 then lastEid else IdBefore(stream, Reach(front))
    ensures
      Returned(stream, polls, lastEid).0 == Newer(SeenEvents(stream, polls, |stream|), Cut(stream, polls, lastEid))
    ensures Returned(stream, polls, lastEid).1 == IdBefore(stream, Reach(polls))
  {
    ReturnedLast(stream, polls, lastEid);
    if Reach(polls[..|polls| - 1]) == 0 {
      FirstCut(stream, polls, lastEid);
    } else {
      LaterCut(stream, polls, lastEid);
    }
  }

  lemma {:induction false} FirstCut(stream: seq<Event>, polls: seq<Poll>, lastEid: int)
    requires Increasing(stream) && Slides(polls, |stream|) && lastEid >= -1 && polls != [] && polls[|polls| - 1].Sees()
    requires Reach(polls[..|polls| - 1]) == 0
    ensures
      var front, last := polls[..|polls| - 1], polls[|polls| - 1];
      var all := stream[last.lo..last.hi];
      && Newer(SeenEvents(stream, front, |stream|), Cut(stream, front, lastEid)) == []
      && [] + Found(all, lastEid) == Newer(SeenEvents(stream, polls, |stream|), Cut(stream, polls, lastEid))
      && LastEid(all, lastEid) == IdBefore(stream, Reach(polls))
  {
    var last := polls[|polls| - 1];
    FirstSeen(stream, polls);
    PartIncreases(stream, last.lo, last.hi);
    CutIsSince(stream, polls, lastEid);
    ListIsRemembered(stream[last.lo..last.hi], lastEid);
    NoneAhead(Found(stream[last.lo..last.hi], lastEid));
  }

  /** The first list with anything in it decides whether the ids started over. */
  lemma CutIsSince(stream: seq<Event>, polls: seq<Poll>, lastEid: int)
    requires Slides(polls, |stream|) && polls != [] && polls[|polls| - 1].Sees() && Reach(polls[..|polls| - 1]) == 0
    ensures Cut(stream, polls, lastEid) == Since(stream[polls[|polls| - 1].lo..polls[|polls| - 1].hi], lastEid)
  {
    FirstReachIs(polls[..|polls| - 1], |stream|);
  }

  lemma NoneAhead(found: seq<Event>)
    ensures [] + found == found
  {}

  lemma FirstSeen(stream: seq<Event>, polls: seq<Poll>)
    requires Slides(polls, |stream|) && polls != [] && polls[|polls| - 1].Sees() && Reach(polls[..|polls| - 1]) == 0
    ensures SeenEvents(stream, polls[..|polls| - 1], |stream|) == []
    ensures SeenEvents(stream, polls, |stream|) == stream[polls[|polls| - 1].lo..polls[|polls| - 1].hi]
  {
    SeenWithLast(stream, polls);
    NoneAhead(stream[polls[|polls| - 1].lo..polls[|polls| - 1].hi]);
  }

  lemma LaterCut(stream: seq<Event>, polls: seq<Poll>, lastEid: int)
    requires Increasing(stream) && Slides(polls, |stream|) && lastEid >= -1 && polls != [] && polls[|polls| - 1].Sees()
    requires 0 < Reach(polls[..|polls| - 1]) <= |stream|
    ensures
      var front, last := polls[..|polls| - 1], polls[|polls| - 1];
      var all, reach := stream[last.lo..last.hi], Reach(front);
      && Newer(SeenEvents(stream, front, |stream|), Cut(stream, front, lastEid)) + Found(all, IdBefore(stream, reach))
         == Newer(SeenEvents(stream, polls, |stream|), Cut(stream, polls, lastEid))
      && LastEid(all, IdBefore(stream, reach)) == IdBefore(stream, Reach(polls))
  {
    var front, last := polls[..|polls| - 1], polls[|polls| - 1];
    var from := if last.lo < Reach(front) then Reach(front) else last.lo;
    var seen, cut := SeenEvents(stream, front, |stream|), Cut(stream, front, lastEid);
    SameCut(stream, polls, lastEid);
    SeenWithLast(stream, polls);
    PollOfWindow(stream, last.lo, last.hi, Reach(front));
    BeyondCut(stream, front, lastEid, from, last.hi);
    NewerBehind(seen, stream[from..last.hi], SeenEvents(stream, polls, |stream|), cut);
  }

  lemma SameCut(stream: seq<Event>, polls: seq<Poll>, lastEid: int)
    requires Slides(polls, |stream|) && polls != [] && Reach(polls[..|polls| - 1]) > 0
    ensures Cut(stream, polls, lastEid) == Cut(stream, polls[..|polls| - 1], lastEid)
  {
    FirstReachIs(polls[..|polls| - 1], |stream|);
  }

  lemma NewerBehind(a: seq<Event>, b: seq<Event>, all: seq<Event>, eid: int)
    requires all == a + b && Newer(b, eid) == b
    ensures Newer(all, eid) == Newer(a, eid) + b
  {
    NewerConcat(a, b, eid);
  }

  lemma ReturnedLast(stream: seq<Event>, polls: seq<Poll>, lastEid: int)
    requires Slides(polls, |stream|) && polls != [] && polls[|polls| - 1].Sees()
    ensures
      var before, last := Returned(stream, polls[..|polls| - 1], lastEid), polls[|polls| - 1];
      var all := stream[last.lo..last.hi];
      Returned(stream, polls, lastEid) == (before.0 + Found(all, before.1), LastEid(all, before.1))
  {}

  /** What the last list adds to what was seen. */
  lemma SeenWithLast(stream: seq<Event>, polls: seq<Poll>)
    requires Slides(polls, |stream|) && polls != [] && polls[|polls| - 1].Sees()
    requires Reach(polls[..|polls| - 1]) <= |stream|
    ensures
      var front, last := polls[..|polls| - 1], polls[|polls| - 1];
      var from := if last.lo < Reach(front) then Reach(front) else last.lo;
      SeenEvents(stream, polls, |stream|) == SeenEvents(stream, front, |stream|) + stream[from..last.hi]
    ensures Reach(polls[..|polls| - 1]) == 0 ==> SeenEvents(stream, polls[..|polls| - 1], |stream|) == []
  {
    SeenMore(stream, polls, |stream|);
    NoneBeyond(stream, polls[..|polls| - 1], |stream|);
  }

  lemma BeyondCut(stream: seq<Event>, polls: seq<Poll>, lastEid: int, from: nat, hi: nat)
    requires
      Increasing(stream) && Slides(polls, |stream|) && lastEid >= -1 && 0 < Reach(polls) <= from <= hi <= |stream|
    ensures Newer(stream[from..hi], Cut(stream, polls, lastEid)) == stream[from..hi]
  {
    FirstReachIs(polls, |stream|);
    AllNewer(stream[from..hi], Cut(stream, polls, lastEid));
  }

  /** From the start every event that was in some window is returned once, in order, and nothing else. */
  lemma ReturnedOnce(stream: seq<Event>, polls: seq<Poll>)
    requires Increasing(stream) && Slides(polls, |stream|)
    ensures Reach(polls) <= |stream|
    ensures Returned(stream, polls, -1) == (SeenEvents(stream, polls, |stream|), IdBefore(stream, Reach(polls)))
  {
    ReturnedIs(stream, polls, -1);
    SeenIsInStream(stream, polls, |stream|);
    AllNewer(SeenEvents(stream, polls, |stream|), -1);
  }

  lemma {:induction false} SeenIsInStream(stream: seq<Event>, polls: seq<Poll>, upto: nat)
    requires Increasing(stream) && upto <= |stream|
    ensures forall i :: 0 <= i < |SeenEvents(stream, polls, upto)| ==> SeenEvents(stream, polls, upto)[i].eid >= 0
  {
    if upto > 0 {
      SeenIsInStream(stream, polls, upto - 1);
    }
  }

  // ---- ids that start over ----

  lemma {:induction false} NewerHas(all: seq<Event>, eid: int, e: Event)
    ensures e in Newer(all, eid) <==> e in all && e.eid > eid
  {
    if all != [] {
      NewerHas(all[1..], eid, e);
      assert all == [all[0]] + all[1..];
    }
  }

  /**
   * Exactly the events that are never returned after the ids started over: those with an id up to the one remembered,
   * when the first list with anything in it had reached that id again.
   */
  lemma NeverReturnedExactly(stream: seq<Event>, polls: seq<Poll>, lastEid: int, e: Event)
    requires Increasing(stream) && Slides(polls, |stream|) && lastEid >= -1 && e in SeenEvents(stream, polls, |stream|)
    ensures 0 < FirstReach(polls) <= |stream|
    ensures
      e !in Returned(stream, polls, lastEid).0 <==> e.eid <= lastEid <= stream[FirstReach(polls) - 1].eid
  {
    FirstReachIs(polls, |stream|);
    NoneBeyond(stream, polls, |stream|);
    ReturnedIs(stream, polls, lastEid);
    NewerHas(SeenEvents(stream, polls, |stream|), Cut(stream, polls, lastEid), e);
    SeenHasId(stream, polls, |stream|, e);
  }

  lemma SeenHasId(stream: seq<Event>, polls: seq<Poll>, upto: nat, e: Event)
    requires Increasing(stream) && upto <= |stream| && e in SeenEvents(stream, polls, upto)
    ensures e.eid >= 0
  {
    SeenIsInStream(stream, polls, upto);
  }

  /** From one start of the ids to the next: the stream of the kernel and the polls of it. */
  datatype Epoch = Epoch(stream: seq<Event>, polls: seq<Poll>)

  predicate Sensible(epochs: seq<Epoch>) {
    forall i :: 0 <= i < |epochs| ==> Increasing(epochs[i].stream) && Slides(epochs[i].polls, |epochs[i].stream|)
  }

  function ReturnedOver(epochs: seq<Epoch>): (seq<Event>, int)
    requires Sensible(epochs)
  {
    if epochs == [] then ([], -1)
    else
      var e := epochs[|epochs| - 1];
      var before := ReturnedOver(epochs[..|epochs| - 1]);
      var more := Returned(e.stream, e.polls, before.1);
      (before.0 + more.0, more.1)
  }

  /** What an epoch's polls should return, with this id remembered from before: what was seen beyond the cut. */
  function KeptOf(e: Epoch, lastEid: int): seq<Event> {
    Newer(SeenEvents(e.stream, e.polls, |e.stream|), Cut(e.stream, e.polls, lastEid))
  }

  /** The id of the last event that was seen, the one from before when none was. */
  function LastSeen(e: Epoch, lastEid: int): int {
    if 0 < Reach(e.polls) <= |e.stream| then e.stream[Reach(e.polls) - 1].eid else lastEid
  }

  function Remembered(epochs: seq<Epoch>): int {
    if epochs == [] then -1 else LastSeen(epochs[|epochs| - 1], Remembered(epochs[..|epochs| - 1]))
  }

  /** Of each epoch in turn what was seen beyond its cut. */
  function Kept(epochs: seq<Epoch>): seq<Event> {
    if epochs == [] then []
    else
      var before := epochs[..|epochs| - 1];
      Kept(before) + KeptOf(epochs[|epochs| - 1], Remembered(before))
  }

  lemma {:induction false} EpochIs(e: Epoch, lastEid: int)
    requires Increasing(e.stream) && Slides(e.polls, |e.stream|) && lastEid >= -1
    ensures Returned(e.stream, e.polls, lastEid).0 == KeptOf(e, lastEid)
    ensures Returned(e.stream, e.polls, lastEid).1 == LastSeen(e, lastEid) >= -1
  {
    ReturnedIs(e.stream, e.polls, lastEid);
  }

  /**
   * However often the ids start over: what all polls return is exactly what was seen beyond each epoch's cut, in order.
   */
  lemma {:induction false} RestartsReturn(epochs: seq<Epoch>)
    requires Sensible(epochs)
    ensures ReturnedOver(epochs) == (Kept(epochs), Remembered(epochs)) && Remembered(epochs) >= -1
    decreases |epochs|
  {
    if epochs != [] {
      RestartsReturn(epochs[..|epochs| - 1]);
      EpochIs(epochs[|epochs| - 1], Remembered(epochs[..|epochs| - 1]));
    }
  }

  lemma {:induction false} NothingSeen(stream: seq<Event>, upto: nat)
    requires upto <= |stream|
    ensures SeenEvents(stream, [], upto) == []
  {
    if upto > 0 {
      NothingSeen(stream, upto - 1);
    }
  }

  lemma {:induction false} NoneBeyond(stream: seq<Event>, polls: seq<Poll>, upto: nat)
    requires Slides(polls, |stream|) && Reach(polls) <= upto <= |stream|
    ensures SeenEvents(stream, polls, upto) == SeenEvents(stream, polls, Reach(polls))
    decreases upto
  {
    if upto > Reach(polls) {
      SlidesBounds(polls, |stream|);
      assert !Seen(polls, upto - 1);
      NoneBeyond(stream, polls, upto - 1);
    }
  }

  /**
   * A list whose ids started over is read whole exactly when its last id is below the one remembered, or all of them
   * above: one that has grown past it again before the next poll loses its first events.
   */
  lemma RestartIsRead(all: seq<Event>, lastEid: int)
    requires all != [] && Increasing(all)
    ensures Found(all, lastEid) == all <==> all[|all| - 1].eid < lastEid || all[0].eid > lastEid
  {
    NewerOfAll(all, Since(all, lastEid));
  }

  /**
   * After the fourth event the ids start over; at the next poll the list has six new ones, of which only two are
   * returned.
   */
  lemma RestartLosesEvents(all: seq<Event>)
    requires |all| == 6 && forall i :: 0 <= i < 6 ==> all[i].eid == i
    ensures Increasing(all) && Found(all, 3) == [all[4], all[5]]
  {
    assert Since(all, 3) == 3;
    NewerSkips(all[..4], all[4..], 3);
    assert all == all[..4] + all[4..] && all[4..] == [all[4], all[5]];
    NewerOfAll(all[4..], 3);
  }

  lemma {:induction false} NewerSkips(seen: seq<Event>, more: seq<Event>, eid: int)
    requires forall i :: 0 <= i < |seen| ==> seen[i].eid <= eid
    ensures Newer(seen + more, eid) == Newer(more, eid)
    decreases |seen|
  {
    if seen == [] {
      assert seen + more == more;
    } else {
      assert (seen + more)[0] == seen[0] && (seen + more)[1..] == seen[1..] + more;
      NewerSkips(seen[1..], more, eid);
    }
  }

  lemma NewerOfAll(all: seq<Event>, eid: int)
    requires Increasing(all)
    ensures all == [] || all[0].eid > eid ==> Newer(all, eid) == all
    ensures all != [] && all[0].eid <= eid ==> |Newer(all, eid)| < |all|
  {
    if all != [] {
      NewerLength(all[1..], eid);
      if all[0].eid > eid {
        AllNewer(all, eid);
      }
    }
  }

  lemma {:induction false} NewerLength(all: seq<Event>, eid: int)
    ensures |Newer(all, eid)| <= |all|
  {
    if all != [] {
      NewerLength(all[1..], eid);
    }
  }

  lemma ReturnedNext(stream: seq<Event>, polls: seq<Poll>, k: nat, lastEid: int)
    requires k < |polls| && Slides(polls[..k], |stream|) && Slides(polls[..k + 1], |stream|)
    ensures polls[k].Window? ==> polls[k].lo <= polls[k].hi <= |stream|
    ensures
      var before := Returned(stream, polls[..k], lastEid);
      var reply := ReplyOf(stream, polls[k]);
      Returned(stream, polls[..k + 1], lastEid) == (before.0 + FoundBy(reply, before.1), LastBy(reply, before.1))
  {
    assert polls[..k + 1][..k] == polls[..k] && polls[..k + 1][k] == polls[k];
  }

  /** The polls from one start of the ids to the next. */
  method WatchEpoch(log: EventLog, stream: seq<Event>, polls: seq<Poll>)
    requires log.Valid() && Slides(polls, |stream|)
    modifies log
    ensures log.Valid()
    ensures log.got == old(log.got) + Returned(stream, polls, old(log.lastEid)).0
    ensures log.lastEid == Returned(stream, polls, old(log.lastEid)).1
  {
    assert polls[..0] == [];
    for k := 0 to |polls|
      invariant log.Valid() && Slides(polls[..k], |stream|)
      invariant log.got == old(log.got) + Returned(stream, polls[..k], old(log.lastEid)).0
      invariant log.lastEid == Returned(stream, polls[..k], old(log.lastEid)).1
    {
      SlidesTo(polls, k + 1, |stream|);
      ReturnedNext(stream, polls, k, old(log.lastEid));
      ghost var before := Returned(stream, polls[..k], old(log.lastEid)).0;
      Associates(old(log.got), before, FoundBy(ReplyOf(stream, polls[k]), log.lastEid));
      var found := log.Poll(ReplyOf(stream, polls[k]));
    }
    assert polls[..|polls|] == polls;
  }

  lemma OverMore(epochs: seq<Epoch>, k: nat)
    requires k < |epochs| && Sensible(epochs)
    ensures
      var before := ReturnedOver(epochs[..k]);
      var more := Returned(epochs[k].stream, epochs[k].polls, before.1);
      ReturnedOver(epochs[..k + 1]) == (before.0 + more.0, more.1)
  {
    assert epochs[..k + 1][..k] == epochs[..k];
  }

  /**
   * The log over any polls of sliding windows, with any restarts of the ids: the tail is the latest of what is kept.
   */
  method Watch(epochs: seq<Epoch>) returns (tail: seq<Event>)
    requires Sensible(epochs)
    ensures |tail| == if |Kept(epochs)| < 500 then |Kept(epochs)| else 500
    ensures tail == Kept(epochs)[|Kept(epochs)| - |tail|..]
  {
    var log := new EventLog();
    assert epochs[..0] == [];
    for k := 0 to |epochs|
      invariant fresh(log) && log.Valid()
      invariant (log.got, log.lastEid) == ReturnedOver(epochs[..k])
    {
      OverMore(epochs, k);
      WatchEpoch(log, epochs[k].stream, epochs[k].polls);
    }
    assert epochs[..|epochs|] == epochs;
    RestartsReturn(epochs);
    tail := log.tail;
  }

  lemma {:induction false} SlidesTo(polls: seq<Poll>, k: nat, length: nat)
    requires Slides(polls, length) && k <= |polls|
    ensures Slides(polls[..k], length)
    decreases |polls|
  {
    if k < |polls| {
      SlidesTo(polls[..|polls| - 1], k, length);
      assert polls[..|polls| - 1][..k] == polls[..k];
    } else {
      assert polls[..k] == polls;
    }
  }
}
