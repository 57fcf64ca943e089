/**
 * Any sequence of ticks on one dataset, with counts that change, commands that fail and other work on it in between.
 */
module RetentionRuns {
  import opened Retention
  import opened RetentionTicks

  /** The dataset's snapshots, and the clock, which never goes back. */
  datatype State = State(world: seq<Snapshot>, clock: int)

  /** `Elsewhere`: snapshots taken by hand or by a replication, and any destroyed by hand. */
  datatype Event = Ticked(tick: Tick) | Elsewhere(world: seq<Snapshot>, at: int)

  predicate Enabled(dataset: string, s: State, e: Event) {
    match e
    case Ticked(t) => t.policy.dataset == dataset && s.clock <= t.now && Possible(s.world, t)
    case Elsewhere(world, at) =>
      && s.clock <= at
      && Named(world)
      && forall x, p :: x in world && IsAuto(x, dataset, p) ==> x in s.world
  }

  function Next(s: State, e: Event): State
    requires e.Ticked? ==> Possible(s.world, e.tick)
  {
    match e
    case Ticked(t) => State(During(s.world, t, |t.oks|), t.end)
    case Elsewhere(world, at) => State(world, at)
  }

  predicate Runs(dataset: string, s: State, run: seq<Event>)
    decreases |run|
  {
    run == [] || (Enabled(dataset, s, run[0]) && Runs(dataset, Next(s, run[0]), run[1..]))
  }

  function Final(dataset: string, s: State, run: seq<Event>): State
    requires Runs(dataset, s, run)
    decreases |run|
  {
    if run == [] then s else Final(dataset, Next(s, run[0]), run[1..])
  }

  predicate Apart(x: Snapshot, y: Snapshot, p: Period) {
    x.creation + Gap(p) <= y.creation || y.creation + Gap(p) <= x.creation
  }

  ghost predicate Inv(dataset: string, s: State) {
    && Named(s.world)
    && (forall x, p :: x in s.world && IsAuto(x, dataset, p) ==> x.creation <= s.clock && x.creation % 1000 == 0)
    && (forall x, y, p ::
          x in s.world && y in s.world && x.name != y.name && IsAuto(x, dataset, p) && IsAuto(y, dataset, p) ==>
      Apart(x, y, p))
  }

  // ---- names stay distinct ----

  lemma WithoutNamed(world: seq<Snapshot>, name: Name)
    requires Named(world)
    ensures Named(Without(world, name))
  {
    if world != [] {
      var rest := Without(world[1..], name);
      WithoutNamed(world[1..], name);
      forall i | 0 <= i < |rest| ensures rest[i].name != world[0].name {
        assert rest[i] in world[1..];
      }
    }
  }

  lemma DestroyedNamed(world: seq<Snapshot>, names: seq<Name>, oks: seq<bool>)
    requires Named(world) && |names| == |oks|
    ensures Named(Destroyed(world, names, oks))
    decreases |names|
  {
    if names != [] {
      WithoutNamed(world, names[0]);
      DestroyedNamed(if oks[0] then Without(world, names[0]) else world, names[1..], oks[1..]);
    }
  }

  lemma TakenAppend(a: seq<Take>, b: seq<Take>, made: map<Period, int>)
    ensures Taken(a + b, made) == Taken(a, made) + Taken(b, made)
  {
    if a == [] {
      assert a + b == b;
    } else {
      assert (a + b)[0] == a[0] && (a + b)[1..] == a[1..] + b;
      TakenAppend(a[1..], b, made);
    }
  }

  lemma TakenOfOne(p: Period, existing: seq<Snapshot>, t: Tick)
    ensures Taken(OneOf(p, existing, t).take, t.made) == if Takes(existing, t, p) then [Fresh(t, p)] else []
  {
    assert [TakeOf(existing, t, p)][1..] == [];
  }

  lemma FreshDiffer(t: Tick, p: Period, q: Period)
    requires p in t.made && q in t.made && p != q
    ensures Fresh(t, p).name != Fresh(t, q).name
  {
    FreshIsAuto(t, p);
    FreshIsAuto(t, q);
    if Fresh(t, p).name == Fresh(t, q).name {
      OnePeriod(Fresh(t, p).name.snapshot, p, q);
      assert false;
    }
  }

  lemma AppendNamed(a: seq<Snapshot>, b: seq<Snapshot>)
    requires Named(a) && Named(b) && forall x, y :: x in a && y in b ==> x.name != y.name
    ensures Named(a + b)
  {
  }

  function TakenOf(periods: seq<Period>, existing: seq<Snapshot>, t: Tick): seq<Snapshot> {
    Taken(PlanFrom(periods, t.policy, existing, t.now, t.stamp, t.changed).take, t.made)
  }

  lemma TakenOfFirst(periods: seq<Period>, existing: seq<Snapshot>, t: Tick)
    requires periods != []
    ensures
      TakenOf(periods, existing, t)
      == (if Takes(existing, t, periods[0]) then [Fresh(t, periods[0])] else []) + TakenOf(periods[1..], existing, t)
  {
    var rest := PlanFrom(periods[1..], t.policy, existing, t.now, t.stamp, t.changed);
    TakenAppend(OneOf(periods[0], existing, t).take, rest.take, t.made);
    TakenOfOne(periods[0], existing, t);
  }

  predicate FreshOf(periods: seq<Period>, t: Tick, s: Snapshot) {
    exists p :: p in periods && p in t.made && s == Fresh(t, p)
  }

  lemma {:induction false} TakenAreFresh(periods: seq<Period>, existing: seq<Snapshot>, t: Tick, s: Snapshot)
    requires s in TakenOf(periods, existing, t)
    ensures FreshOf(periods, t, s)
    decreases |periods|
  {
    if periods != [] {
      TakenOfFirst(periods, existing, t);
      if s in TakenOf(periods[1..], existing, t) {
        TakenAreFresh(periods[1..], existing, t, s);
      }
    }
  }

  lemma {:induction false} TakenNamed(periods: seq<Period>, existing: seq<Snapshot>, t: Tick)
    requires forall i, j :: 0 <= i < j < |periods| ==> periods[i] != periods[j]
    ensures Named(TakenOf(periods, existing, t))
    decreases |periods|
  {
    if periods != [] {
      var rest := TakenOf(periods[1..], existing, t);
      TakenOfFirst(periods, existing, t);
      TakenNamed(periods[1..], existing, t);
      if Takes(existing, t, periods[0]) {
        forall s | s in rest ensures s.name != Fresh(t, periods[0]).name {
          TakenAreFresh(periods[1..], existing, t, s);
          var p :| p in periods[1..] && p in t.made && s == Fresh(t, p);
          FreshDiffer(t, periods[0], p);
        }
        AppendNamed([Fresh(t, periods[0])], rest);
      }
    }
  }

  lemma DuringNamed(existing: seq<Snapshot>, t: Tick)
    requires Named(existing) && Possible(existing, t)
    ensures Named(During(existing, t, |t.oks|))
  {
    var taken := Taken(PlanOf(existing, t).take, t.made);
    TakenNamed(PERIODS, existing, t);
    forall x, y | x in existing && y in taken ensures x.name != y.name {
      FreshIsNew(existing, t, x, y);
    }
    AppendNamed(existing, taken);
    DestroyedNamed(WithTaken(existing, t), Doomed(existing, t)[..|t.oks|], t.oks[..|t.oks|]);
  }

  lemma FreshIsNew(existing: seq<Snapshot>, t: Tick, x: Snapshot, y: Snapshot)
    requires Possible(existing, t) && x in existing && y in Taken(PlanOf(existing, t).take, t.made)
    ensures x.name != y.name
  {
    TakenExactly(existing, t, y);
    var p :| Takes(existing, t, p) && y == Fresh(t, p);
    InTakes(existing, t, TakeOf(existing, t, p));
  }

  // ---- spacing ----

  lemma SecondsKeep(now: int, made: int, newest: int, gap: nat)
    requires newest % 1000 == 0 && gap % 1000 == 0 && now <= made && now - newest >= gap
    ensures ToSecond(made) % 1000 == 0 && newest + gap <= ToSecond(made) <= made
  {
  }

  lemma GapIsSeconds(p: Period)
    ensures Gap(p) % 1000 == 0 && Gap(p) >= 1000
  {
  }

  lemma LastIsNewest(sorted: seq<Snapshot>, x: Snapshot)
    requires Ordered(sorted) && x in sorted
    ensures sorted[|sorted| - 1] in sorted && x.creation <= sorted[|sorted| - 1].creation
  {
    var i :| 0 <= i < |sorted| && sorted[i] == x;
  }

  lemma NewestIs(existing: seq<Snapshot>, t: Tick, p: Period, x: Snapshot)
    requires Named(existing) && x in existing && IsAuto(x, t.policy.dataset, p)
    ensures
      var mine := Sorted(existing, t, p);
      && |mine| > 0
      && mine[|mine| - 1] in existing && IsAuto(mine[|mine| - 1], t.policy.dataset, p)
      && x.creation <= mine[|mine| - 1].creation
  {
    SortedIs(existing, t, p);
    LastIsNewest(Sorted(existing, t, p), x);
  }

  lemma MadeInTime(existing: seq<Snapshot>, t: Tick, p: Period)
    requires Takes(existing, t, p) && Possible(existing, t)
    ensures t.now <= t.made[p] <= t.end
  {
    InTakes(existing, t, TakeOf(existing, t, p));
  }

  lemma NewestGap(existing: seq<Snapshot>, t: Tick, p: Period, x: Snapshot) returns (newest: Snapshot)
    requires Named(existing) && Takes(existing, t, p)
    requires x in existing && IsAuto(x, t.policy.dataset, p)
    ensures newest in existing && IsAuto(newest, t.policy.dataset, p) && x.creation <= newest.creation
    ensures t.now - newest.creation >= Gap(p)
  {
    var mine := Sorted(existing, t, p);
    NewestIs(existing, t, p, x);
    DueGap(mine, t.policy.Keep(p), p, t.now, t.changed);
    newest := mine[|mine| - 1];
  }

  lemma DueGap(mine: seq<Snapshot>, keep: int, p: Period, now: int, changed: bool)
    requires |mine| > 0 && Due(mine, keep, p, now, changed)
    ensures now - mine[|mine| - 1].creation >= Gap(p)
  {
  }

  /** What a period takes is a gap later than everything it has. */
  lemma FreshIsApart(existing: seq<Snapshot>, t: Tick, p: Period, x: Snapshot)
    requires Named(existing) && Possible(existing, t) && Takes(existing, t, p)
    requires forall y :: y in existing && IsAuto(y, t.policy.dataset, p) ==> y.creation % 1000 == 0
    requires x in existing && IsAuto(x, t.policy.dataset, p)
    ensures x.creation + Gap(p) <= ToSecond(t.made[p])
  {
    var newest := NewestGap(existing, t, p, x);
    MadeInTime(existing, t, p);
    GapIsSeconds(p);
    SecondsKeep(t.now, t.made[p], newest.creation, Gap(p));
  }

  lemma FreshIsTimely(s: State, t: Tick, p: Period)
    requires Possible(s.world, t) && Takes(s.world, t, p)
    ensures Fresh(t, p).creation <= t.end && Fresh(t, p).creation % 1000 == 0 && Fresh(t, p).creation > t.now - 1000
  {
    InTakes(s.world, t, TakeOf(s.world, t, p));
  }

  /** An automatic snapshot there is after a tick was there before, or is the one the tick took. */
  lemma OldOrFresh(dataset: string, s: State, t: Tick, p: Period, x: Snapshot)
    requires Named(s.world) && Enabled(dataset, s, Ticked(t))
    requires x in During(s.world, t, |t.oks|) && IsAuto(x, dataset, p)
    ensures x in s.world || (Takes(s.world, t, p) && x == Fresh(t, p))
  {
    InDestroyed(WithTaken(s.world, t), Doomed(s.world, t)[..|t.oks|], t.oks[..|t.oks|], x);
    AllIs(s.world, t, p);
    SortedIs(s.world, t, p);
  }

  lemma StepKeeps(dataset: string, s: State, e: Event)
    requires Inv(dataset, s) && Enabled(dataset, s, e)
    ensures Inv(dataset, Next(s, e))
  {
    var n := Next(s, e);
    if e.Ticked? {
      var t := e.tick;
      DuringNamed(s.world, t);
      forall x, p | x in n.world && IsAuto(x, dataset, p) ensures x.creation <= n.clock && x.creation % 1000 == 0 {
        OldOrFresh(dataset, s, t, p, x);
        if x !in s.world {
          FreshIsTimely(s, t, p);
        }
      }
      forall x, y, p
        | x in n.world && y in n.world && x.name != y.name && IsAuto(x, dataset, p) && IsAuto(y, dataset, p)
        ensures Apart(x, y, p)
      {
        OldOrFresh(dataset, s, t, p, x);
        OldOrFresh(dataset, s, t, p, y);
        if x in s.world && y !in s.world {
          FreshIsApart(s.world, t, p, x);
        } else if x !in s.world && y in s.world {
          FreshIsApart(s.world, t, p, y);
        }
      }
    }
  }

  /** Over any run, whatever fails: two automatic snapshots of one period are never closer than LENGTH - SLACK. */
  lemma {:induction false} RunStaysSpaced(dataset: string, s: State, run: seq<Event>)
    requires Inv(dataset, s) && Runs(dataset, s, run)
    ensures Inv(dataset, Final(dataset, s, run))
    decreases |run|
  {
    if run != [] {
      StepKeeps(dataset, s, run[0]);
      RunStaysSpaced(dataset, Next(s, run[0]), run[1..]);
    }
  }

  // ---- coverage ----

  lemma {:induction false} Spans(sorted: seq<Snapshot>, gap: nat, i: nat, j: nat)
    requires i <= j < |sorted|
    requires forall k :: 0 < k < |sorted| ==> sorted[k - 1].creation + gap <= sorted[k].creation
    ensures sorted[j].creation - sorted[i].creation >= (j - i) * gap
  {
    if i < j {
      Spans(sorted, gap, i, j - 1);
      assert (j - i) * gap == (j - 1 - i) * gap + gap;
    }
  }

  lemma SortedIsSpaced(dataset: string, s: State, p: Period)
    requires Inv(dataset, s)
    ensures
      var mine := ByCreation(Mine(s.world, dataset, p));
      && |mine| == |Mine(s.world, dataset, p)|
      && forall k :: 0 < k < |mine| ==> mine[k - 1].creation + Gap(p) <= mine[k].creation
  {
    var mine := ByCreation(Mine(s.world, dataset, p));
    MineNamed(s.world, dataset, p);
    ByCreationIs(Mine(s.world, dataset, p));
    forall k | 0 < k < |mine| ensures mine[k - 1].creation + Gap(p) <= mine[k].creation {
      assert mine[k - 1] in mine && mine[k] in mine;
      assert mine[k - 1].name != mine[k].name && mine[k - 1].creation <= mine[k].creation;
      GapIsSeconds(p);
      assert Apart(mine[k - 1], mine[k], p);
    }
  }

  /** A period that holds n snapshots reaches back at least n - 1 gaps from its newest, after any run. */
  lemma ReachesBack(dataset: string, s: State, run: seq<Event>, p: Period)
    requires Inv(dataset, s) && Runs(dataset, s, run)
    requires Mine(Final(dataset, s, run).world, dataset, p) != []
    ensures
      var mine := ByCreation(Mine(Final(dataset, s, run).world, dataset, p));
      && |mine| == |Mine(Final(dataset, s, run).world, dataset, p)|
      && mine[|mine| - 1].creation - mine[0].creation >= (|mine| - 1) * Gap(p)
  {
    RunStaysSpaced(dataset, s, run);
    var final := Final(dataset, s, run);
    SortedIsSpaced(dataset, final, p);
    var mine := ByCreation(Mine(final.world, dataset, p));
    Spans(mine, Gap(p), 0, |mine| - 1);
  }

  // ---- how old the newest is ----

  /** Nothing automatic of the period is destroyed by hand, and its count is never turned to nothing. */
  ghost predicate Tended(dataset: string, s: State, run: seq<Event>, p: Period, least: nat)
    requires Runs(dataset, s, run)
    decreases |run|
  {
    run == [] ||
    ( && (run[0].Ticked? ==> run[0].tick.policy.Keep(p) >= least)
      && (run[0].Elsewhere? ==> forall x :: x in s.world && IsAuto(x, dataset, p) ==> x in run[0].world)
      && Tended(dataset, Next(s, run[0]), run[1..], p, least))
  }

  ghost predicate NewerThan(dataset: string, world: seq<Snapshot>, p: Period, after: int) {
    exists x :: x in world && IsAuto(x, dataset, p) && x.creation > after
  }

  lemma TickStaysNew(dataset: string, s: State, t: Tick, p: Period, after: int)
    requires Named(s.world) && Enabled(dataset, s, Ticked(t)) && t.policy.Keep(p) > 0
    requires NewerThan(dataset, s.world, p, after)
    ensures NewerThan(dataset, During(s.world, t, |t.oks|), p, after)
  {
    var x :| x in s.world && IsAuto(x, dataset, p) && x.creation > after;
    var mine := Sorted(s.world, t, p);
    NewestIs(s.world, t, p, x);
    var newest := mine[|mine| - 1];
    NewestGoesLast(s.world, t, p, |t.oks|);
    if newest !in During(s.world, t, |t.oks|) {
      FreshIsAuto(t, p);
      assert Fresh(t, p).creation > after;
    }
  }

  lemma {:induction false} StaysNew(dataset: string, s: State, run: seq<Event>, p: Period, after: int)
    requires Named(s.world) && Runs(dataset, s, run) && Tended(dataset, s, run, p, 1)
    requires NewerThan(dataset, s.world, p, after)
    ensures NewerThan(dataset, Final(dataset, s, run).world, p, after)
    decreases |run|
  {
    if run != [] {
      if run[0].Ticked? {
        DuringNamed(s.world, run[0].tick);
        TickStaysNew(dataset, s, run[0].tick, p, after);
      }
      StaysNew(dataset, Next(s, run[0]), run[1..], p, after);
    }
  }

  lemma TakenLeavesNew(s: State, t: Tick, p: Period)
    requires Named(s.world) && Possible(s.world, t) && t.policy.Keep(p) > 0 && Takes(s.world, t, p)
    ensures NewerThan(t.policy.dataset, During(s.world, t, |t.oks|), p, t.now - Gap(p))
  {
    var all := All(s.world, t, p);
    GapIsSeconds(p);
    FreshIsTimely(s, t, p);
    FreshIsAuto(t, p);
    NewestStay(s.world, t, p, |t.oks|, |all| - 1);
    assert all[|all| - 1] == Fresh(t, p);
  }

  lemma NotDueIsNew(existing: seq<Snapshot>, t: Tick, p: Period)
    requires Named(existing) && t.policy.Keep(p) > 0 && t.changed
    requires !Due(Sorted(existing, t, p), t.policy.Keep(p), p, t.now, t.changed)
    ensures NewerThan(t.policy.dataset, existing, p, t.now - Gap(p))
  {
    var mine := Sorted(existing, t, p);
    SortedIs(existing, t, p);
    assert mine[|mine| - 1] in mine;
  }

  /** A tick on a written dataset whose take of the period does not fail leaves one younger than a gap. */
  lemma TickLeavesNew(dataset: string, s: State, t: Tick, p: Period)
    requires Named(s.world) && Enabled(dataset, s, Ticked(t)) && t.policy.Keep(p) > 0 && t.changed
    requires Due(Sorted(s.world, t, p), t.policy.Keep(p), p, t.now, t.changed) ==> p in t.made
    ensures NewerThan(dataset, During(s.world, t, |t.oks|), p, t.now - Gap(p))
  {
    if Takes(s.world, t, p) {
      TakenLeavesNew(s, t, p);
    } else {
      NotDueIsNew(s.world, t, p);
      TickStaysNew(dataset, s, t, p, t.now - Gap(p));
    }
  }

  /**
   * From a tick whose take did not fail until `d` after it, through later ticks that may fail in every way: there is an
   * automatic snapshot younger than LENGTH - SLACK + d.
   */
  lemma NewestIsNeverOlder(dataset: string, s: State, t: Tick, later: seq<Event>, p: Period, d: nat, at: int)
    requires Named(s.world) && Enabled(dataset, s, Ticked(t)) && t.policy.Keep(p) > 0 && t.changed
    requires Due(Sorted(s.world, t, p), t.policy.Keep(p), p, t.now, t.changed) ==> p in t.made
    requires Runs(dataset, Next(s, Ticked(t)), later) && Tended(dataset, Next(s, Ticked(t)), later, p, 1)
    requires at <= t.now + d
    ensures NewerThan(dataset, Final(dataset, Next(s, Ticked(t)), later).world, p, at - (Gap(p) + d))
  {
    TickLeavesNew(dataset, s, t, p);
    DuringNamed(s.world, t);
    StaysNew(dataset, Next(s, Ticked(t)), later, p, t.now - Gap(p));
    var x :| x in Final(dataset, Next(s, Ticked(t)), later).world && IsAuto(x, dataset, p)
      && x.creation > t.now - Gap(p);
    assert x.creation > at - (Gap(p) + d);
  }

  // ---- how many there are ----

  lemma StepStaysMany(dataset: string, s: State, e: Event, p: Period, least: nat)
    requires
      Named(s.world) && Enabled(dataset, s, e) && Runs(dataset, s, [e]) && Tended(dataset, s, [e], p, least)
      && least > 0
    ensures |Mine(Next(s, e).world, dataset, p)| >= Min(|Mine(s.world, dataset, p)|, least)
  {
    match e
    case Ticked(t) => NeverFewer(s.world, t, p, |t.oks|);
    case Elsewhere(world, at) =>
      var mine := Mine(s.world, dataset, p);
      MineNamed(s.world, dataset, p);
      forall i | 0 <= i < |mine| ensures mine[i] in Mine(world, dataset, p) {
        assert mine[i] in mine;
      }
      AtLeast(mine, 0, Mine(world, dataset, p));
  }

  /** A period whose count never goes below `least` never drops below what it had, or `least` if that is less. */
  lemma {:induction false} RunStaysMany(dataset: string, s: State, run: seq<Event>, p: Period, least: nat)
    requires Named(s.world) && Runs(dataset, s, run) && Tended(dataset, s, run, p, least) && least > 0
    ensures |Mine(Final(dataset, s, run).world, dataset, p)| >= Min(|Mine(s.world, dataset, p)|, least)
    decreases |run|
  {
    if run != [] {
      if run[0].Ticked? {
        DuringNamed(s.world, run[0].tick);
      }
      StepStaysMany(dataset, s, run[0], p, least);
      RunStaysMany(dataset, Next(s, run[0]), run[1..], p, least);
    }
  }
}
