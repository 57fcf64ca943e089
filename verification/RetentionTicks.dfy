/** One tick of the snapshot timer on one dataset, at every moment of it and whichever of its commands fail. */
module RetentionTicks {
  import opened Text
  import opened Retention

  /** `made`: the takes that succeed and when; `oks`: which destroys do; `end`: when the tick is over. */
  datatype Tick = Tick(
    policy: Policy, now: int, stamp: string, changed: bool, made: map<Period, int>, oks: seq<bool>, end: int)

  predicate Named(world: seq<Snapshot>) {
    forall i, j :: 0 <= i < j < |world| ==> world[i].name != world[j].name
  }

  function PlanOf(existing: seq<Snapshot>, t: Tick): Plan {
    PlanFrom(PERIODS, t.policy, existing, t.now, t.stamp, t.changed)
  }

  function DoomedBy(plan: Plan, made: map<Period, int>): seq<Name> { plan.destroy + Rooms(plan.take, made) }

  function Doomed(existing: seq<Snapshot>, t: Tick): seq<Name> { DoomedBy(PlanOf(existing, t), t.made) }

  function WithTaken(existing: seq<Snapshot>, t: Tick): seq<Snapshot> {
    existing + Taken(PlanOf(existing, t).take, t.made)
  }

  /** ZFS refuses a name that exists; what is made is made between the start of the tick and its end. */
  predicate Possible(existing: seq<Snapshot>, t: Tick) {
    && |t.oks| == |Doomed(existing, t)|
    && t.now <= t.end
    && forall take :: take in PlanOf(existing, t).take && take.period in t.made ==>
      t.now <= t.made[take.period] <= t.end && forall s :: s in existing ==> s.name != take.name
  }

  /** The dataset's snapshots once the first `m` destroys were tried. */
  function During(existing: seq<Snapshot>, t: Tick, m: nat): seq<Snapshot>
    requires m <= |Doomed(existing, t)| == |t.oks|
  {
    Destroyed(WithTaken(existing, t), Doomed(existing, t)[..m], t.oks[..m])
  }

  /** The timer's work on one dataset. */
  method RunTick(pool: Pool, t: Tick) returns (failed: nat)
    requires Possible(pool.world, t)
    modifies pool
    ensures pool.world == During(old(pool.world), t, |t.oks|)
  {
    var plan := MakePlan(t.policy, pool.world, t.now, t.stamp, t.changed);
    failed := pool.CarryOut(plan, t.made, t.oks);
    ghost var doomed := Doomed(old(pool.world), t);
    assert doomed[..|doomed|] == doomed && t.oks[..|t.oks|] == t.oks;
  }

  // ---- one period's view ----

  function Sorted(existing: seq<Snapshot>, t: Tick, p: Period): seq<Snapshot> {
    ByCreation(Mine(existing, t.policy.dataset, p))
  }

  predicate Takes(existing: seq<Snapshot>, t: Tick, p: Period) {
    p in t.made && Due(Sorted(existing, t, p), t.policy.Keep(p), p, t.now, t.changed)
  }

  function Fresh(t: Tick, p: Period): Snapshot
    requires p in t.made
  {
    Snapshot(Name(t.policy.dataset, Prefix(p) + t.stamp), ToSecond(t.made[p]))
  }

  /** The period's snapshots, oldest first, once the takes are done. */
  function All(existing: seq<Snapshot>, t: Tick, p: Period): seq<Snapshot> {
    Sorted(existing, t, p) + if Takes(existing, t, p) then [Fresh(t, p)] else []
  }

  function Min(a: int, b: int): int { if a < b then a else b }

  // ---- sorting ----

  predicate Ordered(s: seq<Snapshot>) {
    forall i, j :: 0 <= i < j < |s| ==> s[i].creation <= s[j].creation
  }

  lemma InsertHas(s: Snapshot, sorted: seq<Snapshot>, x: Snapshot)
    ensures |Insert(s, sorted)| == |sorted| + 1
    ensures x in Insert(s, sorted) <==> x == s || x in sorted
  {
    if sorted != [] && s.creation > sorted[0].creation {
      assert sorted == [sorted[0]] + sorted[1..];
      InsertHas(s, sorted[1..], x);
    }
  }

  lemma InsertIs(s: Snapshot, sorted: seq<Snapshot>)
    requires Named(sorted) && Ordered(sorted) && forall x :: x in sorted ==> x.name != s.name
    ensures Named(Insert(s, sorted)) && Ordered(Insert(s, sorted))
  {
    if sorted != [] && s.creation > sorted[0].creation {
      InsertIs(s, sorted[1..]);
      var rest := Insert(s, sorted[1..]);
      forall i | 0 <= i < |rest| ensures rest[i].name != sorted[0].name && sorted[0].creation <= rest[i].creation {
        InsertHas(s, sorted[1..], rest[i]);
      }
    }
  }

  lemma ByCreationIs(s: seq<Snapshot>)
    requires Named(s)
    ensures |ByCreation(s)| == |s| && Named(ByCreation(s))
    ensures forall x :: x in ByCreation(s) <==> x in s
    ensures Ordered(ByCreation(s))
  {
    if s != [] {
      assert s == [s[0]] + s[1..];
      ByCreationIs(s[1..]);
      InsertHas(s[0], ByCreation(s[1..]), s[0]);
      forall x ensures (x in ByCreation(s) <==> x in s) {
        InsertHas(s[0], ByCreation(s[1..]), x);
      }
      InsertIs(s[0], ByCreation(s[1..]));
    }
  }

  lemma MineNamed(world: seq<Snapshot>, dataset: string, p: Period)
    requires Named(world)
    ensures Named(Mine(world, dataset, p))
  {
    if world != [] {
      var rest := Mine(world[1..], dataset, p);
      MineNamed(world[1..], dataset, p);
      forall i | 0 <= i < |rest| ensures rest[i].name != world[0].name {
        assert rest[i] in world[1..];
      }
    }
  }

  lemma SortedIs(existing: seq<Snapshot>, t: Tick, p: Period)
    requires Named(existing)
    ensures |Sorted(existing, t, p)| == |Mine(existing, t.policy.dataset, p)| && Named(Sorted(existing, t, p))
    ensures forall s :: s in Sorted(existing, t, p) <==> s in existing && IsAuto(s, t.policy.dataset, p)
    ensures Ordered(Sorted(existing, t, p))
  {
    MineNamed(existing, t.policy.dataset, p);
    ByCreationIs(Mine(existing, t.policy.dataset, p));
  }

  // ---- which period a name is of ----

  lemma OnePeriod(name: string, p: Period, q: Period)
    requires StartsWith(name, Prefix(p)) && StartsWith(name, Prefix(q))
    ensures p == q
  {
    assert name[5] == Prefix(p)[5] && name[5] == Prefix(q)[5];
  }

  lemma FreshIsAuto(t: Tick, p: Period)
    requires p in t.made
    ensures IsAuto(Fresh(t, p), t.policy.dataset, p)
  {
    assert (Prefix(p) + t.stamp)[..|Prefix(p)|] == Prefix(p);
  }

  // ---- what the plan holds, period by period ----

  lemma InPlan(periods: seq<Period>, existing: seq<Snapshot>, t: Tick, n: Name, take: Take)
    ensures
      var plan := PlanFrom(periods, t.policy, existing, t.now, t.stamp, t.changed);
      && (n in plan.destroy <==>
        exists p :: p in periods && n in PlanOne(p, t.policy, existing, t.now, t.stamp, t.changed).destroy)
      && (take in plan.take <==>
        take.period in periods && take in PlanOne(take.period, t.policy, existing, t.now, t.stamp, t.changed).take)
  {
    if periods != [] {
      InPlan(periods[1..], existing, t, n, take);
      assert periods == [periods[0]] + periods[1..];
    }
  }

  lemma AllPeriods(p: Period)
    ensures p in PERIODS
  {
    assert PERIODS[0] == Hourly && PERIODS[1] == Daily && PERIODS[2] == Weekly && PERIODS[3] == Monthly;
  }

  lemma InTaken(takes: seq<Take>, made: map<Period, int>, s: Snapshot)
    ensures
      s in Taken(takes, made) <==>
      exists take :: take in takes && take.period in made && s == Snapshot(take.name, ToSecond(made[take.period]))
  {
    if takes != [] {
      InTaken(takes[1..], made, s);
      assert takes == [takes[0]] + takes[1..];
    }
  }

  lemma InRooms(takes: seq<Take>, made: map<Period, int>, n: Name)
    ensures
      n in Rooms(takes, made) <==> exists take :: take in takes && take.period in made && take.makesRoom == Some(n)
  {
    if takes != [] {
      InRooms(takes[1..], made, n);
      assert takes == [takes[0]] + takes[1..];
    }
  }

  function TakeOf(existing: seq<Snapshot>, t: Tick, p: Period): Take {
    Take(p, Name(t.policy.dataset, Prefix(p) + t.stamp), Room(Sorted(existing, t, p), t.policy.Keep(p)))
  }

  lemma InTakes(existing: seq<Snapshot>, t: Tick, take: Take)
    ensures
      take in PlanOf(existing, t).take && take.period in t.made
      <==> Takes(existing, t, take.period) && take == TakeOf(existing, t, take.period)
  {
    InPlan(PERIODS, existing, t, Name("", ""), take);
    AllPeriods(take.period);
  }

  /** The takes that succeed are one for each period that is due. */
  lemma TakenExactly(existing: seq<Snapshot>, t: Tick, s: Snapshot)
    ensures s in Taken(PlanOf(existing, t).take, t.made) <==> exists p :: Takes(existing, t, p) && s == Fresh(t, p)
  {
    var takes := PlanOf(existing, t).take;
    InTaken(takes, t.made, s);
    forall p | Takes(existing, t, p) ensures TakeOf(existing, t, p) in takes {
      InTakes(existing, t, TakeOf(existing, t, p));
    }
    forall take | take in takes && take.period in t.made
      ensures Takes(existing, t, take.period) && take == TakeOf(existing, t, take.period)
    {
      InTakes(existing, t, take);
    }
  }

  /** The word of a period in a snapshot's name, and how long after one the next is due: its length less ten minutes. */
  function WordOf(p: Period): string {
    match p
    case Hourly => "hourly"
    case Daily => "daily"
    case Weekly => "weekly"
    case Monthly => "monthly"
  }

  function DueAfter(p: Period): int {
    match p
    case Hourly => 60 * 60_000 - 600_000
    case Daily => 24 * 60 * 60_000 - 600_000
    case Weekly => 7 * 24 * 60 * 60_000 - 600_000
    case Monthly => 30 * 24 * 60 * 60_000 - 600_000
  }

  predicate IsOf(s: Snapshot, dataset: string, p: Period) {
    s.name.dataset == dataset && StartsWith(s.name.snapshot, "auto-" + WordOf(p) + "-")
  }

  lemma IsOfIsAuto(s: Snapshot, dataset: string, p: Period)
    ensures IsOf(s, dataset, p) <==> IsAuto(s, dataset, p)
  {
    match p
    case Hourly => assert "auto-" + "hourly" + "-" == "auto-hourly-";
    case Daily => assert "auto-" + "daily" + "-" == "auto-daily-";
    case Weekly => assert "auto-" + "weekly" + "-" == "auto-weekly-";
    case Monthly => assert "auto-" + "monthly" + "-" == "auto-monthly-";
  }

  /**
   * Exactly when a tick asks for a snapshot of a period: it is kept, the dataset was written to, and every automatic
   * snapshot of the period is at least its length less ten minutes old. It asks for one at most, named after the tick.
   */
  lemma AskedExactly(existing: seq<Snapshot>, t: Tick, p: Period)
    requires Named(existing)
    ensures
      (exists take :: take in PlanOf(existing, t).take && take.period == p) <==>
      && t.policy.Keep(p) > 0 && t.changed
      && forall s :: s in existing && IsOf(s, t.policy.dataset, p) ==> t.now - s.creation >= DueAfter(p)
    ensures
      forall take :: take in PlanOf(existing, t).take && take.period == p ==>
        take.name == Name(t.policy.dataset, "auto-" + WordOf(p) + "-" + t.stamp)
  {
    var mine := Sorted(existing, t, p);
    var take := TakeOf(existing, t, p);
    AllPeriods(p);
    SortedIs(existing, t, p);
    DueExactly(mine, t.policy.Keep(p), p, t.now, t.changed);
    forall s ensures s in mine <==> s in existing && IsOf(s, t.policy.dataset, p) {
      IsOfIsAuto(s, t.policy.dataset, p);
    }
    InPlan(PERIODS, existing, t, Name("", ""), take);
    forall other | other in PlanOf(existing, t).take && other.period == p ensures other == take {
      InPlan(PERIODS, existing, t, Name("", ""), other);
    }
    PrefixIs(p);
  }

  lemma PrefixIs(p: Period)
    ensures Prefix(p) == "auto-" + WordOf(p) + "-"
  {}

  lemma DueExactly(mine: seq<Snapshot>, keep: int, p: Period, now: int, changed: bool)
    requires Ordered(mine)
    ensures
      Due(mine, keep, p, now, changed) <==>
      keep > 0 && changed && forall s :: s in mine ==> now - s.creation >= DueAfter(p)
  {
    if mine != [] {
      var newest := mine[|mine| - 1];
      assert newest in mine;
      forall s | s in mine ensures s.creation <= newest.creation {
        var i :| 0 <= i < |mine| && mine[i] == s;
      }
    }
  }

  /** What the period destroys: what was over the count, then what a successful take replaces. */
  predicate Going(existing: seq<Snapshot>, t: Tick, p: Period, n: Name) {
    var mine := Sorted(existing, t, p);
    var keep := t.policy.Keep(p);
    n in NamesOf(mine[..Over(mine, keep)]) || (Takes(existing, t, p) && Room(mine, keep) == Some(n))
  }

  lemma InDoomed(existing: seq<Snapshot>, t: Tick, n: Name)
    ensures n in Doomed(existing, t) <==> exists p :: Going(existing, t, p, n)
  {
    var takes := PlanOf(existing, t).take;
    InRooms(takes, t.made, n);
    InPlan(PERIODS, existing, t, n, TakeOf(existing, t, Hourly));
    if p :| Going(existing, t, p, n) {
      AllPeriods(p);
      InTakes(existing, t, TakeOf(existing, t, p));
      assert n in PlanOf(existing, t).destroy || n in Rooms(takes, t.made);
    }
    if n in PlanOf(existing, t).destroy {
      var p :| p in PERIODS && n in PlanOne(p, t.policy, existing, t.now, t.stamp, t.changed).destroy;
      assert Going(existing, t, p, n);
    }
    if n in Rooms(takes, t.made) {
      var take :| take in takes && take.period in t.made && take.makesRoom == Some(n);
      InTakes(existing, t, take);
      assert Going(existing, t, take.period, n);
    }
  }

  lemma OneMore(mine: seq<Snapshot>, k: nat)
    requires k < |mine|
    ensures NamesOf(mine[..k + 1]) == NamesOf(mine[..k]) + [mine[k].name]
  {
  }

  /** Counted once the takes are done: what a period destroys is exactly what is then over its count. */
  lemma GoingIsOver(existing: seq<Snapshot>, t: Tick, p: Period, n: Name)
    ensures
      var all := All(existing, t, p);
      Going(existing, t, p, n) <==> n in NamesOf(all[..Over(all, t.policy.Keep(p))])
  {
    var mine := Sorted(existing, t, p);
    var all := All(existing, t, p);
    var keep := t.policy.Keep(p);
    var over := Over(mine, keep);
    if Takes(existing, t, p) && keep <= |mine| {
      assert Over(all, keep) == over + 1;
      assert all[..over + 1] == mine[..over + 1];
      OneMore(mine, over);
    } else {
      assert Over(all, keep) == over && all[..over] == mine[..over];
    }
  }

  lemma AllIs(existing: seq<Snapshot>, t: Tick, p: Period)
    requires Named(existing) && Possible(existing, t)
    ensures Named(All(existing, t, p))
    ensures forall s :: s in All(existing, t, p) <==> s in WithTaken(existing, t) && IsAuto(s, t.policy.dataset, p)
  {
    SortedIs(existing, t, p);
    if Takes(existing, t, p) {
      InTakes(existing, t, TakeOf(existing, t, p));
      FreshIsAuto(t, p);
    }
    forall s
      ensures s in Taken(PlanOf(existing, t).take, t.made) && IsAuto(s, t.policy.dataset, p)
         <==> Takes(existing, t, p) && s == Fresh(t, p)
    {
      TakenExactly(existing, t, s);
      forall q | Takes(existing, t, q) && s == Fresh(t, q) && IsAuto(s, t.policy.dataset, p) ensures p == q {
        FreshIsAuto(t, q);
        OnePeriod(s.name.snapshot, p, q);
      }
    }
  }

  // ---- the destroys ----

  lemma InDestroyed(world: seq<Snapshot>, names: seq<Name>, oks: seq<bool>, s: Snapshot)
    requires |oks| == |names|
    ensures
      s in Destroyed(world, names, oks) <==> s in world && forall i :: 0 <= i < |names| && oks[i] ==> names[i] != s.name
    decreases |names|
  {
    if names != [] {
      InDestroyed(if oks[0] then Without(world, names[0]) else world, names[1..], oks[1..], s);
      assert forall i :: 0 < i < |names| ==> names[i] == names[1..][i - 1] && oks[i] == oks[1..][i - 1];
      if forall i :: 0 <= i < |names[1..]| && oks[1..][i] ==> names[1..][i] != s.name {
        assert forall i :: 0 < i < |names| && oks[i] ==> names[i] != s.name;
      }
    }
  }

  /** A name that goes is that of a snapshot there was, of the period it goes for. */
  lemma GoingWas(existing: seq<Snapshot>, t: Tick, p: Period, n: Name) returns (s: Snapshot)
    requires Named(existing) && Going(existing, t, p, n)
    ensures s in existing && s.name == n && IsAuto(s, t.policy.dataset, p)
  {
    var mine := Sorted(existing, t, p);
    SortedIs(existing, t, p);
    var over := Over(mine, t.policy.Keep(p));
    if n in NamesOf(mine[..over]) {
      var i :| 0 <= i < over && mine[..over][i].name == n;
      assert mine[i] in mine;
      s := mine[i];
    } else {
      assert mine[over] in mine;
      s := mine[over];
    }
  }

  /** Of this period's own, a snapshot goes exactly when it is over the count once the takes are done. */
  lemma DoomedExactly(existing: seq<Snapshot>, t: Tick, p: Period, i: nat)
    requires Named(existing) && Possible(existing, t) && i < |All(existing, t, p)|
    ensures
      var all := All(existing, t, p);
      all[i].name in Doomed(existing, t) <==> t.policy.Keep(p) <= 0 || i < |all| - t.policy.Keep(p)
  {
    var all := All(existing, t, p);
    var over := Over(all, t.policy.Keep(p));
    var n := all[i].name;
    AllIs(existing, t, p);
    InDoomed(existing, t, n);
    GoingIsOver(existing, t, p, n);
    if i < over {
      assert NamesOf(all[..over])[i] == n;
    }
    if n in NamesOf(all[..over]) {
      var j :| 0 <= j < over && NamesOf(all[..over])[j] == n;
      assert all[j].name == n;
    }
    forall q | Going(existing, t, q, n) ensures q == p {
      var s := GoingWas(existing, t, q, n);
      assert all[i] in all;
      OnePeriod(n.snapshot, p, q);
    }
  }

  // ---- the theorems of one tick ----

  /** At every moment, whatever failed: of a period's snapshots the newest as many as it keeps are all there. */
  lemma NewestStay(existing: seq<Snapshot>, t: Tick, p: Period, m: nat, i: nat)
    requires Named(existing) && Possible(existing, t) && m <= |Doomed(existing, t)|
    requires Over(All(existing, t, p), t.policy.Keep(p)) <= i < |All(existing, t, p)|
    ensures All(existing, t, p)[i] in During(existing, t, m)
  {
    var s := All(existing, t, p)[i];
    var doomed := Doomed(existing, t);
    AllIs(existing, t, p);
    assert s in All(existing, t, p);
    DoomedExactly(existing, t, p, i);
    InDestroyed(WithTaken(existing, t), doomed[..m], t.oks[..m], s);
    assert forall k :: 0 <= k < m ==> doomed[..m][k] in doomed;
  }

  /** Once every destroy was tried with success, those are the only ones. */
  lemma OnlyNewestStay(existing: seq<Snapshot>, t: Tick, p: Period, s: Snapshot)
    requires Named(existing) && Possible(existing, t) && forall i :: 0 <= i < |t.oks| ==> t.oks[i]
    ensures
      var all := All(existing, t, p);
      s in During(existing, t, |t.oks|) && IsAuto(s, t.policy.dataset, p)
      <==> exists i :: Over(all, t.policy.Keep(p)) <= i < |all| && all[i] == s
  {
    var all := All(existing, t, p);
    var over := Over(all, t.policy.Keep(p));
    AllIs(existing, t, p);
    if s in During(existing, t, |t.oks|) && IsAuto(s, t.policy.dataset, p) {
      InDestroyed(WithTaken(existing, t), Doomed(existing, t)[..|t.oks|], t.oks[..|t.oks|], s);
      GoesWhenTried(existing, t, s);
      var i :| 0 <= i < |all| && all[i] == s;
      DoomedExactly(existing, t, p, i);
    }
    if i :| over <= i < |all| && all[i] == s {
      assert s in all;
      NewestStay(existing, t, p, |t.oks|, i);
    }
  }

  lemma GoesWhenTried(existing: seq<Snapshot>, t: Tick, s: Snapshot)
    requires Possible(existing, t) && forall i :: 0 <= i < |t.oks| ==> t.oks[i]
    requires s in During(existing, t, |t.oks|)
    ensures s.name !in Doomed(existing, t)
  {
    var doomed := Doomed(existing, t);
    InDestroyed(WithTaken(existing, t), doomed[..|t.oks|], t.oks[..|t.oks|], s);
    forall k | 0 <= k < |doomed| ensures doomed[k] != s.name {
      assert doomed[..|t.oks|][k] == doomed[k] && t.oks[..|t.oks|][k];
    }
  }

  function Elements(s: seq<Snapshot>): set<Snapshot> { set x | x in s }

  lemma NamedSize(s: seq<Snapshot>)
    requires Named(s)
    ensures |Elements(s)| == |s|
  {
    if s != [] {
      NamedSize(s[1..]);
      assert s == [s[0]] + s[1..];
      assert Elements(s) == {s[0]} + Elements(s[1..]);
      assert s[0] !in s[1..];
    }
  }

  lemma AtMostLength(s: seq<Snapshot>)
    ensures |Elements(s)| <= |s|
  {
    if s != [] {
      AtMostLength(s[1..]);
      assert s == [s[0]] + s[1..];
      assert Elements(s) == {s[0]} + Elements(s[1..]);
    }
  }

  lemma Smaller(small: set<Snapshot>, big: set<Snapshot>)
    requires small <= big
    ensures |small| <= |big|
  {
    assert big == small + (big - small);
  }

  lemma AtLeast(all: seq<Snapshot>, from: nat, world: seq<Snapshot>)
    requires Named(all) && from <= |all| && forall i :: from <= i < |all| ==> all[i] in world
    ensures |world| >= |all| - from
  {
    NamedSize(all[from..]);
    AtMostLength(world);
    Smaller(Elements(all[from..]), Elements(world));
  }

  /** A kept period never drops below what it had, or what it keeps if that is less. */
  lemma NeverFewer(existing: seq<Snapshot>, t: Tick, p: Period, m: nat)
    requires Named(existing) && Possible(existing, t) && m <= |Doomed(existing, t)|
    requires t.policy.Keep(p) > 0
    ensures
      |Mine(During(existing, t, m), t.policy.dataset, p)|
      >= Min(|Mine(existing, t.policy.dataset, p)|, t.policy.Keep(p))
  {
    var all := All(existing, t, p);
    var over := Over(all, t.policy.Keep(p));
    AllIs(existing, t, p);
    SortedIs(existing, t, p);
    forall i | over <= i < |all| ensures all[i] in Mine(During(existing, t, m), t.policy.dataset, p) {
      NewestStay(existing, t, p, m, i);
      assert all[i] in all;
    }
    AtLeast(all, over, Mine(During(existing, t, m), t.policy.dataset, p));
  }

  /** The newest of a kept period goes only once a newer one is there, and that one stays. */
  lemma NewestGoesLast(existing: seq<Snapshot>, t: Tick, p: Period, m: nat)
    requires Named(existing) && Possible(existing, t) && m <= |Doomed(existing, t)|
    requires t.policy.Keep(p) > 0 && Sorted(existing, t, p) != []
    ensures
      var mine := Sorted(existing, t, p);
      var newest := mine[|mine| - 1];
      newest in During(existing, t, m)
      || (Takes(existing, t, p) && Fresh(t, p) in During(existing, t, m) && newest.creation < Fresh(t, p).creation)
  {
    var mine := Sorted(existing, t, p);
    var all := All(existing, t, p);
    var over := Over(all, t.policy.Keep(p));
    NewestStay(existing, t, p, m, |all| - 1);
    if Takes(existing, t, p) {
      InTakes(existing, t, TakeOf(existing, t, p));
    }
  }

  /** Only automatic snapshots of this dataset ever go: manual ones, and other datasets', are untouched. */
  lemma OthersUntouched(existing: seq<Snapshot>, t: Tick, m: nat, s: Snapshot)
    requires Named(existing) && Possible(existing, t) && m <= |Doomed(existing, t)|
    requires forall p :: !IsAuto(s, t.policy.dataset, p)
    ensures s in During(existing, t, m) <==> s in existing
  {
    var doomed := Doomed(existing, t);
    InDestroyed(WithTaken(existing, t), doomed[..m], t.oks[..m], s);
    TakenExactly(existing, t, s);
    forall p | Takes(existing, t, p) ensures s != Fresh(t, p) {
      FreshIsAuto(t, p);
    }
    if s.name in doomed {
      InDoomed(existing, t, s.name);
      var p :| Going(existing, t, p, s.name);
      var was := GoingWas(existing, t, p, s.name);
      assert IsAuto(s, t.policy.dataset, p);
      assert false;
    }
    assert forall k :: 0 <= k < m ==> doomed[..m][k] in doomed;
  }

  // ---- nothing twice ----

  lemma RoomsAppend(a: seq<Take>, b: seq<Take>, made: map<Period, int>)
    ensures Rooms(a + b, made) == Rooms(a, made) + Rooms(b, made)
  {
    if a == [] {
      assert a + b == b;
    } else {
      assert (a + b)[0] == a[0] && (a + b)[1..] == a[1..] + b;
      RoomsAppend(a[1..], b, made);
    }
  }

  lemma DoomedByPlus(a: Plan, b: Plan, made: map<Period, int>, n: Name)
    ensures multiset(DoomedBy(Plus(a, b), made))[n] == multiset(DoomedBy(a, made))[n] + multiset(DoomedBy(b, made))[n]
  {
    RoomsAppend(a.take, b.take, made);
  }

  lemma NamesOnce(s: seq<Snapshot>, n: Name)
    requires Named(s)
    ensures multiset(NamesOf(s))[n] == if n in NamesOf(s) then 1 else 0
  {
    if s != [] {
      NamesOnce(s[1..], n);
      assert NamesOf(s) == [s[0].name] + NamesOf(s[1..]);
      if n == s[0].name {
        assert n !in NamesOf(s[1..]);
      }
    }
  }

  function OneOf(p: Period, existing: seq<Snapshot>, t: Tick): Plan {
    PlanOne(p, t.policy, existing, t.now, t.stamp, t.changed)
  }

  lemma RoomsOfOne(take: Take, made: map<Period, int>)
    ensures Rooms([take], made) == if take.period in made && take.makesRoom.Some? then [take.makesRoom.value] else []
  {
    assert [take][1..] == [];
  }

  lemma DoomedOfPeriod(p: Period, existing: seq<Snapshot>, t: Tick)
    ensures
      var mine := Sorted(existing, t, p);
      var keep := t.policy.Keep(p);
      var more := if Takes(existing, t, p) && keep <= |mine| then 1 else 0;
      && Over(mine, keep) + more <= |mine|
      && DoomedBy(OneOf(p, existing, t), t.made) == NamesOf(mine[..Over(mine, keep) + more])
  {
    var mine := Sorted(existing, t, p);
    var keep := t.policy.Keep(p);
    RoomsOfOne(TakeOf(existing, t, p), t.made);
    if Takes(existing, t, p) && keep <= |mine| {
      OneMore(mine, Over(mine, keep));
    }
  }

  lemma DoomedByOne(p: Period, existing: seq<Snapshot>, t: Tick, n: Name)
    requires Named(existing)
    ensures multiset(DoomedBy(OneOf(p, existing, t), t.made))[n] == if Going(existing, t, p, n) then 1 else 0
  {
    var mine := Sorted(existing, t, p);
    var over := Over(mine, t.policy.Keep(p));
    var gone := if Takes(existing, t, p) && t.policy.Keep(p) <= |mine| then over + 1 else over;
    SortedIs(existing, t, p);
    DoomedOfPeriod(p, existing, t);
    GoingIsFirst(existing, t, p, n);
    NamesOnce(mine[..gone], n);
  }

  lemma GoingIsFirst(existing: seq<Snapshot>, t: Tick, p: Period, n: Name)
    ensures
      var mine := Sorted(existing, t, p);
      var over := Over(mine, t.policy.Keep(p));
      var gone := if Takes(existing, t, p) && t.policy.Keep(p) <= |mine| then over + 1 else over;
      gone <= |mine| && (Going(existing, t, p, n) <==> n in NamesOf(mine[..gone]))
  {
    var mine := Sorted(existing, t, p);
    if Takes(existing, t, p) && t.policy.Keep(p) <= |mine| {
      OneMore(mine, Over(mine, t.policy.Keep(p)));
    }
  }

  lemma DoomedOnce(periods: seq<Period>, existing: seq<Snapshot>, t: Tick, n: Name)
    requires Named(existing) && forall i, j :: 0 <= i < j < |periods| ==> periods[i] != periods[j]
    ensures
      var times := multiset(DoomedBy(PlanFrom(periods, t.policy, existing, t.now, t.stamp, t.changed), t.made))[n];
      times <= 1 && (times == 1 ==> exists p :: p in periods && Going(existing, t, p, n))
  {
    if periods != [] {
      var rest := PlanFrom(periods[1..], t.policy, existing, t.now, t.stamp, t.changed);
      DoomedByPlus(OneOf(periods[0], existing, t), rest, t.made, n);
      DoomedByOne(periods[0], existing, t, n);
      DoomedOnce(periods[1..], existing, t, n);
      if q :| q in periods[1..] && Going(existing, t, q, n) && Going(existing, t, periods[0], n) {
        var a := GoingWas(existing, t, q, n);
        var b := GoingWas(existing, t, periods[0], n);
        OnePeriod(n.snapshot, q, periods[0]);
        assert false;
      }
    }
  }

  lemma TwiceCounts(names: seq<Name>, i: nat, j: nat)
    requires i < j < |names| && names[i] == names[j]
    ensures multiset(names)[names[i]] >= 2
  {
    assert names == names[..i + 1] + names[i + 1..];
    assert names[..i + 1][i] == names[i] && names[i + 1..][j - i - 1] == names[j];
  }

  /** No destroy is asked for twice. */
  lemma NothingTwice(existing: seq<Snapshot>, t: Tick, i: nat, j: nat)
    requires Named(existing) && i < j < |Doomed(existing, t)|
    ensures Doomed(existing, t)[i] != Doomed(existing, t)[j]
  {
    var doomed := Doomed(existing, t);
    DoomedOnce(PERIODS, existing, t, doomed[i]);
    if doomed[i] == doomed[j] {
      TwiceCounts(doomed, i, j);
      assert false;
    }
  }
}
