/** Automatic snapshots of one dataset: plan and tick. */
module Retention {
  import opened Text

  datatype Period = Hourly | Daily | Weekly | Monthly

  const PERIODS: seq<Period> := [Hourly, Daily, Weekly, Monthly]
  const SLACK := 600_000

  function Length(p: Period): nat {
    match p
    case Hourly => 3_600_000
    case Daily => 86_400_000
    case Weekly => 604_800_000
    case Monthly => 2_592_000_000
  }

  /** How long after the newest one the next is due. */
  function Gap(p: Period): nat { Length(p) - SLACK }

  function Prefix(p: Period): string {
    match p
    case Hourly => "auto-hourly-"
    case Daily => "auto-daily-"
    case Weekly => "auto-weekly-"
    case Monthly => "auto-monthly-"
  }

  /** dataset@snapshot */
  datatype Name = Name(dataset: string, snapshot: string)
  /** Times are milliseconds; ZFS keeps creation to the second. */
  datatype Snapshot = Snapshot(name: Name, creation: int)

  /** How many of each period a policy keeps. */
  datatype Policy = Policy(dataset: string, counts: map<Period, int>) {
    function Keep(p: Period): int { if p in counts then counts[p] else 0 }
  }

  predicate IsAuto(s: Snapshot, dataset: string, p: Period) {
    s.name.dataset == dataset && StartsWith(s.name.snapshot, Prefix(p))
  }

  function Mine(existing: seq<Snapshot>, dataset: string, p: Period): (r: seq<Snapshot>)
    ensures forall s :: s in r <==> s in existing && IsAuto(s, dataset, p)
  {
    if existing == [] then []
    else (if IsAuto(existing[0], dataset, p) then [existing[0]] else []) + Mine(existing[1..], dataset, p)
  }

  function Insert(s: Snapshot, sorted: seq<Snapshot>): seq<Snapshot> {
    if sorted == [] || s.creation <= sorted[0].creation then [s] + sorted else [sorted[0]] + Insert(s, sorted[1..])
  }

  /** Array.prototype.sort by creation, which is stable. */
  function ByCreation(s: seq<Snapshot>): seq<Snapshot> {
    if s == [] then [] else Insert(s[0], ByCreation(s[1..]))
  }

  // ---- the plan ----

  datatype Take = Take(period: Period, name: Name, makesRoom: Option<Name>)
  datatype Plan = Plan(take: seq<Take>, destroy: seq<Name>)

  function NamesOf(s: seq<Snapshot>): seq<Name> {
    seq(|s|, i requires 0 <= i < |s| => s[i].name)
  }

  /** How many are beyond the count. */
  function Over(mine: seq<Snapshot>, keep: int): (n: nat)
    ensures n <= |mine|
  {
    if keep <= 0 then |mine| else if |mine| > keep then |mine| - keep else 0
  }

  predicate Due(mine: seq<Snapshot>, keep: int, p: Period, now: int, changed: bool) {
    keep > 0 && changed && (mine == [] || now - mine[|mine| - 1].creation >= Gap(p))
  }

  /** The old snapshot a new one replaces in a full period. */
  function Room(mine: seq<Snapshot>, keep: int): Option<Name> {
    if 0 < keep <= |mine| then Some(mine[Over(mine, keep)].name) else None
  }

  function PlanOne(p: Period, policy: Policy, existing: seq<Snapshot>, now: int, stamp: string, changed: bool): Plan {
    var mine := ByCreation(Mine(existing, policy.dataset, p));
    var keep := policy.Keep(p);
    Plan(
      if Due(mine, keep, p, now, changed) then [Take(p, Name(policy.dataset, Prefix(p) + stamp), Room(mine, keep))]
      else [],
      NamesOf(mine[..Over(mine, keep)]))
  }

  function Plus(a: Plan, b: Plan): Plan { Plan(a.take + b.take, a.destroy + b.destroy) }

  function PlanFrom(
      periods: seq<Period>, policy: Policy, existing: seq<Snapshot>, now: int, stamp: string, changed: bool): Plan {
    if periods == [] then Plan([], [])
    else
      Plus(
        PlanOne(periods[0], policy, existing, now, stamp, changed),
        PlanFrom(periods[1..], policy, existing, now, stamp, changed))
  }

  lemma PlusStep(
      plan: Plan, todo: seq<Period>, policy: Policy, existing: seq<Snapshot>, now: int, stamp: string, changed: bool)
    requires todo != []
    ensures
      Plus(plan, PlanFrom(todo, policy, existing, now, stamp, changed))
      == Plus(
        Plus(plan, PlanOne(todo[0], policy, existing, now, stamp, changed)),
        PlanFrom(todo[1..], policy, existing, now, stamp, changed))
  {
    PlusAssociates(
      plan, PlanOne(todo[0], policy, existing, now, stamp, changed),
      PlanFrom(todo[1..], policy, existing, now, stamp, changed));
  }

  lemma PlusAssociates(a: Plan, b: Plan, c: Plan)
    ensures Plus(a, Plus(b, c)) == Plus(Plus(a, b), c)
  {
    Associates(a.take, b.take, c.take);
    Associates(a.destroy, b.destroy, c.destroy);
  }

  /** The planning loop: period after period, pushing to what is taken and what is destroyed. */
  method MakePlan(policy: Policy, existing: seq<Snapshot>, now: int, stamp: string, changed: bool) returns (plan: Plan)
    ensures plan == PlanFrom(PERIODS, policy, existing, now, stamp, changed)
  {
    plan := Plan([], []);
    ghost var whole := PlanFrom(PERIODS, policy, existing, now, stamp, changed);
    var todo := PERIODS;
    assert Plus(plan, whole) == whole;
    while todo != []
      invariant Plus(plan, PlanFrom(todo, policy, existing, now, stamp, changed)) == whole
    {
      PlusStep(plan, todo, policy, existing, now, stamp, changed);
      plan := PushPeriod(plan, todo[0], policy, existing, now, stamp, changed);
      todo := todo[1..];
    }
    assert Plus(plan, Plan([], [])) == plan;
  }

  /** What one period adds to a plan. */
  lemma PlusOne(plan: Plan, p: Period, policy: Policy, existing: seq<Snapshot>, now: int, stamp: string, changed: bool)
    ensures
      var mine := ByCreation(Mine(existing, policy.dataset, p));
      var keep := policy.Keep(p);
      var more := [Take(p, Name(policy.dataset, Prefix(p) + stamp), Room(mine, keep))];
      && Plus(plan, PlanOne(p, policy, existing, now, stamp, changed))
         == Plan(
           if Due(mine, keep, p, now, changed) then plan.take + more else plan.take,
           plan.destroy + NamesOf(mine[..Over(mine, keep)]))
      && mine[..|mine|] == mine
  {
    assert plan.take + [] == plan.take;
  }

  method PushPeriod(
      plan: Plan, p: Period, policy: Policy, existing: seq<Snapshot>, now: int, stamp: string, changed: bool)
    returns (out: Plan)
    ensures out == Plus(plan, PlanOne(p, policy, existing, now, stamp, changed))
  {
    var keep := policy.Keep(p);
    var mine := ByCreation(Mine(existing, policy.dataset, p));
    PlusOne(plan, p, policy, existing, now, stamp, changed);
    if keep <= 0 {
      return plan.(destroy := plan.destroy + NamesOf(mine));
    }
    var over := if |mine| > keep then |mine| - keep else 0;
    out := plan.(destroy := plan.destroy + NamesOf(mine[..over]));
    if changed && (mine == [] || now - mine[|mine| - 1].creation >= Length(p) - SLACK) {
      var room := if |mine| >= keep then Some(mine[over].name) else None;
      out := out.(take := out.take + [Take(p, Name(policy.dataset, Prefix(p) + stamp), room)]);
    }
  }

  // ---- carrying it out ----

  /** A take's creation time as ZFS lists it. */
  function ToSecond(at: int): int { at / 1000 * 1000 }

  /** `made` holds the takes that succeed, with when. */
  function Taken(takes: seq<Take>, made: map<Period, int>): seq<Snapshot> {
    if takes == [] then []
    else
      (if takes[0].period in made then [Snapshot(takes[0].name, ToSecond(made[takes[0].period]))] else [])
      + Taken(takes[1..], made)
  }

  /** What goes because the one that replaces it is there now. */
  function Rooms(takes: seq<Take>, made: map<Period, int>): seq<Name> {
    if takes == [] then []
    else
      (if takes[0].period in made && takes[0].makesRoom.Some? then [takes[0].makesRoom.value] else [])
      + Rooms(takes[1..], made)
  }

  function Without(world: seq<Snapshot>, name: Name): (r: seq<Snapshot>)
    ensures forall s :: s in r <==> s in world && s.name != name
  {
    if world == [] then []
    else (if world[0].name == name then [] else [world[0]]) + Without(world[1..], name)
  }

  function Destroyed(world: seq<Snapshot>, names: seq<Name>, oks: seq<bool>): seq<Snapshot>
    requires |oks| == |names|
    decreases |names|
  {
    if names == [] then world
    else Destroyed(if oks[0] then Without(world, names[0]) else world, names[1..], oks[1..])
  }

  /** What one take adds to the world and to the destroys that are due. */
  lemma NextTake(world: seq<Snapshot>, destroy: seq<Name>, takes: seq<Take>, i: nat, made: map<Period, int>)
    requires i < |takes|
    ensures
      var t := takes[i];
      var more := if t.period in made then [Snapshot(t.name, ToSecond(made[t.period]))] else [];
      var room := if t.period in made && t.makesRoom.Some? then [t.makesRoom.value] else [];
      && world + Taken(takes[i..], made) == world + more + Taken(takes[i + 1..], made)
      && destroy + Rooms(takes[i..], made) == destroy + room + Rooms(takes[i + 1..], made)
      && destroy + [] == destroy && world + [] == world
  {
    var t := takes[i];
    assert takes[i..][1..] == takes[i + 1..];
    Associates(
      world, if t.period in made then [Snapshot(t.name, ToSecond(made[t.period]))] else [],
      Taken(takes[i + 1..], made));
    Associates(
      destroy, if t.period in made && t.makesRoom.Some? then [t.makesRoom.value] else [], Rooms(takes[i + 1..], made));
  }

  lemma Whole(names: seq<Name>, oks: seq<bool>)
    ensures names[0..] == names && oks[0..] == oks
  {}

  lemma NextDestroy(world: seq<Snapshot>, names: seq<Name>, oks: seq<bool>, i: nat)
    requires |oks| == |names| && i < |names|
    ensures
      Destroyed(world, names[i..], oks[i..])
      == Destroyed(if oks[i] then Without(world, names[i]) else world, names[i + 1..], oks[i + 1..])
  {
    assert names[i..][1..] == names[i + 1..] && oks[i..][1..] == oks[i + 1..];
  }

  /** The pool's snapshots, changed by the commands of a tick. */
  class Pool {
    var world: seq<Snapshot>

    constructor (world: seq<Snapshot>)
      ensures this.world == world
    {
      this.world := world;
    }

    /** Takes first, each old one it replaces queued only once the new one exists; then the destroys. */
    method CarryOut(plan: Plan, made: map<Period, int>, oks: seq<bool>) returns (failed: nat)
      requires |oks| == |plan.destroy + Rooms(plan.take, made)|
      modifies this
      ensures world == Destroyed(old(world) + Taken(plan.take, made), plan.destroy + Rooms(plan.take, made), oks)
    {
      failed := 0;
      var destroy := plan.destroy;
      for i := 0 to |plan.take|
        invariant world + Taken(plan.take[i..], made) == old(world) + Taken(plan.take, made)
        invariant destroy + Rooms(plan.take[i..], made) == plan.destroy + Rooms(plan.take, made)
      {
        var t := plan.take[i];
        NextTake(world, destroy, plan.take, i, made);
        if t.period in made {
          world := world + [Snapshot(t.name, ToSecond(made[t.period]))];
          if t.makesRoom.Some? {
            destroy := destroy + [t.makesRoom.value];
          }
        } else {
          failed := failed + 1;
        }
      }
      assert plan.take[|plan.take|..] == [] && destroy == plan.destroy + Rooms(plan.take, made);
      assert world == old(world) + Taken(plan.take, made);
      Whole(destroy, oks);
      for i := 0 to |destroy|
        invariant
          Destroyed(world, destroy[i..], oks[i..]) == Destroyed(old(world) + Taken(plan.take, made), destroy, oks)
      {
        NextDestroy(world, destroy, oks, i);
        if oks[i] {
          world := Without(world, destroy[i]);
        } else {
          failed := failed + 1;
        }
      }
      assert destroy[|destroy|..] == [];
    }
  }
}
