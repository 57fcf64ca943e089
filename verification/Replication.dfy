/** A dataset pushed to another ZFS host, as one state machine. */
module Replication {
  import opened Text
  import opened ReplicationNames

  // ---- the plan ----

  /** A resume token stands for the snapshot whose interrupted send it continues. */
  datatype SendPlan = Nothing | Resume(to: string) | Full(to: string) | Incremental(from: string, to: string)
  datatype Planned = Refused | Planned(plan: SendPlan)

  /** The newest of ours that the target also has. */
  function NewestCommon(local: seq<string>, remote: seq<string>): (r: Option<string>)
    ensures r.Some? ==> r.value in local && r.value in remote
    ensures r.None? ==> forall n :: n in local ==> n !in remote
  {
    if local == [] then None
    else if local[|local| - 1] in remote then Some(local[|local| - 1])
    else NewestCommon(local[..|local| - 1], remote)
  }

  function Plan(local: seq<string>, remote: seq<string>, token: Option<string>, latest: string): Planned {
    if token.Some? then Planned(Resume(token.value))
    else if remote == [] then Planned(Full(latest))
    else
      match NewestCommon(local, remote)
      case None => Refused
      case Some(common) => Planned(if common == latest then Nothing else Incremental(common, latest))
  }

  // ---- the two sides and a run ----

  /** A snapshot: its name and its place in the order of creation, which a send carries over to the target. */
  datatype Snap = Snap(name: string, born: nat)

  datatype Destroy = Here(name: string) | There(name: string)

  datatype Phase =
    | Idle
    | Taken(latest: string)
    | Sending(plan: SendPlan, latest: string, listed: seq<string>)
    | Pruning(queue: seq<Destroy>)

  /**
   * The two sides, the run in progress and everything that happens around it. A run takes a snapshot, looks at both
   * sides, sends or resumes, and prunes both sides; it may stop between any two of its steps, and other snapshots come
   * and go at any moment.
   */
  datatype State = State(
    local: seq<Snap>, remote: seq<Snap>, present: bool, token: Option<Snap>, next: nat, phase: Phase)

  datatype Config = Config(id: nat, keep: nat)

  datatype Event =
    | OtherTake(name: string)      // a policy's tick, another replication, a person
    | OtherDestroy(name: string)
    | Take(name: string)
    | Look(tokenSeen: bool)        // asking for the token may fail, and then it reads as none
    | Send(delivered: nat, interrupted: bool, alone: bool)
    | Prune(ok: bool)
    | Stop                         // the runner dies, or a command fails the run

  function Names(xs: seq<Snap>): (r: seq<string>)
    ensures |r| == |xs| && forall i :: 0 <= i < |xs| ==> r[i] == xs[i].name
  {
    seq(|xs|, i requires 0 <= i < |xs| => xs[i].name)
  }

  function Without(xs: seq<Snap>, name: string): (r: seq<Snap>)
    ensures forall a :: a in r <==> a in xs && a.name != name
  {
    if xs == [] then []
    else
      var rest := Without(xs[1..], name);
      if xs[0].name == name then rest else [xs[0]] + rest
  }

  predicate Ordered(xs: seq<Snap>) { forall i, j :: 0 <= i < j < |xs| ==> xs[i].born < xs[j].born }

  function Find(xs: seq<Snap>, name: string): (r: Option<Snap>)
    ensures r.Some? ==> r.value in xs && r.value.name == name
    ensures r.None? ==> forall a :: a in xs ==> a.name != name
  {
    if xs == [] then None else if xs[0].name == name then Some(xs[0]) else Find(xs[1..], name)
  }

  /** The snapshots `send -I from to` carries: those after `from` up to `to`. */
  function Between(xs: seq<Snap>, from: nat, to: nat): (r: seq<Snap>)
    ensures forall a :: a in r <==> a in xs && from < a.born <= to
  {
    if xs == [] then []
    else
      var rest := Between(xs[1..], from, to);
      if from < xs[0].born <= to then [xs[0]] + rest else rest
  }

  function Last(xs: seq<Snap>): Snap
    requires xs != []
  {
    xs[|xs| - 1]
  }

  /** What zfs receive without -F takes: a full stream only where nothing is, an increment only onto the newest. */
  predicate Accepts(s: State, plan: SendPlan) {
    match plan
    case Nothing => false
    case Full(_) => !s.present
    case Incremental(from, _) => s.present && s.token.None? && s.remote != [] && Last(s.remote).name == from
    case Resume(to) => s.token.Some? && s.token.value.name == to
  }

  /** What zfs send can produce now, snapshot by snapshot. */
  function Stream(s: State, plan: SendPlan): seq<Snap> {
    match plan
    case Nothing => []
    case Full(to) =>
      var t := Find(s.local, to);
      if t.Some? then [t.value] else []
    case Incremental(from, to) =>
      var f, t := Find(s.local, from), Find(s.local, to);
      if f.Some? && t.Some? then Between(s.local, f.value.born, t.value.born) else []
    case Resume(_) =>
      if s.token.Some? && s.token.value in s.local && (s.remote == [] || Last(s.remote) in s.local) then [s.token.value]
      else []
  }

  function Deliverable(s: State, plan: SendPlan): seq<Snap> {
    if Accepts(s, plan) then Stream(s, plan) else []
  }

  // ---- pruning ----

  /** This replication's names in order of creation, the fresh one always among them. */
  function MineWith(listed: seq<string>, latest: string, id: nat, alone: bool): seq<string> {
    var mine := OwnSnapshots(listed, id, alone);
    if latest in mine then mine else mine + [latest]
  }

  function Beyond(mine: seq<string>, keep: nat): (r: seq<string>)
    ensures r <= mine
  {
    mine[..if |mine| > keep then |mine| - keep else 0]
  }

  function OldNames(c: Config, listed: seq<string>, latest: string, alone: bool): seq<string> {
    Beyond(MineWith(listed, latest, c.id, alone), c.keep)
  }

  /** Each old snapshot goes here first, then there. */
  function Queue(olds: seq<string>): (r: seq<Destroy>)
    ensures |r| == 2 * |olds|
    ensures forall q :: q in r <==> q.name in olds
  {
    if olds == [] then [] else [Here(olds[0]), There(olds[0])] + Queue(olds[1..])
  }

  function Destroyed(s: State, d: Destroy): State {
    match d
    case Here(name) => s.(local := Without(s.local, name))
    case There(name) => s.(remote := Without(s.remote, name))
  }

  // ---- steps ----

  /** The names nobody but this replication destroys. */
  predicate Kept(c: Config, name: string) { Own(name, c.id) || Legacy(name) }

  predicate Known(s: State, a: Snap) { a in s.local || a in s.remote || s.token == Some(a) }

  /** A name is taken once: nothing known carries it yet. */
  ghost predicate Fresh(s: State, name: string) { forall a :: Known(s, a) ==> a.name != name }

  predicate Has(xs: seq<Snap>, name: string) { Find(xs, name).Some? }

  ghost predicate Enabled(c: Config, s: State, e: Event) {
    match e
    case OtherTake(name) => !Kept(c, name) && Fresh(s, name)
    case OtherDestroy(name) => !Kept(c, name)
    case Take(name) => s.phase.Idle? && Own(name, c.id) && (Has(s.local, name) || Fresh(s, name))
    case Look(_) => s.phase.Taken?
    case Send(delivered, _, _) => s.phase.Sending? && delivered <= |Deliverable(s, s.phase.plan)|
    case Prune(_) => s.phase.Pruning? && s.phase.queue != []
    case Stop => true
  }

  function AfterLook(s: State, tokenSeen: bool): Phase
    requires s.phase.Taken?
  {
    var listed := Names(s.local);
    var token := if tokenSeen && s.token.Some? then Some(s.token.value.name) else None;
    match Plan(listed, Names(s.remote), token, s.phase.latest)
    case Refused => Idle
    case Planned(Nothing) => Idle
    case Planned(plan) => Sending(plan, s.phase.latest, listed)
  }

  /** `delivered` snapshots of the stream arrive whole; an interrupted send leaves a token for the next one. */
  function AfterSend(c: Config, s: State, stream: seq<Snap>, delivered: nat, interrupted: bool, alone: bool): State
    requires s.phase.Sending? && delivered <= |stream|
  {
    var remote := s.remote + stream[..delivered];
    if stream != [] && delivered == |stream| then
      s.(remote := remote, present := true, token := None,
      phase := Pruning(Queue(OldNames(c, s.phase.listed, s.phase.latest, alone))))
    else
      var token := if interrupted && stream != [] then Some(stream[delivered]) else s.token;
      s.(remote := remote, present := s.present || token.Some?, token := token, phase := Idle)
  }

  function Next(c: Config, s: State, e: Event): State
    requires Enabled(c, s, e)
  {
    match e
    case OtherTake(name) => s.(local := s.local + [Snap(name, s.next)], next := s.next + 1)
    case OtherDestroy(name) => s.(local := Without(s.local, name))
    case Take(name) =>
      if Has(s.local, name) then s
      else s.(local := s.local + [Snap(name, s.next)], next := s.next + 1, phase := Taken(name))
    case Look(tokenSeen) => s.(phase := AfterLook(s, tokenSeen))
    case Send(delivered, interrupted, alone) =>
      AfterSend(c, s, Deliverable(s, s.phase.plan), delivered, interrupted, alone)
    case Prune(ok) =>
      var q := s.phase.queue;
      (if ok then Destroyed(s, q[0]) else s).(phase := Pruning(q[1..]))
    case Stop => s.(phase := Idle)
  }

  ghost predicate Runs(c: Config, s: State, es: seq<Event>)
    decreases |es|
  {
    es == [] || (Enabled(c, s, es[0]) && Runs(c, Next(c, s, es[0]), es[1..]))
  }

  ghost function Final(c: Config, s: State, es: seq<Event>): State
    requires Runs(c, s, es)
    decreases |es|
  {
    if es == [] then s else Final(c, Next(c, s, es[0]), es[1..])
  }

  // ---- what every run keeps ----

  /**
   * Something can be sent to the target: it is absent; or its newest snapshot is still here to send from; or what its
   * resume token stands for is still here, and so is its newest snapshot, if it has one, from which that was being
   * sent.
   */
  predicate Ready(s: State) {
    || !s.present
    || (s.token.None? && s.remote != [] && Last(s.remote) in s.local)
    || (s.token.Some? && s.token.value in s.local && (s.remote == [] || Last(s.remote) in s.local))
  }

  /** Order and names: both sides in order of creation, one snapshot to a name and to a place. */
  ghost predicate Sound(s: State) {
    && Ordered(s.local) && Ordered(s.remote)
    && (forall a :: Known(s, a) ==> a.born < s.next)
    && (forall a, b :: Known(s, a) && Known(s, b) && (a.name == b.name || a.born == b.born) ==> a == b)
    && (forall a :: a in s.remote && s.token.Some? ==> a.born < s.token.value.born)
    && (s.remote != [] || s.token.Some? ==> s.present)
  }

  /** Ready for good: what it takes to be ready is what only this replication's own prune could remove here. */
  predicate Anchored(c: Config, s: State) {
    && Ready(s)
    && (s.remote != [] ==> Kept(c, Last(s.remote).name))
    && (s.token.Some? ==> Kept(c, s.token.value.name))
  }

  /** The fresh snapshot: own, here, newer than all of the target's. */
  ghost predicate FreshHere(c: Config, s: State, latest: string) {
    && Own(latest, c.id)
    && var t := Find(s.local, latest);
    && t.Some?
    && (forall b :: b in s.remote ==> b.born < t.value.born)
    && (s.token.Some? ==> s.token.value.born < t.value.born)
  }

  ghost predicate Distinct(xs: seq<string>) { forall i, j :: 0 <= i < j < |xs| ==> xs[i] != xs[j] }

  ghost predicate PhaseSound(c: Config, s: State) {
    match s.phase
    case Idle => true
    case Taken(latest) =>
      && FreshHere(c, s, latest)
      && (forall a :: a in s.local && Kept(c, a.name) ==> a.born <= Find(s.local, latest).value.born)
    case Sending(plan, latest, listed) =>
      && FreshHere(c, s, latest)
      && (forall alone :: OwnSnapshots(listed, c.id, alone) == OwnSnapshots(Names(s.local), c.id, alone))
      && (forall alone :: MineEndsIn(OwnSnapshots(listed, c.id, alone), latest))
      && (plan.Full? || plan.Incremental? ==> plan.to == latest)
      && (plan.Resume? ==> s.token.Some? && s.token.value.name == plan.to)
      && !plan.Nothing?
    case Pruning(_) => s.present && s.token.None?
  }

  /** While the target is anchored: the plan fits it and the prune leaves its newest snapshot. */
  predicate NewestSound(s: State) {
    match s.phase
    case Idle => true
    case Taken(_) => true
    case Sending(plan, _, _) =>
      && (plan.Full? && s.token.None? ==> !s.present)
      && (plan.Incremental? && s.token.None? ==> s.remote != [] && Last(s.remote).name == plan.from)
    case Pruning(queue) => s.remote != [] && forall q :: q in queue ==> q.name != Last(s.remote).name
  }

  ghost predicate MineEndsIn(mine: seq<string>, latest: string) {
    mine != [] && mine[|mine| - 1] == latest && Distinct(mine)
  }

  /** What every step keeps, whichever sends are cut and whatever is destroyed. */
  ghost predicate Base(c: Config, s: State) { c.keep >= 1 && Sound(s) && PhaseSound(c, s) }

  /** What every step but an unsafe send keeps. */
  ghost predicate Inv(c: Config, s: State) { Base(c, s) && Anchored(c, s) && NewestSound(s) }

  // ---- order ----

  lemma {:induction false} WithoutOrdered(xs: seq<Snap>, name: string)
    requires Ordered(xs)
    ensures Ordered(Without(xs, name))
  {
    if xs != [] {
      WithoutOrdered(xs[1..], name);
      assert forall a :: a in Without(xs[1..], name) ==> a in xs[1..];
    }
  }

  lemma {:induction false} BetweenOrdered(xs: seq<Snap>, from: nat, to: nat)
    requires Ordered(xs)
    ensures Ordered(Between(xs, from, to))
  {
    if xs != [] {
      BetweenOrdered(xs[1..], from, to);
      assert forall a :: a in Between(xs[1..], from, to) ==> a in xs[1..];
    }
  }

  lemma {:induction false} WithoutKeepsLast(xs: seq<Snap>, name: string)
    requires xs != [] && Last(xs).name != name
    ensures Without(xs, name) != [] && Last(Without(xs, name)) == Last(xs)
  {
    if |xs| == 1 {
      assert Without(xs[1..], name) == [];
    } else {
      WithoutKeepsLast(xs[1..], name);
      LastOfMore(xs[0], Without(xs[1..], name));
    }
  }

  lemma LastOfMore(x: Snap, rest: seq<Snap>)
    requires rest != []
    ensures Last([x] + rest) == Last(rest)
  {}

  lemma LastOfPrefix(a: seq<Snap>, d: seq<Snap>, j: nat)
    requires 0 < j <= |d|
    ensures Last(a + d[..j]) == d[j - 1]
  {}

  /** Ordered lists join where the second starts after all of the first. */
  lemma OrderedConcat(a: seq<Snap>, b: seq<Snap>)
    requires Ordered(a) && Ordered(b)
    requires forall x, y :: x in a && y in b ==> x.born < y.born
    ensures Ordered(a + b)
  {
    forall i, j | 0 <= i < j < |a + b| ensures (a + b)[i].born < (a + b)[j].born {
      if i < |a| <= j {
        assert a[i] in a && b[j - |a|] in b;
      }
    }
  }

  // ---- lists of names ----

  lemma {:induction false} OwnConcat(a: seq<string>, b: seq<string>, id: nat, alone: bool)
    ensures OwnSnapshots(a + b, id, alone) == OwnSnapshots(a, id, alone) + OwnSnapshots(b, id, alone)
  {
    if a == [] {
      assert a + b == b;
    } else {
      assert (a + b)[1..] == a[1..] + b;
      OwnConcat(a[1..], b, id, alone);
    }
  }

  lemma OwnNone(a: seq<string>, id: nat, alone: bool)
    requires forall n :: n in a ==> !IsMine(n, id, alone)
    ensures OwnSnapshots(a, id, alone) == []
  {}

  lemma {:induction false} OwnDistinct(a: seq<string>, id: nat, alone: bool)
    requires Distinct(a)
    ensures Distinct(OwnSnapshots(a, id, alone))
  {
    if a != [] {
      OwnDistinct(a[1..], id, alone);
      assert a[0] !in a[1..];
    }
  }

  lemma OwnCons(x: Snap, rest: seq<Snap>, id: nat, alone: bool)
    ensures OwnSnapshots(Names([x] + rest), id, alone)
         == (if IsMine(x.name, id, alone) then [x.name] else []) + OwnSnapshots(Names(rest), id, alone)
  {
    assert Names([x] + rest)[1..] == Names(rest);
  }

  lemma {:induction false} OwnWithout(xs: seq<Snap>, name: string, id: nat, alone: bool)
    requires !IsMine(name, id, alone)
    ensures OwnSnapshots(Names(Without(xs, name)), id, alone) == OwnSnapshots(Names(xs), id, alone)
  {
    if xs != [] {
      OwnWithout(xs[1..], name, id, alone);
      assert xs == [xs[0]] + xs[1..];
      OwnCons(xs[0], xs[1..], id, alone);
      OwnCons(xs[0], Without(xs[1..], name), id, alone);
    }
  }

  lemma OwnAppended(xs: seq<Snap>, a: Snap, id: nat, alone: bool)
    requires !IsMine(a.name, id, alone)
    ensures OwnSnapshots(Names(xs + [a]), id, alone) == OwnSnapshots(Names(xs), id, alone)
  {
    assert Names(xs + [a]) == Names(xs) + [a.name];
    OwnConcat(Names(xs), [a.name], id, alone);
  }

  /** In an orderly list of distinct names the last own one is the newest. */
  lemma OwnEnds(xs: seq<Snap>, t: Snap, id: nat, alone: bool)
    requires Ordered(xs) && Distinct(Names(xs)) && t in xs && IsMine(t.name, id, alone)
    requires forall a :: a in xs && IsMine(a.name, id, alone) ==> a.born <= t.born
    ensures MineEndsIn(OwnSnapshots(Names(xs), id, alone), t.name)
  {
    var i :| 0 <= i < |xs| && xs[i] == t;
    var names := Names(xs);
    forall n | n in names[i + 1..] ensures !IsMine(n, id, alone) {
      var k :| i < k < |names| && names[k] == n;
      assert xs[k] in xs && xs[k].born > t.born;
    }
    OwnEndsAt(names, i, id, alone);
    OwnDistinct(names, id, alone);
  }

  lemma OwnEndsAt(names: seq<string>, i: nat, id: nat, alone: bool)
    requires i < |names| && IsMine(names[i], id, alone) && forall n :: n in names[i + 1..] ==> !IsMine(n, id, alone)
    ensures OwnSnapshots(names, id, alone) == OwnSnapshots(names[..i], id, alone) + [names[i]]
  {
    assert names == names[..i] + ([names[i]] + names[i + 1..]);
    OwnConcat(names[..i], [names[i]] + names[i + 1..], id, alone);
    OwnConcat([names[i]], names[i + 1..], id, alone);
    OwnNone(names[i + 1..], id, alone);
  }

  lemma FindIs(s: State, a: Snap)
    requires Sound(s) && a in s.local
    ensures Find(s.local, a.name) == Some(a)
  {}

  lemma SoundDistinct(s: State)
    requires Sound(s)
    ensures Distinct(Names(s.local))
  {
    forall i, j | 0 <= i < j < |s.local| ensures s.local[i].name != s.local[j].name {
      assert Known(s, s.local[i]) && Known(s, s.local[j]);
    }
  }

  // ---- what others do ----

  lemma OtherTakeKeeps(c: Config, s: State, name: string)
    requires Base(c, s) && Enabled(c, s, OtherTake(name))
    ensures Base(c, Next(c, s, OtherTake(name)))
    ensures Inv(c, s) ==> Inv(c, Next(c, s, OtherTake(name)))
  {
    LocalTaken(s, name);
    PhaseAfterTake(c, s, name);
  }

  lemma LocalTaken(s: State, name: string)
    requires Sound(s) && Fresh(s, name)
    ensures Sound(s.(local := s.local + [Snap(name, s.next)], next := s.next + 1))
  {
    var s' := s.(local := s.local + [Snap(name, s.next)], next := s.next + 1);
    assert forall b :: Known(s', b) <==> Known(s, b) || b == Snap(name, s.next);
    assert forall b :: b in s.local ==> Known(s, b);
  }

  lemma FindAppended(xs: seq<Snap>, a: Snap, name: string)
    requires a.name != name
    ensures Find(xs + [a], name) == Find(xs, name)
  {
    if xs != [] {
      assert (xs + [a])[1..] == xs[1..] + [a];
    }
  }

  lemma FindWithout(xs: seq<Snap>, other: string, name: string)
    requires other != name
    ensures Find(Without(xs, other), name) == Find(xs, name)
  {}

  lemma LatestIsKnown(c: Config, s: State)
    requires PhaseSound(c, s) && (s.phase.Taken? || s.phase.Sending?)
    ensures exists a :: Known(s, a) && a.name == s.phase.latest
  {
    assert Known(s, Find(s.local, s.phase.latest).value);
  }

  lemma PhaseAfterTake(c: Config, s: State, name: string)
    requires Base(c, s) && Enabled(c, s, OtherTake(name))
    ensures PhaseSound(c, s.(local := s.local + [Snap(name, s.next)], next := s.next + 1))
  {
    if s.phase.Taken? || s.phase.Sending? {
      LatestIsKnown(c, s);
      FreshAfterTake(c, s, Snap(name, s.next), s.phase.latest);
    }
    if s.phase.Sending? {
      ListedAfterTake(c, s.local, Snap(name, s.next));
    }
  }

  lemma FreshAfterTake(c: Config, s: State, a: Snap, latest: string)
    requires FreshHere(c, s, latest) && a.name != latest
    ensures FreshHere(c, s.(local := s.local + [a], next := s.next + 1), latest)
    ensures Find(s.local + [a], latest) == Find(s.local, latest)
  {
    FindAppended(s.local, a, latest);
  }

  lemma ListedAfterTake(c: Config, local: seq<Snap>, a: Snap)
    requires !Kept(c, a.name)
    ensures forall alone :: OwnSnapshots(Names(local + [a]), c.id, alone) == OwnSnapshots(Names(local), c.id, alone)
  {
    forall alone ensures OwnSnapshots(Names(local + [a]), c.id, alone) == OwnSnapshots(Names(local), c.id, alone) {
      OwnAppended(local, a, c.id, alone);
    }
  }

  lemma OtherDestroyKeeps(c: Config, s: State, name: string)
    requires Base(c, s) && Enabled(c, s, OtherDestroy(name))
    ensures Base(c, Next(c, s, OtherDestroy(name)))
    ensures Inv(c, s) ==> Inv(c, Next(c, s, OtherDestroy(name)))
  {
    LocalWithout(s, name);
    PhaseAfterDestroy(c, s, name);
  }

  lemma LocalWithout(s: State, name: string)
    requires Sound(s)
    ensures Sound(s.(local := Without(s.local, name)))
  {
    assert forall a :: Known(s.(local := Without(s.local, name)), a) ==> Known(s, a);
    WithoutOrdered(s.local, name);
  }

  lemma PhaseAfterDestroy(c: Config, s: State, name: string)
    requires Base(c, s) && Enabled(c, s, OtherDestroy(name))
    ensures PhaseSound(c, s.(local := Without(s.local, name)))
  {
    var left := Without(s.local, name);
    if s.phase.Taken? || s.phase.Sending? {
      FindWithout(s.local, name, s.phase.latest);
    }
    if s.phase.Sending? {
      forall alone ensures OwnSnapshots(Names(left), c.id, alone) == OwnSnapshots(Names(s.local), c.id, alone) {
        OwnWithout(s.local, name, c.id, alone);
      }
    }
  }

  // ---- a run ----

  lemma TakeKeeps(c: Config, s: State, name: string)
    requires Base(c, s) && Enabled(c, s, Take(name))
    ensures Base(c, Next(c, s, Take(name)))
    ensures Inv(c, s) ==> Inv(c, Next(c, s, Take(name)))
  {
    if Has(s.local, name) {
      assert Next(c, s, Take(name)) == s;
    } else {
      NewTakeKeeps(c, s, name);
      assert Next(c, s, Take(name))
          == s.(local := s.local + [Snap(name, s.next)], next := s.next + 1, phase := Taken(name));
    }
  }

  lemma NewTakeKeeps(c: Config, s: State, name: string)
    requires Base(c, s) && s.phase.Idle? && Own(name, c.id) && Fresh(s, name)
    ensures
      var s' := s.(local := s.local + [Snap(name, s.next)], next := s.next + 1, phase := Taken(name));
      Base(c, s') && (Inv(c, s) ==> Inv(c, s'))
  {
    var grown := s.(local := s.local + [Snap(name, s.next)], next := s.next + 1);
    LocalTaken(s, name);
    SoundIgnoresPhase(grown, Taken(name));
    TakenIsFresh(c, s, name);
  }

  lemma TakenIsFresh(c: Config, s: State, name: string)
    requires Sound(s) && Fresh(s, name) && Own(name, c.id)
    ensures
      var grown := s.(local := s.local + [Snap(name, s.next)], next := s.next + 1);
      FreshHere(c, grown, name) && forall a :: a in grown.local ==> a.born <= Find(grown.local, name).value.born
  {
    var a := Snap(name, s.next);
    var grown := s.(local := s.local + [a], next := s.next + 1);
    LocalTaken(s, name);
    assert a in grown.local;
    FindIs(grown, a);
    assert forall b :: b in s.local || b in s.remote || s.token == Some(b) ==> Known(s, b);
  }

  lemma {:induction false} NewestCommonAt(local: seq<string>, remote: seq<string>, i: nat)
    requires i < |local| && local[i] in remote
    requires forall j :: i < j < |local| ==> local[j] !in remote
    ensures NewestCommon(local, remote) == Some(local[i])
  {
    if i < |local| - 1 {
      NewestCommonAt(local[..|local| - 1], remote, i);
    }
  }

  /** The names both sides have end, in our order, with the target's newest snapshot. */
  lemma NewestOfTargetIsCommon(s: State)
    requires Sound(s) && s.remote != [] && Last(s.remote) in s.local
    ensures NewestCommon(Names(s.local), Names(s.remote)) == Some(Last(s.remote).name)
  {
    var newest := Last(s.remote);
    var i :| 0 <= i < |s.local| && s.local[i] == newest;
    assert Names(s.remote)[|s.remote| - 1] == newest.name;
    forall j | i < j < |s.local| ensures Names(s.local)[j] !in Names(s.remote) {
      NewerIsNotThere(s, i, j);
    }
    NewestCommonAt(Names(s.local), Names(s.remote), i);
  }

  lemma NewerIsNotThere(s: State, i: nat, j: nat)
    requires Sound(s) && s.remote != [] && i < j < |s.local| && s.local[i] == Last(s.remote)
    ensures Names(s.local)[j] !in Names(s.remote)
  {
    forall k | 0 <= k < |s.remote| ensures s.local[j].name != s.remote[k].name {
      assert Known(s, s.remote[k]) && Known(s, s.local[j]);
      assert s.local[j].born > s.local[i].born >= s.remote[k].born;
    }
  }

  lemma BetweenEnds(s: State, from: Snap, to: Snap)
    requires Sound(s) && to in s.local && from.born < to.born
    ensures Between(s.local, from.born, to.born) != []
    ensures Last(Between(s.local, from.born, to.born)) == to
  {
    var d := Between(s.local, from.born, to.born);
    BetweenOrdered(s.local, from.born, to.born);
    assert to in d;
    var i :| 0 <= i < |d| && d[i] == to;
    var z := Last(d);
    assert z in d && Known(s, z) && Known(s, to);
    assert to.born <= z.born <= to.born;
  }

  /** What the run is about to send, when the look went well. */
  function BestPlan(s: State, latest: string): SendPlan
    requires s.present && s.token.None? ==> s.remote != []
  {
    if s.token.Some? then Resume(s.token.value.name)
    else if !s.present then Full(latest)
    else Incremental(Last(s.remote).name, latest)
  }

  /**
   * What a run decides after a successful look: a waiting token is resumed, an absent target gets everything, and
   * otherwise the base is exactly the target's newest snapshot. It is never a refusal, never "nothing to do", there is
   * something to send, and the target takes it without being forced.
   */
  lemma PlanIsAcceptable(c: Config, s: State)
    requires Base(c, s) && Ready(s) && s.phase.Taken?
    ensures AfterLook(s, true) == Sending(BestPlan(s, s.phase.latest), s.phase.latest, Names(s.local))
    ensures Accepts(s, BestPlan(s, s.phase.latest))
    ensures Stream(s, BestPlan(s, s.phase.latest)) != []
    ensures s.token.None? ==> Last(Stream(s, BestPlan(s, s.phase.latest))).name == s.phase.latest
  {
    if s.token.None? && s.present {
      IncrementCarriesLatest(c, s, s.phase.latest);
      IncrementPlanned(c, s, s.phase.latest);
    }
  }

  lemma IncrementPlanned(c: Config, s: State, latest: string)
    requires Sound(s) && FreshHere(c, s, latest) && s.remote != [] && Last(s.remote) in s.local
    ensures
      Plan(Names(s.local), Names(s.remote), None, latest) == Planned(Incremental(Last(s.remote).name, latest))
  {
    NewestOfTargetIsCommon(s);
    FindIs(s, Last(s.remote));
    assert Last(s.remote) in s.remote;
    assert |Names(s.remote)| > 0;
  }

  lemma IncrementCarriesLatest(c: Config, s: State, latest: string)
    requires Sound(s) && FreshHere(c, s, latest) && s.remote != [] && Last(s.remote) in s.local
    ensures
      Stream(s, Incremental(Last(s.remote).name, latest))
      == Between(s.local, Last(s.remote).born, Find(s.local, latest).value.born)
    ensures Stream(s, Incremental(Last(s.remote).name, latest)) != []
    ensures Last(Stream(s, Incremental(Last(s.remote).name, latest))) == Find(s.local, latest).value
  {
    FindIs(s, Last(s.remote));
    assert Last(s.remote) in s.remote;
    BetweenEnds(s, Last(s.remote), Find(s.local, latest).value);
  }

  lemma LookKeeps(c: Config, s: State, tokenSeen: bool)
    requires Base(c, s) && Enabled(c, s, Look(tokenSeen))
    ensures Base(c, Next(c, s, Look(tokenSeen)))
    ensures Ready(s) ==> NewestSound(Next(c, s, Look(tokenSeen)))
    ensures Inv(c, s) ==> Inv(c, Next(c, s, Look(tokenSeen)))
  {
    AfterLookShape(s, tokenSeen);
    var p := AfterLook(s, tokenSeen);
    if p.Sending? {
      SendingSound(c, s, p.plan);
    }
    SoundIgnoresPhase(s, p);
    if Ready(s) && s.token.None? {
      PlanIsAcceptable(c, s);
    }
  }

  lemma SoundIgnoresPhase(s: State, p: Phase)
    requires Sound(s)
    ensures Sound(s.(phase := p))
  {
    assert forall a :: Known(s.(phase := p), a) <==> Known(s, a);
  }

  lemma SendingSound(c: Config, s: State, plan: SendPlan)
    requires Base(c, s) && s.phase.Taken? && !plan.Nothing?
    requires plan.Resume? ==> s.token.Some? && s.token.value.name == plan.to
    requires !plan.Resume? ==> plan.to == s.phase.latest
    ensures PhaseSound(c, s.(phase := Sending(plan, s.phase.latest, Names(s.local))))
  {
    ListedSound(c, s);
  }

  /** Whatever the look saw, the run sends the fresh snapshot or resumes. */
  lemma AfterLookShape(s: State, tokenSeen: bool)
    requires s.phase.Taken?
    ensures
      var p := AfterLook(s, tokenSeen);
      p.Idle? || (
        && p.Sending? && p.latest == s.phase.latest && p.listed == Names(s.local)
        && !p.plan.Nothing?
        && (p.plan.Resume? ==> s.token.Some? && s.token.value.name == p.plan.to)
        && (!p.plan.Resume? ==> p.plan.to == p.latest))
  {}

  lemma ListedSound(c: Config, s: State)
    requires Base(c, s) && s.phase.Taken?
    ensures forall alone :: MineEndsIn(OwnSnapshots(Names(s.local), c.id, alone), s.phase.latest)
  {
    SoundDistinct(s);
    var t := Find(s.local, s.phase.latest).value;
    forall alone ensures MineEndsIn(OwnSnapshots(Names(s.local), c.id, alone), s.phase.latest) {
      OwnEnds(s.local, t, c.id, alone);
    }
  }

  /** How many names follow `name`. */
  function NewerThan(mine: seq<string>, name: string): nat {
    if mine == [] then 0 else if mine[0] == name then |mine| - 1 else NewerThan(mine[1..], name)
  }

  lemma {:induction false} BeyondIffNewer(mine: seq<string>, name: string, keep: nat)
    requires Distinct(mine) && name in mine
    ensures name in Beyond(mine, keep) <==> NewerThan(mine, name) >= keep
  {
    var i :| 0 <= i < |mine| && mine[i] == name;
    NewerAt(mine, i);
  }

  lemma {:induction false} NewerAt(mine: seq<string>, i: nat)
    requires Distinct(mine) && i < |mine|
    ensures NewerThan(mine, mine[i]) == |mine| - 1 - i
  {
    if i > 0 {
      NewerAt(mine[1..], i - 1);
    }
  }

  /** Whether the prune after this send leaves `name` alone. */
  predicate Spared(c: Config, s: State, alone: bool, name: string)
    requires s.phase.Sending?
  {
    var mine := MineWith(s.phase.listed, s.phase.latest, c.id, alone);
    name in mine ==> NewerThan(mine, name) < c.keep
  }

  /**
   * The sends that leave the target anchored. One that stopped part-way: the last snapshot that arrived, if any did,
   * has one of our names, and so has the one that was interrupted, if a token was left for it. One of which all
   * arrived: a resumed one delivered a name of ours with fewer than `keep` own snapshots after it.
   */
  predicate SafeArrival(c: Config, s: State, stream: seq<Snap>, delivered: nat, interrupted: bool, alone: bool)
    requires s.phase.Sending? && delivered <= |stream|
  {
    if delivered < |stream| then
      && (delivered > 0 ==> Kept(c, stream[delivered - 1].name))
      && (interrupted ==> Kept(c, stream[delivered].name))
    else stream != [] && s.phase.plan.Resume? ==> Kept(c, stream[0].name) && Spared(c, s, alone, stream[0].name)
  }

  predicate SendSafe(c: Config, s: State, e: Event)
    requires s.phase.Sending? && e.Send? && e.delivered <= |Deliverable(s, s.phase.plan)|
  {
    SafeArrival(c, s, Deliverable(s, s.phase.plan), e.delivered, e.interrupted, e.alone)
  }

  /** What arrives continues the target in order and is here; only an increment has more than one snapshot. */
  ghost predicate StreamSound(s: State, d: seq<Snap>) {
    && (forall a :: a in d ==> a in s.local)
    && Ordered(s.remote + d)
    && (|d| > 1 ==> s.present && s.token.None?)
  }

  /** A stream that is not a resumed one ends with the fresh snapshot; a resumed one is the interrupted snapshot. */
  ghost predicate StreamEnds(s: State, d: seq<Snap>)
    requires s.phase.Sending? && d != []
  {
    && (s.phase.plan.Resume? ==> s.token.Some? && d == [s.token.value] && s.present)
    && (!s.phase.plan.Resume? ==> s.token.None? && Last(d).name == s.phase.latest)
  }

  lemma DeliverableSound(c: Config, s: State)
    requires Base(c, s) && s.phase.Sending?
    ensures StreamSound(s, Deliverable(s, s.phase.plan))
  {
    var d := Deliverable(s, s.phase.plan);
    if d != [] && s.phase.plan.Incremental? {
      IncrementSound(c, s);
    } else {
      OrderedConcat(s.remote, d);
    }
  }

  lemma IncrementSound(c: Config, s: State)
    requires Base(c, s) && s.phase.Sending? && s.phase.plan.Incremental?
    requires Deliverable(s, s.phase.plan) != []
    ensures Last(s.remote) in s.local
    ensures
      var d := Stream(s, s.phase.plan);
      (forall a :: a in d ==> a in s.local) && Ordered(s.remote + d)
  {
    assert Last(s.remote) in s.remote;
    assert Find(s.local, s.phase.plan.from).value == Last(s.remote);
    IncrementCarriesLatest(c, s, s.phase.latest);
    var newest, t := Last(s.remote), Find(s.local, s.phase.latest).value;
    BetweenOrdered(s.local, newest.born, t.born);
    BetweenFollows(s.remote, s.local, t.born);
  }

  lemma BetweenFollows(remote: seq<Snap>, local: seq<Snap>, to: nat)
    requires Ordered(remote) && remote != [] && Ordered(Between(local, Last(remote).born, to))
    ensures Ordered(remote + Between(local, Last(remote).born, to))
  {
    assert forall x :: x in remote ==> x.born <= Last(remote).born;
    OrderedConcat(remote, Between(local, Last(remote).born, to));
  }

  lemma DeliverableEnds(c: Config, s: State)
    requires Base(c, s) && s.phase.Sending? && Deliverable(s, s.phase.plan) != []
    ensures StreamEnds(s, Deliverable(s, s.phase.plan))
  {
    if s.phase.plan.Incremental? {
      IncrementSound(c, s);
      IncrementCarriesLatest(c, s, s.phase.latest);
    }
  }

  /** The fresh snapshot is never among those to go. */
  lemma LatestStays(c: Config, s: State, alone: bool)
    requires Base(c, s) && s.phase.Sending?
    ensures s.phase.latest !in OldNames(c, s.phase.listed, s.phase.latest, alone)
    ensures MineWith(s.phase.listed, s.phase.latest, c.id, alone) == OwnSnapshots(s.phase.listed, c.id, alone)
  {
    var mine := OwnSnapshots(s.phase.listed, c.id, alone);
    assert MineEndsIn(mine, s.phase.latest);
  }

  /** Any send keeps the base of the invariant, and a safe one all of it. */
  lemma SendKeeps(c: Config, s: State, e: Event)
    requires Base(c, s) && e.Send? && Enabled(c, s, e)
    ensures Base(c, Next(c, s, e))
    ensures Inv(c, s) && SendSafe(c, s, e) ==> Inv(c, Next(c, s, e))
  {
    var d := Deliverable(s, s.phase.plan);
    DeliverableSound(c, s);
    ArrivalSound(c, s, d, e);
    if Inv(c, s) && SendSafe(c, s, e) {
      if e.delivered < |d| || d == [] {
        PartArrives(c, s, d, e);
      } else {
        DeliverableEnds(c, s);
        AllArrives(c, s, d, e);
      }
    }
  }

  lemma PartArrives(c: Config, s: State, d: seq<Snap>, e: Event)
    requires Sound(s) && Anchored(c, s) && s.phase.Sending? && StreamSound(s, d) && e.Send? && e.delivered <= |d|
    requires SafeArrival(c, s, d, e.delivered, e.interrupted, e.alone) && (d == [] || e.delivered < |d|)
    ensures Anchored(c, AfterSend(c, s, d, e.delivered, e.interrupted, e.alone))
  {
    assert d != [] ==> d[e.delivered] in d;
    if e.delivered == 0 {
      assert s.remote + d[..0] == s.remote;
    } else {
      LastOfPrefix(s.remote, d, e.delivered);
      assert d[e.delivered - 1] in d;
    }
  }

  lemma AllArrives(c: Config, s: State, d: seq<Snap>, e: Event)
    requires Base(c, s) && s.phase.Sending? && StreamSound(s, d) && e.Send? && d != [] && e.delivered == |d|
    requires StreamEnds(s, d) && SafeArrival(c, s, d, e.delivered, e.interrupted, e.alone)
    ensures Anchored(c, AfterSend(c, s, d, e.delivered, e.interrupted, e.alone))
    ensures NewestSound(AfterSend(c, s, d, e.delivered, e.interrupted, e.alone))
  {
    LatestStays(c, s, e.alone);
    if s.phase.plan.Resume? {
      SparedIsNotOld(c, s, e.alone, d[0].name);
    }
    EndsAnchored(c, s, d, e);
  }

  lemma EndsAnchored(c: Config, s: State, d: seq<Snap>, e: Event)
    requires s.phase.Sending? && StreamSound(s, d) && e.Send? && d != [] && e.delivered == |d|
    requires Kept(c, Last(d).name) && Last(d).name !in OldNames(c, s.phase.listed, s.phase.latest, e.alone)
    ensures Anchored(c, AfterSend(c, s, d, e.delivered, e.interrupted, e.alone))
    ensures NewestSound(AfterSend(c, s, d, e.delivered, e.interrupted, e.alone))
  {
    LastOfPrefix(s.remote, d, |d|);
    assert Last(d) in d;
  }

  lemma SparedIsNotOld(c: Config, s: State, alone: bool, name: string)
    requires Base(c, s) && s.phase.Sending? && Spared(c, s, alone, name)
    ensures name !in OldNames(c, s.phase.listed, s.phase.latest, alone)
  {
    LatestStays(c, s, alone);
    var mine := MineWith(s.phase.listed, s.phase.latest, c.id, alone);
    assert MineEndsIn(mine, s.phase.latest);
    if name in mine {
      BeyondIffNewer(mine, name, c.keep);
    }
  }

  /** Order and names survive every send, safe or not. */
  lemma ArrivalSound(c: Config, s: State, d: seq<Snap>, e: Event)
    requires Sound(s) && s.phase.Sending? && StreamSound(s, d) && e.Send? && e.delivered <= |d|
    ensures Sound(AfterSend(c, s, d, e.delivered, e.interrupted, e.alone))
  {
    var s' := AfterSend(c, s, d, e.delivered, e.interrupted, e.alone);
    var j := e.delivered;
    OrderedPrefix(s.remote, d, j);
    assert forall a :: a in d[..j] ==> a in d;
    assert d != [] && j < |d| ==> d[j] in d;
    assert forall a :: Known(s', a) ==> Known(s, a);
  }

  lemma OrderedPrefix(a: seq<Snap>, d: seq<Snap>, j: nat)
    requires Ordered(a + d) && j <= |d|
    ensures Ordered(a + d[..j])
    ensures j < |d| ==> forall x :: x in a + d[..j] ==> x.born < d[j].born
  {
    var all, cut := a + d, a + d[..j];
    assert forall i :: 0 <= i < |cut| ==> cut[i] == all[i];
    assert j < |d| ==> all[|a| + j] == d[j];
  }

  lemma PruneKeeps(c: Config, s: State, ok: bool)
    requires Base(c, s) && Enabled(c, s, Prune(ok))
    ensures Base(c, Next(c, s, Prune(ok)))
    ensures Inv(c, s) ==> Inv(c, Next(c, s, Prune(ok)))
  {
    var q := s.phase.queue[0];
    var s' := Next(c, s, Prune(ok));
    assert forall a :: Known(s', a) ==> Known(s, a);
    WithoutOrdered(s.local, q.name);
    WithoutOrdered(s.remote, q.name);
    if Inv(c, s) {
      WithoutKeepsLast(s.remote, q.name);
    }
  }
}
