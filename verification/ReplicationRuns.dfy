/**
 * Whole runs of the replication machine: what no interleaving breaks, exactly which sends keep it so, and what the
 * prune after a send leaves.
 */
module ReplicationRuns {
  import opened Text
  import opened ReplicationNames
  import opened Replication

  // ---- whole runs ----

  /** Every send of the run is a safe one. */
  ghost predicate SendsSafe(c: Config, s: State, es: seq<Event>)
    requires Runs(c, s, es)
    decreases |es|
  {
    es == [] || ((es[0].Send? ==> SendSafe(c, s, es[0])) && SendsSafe(c, Next(c, s, es[0]), es[1..]))
  }

  lemma StepKeeps(c: Config, s: State, e: Event)
    requires Base(c, s) && Enabled(c, s, e)
    ensures Base(c, Next(c, s, e))
    ensures Inv(c, s) && (e.Send? ==> SendSafe(c, s, e)) ==> Inv(c, Next(c, s, e))
  {
    match e
    case OtherTake(name) => OtherTakeKeeps(c, s, name);
    case OtherDestroy(name) => OtherDestroyKeeps(c, s, name);
    case Take(name) => TakeKeeps(c, s, name);
    case Look(tokenSeen) => LookKeeps(c, s, tokenSeen);
    case Send(_, _, _) => SendKeeps(c, s, e);
    case Prune(ok) => PruneKeeps(c, s, ok);
    case Stop => SoundIgnoresPhase(s, Idle);
  }

  /**
   * Whatever others take and destroy, wherever runs stop, whichever sends and destroys fail: while the sends are safe
   * ones, the target is always absent, or ends in a snapshot that is still here, or waits for a send that can be
   * resumed.
   */
  lemma {:induction false} RunStaysReady(c: Config, s: State, es: seq<Event>)
    requires Inv(c, s) && Runs(c, s, es) && SendsSafe(c, s, es)
    ensures Inv(c, Final(c, s, es)) && Ready(Final(c, s, es))
    decreases |es|
  {
    if es != [] {
      StepKeeps(c, s, es[0]);
      RunStaysReady(c, Next(c, s, es[0]), es[1..]);
    }
  }

  /** Any run at all, its sends safe or not, keeps order, names and what the phases rely on. */
  lemma {:induction false} RunBase(c: Config, s: State, es: seq<Event>)
    requires Base(c, s) && Runs(c, s, es)
    ensures Base(c, Final(c, s, es))
    decreases |es|
  {
    if es != [] {
      StepKeeps(c, s, es[0]);
      RunBase(c, Next(c, s, es[0]), es[1..]);
    }
  }

  /** A send of which everything arrives. */
  predicate Whole(s: State, e: Event) {
    && s.phase.Sending? && e.Send?
    && Deliverable(s, s.phase.plan) != [] && e.delivered == |Deliverable(s, s.phase.plan)|
  }

  /**
   * Whatever an unsafe send left behind, a send of which everything arrives makes the invariant hold again exactly when
   * it is a safe one, as every full or incremental one is.
   */
  lemma RecoversExactly(c: Config, s: State, e: Event)
    requires Base(c, s) && Whole(s, e)
    ensures Enabled(c, s, e) && (Inv(c, Next(c, s, e)) <==> SendSafe(c, s, e))
    ensures !s.phase.plan.Resume? ==> SendSafe(c, s, e)
  {
    var d := Deliverable(s, s.phase.plan);
    DeliverableSound(c, s);
    DeliverableEnds(c, s);
    SendKeeps(c, s, e);
    if SendSafe(c, s, e) {
      AllArrives(c, s, d, e);
    } else {
      var x := UnsafeSendEnds(c, s, e);
      UnsafeIsNotInv(c, Next(c, s, e), x);
    }
  }

  lemma UnsafeIsNotInv(c: Config, s: State, x: Snap)
    requires Leans(s, x)
    requires
      Kept(c, x.name) ==> s.phase.Pruning? && s.remote != [] && Last(s.remote) == x && Here(x.name) in s.phase.queue
    ensures !Inv(c, s)
  {
    if Kept(c, x.name) {
      assert Here(x.name).name == x.name;
    }
  }

  /**
   * However a history began: after one safe send of which everything arrived, as every full or incremental one is, and
   * while the sends after it are safe, the target is absent, or ends in a snapshot that is here, or can be resumed.
   */
  lemma ReadySince(c: Config, s: State, before: seq<Event>, e: Event, later: seq<Event>)
    requires Base(c, s) && Runs(c, s, before)
    requires Whole(Final(c, s, before), e) && SendSafe(c, Final(c, s, before), e)
    requires Runs(c, Next(c, Final(c, s, before), e), later) && SendsSafe(c, Next(c, Final(c, s, before), e), later)
    ensures Ready(Final(c, Next(c, Final(c, s, before), e), later))
  {
    RunBase(c, s, before);
    RecoversExactly(c, Final(c, s, before), e);
    RunStaysReady(c, Next(c, Final(c, s, before), e), later);
  }

  /** The target refuses what a run sends exactly when the look missed a waiting token. */
  lemma RefusedIffTokenMissed(c: Config, s: State)
    requires Base(c, s) && NewestSound(s) && s.phase.Sending?
    ensures Accepts(s, s.phase.plan) <==> (s.token.Some? ==> s.phase.plan.Resume?)
  {}

  predicate NoSends(es: seq<Event>) { forall e :: e in es ==> !e.Send? }

  lemma {:induction false} NoSendsSafe(c: Config, s: State, es: seq<Event>)
    requires Runs(c, s, es) && NoSends(es)
    ensures SendsSafe(c, s, es)
    decreases |es|
  {
    if es != [] {
      assert es[0] in es;
      NoSendsSafe(c, Next(c, s, es[0]), es[1..]);
    }
  }

  // ---- the prune loop ----

  /** The sides after the queue was worked through, each destroy succeeding or failing as `oks` says. */
  function Pruned(s: State, queue: seq<Destroy>, oks: seq<bool>): State
    requires |oks| == |queue|
    decreases |queue|
  {
    if queue == [] then s else Pruned(if oks[0] then Destroyed(s, queue[0]) else s, queue[1..], oks[1..])
  }

  function PruneEvents(oks: seq<bool>): (es: seq<Event>)
    ensures |es| == |oks| && forall i :: 0 <= i < |oks| ==> es[i] == Prune(oks[i])
  {
    seq(|oks|, i requires 0 <= i < |oks| => Prune(oks[i]))
  }

  /** The events of the prune loop are the loop. */
  lemma {:induction false} PruneLoop(c: Config, s: State, queue: seq<Destroy>, oks: seq<bool>)
    requires |oks| == |queue| && s.phase == Pruning(queue)
    ensures Runs(c, s, PruneEvents(oks))
    ensures Final(c, s, PruneEvents(oks)) == Pruned(s, queue, oks).(phase := Pruning([]))
    decreases |queue|
  {
    var es := PruneEvents(oks);
    if queue != [] {
      var s' := Next(c, s, es[0]);
      assert es[1..] == PruneEvents(oks[1..]);
      PruneLoop(c, s', queue[1..], oks[1..]);
      PrunedIgnoresPhase(if oks[0] then Destroyed(s, queue[0]) else s, queue[1..], oks[1..], s'.phase);
    }
  }

  lemma {:induction false} PrunedIgnoresPhase(s: State, queue: seq<Destroy>, oks: seq<bool>, p: Phase)
    requires |oks| == |queue|
    ensures Pruned(s.(phase := p), queue, oks) == Pruned(s, queue, oks).(phase := p)
    decreases |queue|
  {
    if queue != [] {
      PrunedIgnoresPhase(if oks[0] then Destroyed(s, queue[0]) else s, queue[1..], oks[1..], p);
      assert (if oks[0] then Destroyed(s.(phase := p), queue[0]) else s.(phase := p))
          == (if oks[0] then Destroyed(s, queue[0]) else s).(phase := p);
    }
  }

  /** Exactly what is left on each side. */
  lemma {:induction false} PrunedKeeps(s: State, queue: seq<Destroy>, oks: seq<bool>)
    requires |oks| == |queue|
    ensures
      var t := Pruned(s, queue, oks);
      && t.present == s.present && t.token == s.token && t.next == s.next && t.phase == s.phase
      && (forall a ::
            a in t.local <==> a in s.local && forall i :: 0 <= i < |queue| && oks[i] ==> queue[i] != Here(a.name))
      && (forall a ::
            a in t.remote <==> a in s.remote && forall i :: 0 <= i < |queue| && oks[i] ==> queue[i] != There(a.name))
    decreases |queue|
  {
    if queue != [] {
      var s1 := if oks[0] then Destroyed(s, queue[0]) else s;
      PrunedKeeps(s1, queue[1..], oks[1..]);
      assert forall i :: 0 < i < |queue| ==> queue[i] == queue[1..][i - 1] && oks[i] == oks[1..][i - 1];
      assert forall i :: 0 <= i < |queue| - 1 ==> queue[1..][i] == queue[i + 1] && oks[1..][i] == oks[i + 1];
    }
  }

  /** With every destroy succeeding, what goes is the old names, on both sides. */
  lemma PrunedAll(s: State, olds: seq<string>, oks: seq<bool>)
    requires |oks| == |Queue(olds)| && forall i :: 0 <= i < |oks| ==> oks[i]
    ensures
      var t := Pruned(s, Queue(olds), oks);
      && (forall a :: a in t.local <==> a in s.local && a.name !in olds)
      && (forall a :: a in t.remote <==> a in s.remote && a.name !in olds)
  {
    var queue := Queue(olds);
    PrunedKeeps(s, queue, oks);
    QueueHasBoth(olds);
    assert forall d :: d in queue <==> exists i :: 0 <= i < |queue| && oks[i] && queue[i] == d;
  }

  lemma QueueHasBoth(olds: seq<string>)
    ensures forall n :: n in olds ==> Here(n) in Queue(olds) && There(n) in Queue(olds)
  {}

  /** A prune takes only this replication's older names, whatever fails and whatever the listing held. */
  lemma PruneTakesOnlyOlderOwn(c: Config, listed: seq<string>, latest: string, alone: bool, name: string)
    requires c.keep >= 1 && MineEndsIn(MineWith(listed, latest, c.id, alone), latest)
    requires name in OldNames(c, listed, latest, alone)
    ensures IsMine(name, c.id, alone) && name != latest
    ensures forall other :: other != c.id ==> !Own(name, other)
    ensures NewerThan(MineWith(listed, latest, c.id, alone), name) >= c.keep
  {
    BeyondIffNewer(MineWith(listed, latest, c.id, alone), name, c.keep);
    forall other | other != c.id ensures !Own(name, other) {
      if Own(name, other) {
        LegacyIsNobodys(name, other);
        OneOwner(name, other, c.id);
      }
    }
  }

  // ---- exactly which sends are safe ----

  lemma {:induction false} RunsFinalOne(c: Config, s: State, e: Event)
    requires Enabled(c, s, e)
    ensures Runs(c, s, [e]) && Final(c, s, [e]) == Next(c, s, e)
  {
    assert [e][1..] == [];
  }

  /** The loop when only `x`'s destroy on this side succeeds. */
  function OnlyHere(queue: seq<Destroy>, name: string): (oks: seq<bool>)
    ensures |oks| == |queue| && forall i :: 0 <= i < |queue| ==> oks[i] == (queue[i] == Here(name))
  {
    seq(|queue|, i requires 0 <= i < |queue| => queue[i] == Here(name))
  }

  lemma {:induction false} OnlyHereKeepsRemote(s: State, queue: seq<Destroy>, name: string)
    ensures Pruned(s, queue, OnlyHere(queue, name)).remote == s.remote
    decreases |queue|
  {
    if queue != [] {
      var oks := OnlyHere(queue, name);
      assert oks[1..] == OnlyHere(queue[1..], name);
      OnlyHereKeepsRemote(if oks[0] then Destroyed(s, queue[0]) else s, queue[1..], name);
    }
  }

  /** The snapshot an unsafe send makes the target depend on: its newest, or the one its token stands for. */
  predicate Leans(s: State, x: Snap) { s.present && ((s.remote != [] && Last(s.remote) == x) || s.token == Some(x)) }

  lemma UnsafeSendEnds(c: Config, s: State, e: Event) returns (x: Snap)
    requires Base(c, s) && e.Send? && Enabled(c, s, e) && !SendSafe(c, s, e)
    ensures
      var s1 := Next(c, s, e);
      && Leans(s1, x)
      && (Kept(c, x.name) ==>
        s1.phase.Pruning? && s1.remote != [] && Last(s1.remote) == x && Here(x.name) in s1.phase.queue)
  {
    var d := Deliverable(s, s.phase.plan);
    DeliverableSound(c, s);
    if e.delivered == |d| {
      DeliverableEnds(c, s);
      x := d[0];
      if Kept(c, x.name) {
        UnsparedIsQueued(c, s, e.alone, x.name);
      }
      LastOfPrefix(s.remote, d, |d|);
    } else {
      x := UnsafePartEnds(c, s, d, e);
    }
  }

  lemma UnsafePartEnds(c: Config, s: State, d: seq<Snap>, e: Event) returns (x: Snap)
    requires
      s.phase.Sending? && e.Send? && e.delivered < |d| && !SafeArrival(c, s, d, e.delivered, e.interrupted, e.alone)
    requires |d| > 1 ==> s.present
    ensures Leans(AfterSend(c, s, d, e.delivered, e.interrupted, e.alone), x) && !Kept(c, x.name)
  {
    if e.delivered > 0 && !Kept(c, d[e.delivered - 1].name) {
      x := d[e.delivered - 1];
      LastOfPrefix(s.remote, d, e.delivered);
    } else {
      x := d[e.delivered];
    }
  }

  lemma UnsparedIsQueued(c: Config, s: State, alone: bool, name: string)
    requires Base(c, s) && s.phase.Sending? && !Spared(c, s, alone, name)
    ensures Here(name) in Queue(OldNames(c, s.phase.listed, s.phase.latest, alone))
  {
    LatestStays(c, s, alone);
    var mine := MineWith(s.phase.listed, s.phase.latest, c.id, alone);
    assert MineEndsIn(mine, s.phase.latest);
    BeyondIffNewer(mine, name, c.keep);
    QueueHasBoth(Beyond(mine, c.keep));
  }

  lemma LeanedGone(s: State, x: Snap)
    requires Leans(s, x) && x !in s.local
    ensures !Ready(s)
  {
  }

  /** After an unsafe send, destroys alone can leave a target nothing can be sent to. */
  lemma UnsafeSendLosesBase(c: Config, s: State, e: Event) returns (es: seq<Event>)
    requires Base(c, s) && e.Send? && Enabled(c, s, e) && !SendSafe(c, s, e)
    ensures NoSends(es) && Runs(c, Next(c, s, e), es) && !Ready(Final(c, Next(c, s, e), es))
  {
    var x := UnsafeSendEnds(c, s, e);
    var s1 := Next(c, s, e);
    if !Kept(c, x.name) {
      es := [OtherDestroy(x.name)];
      RunsFinalOne(c, s1, es[0]);
    } else {
      var queue := s1.phase.queue;
      var oks := OnlyHere(queue, x.name);
      es := PruneEvents(oks);
      PruneLoop(c, s1, queue, oks);
      PrunedKeeps(s1, queue, oks);
      OnlyHereKeepsRemote(s1, queue, x.name);
    }
    LeanedGone(Final(c, s1, es), x);
  }

  /**
   * Under the invariant, or when everything arrives: a send is safe exactly when nothing that may follow without
   * another send, destroys of either kind and in any order, can take from this side what the next send needs.
   */
  lemma SendSafeExactly(c: Config, s: State, e: Event)
    requires Base(c, s) && e.Send? && Enabled(c, s, e) && (Inv(c, s) || Whole(s, e))
    ensures SendSafe(c, s, e) <==>
            forall es :: NoSends(es) && Runs(c, Next(c, s, e), es) ==> Ready(Final(c, Next(c, s, e), es))
  {
    var s1 := Next(c, s, e);
    if SendSafe(c, s, e) {
      if Inv(c, s) {
        SendKeeps(c, s, e);
      } else {
        RecoversExactly(c, s, e);
      }
      forall es | NoSends(es) && Runs(c, s1, es) ensures Ready(Final(c, s1, es)) {
        NoSendsSafe(c, s1, es);
        RunStaysReady(c, s1, es);
      }
    } else {
      var es := UnsafeSendLosesBase(c, s, e);
    }
  }

  /**
   * A target that is not ready, with no prune under way, takes nothing ever again: it and its token stay as they are.
   */
  lemma {:induction false} NotReadyForever(c: Config, s: State, es: seq<Event>)
    requires Stuck(s) && Runs(c, s, es)
    ensures Final(c, s, es).remote == s.remote && Final(c, s, es).token == s.token && !Ready(Final(c, s, es))
    decreases |es|
  {
    if es != [] {
      NotReadyStep(c, s, es[0]);
      NotReadyForever(c, Next(c, s, es[0]), es[1..]);
    }
  }

  ghost predicate Stuck(s: State) { Sound(s) && !Ready(s) && !s.phase.Pruning? }

  lemma NotReadyStep(c: Config, s: State, e: Event)
    requires Stuck(s) && Enabled(c, s, e)
    ensures Stuck(Next(c, s, e)) && Next(c, s, e).remote == s.remote && Next(c, s, e).token == s.token
  {
    match e
    case OtherTake(name) => NotReadyTake(s, name);
    case OtherDestroy(name) => NotReadyDestroy(s, name);
    case Take(name) => if !Has(s.local, name) { NotReadyOwnTake(c, s, name); }
    case Look(tokenSeen) => NotReadyPhase(s, AfterLook(s, tokenSeen));
    case Send(_, _, _) => NotReadySend(c, s, e);
    case Prune(_) => assert false;
    case Stop => NotReadyPhase(s, Idle);
  }

  lemma NotReadyPhase(s: State, p: Phase)
    requires Stuck(s) && !p.Pruning?
    ensures Stuck(s.(phase := p))
  {
    SoundIgnoresPhase(s, p);
  }

  lemma NotReadyOwnTake(c: Config, s: State, name: string)
    requires Stuck(s) && Enabled(c, s, Take(name)) && !Has(s.local, name)
    ensures Stuck(Next(c, s, Take(name)))
  {
    NotReadyTake(s, name);
    NotReadyPhase(s.(local := s.local + [Snap(name, s.next)], next := s.next + 1), Taken(name));
  }

  lemma NotReadySend(c: Config, s: State, e: Event)
    requires Stuck(s) && e.Send? && Enabled(c, s, e)
    ensures Next(c, s, e) == s.(phase := Idle) && Sound(s.(phase := Idle))
  {
    NothingDeliverable(s);
    SoundIgnoresPhase(s, Idle);
    assert s.remote + [] == s.remote;
  }

  lemma NotReadyTake(s: State, name: string)
    requires Stuck(s) && Fresh(s, name)
    ensures Stuck(s.(local := s.local + [Snap(name, s.next)], next := s.next + 1))
  {
    LocalTaken(s, name);
    assert forall b :: b in s.remote ==> Known(s, b);
  }

  lemma NotReadyDestroy(s: State, name: string)
    requires Stuck(s)
    ensures Stuck(s.(local := Without(s.local, name)))
  {
    LocalWithout(s, name);
  }

  lemma NothingDeliverable(s: State)
    requires Stuck(s) && s.phase.Sending?
    ensures Deliverable(s, s.phase.plan) == []
  {
    if s.phase.plan.Incremental? && s.remote != [] {
      var f := Find(s.local, Last(s.remote).name);
      assert Last(s.remote) in s.remote;
      assert f.Some? ==> Known(s, f.value) && Known(s, Last(s.remote));
    }
  }

  /** To be ready is exactly what it takes: a run that looks well has something to send that the target takes. */
  lemma ReadyIffSomethingArrives(c: Config, s: State)
    requires Base(c, s) && s.phase.Taken?
    ensures
      var p := AfterLook(s, true);
      Ready(s) <==> p.Sending? && Deliverable(s, p.plan) != []
  {
    var p := AfterLook(s, true);
    if Ready(s) {
      PlanIsAcceptable(c, s);
    } else if p.Sending? {
      NotReadyPhase(s, p);
      NothingDeliverable(s.(phase := p));
    }
  }

  // ---- what a finished run leaves ----

  /** An own name listed earlier has at least as many own names after it. */
  lemma {:induction false} NewerByPlace(names: seq<string>, p: nat, q: nat, id: nat, alone: bool)
    requires Distinct(names) && p <= q < |names| && IsMine(names[p], id, alone) && IsMine(names[q], id, alone)
    ensures NewerThan(OwnSnapshots(names, id, alone), names[p]) >= NewerThan(OwnSnapshots(names, id, alone), names[q])
  {
    if p == 0 {
      NewerBound(OwnSnapshots(names, id, alone), names[q]);
    } else {
      NewerByPlace(names[1..], p - 1, q - 1, id, alone);
      assert names[0] != names[p] && names[0] != names[q];
    }
  }

  /** Among own names in order of creation, an older snapshot has at least as many after it. */
  lemma NewerFollowsBirth(xs: seq<Snap>, a: Snap, b: Snap, id: nat, alone: bool)
    requires Ordered(xs) && Distinct(Names(xs)) && a in xs && b in xs && a.born <= b.born
    requires IsMine(a.name, id, alone) && IsMine(b.name, id, alone)
    ensures
      NewerThan(OwnSnapshots(Names(xs), id, alone), a.name) >= NewerThan(OwnSnapshots(Names(xs), id, alone), b.name)
  {
    var p :| 0 <= p < |xs| && xs[p] == a;
    var q :| 0 <= q < |xs| && xs[q] == b;
    assert p <= q;
    NewerByPlace(Names(xs), p, q, id, alone);
  }

  lemma NewerBound(mine: seq<string>, name: string)
    ensures mine != [] ==> NewerThan(mine, name) <= |mine| - 1
  {}

  /** A send of which everything arrived, in any history, unsafe sends and all. */
  ghost predicate Arrived(c: Config, s: State, e: Event) { Base(c, s) && Whole(s, e) }

  /** How each destroy of the prune after this send ends. */
  ghost predicate Answers(c: Config, s: State, e: Event, oks: seq<bool>)
    requires Arrived(c, s, e)
  {
    |oks| == |Queue(OldNames(c, s.phase.listed, s.phase.latest, e.alone))|
  }

  /** The two sides when the run is over. */
  ghost function AfterRun(c: Config, s: State, e: Event, oks: seq<bool>): State
    requires Arrived(c, s, e) && Answers(c, s, e, oks)
  {
    Pruned(Next(c, s, e), Next(c, s, e).phase.queue, oks)
  }

  lemma ArrivedIs(c: Config, s: State, e: Event)
    requires Arrived(c, s, e)
    ensures
      var mine := OwnSnapshots(Names(s.local), c.id, e.alone);
      && Next(c, s, e) == s.(remote := s.remote + Deliverable(s, s.phase.plan), present := true, token := None,
                             phase := Pruning(Queue(Beyond(mine, c.keep))))
      && MineEndsIn(mine, s.phase.latest)
      && OldNames(c, s.phase.listed, s.phase.latest, e.alone) == Beyond(mine, c.keep)
  {
    var d := Deliverable(s, s.phase.plan);
    ListedIs(c, s, e.alone);
    WholeSend(c, s, d, e);
    assert Next(c, s, e) == AfterSend(c, s, d, e.delivered, e.interrupted, e.alone);
  }

  /** What is old by the listing is old by what is here. */
  lemma ListedIs(c: Config, s: State, alone: bool)
    requires Base(c, s) && s.phase.Sending?
    ensures MineEndsIn(OwnSnapshots(Names(s.local), c.id, alone), s.phase.latest)
    ensures
      OldNames(c, s.phase.listed, s.phase.latest, alone) == Beyond(OwnSnapshots(Names(s.local), c.id, alone), c.keep)
  {
    LatestStays(c, s, alone);
    assert MineEndsIn(OwnSnapshots(s.phase.listed, c.id, alone), s.phase.latest);
  }

  lemma WholeSend(c: Config, s: State, d: seq<Snap>, e: Event)
    requires s.phase.Sending? && e.Send? && d != [] && e.delivered == |d|
    ensures
      AfterSend(c, s, d, e.delivered, e.interrupted, e.alone)
      == s.(remote := s.remote + d, present := true, token := None,
            phase := Pruning(Queue(OldNames(c, s.phase.listed, s.phase.latest, e.alone))))
  {
    assert d[..|d|] == d;
  }

  predicate AllTrue(oks: seq<bool>) { forall i :: 0 <= i < |oks| ==> oks[i] }

  /** Both sides hold a snapshot this replication can send from and would prune by itself. */
  ghost predicate SharesOwn(c: Config, s: State, alone: bool) {
    exists a :: a in s.local && a in s.remote && IsMine(a.name, c.id, alone)
  }

  /**
   * Both sides share an own snapshot after a fully successful prune exactly when they shared one before it with fewer
   * than `keep` own names after it.
   */
  lemma SharedExactly(c: Config, s: State, e: Event, oks: seq<bool>)
    requires Arrived(c, s, e) && Answers(c, s, e, oks) && AllTrue(oks)
    ensures SharesOwn(c, AfterRun(c, s, e, oks), e.alone)
       <==> exists a :: a in s.local && a in s.remote + Deliverable(s, s.phase.plan) && IsMine(a.name, c.id, e.alone)
              && NewerThan(OwnSnapshots(Names(s.local), c.id, e.alone), a.name) < c.keep
  {
    ArrivedIs(c, s, e);
    SoundDistinct(s);
    SharedAfterPrune(c, Next(c, s, e), e.alone, oks);
  }

  lemma SharedAfterPrune(c: Config, s: State, alone: bool, oks: seq<bool>)
    requires Distinct(Names(s.local)) && AllTrue(oks)
    requires |oks| == |Queue(Beyond(OwnSnapshots(Names(s.local), c.id, alone), c.keep))|
    ensures
      var mine := OwnSnapshots(Names(s.local), c.id, alone);
      SharesOwn(c, Pruned(s, Queue(Beyond(mine, c.keep)), oks), alone)
      <==> exists a :: a in s.local && a in s.remote && IsMine(a.name, c.id, alone) && NewerThan(mine, a.name) < c.keep
  {
    var mine := OwnSnapshots(Names(s.local), c.id, alone);
    PrunedAll(s, Beyond(mine, c.keep), oks);
    OwnDistinct(Names(s.local), c.id, alone);
    forall a | a in s.local && IsMine(a.name, c.id, alone)
      ensures a.name in Beyond(mine, c.keep) <==> NewerThan(mine, a.name) >= c.keep
    {
      MineHas(s.local, a, c.id, alone);
      BeyondIffNewer(mine, a.name, c.keep);
    }
  }

  /**
   * A resumed send delivers the interrupted snapshot, yet the prune counts the fresh one: an own snapshot stays on both
   * sides through a fully successful prune exactly when fewer than `keep` own snapshots are newer than the resumed one.
   */
  lemma ResumedBaseSurvivesExactly(c: Config, s: State, e: Event, oks: seq<bool>)
    requires Arrived(c, s, e) && s.phase.plan.Resume? && IsMine(s.token.value.name, c.id, e.alone)
    requires Answers(c, s, e, oks) && AllTrue(oks)
    ensures SharesOwn(c, AfterRun(c, s, e, oks), e.alone)
       <==> NewerThan(OwnSnapshots(Names(s.local), c.id, e.alone), s.token.value.name) < c.keep
  {
    ResumedIs(c, s, e);
    SharedExactly(c, s, e, oks);
    SoundDistinct(s);
    OthersHaveMore(s.local, s.remote, s.token.value, c.id, e.alone);
  }

  /** What arrives last has the fewest own names after it. */
  lemma OthersHaveMore(local: seq<Snap>, remote: seq<Snap>, r: Snap, id: nat, alone: bool)
    requires Ordered(local) && Distinct(Names(local)) && Ordered(remote + [r])
    requires r in local && IsMine(r.name, id, alone)
    ensures
      var mine := OwnSnapshots(Names(local), id, alone);
      forall a :: a in local && a in remote + [r] && IsMine(a.name, id, alone) ==>
        NewerThan(mine, a.name) >= NewerThan(mine, r.name)
  {
    LastIsNewest(remote, r);
    forall a | a in local && a in remote + [r] && IsMine(a.name, id, alone)
      ensures NewerThan(OwnSnapshots(Names(local), id, alone), a.name)
           >= NewerThan(OwnSnapshots(Names(local), id, alone), r.name)
    {
      NewerFollowsBirth(local, a, r, id, alone);
    }
  }

  lemma ResumedIs(c: Config, s: State, e: Event)
    requires Arrived(c, s, e) && s.phase.plan.Resume?
    ensures s.token.Some? && s.token.value in s.local && Deliverable(s, s.phase.plan) == [s.token.value]
    ensures Ordered(s.remote + [s.token.value])
  {
    DeliverableEnds(c, s);
    DeliverableSound(c, s);
    assert [s.token.value][0] == s.token.value;
  }

  lemma LastIsNewest(remote: seq<Snap>, r: Snap)
    requires Ordered(remote + [r])
    ensures forall a :: a in remote + [r] ==> a.born <= r.born
  {
    var all := remote + [r];
    assert all[|remote|] == r;
  }

  lemma MineHas(xs: seq<Snap>, a: Snap, id: nat, alone: bool)
    requires a in xs && IsMine(a.name, id, alone)
    ensures a.name in OwnSnapshots(Names(xs), id, alone)
  {
    var i :| 0 <= i < |xs| && xs[i] == a;
    assert Names(xs)[i] == a.name;
  }

  /** A full or incremental run ends with the fresh snapshot on both sides, whichever destroys then fail. */
  lemma SentRunSharesLatest(c: Config, s: State, e: Event, oks: seq<bool>)
    requires Arrived(c, s, e) && !s.phase.plan.Resume? && Answers(c, s, e, oks)
    ensures Has(AfterRun(c, s, e, oks).local, s.phase.latest) && Has(AfterRun(c, s, e, oks).remote, s.phase.latest)
  {
    ArrivedIs(c, s, e);
    DeliverableEnds(c, s);
    DeliverableSound(c, s);
    LatestStays(c, s, e.alone);
    var s1 := Next(c, s, e);
    var t := Last(Deliverable(s, s.phase.plan));
    assert t in Deliverable(s, s.phase.plan) && t in s1.remote;
    PrunedSpares(s1, s1.phase.queue, oks, t);
  }

  lemma {:induction false} PrunedSpares(s: State, queue: seq<Destroy>, oks: seq<bool>, a: Snap)
    requires |oks| == |queue| && a in s.local && a in s.remote
    requires forall q :: q in queue ==> q.name != a.name
    ensures a in Pruned(s, queue, oks).local && a in Pruned(s, queue, oks).remote
    decreases |queue|
  {
    if queue != [] {
      PrunedSpares(if oks[0] then Destroyed(s, queue[0]) else s, queue[1..], oks[1..], a);
    }
  }

  lemma {:induction false} WithoutAbsent(xs: seq<Snap>, name: string)
    requires forall a :: a in xs ==> a.name != name
    ensures Without(xs, name) == xs
  {
    if xs != [] {
      WithoutAbsent(xs[1..], name);
    }
  }

  lemma {:induction false} WithoutDistinct(xs: seq<Snap>, name: string)
    requires Distinct(Names(xs))
    ensures Distinct(Names(Without(xs, name)))
  {
    if xs != [] {
      var rest := Without(xs[1..], name);
      NamesFirst(xs[0], xs[1..]);
      NamesFirst(xs[0], rest);
      DistinctFirst(xs[0].name, Names(xs[1..]));
      WithoutDistinct(xs[1..], name);
      WithoutNames(xs[1..], name);
      DistinctFirst(xs[0].name, Names(rest));
    }
  }

  lemma NamesFirst(x: Snap, rest: seq<Snap>)
    ensures Names([x] + rest) == [x.name] + Names(rest)
  {
  }

  lemma DistinctFirst(x: string, rest: seq<string>)
    ensures Distinct([x] + rest) <==> x !in rest && Distinct(rest)
  {
    var all := [x] + rest;
    if Distinct(all) {
      forall i | 0 <= i < |rest| ensures x != rest[i] {
        assert all[0] == x && all[i + 1] == rest[i];
      }
      forall i, j | 0 <= i < j < |rest| ensures rest[i] != rest[j] {
        assert all[i + 1] == rest[i] && all[j + 1] == rest[j];
      }
    }
  }

  lemma {:induction false} WithoutNames(xs: seq<Snap>, name: string)
    ensures forall n :: n in Names(Without(xs, name)) ==> n in Names(xs)
  {
    if xs != [] {
      WithoutNames(xs[1..], name);
      NamesFirst(xs[0], xs[1..]);
      NamesFirst(xs[0], Without(xs[1..], name));
    }
  }

  lemma WithoutFirst(xs: seq<Snap>)
    requires xs != [] && Distinct(Names(xs))
    ensures Without(xs, xs[0].name) == xs[1..]
  {
    forall a | a in xs[1..] ensures a.name != xs[0].name {
      var k :| 0 <= k < |xs[1..]| && xs[1..][k] == a;
      assert Names(xs)[0] != Names(xs)[k + 1];
    }
    WithoutAbsent(xs[1..], xs[0].name);
  }

  /** Destroying the oldest own snapshot leaves the own names after it. */
  lemma {:induction false} OwnWithoutOldest(xs: seq<Snap>, id: nat, alone: bool)
    requires Distinct(Names(xs)) && OwnSnapshots(Names(xs), id, alone) != []
    ensures
      var mine := OwnSnapshots(Names(xs), id, alone);
      OwnSnapshots(Names(Without(xs, mine[0])), id, alone) == mine[1..]
  {
    assert xs == [xs[0]] + xs[1..] && Names(xs)[1..] == Names(xs[1..]);
    OwnCons(xs[0], xs[1..], id, alone);
    if IsMine(xs[0].name, id, alone) {
      WithoutFirst(xs);
    } else {
      OwnWithoutOldest(xs[1..], id, alone);
      OwnCons(xs[0], Without(xs[1..], OwnSnapshots(Names(xs[1..]), id, alone)[0]), id, alone);
    }
  }

  lemma {:induction false} PrunedOwn(s: State, olds: seq<string>, oks: seq<bool>, id: nat, alone: bool)
    requires Distinct(Names(s.local)) && olds <= OwnSnapshots(Names(s.local), id, alone)
    requires |oks| == |Queue(olds)| && forall i :: 0 <= i < |oks| ==> oks[i]
    ensures
      OwnSnapshots(Names(Pruned(s, Queue(olds), oks).local), id, alone)
      == OwnSnapshots(Names(s.local), id, alone)[|olds|..]
    decreases |olds|
  {
    if olds != [] {
      var s1 := Destroyed(Destroyed(s, Here(olds[0])), There(olds[0]));
      OwnWithoutOldest(s.local, id, alone);
      WithoutDistinct(s.local, olds[0]);
      assert Queue(olds)[1..][1..] == Queue(olds[1..]);
      assert Pruned(s, Queue(olds), oks) == Pruned(s1, Queue(olds[1..]), oks[1..][1..]);
      PrunedOwn(s1, olds[1..], oks[1..][1..], id, alone);
    }
  }

  /**
   * When every destroy succeeds, exactly the newest `keep` own snapshots stay here, or all of them if there are fewer.
   */
  lemma PruneLeavesNewest(c: Config, s: State, e: Event, oks: seq<bool>)
    requires Arrived(c, s, e) && Answers(c, s, e, oks) && AllTrue(oks)
    ensures
      var mine := OwnSnapshots(Names(s.local), c.id, e.alone);
      var n := if |mine| < c.keep then |mine| else c.keep;
      && OwnSnapshots(Names(AfterRun(c, s, e, oks).local), c.id, e.alone) == mine[|mine| - n..]
      && (forall a :: a in AfterRun(c, s, e, oks).remote ==> a.name !in mine[..|mine| - n])
  {
    ArrivedIs(c, s, e);
    SoundDistinct(s);
    var mine := OwnSnapshots(Names(s.local), c.id, e.alone);
    var s1 := Next(c, s, e);
    PrunedOwn(s1, Beyond(mine, c.keep), oks, c.id, e.alone);
    PrunedAll(s1, Beyond(mine, c.keep), oks);
  }
}
