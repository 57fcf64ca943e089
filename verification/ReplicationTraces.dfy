/** Runs of the replication machine that end where the code does not want to be. */
module ReplicationTraces {
  import opened Text
  import opened ReplicationNames
  import opened Replication
  import opened ReplicationRuns

  // ---- keep = 1 ----

  lemma RunCons(c: Config, s: State, e: Event, es: seq<Event>)
    requires Enabled(c, s, e) && Runs(c, Next(c, s, e), es)
    ensures Runs(c, s, [e] + es) && Final(c, s, [e] + es) == Final(c, Next(c, s, e), es)
  {
    assert ([e] + es)[1..] == es;
  }

  /** An absent target, and nothing here yet. */
  const BEGINNING := State([], [], false, None, 0, Idle)

  /** The first copy is interrupted. */
  lemma FirstCut(c: Config, a: string, rest: seq<Event>)
    requires Own(a, c.id) && Runs(c, Interrupted(a), rest)
    ensures
      var es := [Take(a)] + ([Look(true)] + ([Send(0, true, true)] + rest));
      Runs(c, BEGINNING, es) && Final(c, BEGINNING, es) == Final(c, Interrupted(a), rest)
  {
    var A := Snap(a, 0);
    var s1 := State([A], [], false, None, 1, Taken(a));
    var s2 := State([A], [], false, None, 1, Sending(Full(a), a, [a]));
    assert Deliverable(s2, Full(a)) == [A] && Next(c, s2, Send(0, true, true)) == Interrupted(a);
    RunCons(c, s2, Send(0, true, true), rest);
    assert Names(s1.local) == [a] && Names([]) == [] && Next(c, s1, Look(true)) == s2;
    RunCons(c, s1, Look(true), [Send(0, true, true)] + rest);
    assert Next(c, BEGINNING, Take(a)) == s1;
    RunCons(c, BEGINNING, Take(a), [Look(true)] + ([Send(0, true, true)] + rest));
  }

  /** A second run takes b and finds the token. */
  lemma SecondTake(c: Config, a: string, b: string, rest: seq<Event>)
    requires Own(b, c.id) && a != b && Runs(c, Resuming(a, b), rest)
    ensures
      var es := [Take(b)] + ([Look(true)] + rest);
      Runs(c, Interrupted(a), es) && Final(c, Interrupted(a), es) == Final(c, Resuming(a, b), rest)
  {
    var s4 := State([Snap(a, 0), Snap(b, 1)], [], true, Some(Snap(a, 0)), 2, Taken(b));
    assert Names(s4.local) == [a, b] && Next(c, s4, Look(true)) == Resuming(a, b);
    RunCons(c, s4, Look(true), rest);
    assert Find(Interrupted(a).local, b).None? && Next(c, Interrupted(a), Take(b)) == s4;
    RunCons(c, Interrupted(a), Take(b), [Look(true)] + rest);
  }

  function Interrupted(a: string): State {
    State([Snap(a, 0)], [], true, Some(Snap(a, 0)), 1, Idle)
  }

  function Resuming(a: string, b: string): State {
    State([Snap(a, 0), Snap(b, 1)], [], true, Some(Snap(a, 0)), 2, Sending(Resume(a), b, [a, b]))
  }

  /** The resumed send arrives and the prune, which counts b, takes a from both sides. */
  lemma ResumedThenPruned(c: Config, a: string, b: string)
    requires c.keep == 1 && Own(a, c.id) && Own(b, c.id) && a != b
    ensures Runs(c, Resuming(a, b), LastSteps())
    ensures Final(c, Resuming(a, b), LastSteps()) == State([Snap(b, 1)], [], true, None, 2, Idle)
  {
    var s5 := State([Snap(a, 0), Snap(b, 1)], [Snap(a, 0)], true, None, 2, Pruning([Here(a), There(a)]));
    var s6 := State([Snap(b, 1)], [Snap(a, 0)], true, None, 2, Pruning([There(a)]));
    var s7 := State([Snap(b, 1)], [], true, None, 2, Pruning([]));
    ResumedArrives(c, a, b);
    assert [Here(a), There(a)][1..] == [There(a)];
    assert s5.local[1..] == [Snap(b, 1)] && Without([Snap(b, 1)], a) == [Snap(b, 1)];
    assert s6.remote[1..] == [];
    assert Next(c, s5, Prune(true)) == s6 && Next(c, s6, Prune(true)) == s7;
    RunsFinalOne(c, s7, Stop);
    RunCons(c, s6, Prune(true), [Stop]);
    RunCons(c, s5, Prune(true), [Prune(true)] + [Stop]);
    RunCons(c, Resuming(a, b), Send(1, false, true), [Prune(true)] + ([Prune(true)] + [Stop]));
  }

  lemma ResumedArrives(c: Config, a: string, b: string)
    requires c.keep == 1 && Own(a, c.id) && Own(b, c.id) && a != b
    ensures Enabled(c, Resuming(a, b), Send(1, false, true))
    ensures Next(c, Resuming(a, b), Send(1, false, true))
         == State([Snap(a, 0), Snap(b, 1)], [Snap(a, 0)], true, None, 2, Pruning([Here(a), There(a)]))
  {
    OwnOfTwo(a, b, c.id);
    assert Deliverable(Resuming(a, b), Resume(a)) == [Snap(a, 0)];
    assert Beyond([a, b], 1) == [a] && Queue([a]) == [Here(a), There(a)];
  }

  /**
   * With keep = 1 the resumed snapshot is pruned right away. For any two names of the replication there is a run from
   * the very beginning, every command in it a success but the one interrupted send, that ends with a target nothing can
   * be sent to any more.
   */
  lemma KeepOneLosesBase(c: Config, a: string, b: string) returns (es: seq<Event>)
    requires c.keep == 1 && Own(a, c.id) && Own(b, c.id) && a != b
    ensures Inv(c, BEGINNING) && Runs(c, BEGINNING, es)
    ensures forall e :: e in es && e.Prune? ==> e.ok
    ensures Stuck(Final(c, BEGINNING, es))
  {
    es := LosingRun(a, b);
    LosingRunEnds(c, a, b);
    LosingRunPrunes(a, b);
    LeftIsStuck(b);
    BeginningSound(c);
  }

  /** The first copy of a is cut, and the run that took b resumes it. */
  function LosingRun(a: string, b: string): seq<Event> {
    [Take(a)] + ([Look(true)] + ([Send(0, true, true)] + ([Take(b)] + ([Look(true)] + LastSteps()))))
  }

  lemma LosingRunEnds(c: Config, a: string, b: string)
    requires c.keep == 1 && Own(a, c.id) && Own(b, c.id) && a != b
    ensures Runs(c, BEGINNING, LosingRun(a, b))
    ensures Final(c, BEGINNING, LosingRun(a, b)) == State([Snap(b, 1)], [], true, None, 2, Idle)
  {
    ResumedThenPruned(c, a, b);
    SecondTake(c, a, b, LastSteps());
    FirstCut(c, a, [Take(b)] + ([Look(true)] + LastSteps()));
  }

  lemma LosingRunPrunes(a: string, b: string)
    ensures forall e :: e in LosingRun(a, b) && e.Prune? ==> e.ok
  {}

  lemma BeginningSound(c: Config)
    requires c.keep >= 1
    ensures Inv(c, BEGINNING)
  {}

  /** The resumed send arrives and both destroys of the prune succeed. */
  function LastSteps(): seq<Event> { [Send(1, false, true)] + ([Prune(true)] + ([Prune(true)] + [Stop])) }

  lemma LeftIsStuck(b: string)
    ensures Stuck(State([Snap(b, 1)], [], true, None, 2, Idle))
  {
  }

  lemma OwnOfTwo(a: string, b: string, id: nat)
    requires Own(a, id) && Own(b, id)
    ensures OwnSnapshots([a, b], id, true) == [a, b]
  {
    assert [a, b][1..] == [b] && [b][1..] == [];
    assert OwnSnapshots([b], id, true) == [b];
  }

  // ---- a token for a snapshot that is not ours ----

  /** Both sides have a, a policy has taken x since, and the run has taken b. */
  function BaseSent(a: string): State { State([Snap(a, 0)], [Snap(a, 0)], true, None, 1, Idle) }

  function Cut(a: string, x: string, b: string): State {
    State([Snap(a, 0), Snap(x, 1), Snap(b, 2)], [Snap(a, 0)], true, Some(Snap(x, 1)), 3, Idle)
  }

  /** The first copy of a arrives whole. */
  lemma FirstCopy(c: Config, a: string, rest: seq<Event>)
    requires c.keep >= 1 && Own(a, c.id) && Runs(c, BaseSent(a), rest)
    ensures
      var es := [Take(a)] + ([Look(true)] + ([Send(1, false, true)] + ([Stop] + rest)));
      Runs(c, BEGINNING, es) && Final(c, BEGINNING, es) == Final(c, BaseSent(a), rest)
  {
    var A := Snap(a, 0);
    var s1 := State([A], [], false, None, 1, Taken(a));
    var s2 := State([A], [], false, None, 1, Sending(Full(a), a, [a]));
    var s3 := State([A], [A], true, None, 1, Pruning([]));
    RunCons(c, s3, Stop, rest);
    NothingOld(c, a);
    assert Deliverable(s2, Full(a)) == [A] && [A][..1] == [A] && [] + [A] == [A];
    assert Next(c, s2, Send(1, false, true)) == s3;
    RunCons(c, s2, Send(1, false, true), [Stop] + rest);
    assert Names(s1.local) == [a] && Names([]) == [] && Next(c, s1, Look(true)) == s2;
    RunCons(c, s1, Look(true), [Send(1, false, true)] + ([Stop] + rest));
    assert Next(c, BEGINNING, Take(a)) == s1;
    RunCons(c, BEGINNING, Take(a), [Look(true)] + ([Send(1, false, true)] + ([Stop] + rest)));
  }

  lemma NothingOld(c: Config, a: string)
    requires c.keep >= 1 && Own(a, c.id)
    ensures Queue(OldNames(c, [a], a, true)) == []
  {
    var one := [a];
    assert one[1..] == [] && OwnSnapshots(one, c.id, true) == one;
    assert Beyond(one, c.keep) == one[..0];
  }

  /** The increment is cut while x is on its way. */
  lemma CutAtX(c: Config, a: string, x: string, b: string, rest: seq<Event>)
    requires Own(a, c.id) && Own(b, c.id) && a != b && !Kept(c, x) && Runs(c, Cut(a, x, b), rest)
    ensures
      var es := [OtherTake(x)] + ([Take(b)] + ([Look(true)] + ([Send(0, true, true)] + rest)));
      Runs(c, BaseSent(a), es) && Final(c, BaseSent(a), es) == Final(c, Cut(a, x, b), rest)
  {
    var s1 := State([Snap(a, 0), Snap(x, 1)], [Snap(a, 0)], true, None, 2, Idle);
    var s2 := State([Snap(a, 0), Snap(x, 1), Snap(b, 2)], [Snap(a, 0)], true, None, 3, Taken(b));
    var cut := [Send(0, true, true)] + rest;
    LookAndCut(c, a, x, b, rest);
    assert Find(s1.local, b).None? && Next(c, s1, Take(b)) == s2;
    RunCons(c, s1, Take(b), [Look(true)] + cut);
    assert Next(c, BaseSent(a), OtherTake(x)) == s1;
    RunCons(c, BaseSent(a), OtherTake(x), [Take(b)] + ([Look(true)] + cut));
  }

  lemma LookAndCut(c: Config, a: string, x: string, b: string, rest: seq<Event>)
    requires a != x && x != b && a != b && Runs(c, Cut(a, x, b), rest)
    ensures
      var s := State([Snap(a, 0), Snap(x, 1), Snap(b, 2)], [Snap(a, 0)], true, None, 3, Taken(b));
      var es := [Look(true)] + ([Send(0, true, true)] + rest);
      Runs(c, s, es) && Final(c, s, es) == Final(c, Cut(a, x, b), rest)
  {
    var s2 := State([Snap(a, 0), Snap(x, 1), Snap(b, 2)], [Snap(a, 0)], true, None, 3, Taken(b));
    var s3 := s2.(phase := Sending(Incremental(a, b), b, [a, x, b]));
    SendIsCut(c, a, x, b);
    RunCons(c, s3, Send(0, true, true), rest);
    LookAtBase(c, a, x, b);
    RunCons(c, s2, Look(true), [Send(0, true, true)] + rest);
  }

  lemma SendIsCut(c: Config, a: string, x: string, b: string)
    requires a != x && x != b && a != b
    ensures
      var s := State(
        [Snap(a, 0), Snap(x, 1), Snap(b, 2)], [Snap(a, 0)], true, None, 3, Sending(Incremental(a, b), b, [a, x, b]));
      Enabled(c, s, Send(0, true, true)) && Next(c, s, Send(0, true, true)) == Cut(a, x, b)
  {
    var A, X, B := Snap(a, 0), Snap(x, 1), Snap(b, 2);
    IncrementOf(A, X, B);
    assert [A] + [X, B][..0] == [A];
  }

  lemma IncrementOf(A: Snap, X: Snap, B: Snap)
    requires A.born == 0 && X.born == 1 && B.born == 2 && A.name != X.name && A.name != B.name && X.name != B.name
    ensures Find([A, X, B], A.name) == Some(A) && Find([A, X, B], B.name) == Some(B)
    ensures Between([A, X, B], 0, 2) == [X, B]
  {
    assert [A, X, B][1..] == [X, B] && [X, B][1..] == [B] && [B][1..] == [];
    assert Between([B], 0, 2) == [B] && [X] + [B] == [X, B];
    assert Find([X, B], B.name) == Some(B);
  }

  lemma LookAtBase(c: Config, a: string, x: string, b: string)
    requires a != x && x != b && a != b
    ensures
      var s := State([Snap(a, 0), Snap(x, 1), Snap(b, 2)], [Snap(a, 0)], true, None, 3, Taken(b));
      AfterLook(s, true) == Sending(Incremental(a, b), b, [a, x, b])
  {
    var s := State([Snap(a, 0), Snap(x, 1), Snap(b, 2)], [Snap(a, 0)], true, None, 3, Taken(b));
    assert Names(s.local) == [a, x, b] && Names(s.remote) == [a];
    assert [a, x, b][..2] == [a, x] && [a, x][..1] == [a];
    assert NewestCommon([a], [a]) == Some(a) && NewestCommon([a, x], [a]) == Some(a)
      && NewestCommon([a, x, b], [a]) == Some(a);
  }

  /** Both sides have a, and the target's token stands for x, which is gone here. */
  function Dead(a: string, x: string, b: string): State {
    State([Snap(a, 0), Snap(b, 2)], [Snap(a, 0)], true, Some(Snap(x, 1)), 3, Idle)
  }

  lemma DeadIsStuck(a: string, x: string, b: string)
    requires a != x && x != b && a != b
    ensures Stuck(Dead(a, x, b)) && Snap(a, 0) in Dead(a, x, b).local
  {
  }

  lemma LastDestroy(c: Config, a: string, x: string, b: string)
    requires a != x && x != b && a != b && !Kept(c, x)
    ensures Runs(c, Cut(a, x, b), [OtherDestroy(x)]) && Final(c, Cut(a, x, b), [OtherDestroy(x)]) == Dead(a, x, b)
  {
    WithoutMiddle(Snap(a, 0), Snap(x, 1), Snap(b, 2));
    RunsFinalOne(c, Cut(a, x, b), OtherDestroy(x));
  }

  /**
   * An increment carries the snapshots of others in between. Cut during one of those, it leaves a token for it, and
   * once that is destroyed here, as a policy does with its own, every later run tries to resume what cannot be resumed:
   * for any `keep`, with every command but the one send a success, a run from the very beginning after which the target
   * and its token never change again.
   */
  lemma DeadTokenForever(c: Config, a: string, x: string, b: string) returns (es: seq<Event>)
    requires c.keep >= 1 && Own(a, c.id) && Own(b, c.id) && a != b && !Kept(c, x)
    ensures Inv(c, BEGINNING) && Runs(c, BEGINNING, es) && Final(c, BEGINNING, es) == Dead(a, x, b)
    ensures Stuck(Dead(a, x, b)) && Snap(a, 0) in Dead(a, x, b).local
    ensures forall later :: Runs(c, Dead(a, x, b), later) ==>
      var s := Final(c, Dead(a, x, b), later);
      s.remote == [Snap(a, 0)] && s.token == Some(Snap(x, 1)) && !Ready(s)
  {
    var tail := [OtherTake(x)] + ([Take(b)] + ([Look(true)] + ([Send(0, true, true)] + [OtherDestroy(x)])));
    LastDestroy(c, a, x, b);
    CutAtX(c, a, x, b, [OtherDestroy(x)]);
    FirstCopy(c, a, tail);
    es := [Take(a)] + ([Look(true)] + ([Send(1, false, true)] + ([Stop] + tail)));
    DeadIsStuck(a, x, b);
    forall later | Runs(c, Dead(a, x, b), later)
      ensures
        var s := Final(c, Dead(a, x, b), later);
        s.remote == [Snap(a, 0)] && s.token == Some(Snap(x, 1)) && !Ready(s)
    {
      NotReadyForever(c, Dead(a, x, b), later);
    }
  }

  lemma WithoutMiddle(A: Snap, X: Snap, B: Snap)
    requires A.name != X.name && B.name != X.name
    ensures Without([A, X, B], X.name) == [A, B]
  {
    assert [A, X, B][1..] == [X, B] && [X, B][1..] == [B] && [B][1..] == [];
    assert Without([B], X.name) == [B] && Without([X, B], X.name) == [B];
  }

  // ---- a token the look missed ----

  /**
   * Asking for the token fails, so the second run sends all of b to a target that waits to be resumed and refuses it.
   */
  lemma MissedTokenRefused(c: Config, a: string, b: string) returns (es: seq<Event>)
    requires c.keep >= 1 && Own(a, c.id) && Own(b, c.id) && a != b
    ensures Inv(c, BEGINNING) && Runs(c, BEGINNING, es)
    ensures
      var s := Final(c, BEGINNING, es);
      s.phase.Sending? && !Accepts(s, s.phase.plan) && Accepts(s, Resume(a)) && Stream(s, Resume(a)) == [Snap(a, 0)]
  {
    var s4 := State([Snap(a, 0), Snap(b, 1)], [], true, Some(Snap(a, 0)), 2, Taken(b));
    var s5 := State([Snap(a, 0), Snap(b, 1)], [], true, Some(Snap(a, 0)), 2, Sending(Full(b), b, [a, b]));
    assert Names(s4.local) == [a, b] && Names(s4.remote) == [] && Next(c, s4, Look(false)) == s5;
    RunsFinalOne(c, s4, Look(false));
    assert Find(Interrupted(a).local, b).None? && Next(c, Interrupted(a), Take(b)) == s4;
    RunCons(c, Interrupted(a), Take(b), [Look(false)]);
    FirstCut(c, a, [Take(b)] + [Look(false)]);
    es := [Take(a)] + ([Look(true)] + ([Send(0, true, true)] + ([Take(b)] + [Look(false)])));
  }
}
