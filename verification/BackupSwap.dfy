/** One settings backup, swapped in whole. */
module BackupSwap {

  datatype Manifest = NoManifest | Torn | Lists(files: set<string>)
  datatype Dir = Absent | Present(files: set<string>, manifest: Manifest)

  /** A backup a restore can use: every file its manifest lists is there. */
  predicate Complete(d: Dir) {
    d.Present? && d.manifest.Lists? && d.manifest.files <= d.files
  }

  /** What a recursive removal leaves of a directory when it stops part-way. */
  predicate LeftOf(d: Dir, left: Dir) {
    left.Absent? || (d.Present? && left.files <= d.files && (left.manifest == d.manifest || left.manifest.NoManifest?))
  }

  datatype Step = Idle | ClearNew | MakeNew | Fill | ClearOld | SetAside | SwapIn | ClearLast

  /**
   * The directory a restore reads, its `.new` and its `.old`: a fresh one is built beside and swapped in. The agent can
   * stop between any two file operations, and in the middle of a recursive removal or of writing the manifest.
   */
  datatype State = State(dir: Dir, next: Dir, aside: Dir, step: Step)

  datatype Event =
    | Start
    | Remove(left: Dir)          // part of the recursive removal at hand
    | Made
    | Copied(file: string)
    | Listed                     // the manifest, written last
    | Moved                      // a rename, or its being skipped
    | Stop(torn: bool)           // the agent dies or an operation fails; torn: in the middle of the manifest

  predicate Enabled(s: State, e: Event) {
    match e
    case Start => s.step.Idle?
    case Remove(left) =>
      match s.step {
        case ClearNew => LeftOf(s.next, left)
        case ClearOld => LeftOf(s.aside, left)
        case ClearLast => LeftOf(s.aside, left)
        case _ => false
      }
    case Made => s.step.MakeNew?
    case Copied(_) => s.step.Fill? && s.next.Present?
    case Listed => s.step.Fill? && s.next.Present?
    case Moved => s.step.SetAside? || s.step.SwapIn?
    case Stop(torn) => torn ==> s.step.Fill? && s.next.Present?
  }

  function Next(s: State, e: Event): State
    requires Enabled(s, e)
  {
    match e
    case Start => s.(step := ClearNew)
    case Remove(left) =>
      match s.step {
        case ClearNew => s.(next := left, step := if left.Absent? then MakeNew else ClearNew)
        case ClearOld => s.(aside := left, step := if left.Absent? then SetAside else ClearOld)
        case _ => s.(aside := left, step := if left.Absent? then Idle else ClearLast)
      }
    case Made => s.(next := Present({}, NoManifest), step := Fill)
    case Copied(file) => s.(next := s.next.(files := s.next.files + {file}))
    case Listed => s.(next := s.next.(manifest := Lists(s.next.files)), step := ClearOld)
    case Moved =>
      if s.step.SetAside? then
        if s.dir.Absent? then s.(step := SwapIn) else s.(aside := s.dir, dir := Absent, step := SwapIn)
      else s.(dir := s.next, next := Absent, step := ClearLast)
    case Stop(torn) => (if torn then s.(next := s.next.(manifest := Torn)) else s).(step := Idle)
  }

  ghost predicate Runs(s: State, es: seq<Event>)
    decreases |es|
  {
    es == [] || (Enabled(s, es[0]) && Runs(Next(s, es[0]), es[1..]))
  }

  ghost function Final(s: State, es: seq<Event>): State
    requires Runs(s, es)
    decreases |es|
  {
    if es == [] then s else Final(Next(s, es[0]), es[1..])
  }

  /** What a restore finds is nothing or a complete backup. */
  predicate Restorable(s: State) { s.dir.Absent? || Complete(s.dir) }

  predicate SomeCopy(s: State) { Complete(s.dir) || Complete(s.next) || Complete(s.aside) }

  /** Whatever the history of runs, what takes the place a restore reads is complete by then. */
  predicate Inv(s: State) {
    && Restorable(s)
    && (s.step.ClearOld? || s.step.SetAside? || s.step.SwapIn? ==> Complete(s.next))
    && (s.step.SwapIn? ==> s.dir.Absent?)
    && (s.step.ClearLast? ==> Complete(s.dir))
  }

  lemma {:induction false} NeverPartial(s: State, es: seq<Event>)
    requires Inv(s) && Runs(s, es)
    ensures Inv(Final(s, es)) && Restorable(Final(s, es))
    decreases |es|
  {
    if es != [] {
      NeverPartial(Next(s, es[0]), es[1..]);
    }
  }

  // ---- one run ----

  /** Where a run keeps a copy, step by step. */
  predicate CopyHeld(s: State) {
    match s.step
    case Idle => SomeCopy(s)
    case ClearNew => Complete(s.dir) || Complete(s.aside)
    case MakeNew => Complete(s.dir) || Complete(s.aside)
    case Fill => Complete(s.dir) || Complete(s.aside)
    case ClearOld => Complete(s.next)
    case SetAside => Complete(s.next)
    case SwapIn => Complete(s.next)
    case ClearLast => Complete(s.dir)
  }

  lemma {:induction false} OneRunHolds(s: State, es: seq<Event>)
    requires CopyHeld(s) && Runs(s, es) && Start !in es
    ensures CopyHeld(Final(s, es))
    decreases |es|
  {
    if es != [] {
      OneRunHolds(Next(s, es[0]), es[1..]);
    }
  }

  lemma HeldIsCopy(s: State)
    requires CopyHeld(s)
    ensures SomeCopy(s)
  {}

  lemma RunCons(s: State, e: Event, es: seq<Event>)
    requires Enabled(s, e) && Runs(Next(s, e), es)
    ensures Runs(s, [e] + es) && Final(s, [e] + es) == Final(Next(s, e), es)
  {
    assert ([e] + es)[1..] == es;
  }

  /**
   * At every point a run can be cut short there is a complete copy among the directory, `.new` and `.old`, exactly when
   * the run starts with one in the directory or in `.old`: a run never counts on what an earlier one left in `.new`.
   */
  lemma RunKeepsCopyExactly(s: State)
    requires s.step.Idle?
    ensures Complete(s.dir) || Complete(s.aside)
       <==> forall es :: Runs(s, [Start] + es) && Start !in es ==> SomeCopy(Final(s, [Start] + es))
  {
    if Complete(s.dir) || Complete(s.aside) {
      forall es | Runs(s, [Start] + es) && Start !in es ensures SomeCopy(Final(s, [Start] + es)) {
        assert ([Start] + es)[1..] == es;
        OneRunHolds(Next(s, Start), es);
        HeldIsCopy(Final(Next(s, Start), es));
      }
    } else {
      var s1 := Next(s, Start);
      RunCons(s1, Remove(Absent), []);
      RunCons(s, Start, [Remove(Absent)] + []);
      assert !SomeCopy(Final(s, [Start] + ([Remove(Absent)] + [])));
    }
  }

  // ---- over several runs ----

  /** A first run stops between its two renames. */
  lemma StopsBetweenRenames(s: State, file: string, rest: seq<Event>)
    requires s.step.Idle? && Complete(s.dir) && Runs(State(Absent, Made1(file), s.dir, Idle), rest)
    ensures
      var es :=
        [Start]
        + ([Remove(Absent)] + ([Made] + ([Copied(file)]
        + ([Listed] + ([Remove(Absent)] + ([Moved] + ([Stop(false)] + rest)))))));
      Runs(s, es) && Final(s, es) == Final(State(Absent, Made1(file), s.dir, Idle), rest)
  {
    var s1 := Next(s, Start);
    var s2 := Next(s1, Remove(Absent));
    var s3 := Next(s2, Made);
    var s4 := Next(s3, Copied(file));
    assert {} + {file} == {file};
    var s5 := Next(s4, Listed);
    var s6 := Next(s5, Remove(Absent));
    var s7 := Next(s6, Moved);
    var r7 := [Stop(false)] + rest;
    var r6 := [Moved] + r7;
    var r5 := [Remove(Absent)] + r6;
    var r4 := [Listed] + r5;
    var r3 := [Copied(file)] + r4;
    RunCons(s7, Stop(false), rest);
    RunCons(s6, Moved, r7);
    RunCons(s5, Remove(Absent), r6);
    RunCons(s4, Listed, r5);
    RunCons(s3, Copied(file), r4);
    RunCons(s2, Made, r3);
    RunCons(s1, Remove(Absent), [Made] + r3);
    RunCons(s, Start, [Remove(Absent)] + ([Made] + r3));
  }

  function Made1(file: string): Dir { Present({file}, Lists({file})) }

  /** With the directory gone, a second run stops once it has removed `.old`. */
  lemma StopsAfterClearingOld(s: State, file: string, rest: seq<Event>)
    requires s.step.Idle? && s.dir.Absent? && Runs(State(Absent, Made1(file), Absent, Idle), rest)
    ensures
      var es :=
        [Start]
        + ([Remove(Absent)] + ([Made] + ([Copied(file)] + ([Listed] + ([Remove(Absent)] + ([Stop(false)] + rest))))));
      Runs(s, es) && Final(s, es) == Final(State(Absent, Made1(file), Absent, Idle), rest)
  {
    var s1 := Next(s, Start);
    var s2 := Next(s1, Remove(Absent));
    var s3 := Next(s2, Made);
    var s4 := Next(s3, Copied(file));
    assert {} + {file} == {file};
    var s5 := Next(s4, Listed);
    var s6 := Next(s5, Remove(Absent));
    var r6 := [Stop(false)] + rest;
    var r5 := [Remove(Absent)] + r6;
    var r4 := [Listed] + r5;
    var r3 := [Copied(file)] + r4;
    RunCons(s6, Stop(false), rest);
    RunCons(s5, Remove(Absent), r6);
    RunCons(s4, Listed, r5);
    RunCons(s3, Copied(file), r4);
    RunCons(s2, Made, r3);
    RunCons(s1, Remove(Absent), [Made] + r3);
    RunCons(s, Start, [Remove(Absent)] + ([Made] + r3));
  }

  /**
   * So a chosen dataset with a good backup can lose every copy: one run cut between its renames, one cut right after it
   * removed `.old`, and the third one's first operation removes the last.
   */
  lemma TwoCutsLoseEveryCopy(s: State, file: string) returns (es: seq<Event>)
    requires s.step.Idle? && Complete(s.dir)
    ensures Runs(s, es) && !SomeCopy(Final(s, es))
  {
    var a := State(Absent, Made1(file), s.dir, Idle);
    var b := State(Absent, Made1(file), Absent, Idle);
    var c := Next(b, Start);
    RunCons(c, Remove(Absent), []);
    var third := [Remove(Absent)] + [];
    RunCons(b, Start, third);
    var after := [Start] + third;
    StopsAfterClearingOld(a, file, after);
    var second :=
      [Start]
      + ([Remove(Absent)] + ([Made] + ([Copied(file)] + ([Listed] + ([Remove(Absent)] + ([Stop(false)] + after))))));
    StopsBetweenRenames(s, file, second);
    es :=
      [Start]
      + ([Remove(Absent)] + ([Made] + ([Copied(file)]
      + ([Listed] + ([Remove(Absent)] + ([Moved] + ([Stop(false)] + second)))))));
  }

  // ---- the operations in their order ----

  /** The step that comes after a number of operations. */
  function StepAt(files: nat, at: nat): Step {
    if at == 0 then ClearNew
    else if at == 1 then MakeNew
    else if at < files + 3 then Fill
    else if at == files + 3 then ClearOld
    else if at == files + 4 then SetAside
    else if at == files + 5 then SwapIn
    else if at == files + 6 then ClearLast
    else Idle
  }

  lemma {:induction false} RunConcat(s: State, a: seq<Event>, b: seq<Event>)
    requires Runs(s, a) && Runs(Final(s, a), b)
    ensures Runs(s, a + b) && Final(s, a + b) == Final(Final(s, a), b)
    decreases |a|
  {
    if a == [] {
      assert a + b == b;
    } else {
      assert (a + b)[0] == a[0] && (a + b)[1..] == a[1..] + b;
      RunConcat(Next(s, a[0]), a[1..], b);
    }
  }

  lemma RunSnoc(s: State, es: seq<Event>, e: Event)
    requires Runs(s, es) && Enabled(Final(s, es), e)
    ensures Runs(s, es + [e]) && Final(s, es + [e]) == Next(Final(s, es), e)
  {
    RunCons(Final(s, es), e, []);
    assert [e] + [] == [e];
    RunConcat(s, es, [e]);
  }

  function Set(files: seq<string>): set<string> { set f | f in files }

  class Backup {
    var dir: Dir
    var next: Dir
    var aside: Dir

    ghost function Now(): State reads this { State(dir, next, aside, Idle) }

    constructor ()
      ensures Now() == State(Absent, Absent, Absent, Idle)
    {
      dir, next, aside := Absent, Absent, Absent;
    }

    /**
     * The run that `cut` more operations are left to: after them it stops where it is. `files` are the sources that
     * exist. What it does is a run of the machine.
     */
    method RunBackup(files: seq<string>, cut: nat) returns (done: bool, ghost es: seq<Event>)
      modifies this
      requires Restorable(Now())
      ensures Runs(old(Now()), [Start] + es) && Start !in es && Now() == Final(old(Now()), [Start] + es)
      ensures Restorable(Now())
      ensures old(Complete(dir) || Complete(aside)) ==> SomeCopy(Now())
      ensures done ==> dir == Present(Set(files), Lists(Set(files))) && next.Absent? && aside.Absent?
      ensures cut >= |files| + 7 ==> done
    {
      ghost var start := Next(Now(), Start);
      var at: nat;
      at, es := Operations(files, cut, start);
      done := at == |files| + 7;
      if !done {
        RunSnoc(start, es, Stop(false));
        es := es + [Stop(false)];
      }
      RunCons(old(Now()), Start, es);
      NeverPartial(old(Now()), [Start] + es);
      if Complete(old(dir)) || Complete(old(aside)) {
        OneRunHolds(start, es);
        HeldIsCopy(Final(start, es));
      }
    }

    /** The operations one after another, as many as there are left; `at` is how many were done. */
    method Operations(files: seq<string>, cut: nat, ghost start: State) returns (at: nat, ghost es: seq<Event>)
      modifies this
      requires start == Now().(step := ClearNew)
      ensures at == if cut < |files| + 7 then cut else |files| + 7
      ensures Runs(start, es) && Start !in es
      ensures Final(start, es) == Now().(step := StepAt(|files|, at))
      ensures at == |files| + 7 ==> dir == Present(Set(files), Lists(Set(files))) && next.Absent? && aside.Absent?
    {
      at, es := 0, [];
      if cut == 0 { return; }
      next := Absent;
      RunSnoc(start, es, Remove(Absent));
      at, es := 1, es + [Remove(Absent)];
      if cut == 1 { return; }
      next := Present({}, NoManifest);
      RunSnoc(start, es, Made);
      at, es := 2, es + [Made];
      var i := 0;
      while i < |files|
        invariant 0 <= i <= |files| && at == i + 2 <= cut
        invariant next == Present(Set(files[..i]), NoManifest)
        invariant Runs(start, es) && Start !in es && Final(start, es) == Now().(step := Fill)
      {
        if cut == at { return; }
        assert files[..i + 1] == files[..i] + [files[i]];
        next := next.(files := next.files + {files[i]});
        RunSnoc(start, es, Copied(files[i]));
        at, es, i := at + 1, es + [Copied(files[i])], i + 1;
      }
      assert files[..i] == files;
      if cut == at { return; }
      next := next.(manifest := Lists(next.files));
      RunSnoc(start, es, Listed);
      at, es := at + 1, es + [Listed];
      ghost var more;
      at, more := Swap(files, cut, at, Final(start, es));
      RunConcat(start, es, more);
      es := es + more;
    }

    /** `.old` cleared, the directory set aside, the new one swapped in, and `.old` cleared again. */
    method Swap(files: seq<string>, cut: nat, from: nat, ghost start: State) returns (at: nat, ghost es: seq<Event>)
      modifies this
      requires
        start == Now().(step := ClearOld) && from == |files| + 3 <= cut
        && next == Present(Set(files), Lists(Set(files)))
      ensures at == if cut < |files| + 7 then cut else |files| + 7
      ensures Runs(start, es) && Start !in es
      ensures Final(start, es) == Now().(step := StepAt(|files|, at))
      ensures at == |files| + 7 ==> dir == Present(Set(files), Lists(Set(files))) && next.Absent? && aside.Absent?
    {
      at, es := from, [];
      if cut == at { return; }
      aside := Absent;
      RunSnoc(start, es, Remove(Absent));
      at, es := at + 1, es + [Remove(Absent)];
      if cut == at { return; }
      if dir != Absent {
        aside, dir := dir, Absent;
      }
      RunSnoc(start, es, Moved);
      at, es := at + 1, es + [Moved];
      if cut == at { return; }
      dir, next := next, Absent;
      RunSnoc(start, es, Moved);
      at, es := at + 1, es + [Moved];
      if cut == at { return; }
      aside := Absent;
      RunSnoc(start, es, Remove(Absent));
      at, es := at + 1, es + [Remove(Absent)];
    }
  }
}
