/** The share verbs and the regenerations they queue. */
module ShareQueue {
  import opened Text
  import opened ShareTable
  import opened ShareFiles

  /** A regeneration keeps the table as it read it when it began. */
  datatype Task =
    | Waiting
    | Reading(rows: seq<Share>)
    | WroteSmb(rows: seq<Share>)
    | WroteBoth(rows: seq<Share>)
    | Done(rows: seq<Share>)
    | Failed
  {
    predicate Settled() { Done? || Failed? }
    predicate Running() { Reading? || WroteSmb? || WroteBoth? }
  }

  /** Mountpoints and the names of the owner, which do not change meanwhile. */
  datatype World = World(mounts: Mounts, config: Config)

  /**
   * Every change of the table puts one more regeneration on a chain of promises, each of which begins when the one
   * before it has settled, well or badly. Between any two of its steps anything else may happen.
   */
  datatype State = State(rows: seq<Share>, tasks: seq<Task>, smbConf: string, exports: string)

  datatype Event =
    | Set(wish: Wish, now: int)
    | Remove(dataset: string)
    | RemoveUser(user: string, now: int)
    | Reapply
    | Start(i: nat)
    | Advance(i: nat)
    | Fail(i: nat)

  function SmbOf(w: World, rows: seq<Share>): string { SmbConfText(Mounted(Listed(rows), w.mounts), w.config) }

  function ExportsOf(w: World, rows: seq<Share>): string { ExportsText(Mounted(Listed(rows), w.mounts), w.config) }

  predicate Enabled(s: State, e: Event) {
    match e
    case Start(i) => i < |s.tasks| && s.tasks[i].Waiting? && (i == 0 || s.tasks[i - 1].Settled())
    case Advance(i) => i < |s.tasks| && s.tasks[i].Running()
    case Fail(i) => i < |s.tasks| && s.tasks[i].Running()
    case _ => true
  }

  /** A new table, and one more regeneration at the end of the chain. */
  function Changed(s: State, rows: seq<Share>): State { s.(rows := rows, tasks := s.tasks + [Waiting]) }

  function Advanced(w: World, s: State, i: nat): State
    requires i < |s.tasks|
  {
    match s.tasks[i]
    case Reading(rows) => s.(tasks := s.tasks[i := WroteSmb(rows)], smbConf := SmbOf(w, rows))
    case WroteSmb(rows) => s.(tasks := s.tasks[i := WroteBoth(rows)], exports := ExportsOf(w, rows))
    case WroteBoth(rows) => s.(tasks := s.tasks[i := Done(rows)])
    case _ => s
  }

  function Next(w: World, s: State, e: Event): State
    requires Enabled(s, e)
  {
    match e
    case Set(wish, now) => if ErrorOf(s.rows, w.mounts, wish).Some? then s else Changed(s, SetTo(s.rows, wish, now))
    case Remove(dataset) =>
      if !IsDataset(dataset) || Find(s.rows, dataset).None? then s else Changed(s, Removed(s.rows, dataset))
    case RemoveUser(user, now) =>
      if !IsUser(user) || !AnyLists(s.rows, user) then s else Changed(s, DropUser(s.rows, user, now))
    case Reapply => Changed(s, s.rows)
    case Start(i) => s.(tasks := s.tasks[i := Reading(s.rows)])
    case Advance(i) => Advanced(w, s, i)
    case Fail(i) => s.(tasks := s.tasks[i := Failed])
  }

  predicate Runs(w: World, s: State, es: seq<Event>)
    decreases |es|
  {
    es == [] || (Enabled(s, es[0]) && Runs(w, Next(w, s, es[0]), es[1..]))
  }

  function Final(w: World, s: State, es: seq<Event>): State
    requires Runs(w, s, es)
    decreases |es|
  {
    if es == [] then s else Final(w, Next(w, s, es[0]), es[1..])
  }

  // ---- the queue ----

  /** What has begun began after the one before it had settled. */
  predicate InOrder(tasks: seq<Task>) {
    forall i :: 0 < i < |tasks| && !tasks[i].Waiting? ==> tasks[i - 1].Settled()
  }

  predicate FilesFollow(w: World, s: State) { s.smbConf == SmbOf(w, s.rows) && s.exports == ExportsOf(w, s.rows) }

  /** The last regeneration, once it has begun, works from the table as it is now, and the files are what it wrote. */
  predicate Current(w: World, s: State) {
    s.tasks == [] ||
    match s.tasks[|s.tasks| - 1]
    case Waiting => true
    case Reading(rows) => rows == s.rows
    case WroteSmb(rows) => rows == s.rows && s.smbConf == SmbOf(w, rows)
    case WroteBoth(rows) => rows == s.rows && FilesFollow(w, s)
    case Done(rows) => rows == s.rows && FilesFollow(w, s)
    case Failed => true
  }

  predicate Inv(w: World, s: State) { InOrder(s.tasks) && Current(w, s) }

  lemma {:induction false} EarlierSettled(tasks: seq<Task>, i: nat, j: nat)
    requires InOrder(tasks) && i < j < |tasks| && !tasks[j].Waiting?
    ensures tasks[i].Settled()
    decreases j
  {
    if i < j - 1 {
      EarlierSettled(tasks, i, j - 1);
    }
  }

  /** Behind a regeneration that is at work all others wait. */
  lemma OneAtATime(tasks: seq<Task>, i: nat, j: nat)
    requires InOrder(tasks) && i < j < |tasks| && tasks[i].Running()
    ensures tasks[j].Waiting?
  {
    if !tasks[j].Waiting? {
      EarlierSettled(tasks, i, j);
      assert false;
    }
  }

  lemma ChangeKeeps(w: World, s: State, rows: seq<Share>)
    requires Inv(w, s)
    ensures Inv(w, Changed(s, rows))
  {
    var tasks := s.tasks + [Waiting];
    forall i | 0 < i < |tasks| && !tasks[i].Waiting? ensures tasks[i - 1].Settled() {
      assert tasks[i] == s.tasks[i] && tasks[i - 1] == s.tasks[i - 1];
    }
  }

  lemma WorkKeepsOrder(tasks: seq<Task>, i: nat, t: Task)
    requires InOrder(tasks) && i < |tasks| && !tasks[i].Settled()
    requires tasks[i].Waiting? ==> i == 0 || tasks[i - 1].Settled()
    ensures InOrder(tasks[i := t])
  {
    var next := tasks[i := t];
    forall k | 0 < k < |next| && !next[k].Waiting? ensures next[k - 1].Settled() {
    }
  }

  lemma VerbKeeps(w: World, s: State, e: Event)
    requires Inv(w, s) && !Works(e)
    ensures Inv(w, Next(w, s, e))
  {
    match e
    case Set(wish, now) => ChangeKeeps(w, s, SetTo(s.rows, wish, now));
    case Remove(dataset) => ChangeKeeps(w, s, Removed(s.rows, dataset));
    case RemoveUser(user, now) => ChangeKeeps(w, s, DropUser(s.rows, user, now));
    case _ => ChangeKeeps(w, s, s.rows);
  }

  /** Only the last regeneration matters to the files, and while an earlier one is at work that one waits. */
  lemma LastWaits(tasks: seq<Task>, i: nat)
    requires InOrder(tasks) && i < |tasks| && tasks[i].Running()
    ensures i < |tasks| - 1 ==> tasks[|tasks| - 1].Waiting?
  {
    if i < |tasks| - 1 {
      OneAtATime(tasks, i, |tasks| - 1);
    }
  }

  lemma StartKeeps(w: World, s: State, i: nat)
    requires Inv(w, s) && Enabled(s, Start(i))
    ensures Inv(w, s.(tasks := s.tasks[i := Reading(s.rows)]))
  {
    WorkKeepsOrder(s.tasks, i, Reading(s.rows));
  }

  lemma AdvanceKeeps(w: World, s: State, i: nat)
    requires Inv(w, s) && Enabled(s, Advance(i))
    ensures Inv(w, Advanced(w, s, i))
  {
    LastWaits(s.tasks, i);
    WorkKeepsOrder(s.tasks, i, Advanced(w, s, i).tasks[i]);
  }

  lemma FailKeeps(w: World, s: State, i: nat)
    requires Inv(w, s) && Enabled(s, Fail(i))
    ensures Inv(w, s.(tasks := s.tasks[i := Failed]))
  {
    LastWaits(s.tasks, i);
    WorkKeepsOrder(s.tasks, i, Failed);
  }

  lemma StepKeeps(w: World, s: State, e: Event)
    requires Inv(w, s) && Enabled(s, e)
    ensures Inv(w, Next(w, s, e))
  {
    match e
    case Start(i) => StartKeeps(w, s, i);
    case Advance(i) => AdvanceKeeps(w, s, i);
    case Fail(i) => FailKeeps(w, s, i);
    case _ => VerbKeeps(w, s, e);
  }

  lemma {:induction false} RunKeeps(w: World, s: State, es: seq<Event>)
    requires Inv(w, s) && Runs(w, s, es)
    ensures Inv(w, Final(w, s, es))
    decreases |es|
  {
    if es != [] {
      StepKeeps(w, s, es[0]);
      RunKeeps(w, Next(w, s, es[0]), es[1..]);
    }
  }

  /** Whatever was asked for and whatever failed: never are two regenerations at work, and none overtakes another. */
  lemma NeverTwoAtWork(w: World, s: State, es: seq<Event>, i: nat, j: nat)
    requires s.tasks == [] && Runs(w, s, es)
    requires i < j < |Final(w, s, es).tasks|
    ensures Final(w, s, es).tasks[i].Running() ==> Final(w, s, es).tasks[j].Waiting?
    ensures !Final(w, s, es).tasks[j].Waiting? ==> Final(w, s, es).tasks[i].Settled()
  {
    RunKeeps(w, s, es);
    if !Final(w, s, es).tasks[j].Waiting? {
      EarlierSettled(Final(w, s, es).tasks, i, j);
    }
  }

  /**
   * However the verbs and the regenerations interleave and fail: once the last regeneration has succeeded, both files
   * are what the table as it is now makes.
   */
  lemma FilesFollowTable(w: World, s: State, es: seq<Event>)
    requires s.tasks == [] && Runs(w, s, es)
    ensures
      var n := Final(w, s, es);
      n.tasks != [] && n.tasks[|n.tasks| - 1].Done? ==> FilesFollow(w, n)
  {
    RunKeeps(w, s, es);
    DoneIsCurrent(w, Final(w, s, es));
  }

  lemma DoneIsCurrent(w: World, s: State)
    requires Current(w, s)
    ensures s.tasks != [] && s.tasks[|s.tasks| - 1].Done? ==> FilesFollow(w, s)
  {
  }

  // ---- nothing blocks ----

  lemma {:induction false} FirstUnsettled(tasks: seq<Task>, j: nat) returns (i: nat)
    requires j < |tasks| && !tasks[j].Settled()
    ensures i <= j && !tasks[i].Settled() && (i == 0 || tasks[i - 1].Settled())
    decreases j
  {
    i := j;
    if j > 0 && !tasks[j - 1].Settled() {
      i := FirstUnsettled(tasks, j - 1);
    }
  }

  /**
   * While any regeneration is not settled, some one can begin, or go on and as well fail: a failed one holds up none.
   */
  lemma SomethingCanGo(s: State, j: nat) returns (i: nat)
    requires j < |s.tasks| && !s.tasks[j].Settled()
    ensures i <= j && (Enabled(s, Start(i)) || (Enabled(s, Advance(i)) && Enabled(s, Fail(i))))
  {
    i := FirstUnsettled(s.tasks, j);
  }

  function StepsLeft(t: Task): nat {
    match t
    case Waiting => 4
    case Reading(_) => 3
    case WroteSmb(_) => 2
    case WroteBoth(_) => 1
    case _ => 0
  }

  function AllLeft(tasks: seq<Task>): nat {
    if tasks == [] then 0 else AllLeft(tasks[..|tasks| - 1]) + StepsLeft(tasks[|tasks| - 1])
  }

  lemma {:induction false} LeftAt(tasks: seq<Task>, i: nat, t: Task)
    requires i < |tasks|
    ensures AllLeft(tasks[i := t]) == AllLeft(tasks) - StepsLeft(tasks[i]) + StepsLeft(t)
    decreases |tasks|
  {
    var next := tasks[i := t];
    if i == |tasks| - 1 {
      assert next[..|next| - 1] == tasks[..|tasks| - 1];
    } else {
      LeftAt(tasks[..|tasks| - 1], i, t);
      assert next[..|next| - 1] == tasks[..|tasks| - 1][i := t];
    }
  }

  predicate Works(e: Event) { e.Start? || e.Advance? || e.Fail? }

  lemma WorkRunsOut(w: World, s: State, e: Event)
    requires Enabled(s, e) && Works(e)
    ensures AllLeft(Next(w, s, e).tasks) < AllLeft(s.tasks)
  {
    match e
    case Start(i) => LeftAt(s.tasks, i, Reading(s.rows));
    case Advance(i) => AdvanceRunsOut(w, s, i);
    case Fail(i) => LeftAt(s.tasks, i, Failed);
  }

  lemma AdvanceRunsOut(w: World, s: State, i: nat)
    requires i < |s.tasks| && s.tasks[i].Running()
    ensures AllLeft(Advanced(w, s, i).tasks) < AllLeft(s.tasks)
  {
    LeftAt(s.tasks, i, Advanced(w, s, i).tasks[i]);
  }

  lemma {:induction false} NoneLeft(tasks: seq<Task>, j: nat)
    requires j < |tasks| && !tasks[j].Settled()
    ensures AllLeft(tasks) > 0
    decreases |tasks|
  {
    if j < |tasks| - 1 {
      NoneLeft(tasks[..|tasks| - 1], j);
    }
  }

  /**
   * Without new verbs the queue empties: no run of it is longer than what is left, and any that stops short can go on.
   */
  lemma {:induction false} QueueEmpties(w: World, s: State, es: seq<Event>)
    requires Runs(w, s, es) && forall i :: 0 <= i < |es| ==> Works(es[i])
    ensures |es| + AllLeft(Final(w, s, es).tasks) <= AllLeft(s.tasks)
    decreases |es|
  {
    if es != [] {
      WorkRunsOut(w, s, es[0]);
      QueueEmpties(w, Next(w, s, es[0]), es[1..]);
    }
  }

  // ---- the table over any run ----

  /** Two SMB shares that agree in their last component, case aside. */
  ghost predicate Twins(rows: seq<Share>, d: string, e: string) {
    d != e && SmbName(d) == SmbName(e) && SmbShared(rows, d) && SmbShared(rows, e)
  }

  ghost predicate SmbShared(rows: seq<Share>, dataset: string) {
    exists x :: x in rows && x.smb && x.dataset == dataset
  }

  lemma TwinsAre(rows: seq<Share>)
    ensures NoTwins(rows) <==> forall d, e :: !Twins(rows, d, e)
  {
    if !NoTwins(rows) {
      var x, y :| x in rows && y in rows && x.smb && y.smb && x.dataset != y.dataset
        && SmbName(x.dataset) == SmbName(y.dataset);
      assert Twins(rows, x.dataset, y.dataset);
    }
  }

  lemma SetAddsNoTwins(rows: seq<Share>, mounts: Mounts, a: Wish, now: int, d: string, e: string)
    requires Sorted(rows) && ErrorOf(rows, mounts, a).None? && Twins(SetTo(rows, a, now), d, e)
    ensures Twins(rows, d, e)
  {
    var x :| x in SetTo(rows, a, now) && x.smb && x.dataset == d;
    var y :| y in SetTo(rows, a, now) && y.smb && y.dataset == e;
    SetAddsNoTwin(rows, mounts, a, now, x, y);
  }

  lemma DropAddsNoTwins(rows: seq<Share>, user: string, now: int, dataset: string)
    requires SmbShared(DropUser(rows, user, now), dataset)
    ensures SmbShared(rows, dataset)
  {
    var next := DropUser(rows, user, now);
    var i :| 0 <= i < |next| && next[i].smb && next[i].dataset == dataset;
    assert rows[i] in rows;
  }

  lemma StepSorted(w: World, s: State, e: Event)
    requires Sorted(s.rows) && Enabled(s, e)
    ensures Sorted(Next(w, s, e).rows)
  {
    match e
    case Set(wish, now) => SetLeaves(s.rows, wish, now, Wanted(s.rows, wish, now));
    case Remove(dataset) => RemovedSorted(s.rows, dataset);
    case RemoveUser(user, now) => DropKeeps(s.rows, user, now);
    case _ =>
  }

  lemma StepAddsNoTwins(w: World, s: State, e: Event, d: string, f: string)
    requires Sorted(s.rows) && Enabled(s, e) && Twins(Next(w, s, e).rows, d, f)
    ensures Twins(s.rows, d, f)
  {
    match e
    case Set(wish, now) =>
      if ErrorOf(s.rows, w.mounts, wish).None? {
        SetAddsNoTwins(s.rows, w.mounts, wish, now, d, f);
      }
    case RemoveUser(user, now) =>
      if Next(w, s, e) != s {
        DropAddsNoTwins(s.rows, user, now, d);
        DropAddsNoTwins(s.rows, user, now, f);
      }
    case _ =>
  }

  /**
   * No interleaving of the verbs gives two SMB shares one name, whatever table it began with: two that share one at the
   * end shared it at the beginning.
   */
  lemma {:induction false} RunAddsNoTwins(w: World, s: State, es: seq<Event>, d: string, e: string)
    requires Sorted(s.rows) && Runs(w, s, es) && Twins(Final(w, s, es).rows, d, e)
    ensures Twins(s.rows, d, e)
    decreases |es|
  {
    if es != [] {
      StepSorted(w, s, es[0]);
      RunAddsNoTwins(w, Next(w, s, es[0]), es[1..], d, e);
      StepAddsNoTwins(w, s, es[0], d, e);
    }
  }

  lemma {:induction false} RunSorted(w: World, s: State, es: seq<Event>)
    requires Sorted(s.rows) && Runs(w, s, es)
    ensures Sorted(Final(w, s, es).rows)
    decreases |es|
  {
    if es != [] {
      StepSorted(w, s, es[0]);
      RunSorted(w, Next(w, s, es[0]), es[1..]);
    }
  }

  /** So a table without doubles stays one, whatever else its rows hold. */
  lemma RunKeepsNames(w: World, s: State, es: seq<Event>)
    requires Sorted(s.rows) && NoTwins(s.rows) && Runs(w, s, es)
    ensures Sorted(Final(w, s, es).rows) && NoTwins(Final(w, s, es).rows)
  {
    RunSorted(w, s, es);
    TwinsAre(s.rows);
    forall d, e ensures !Twins(Final(w, s, es).rows, d, e) {
      if Twins(Final(w, s, es).rows, d, e) {
        RunAddsNoTwins(w, s, es, d, e);
        assert false;
      }
    }
    TwinsAre(Final(w, s, es).rows);
  }

  ghost predicate Own(rows: seq<Share>) { Sorted(rows) && NoTwins(rows) && forall x :: x in rows ==> Sound(x) }

  lemma StepKeepsOwn(w: World, s: State, e: Event)
    requires Own(s.rows) && Enabled(s, e)
    ensures Own(Next(w, s, e).rows)
  {
    match e
    case Set(wish, now) =>
      if ErrorOf(s.rows, w.mounts, wish).None? {
        UpsertIs(s.rows, Wanted(s.rows, wish, now));
        RemovedSorted(s.rows, wish.dataset);
        SetKeepsNames(s.rows, w.mounts, wish, now);
        SetKeepsSound(s.rows, w.mounts, wish, now);
      }
    case Remove(dataset) => RemoveKeeps(s.rows, dataset);
    case RemoveUser(user, now) => DropKeeps(s.rows, user, now);
    case _ =>
  }

  /**
   * No interleaving of the verbs stores a row left out of the files: when every row was one share.set could have
   * written, what the last regeneration writes has every share of the table.
   */
  lemma {:induction false} RunKeepsOwn(w: World, s: State, es: seq<Event>)
    requires Own(s.rows) && Runs(w, s, es)
    ensures Own(Final(w, s, es).rows) && Listed(Final(w, s, es).rows) == Final(w, s, es).rows
    decreases |es|
  {
    if es == [] {
      OwnTableIsListed(s.rows);
    } else {
      StepKeepsOwn(w, s, es[0]);
      RunKeepsOwn(w, Next(w, s, es[0]), es[1..]);
    }
  }

  // ---- the agent ----

  class Agent {
    const world: World
    const db: ShareDb
    var tasks: seq<Task>
    var smbConf: string
    var exports: string

    constructor (world: World, rows: seq<Share>, smbConf: string, exports: string)
      ensures this.world == world && Now() == State(rows, [], smbConf, exports) && fresh(db)
    {
      this.world := world;
      db := new ShareDb(rows);
      tasks, this.smbConf, this.exports := [], smbConf, exports;
    }

    ghost function Now(): State
      reads this, db
    {
      State(db.rows, tasks, smbConf, exports)
    }

    method SetShare(wish: Wish, now: int) returns (error: Option<Error>)
      modifies this, db
      ensures error == ErrorOf(old(Now()).rows, world.mounts, wish)
      ensures Now() == Next(world, old(Now()), Set(wish, now))
    {
      error := ErrorOf(db.rows, world.mounts, wish);
      if error.Some? {
        return;
      }
      var row := Wanted(db.rows, wish, now);
      if !row.smb && !row.nfs {
        var changed := db.RemoveShare(wish.dataset);
      } else {
        db.SetShare(row);
      }
      tasks := tasks + [Waiting];
    }

    method RemoveShare(dataset: string) returns (error: Option<Error>)
      modifies this, db
      ensures Now() == Next(world, old(Now()), Remove(dataset))
      ensures error.None? <==> IsDataset(dataset) && exists x :: x in old(Now()).rows && x.dataset == dataset
    {
      if !IsDataset(dataset) {
        return Some(NotADataset);
      }
      FindFinds(db.rows, dataset);
      NothingRemoved(db.rows, dataset);
      var changed := db.RemoveShare(dataset);
      if !changed {
        return Some(NotShared);
      }
      tasks := tasks + [Waiting];
      error := None;
    }

    /** The part that reaches the shares; the account itself is not here. */
    method RemoveUserFromShares(user: string, now: int)
      requires IsUser(user) && Sorted(db.rows)
      modifies this, db
      ensures Now() == Next(world, old(Now()), RemoveUser(user, now))
    {
      NobodyDropped(db.rows, user, now);
      var changed := db.DropSmbUserFromShares(user, now);
      if changed {
        tasks := tasks + [Waiting];
      }
    }
  }

  lemma {:induction false} NothingRemoved(rows: seq<Share>, dataset: string)
    ensures Find(rows, dataset).None? ==> Removed(rows, dataset) == rows
    decreases |rows|
  {
    if rows != [] {
      NothingRemoved(rows[1..], dataset);
    }
  }

  lemma {:induction false} NobodyLists(rows: seq<Share>, user: string, i: nat)
    requires !AnyLists(rows, user) && i < |rows|
    ensures !Lists(rows[i], user)
    decreases |rows|
  {
    if i < |rows| - 1 {
      NobodyLists(rows[..|rows| - 1], user, i);
    }
  }

  lemma NobodyDropped(rows: seq<Share>, user: string, now: int)
    ensures !AnyLists(rows, user) ==> DropUser(rows, user, now) == rows
  {
    if !AnyLists(rows, user) {
      forall i | 0 <= i < |rows| ensures DropUser(rows, user, now)[i] == rows[i] {
        NobodyLists(rows, user, i);
      }
    }
  }
}
