/** What a prune takes, told by the names as they are written. */
module ReplicationPrune {
  import opened Text
  import opened ReplicationNames
  import opened Replication
  import opened ReplicationRuns

  /** How many of these names are the replication's. */
  ghost function Count(names: seq<string>, id: nat, alone: bool): nat {
    if names == [] then 0 else (if Named(names[0], id, alone) then 1 else 0) + Count(names[1..], id, alone)
  }

  lemma {:induction false} OwnCount(names: seq<string>, id: nat, alone: bool)
    ensures |OwnSnapshots(names, id, alone)| == Count(names, id, alone)
  {
    if names != [] {
      MineExactly(names[0], id, alone);
      OwnCount(names[1..], id, alone);
    }
  }

  /** The replication's names around one of them. */
  lemma OwnAround(listed: seq<string>, i: nat, id: nat, alone: bool)
    requires i < |listed| && IsMine(listed[i], id, alone)
    ensures
      OwnSnapshots(listed, id, alone)
      == OwnSnapshots(listed[..i], id, alone) + [listed[i]] + OwnSnapshots(listed[i + 1..], id, alone)
  {
    assert listed == listed[..i] + ([listed[i]] + listed[i + 1..]);
    OwnConcat(listed[..i], [listed[i]] + listed[i + 1..], id, alone);
    OwnConcat([listed[i]], listed[i + 1..], id, alone);
    OwnOne(listed[i], id, alone);
  }

  lemma OwnOne(name: string, id: nat, alone: bool)
    requires IsMine(name, id, alone)
    ensures OwnSnapshots([name], id, alone) == [name]
  {
    assert [name][1..] == [];
  }

  lemma NewerInParts(before: seq<string>, name: string, rest: seq<string>)
    requires Distinct(before + [name] + rest)
    ensures NewerThan(before + [name] + rest, name) == |rest|
  {
    var all := before + [name] + rest;
    assert all[|before|] == name;
    NewerAt(all, |before|);
  }

  /** The names counted when the prune looks: the listed ones, and the fresh one behind them if it was not listed. */
  lemma MineDistinct(listed: seq<string>, latest: string, id: nat, alone: bool)
    requires Distinct(listed) && Own(latest, id)
    ensures Distinct(MineWith(listed, latest, id, alone))
    ensures
      MineWith(listed, latest, id, alone)
      == OwnSnapshots(listed, id, alone) + if latest in listed then [] else [latest]
  {
    OwnDistinct(listed, id, alone);
    var mine := OwnSnapshots(listed, id, alone);
    assert mine + [] == mine;
  }

  lemma NewerIsCount(listed: seq<string>, latest: string, id: nat, alone: bool, i: nat)
    requires Distinct(listed) && Own(latest, id) && i < |listed| && IsMine(listed[i], id, alone)
    ensures listed[i] in MineWith(listed, latest, id, alone)
    ensures
      NewerThan(MineWith(listed, latest, id, alone), listed[i])
      == Count(listed[i + 1..], id, alone) + if latest in listed then 0 else 1
  {
    var front, rest := OwnSnapshots(listed[..i], id, alone), OwnSnapshots(listed[i + 1..], id, alone);
    var behind := if latest in listed then [] else [latest];
    OwnAround(listed, i, id, alone);
    OwnCount(listed[i + 1..], id, alone);
    MineDistinct(listed, latest, id, alone);
    Associates(front + [listed[i]], rest, behind);
    NewerInParts(front, listed[i], rest + behind);
  }

  /**
   * Exactly what goes, of what was listed: the names that are written as the replication's, with at least `keep` such
   * names behind them in the listing, the fresh one counted even if the listing had lost it.
   */
  lemma OldExactly(c: Config, listed: seq<string>, latest: string, alone: bool, i: nat)
    requires Distinct(listed) && Own(latest, c.id) && i < |listed|
    ensures
      listed[i] in OldNames(c, listed, latest, alone) <==>
      && Named(listed[i], c.id, alone)
      && Count(listed[i + 1..], c.id, alone) + (if latest in listed then 0 else 1) >= c.keep
  {
    MineExactly(listed[i], c.id, alone);
    MineDistinct(listed, latest, c.id, alone);
    if IsMine(listed[i], c.id, alone) {
      NewerIsCount(listed, latest, c.id, alone, i);
      BeyondIffNewer(MineWith(listed, latest, c.id, alone), listed[i], c.keep);
    }
  }

  /** Nothing else goes. */
  lemma OldIsListed(c: Config, listed: seq<string>, latest: string, alone: bool, name: string)
    requires c.keep >= 1 && Own(latest, c.id) && name in OldNames(c, listed, latest, alone)
    ensures name in listed && Named(name, c.id, alone)
  {
    var mine := MineWith(listed, latest, c.id, alone);
    var i :| 0 <= i < |mine| - c.keep && mine[i] == name;
    MineExactly(name, c.id, alone);
  }

  /** The same snapshots from before ids on either side. */
  ghost predicate SameLegacy(s: State, t: State) {
    forall st: string, born: nat :: IsStamp(st) ==>
      var a := Snap("repl-" + st, born);
      (a in t.local <==> a in s.local) && (a in t.remote <==> a in s.remote)
  }

  /**
   * While two replications share the dataset a prune takes names with the replication's id alone. Every snapshot from
   * before ids stays on both sides, whatever else is listed and whatever fails.
   */
  lemma LegacyStays(c: Config, s: State, listed: seq<string>, latest: string, oks: seq<bool>)
    requires |oks| == |Queue(OldNames(c, listed, latest, false))| && Own(latest, c.id)
    ensures forall name :: name in OldNames(c, listed, latest, false) ==> StartsWith(name, "repl-" + Dec(c.id) + "-")
    ensures SameLegacy(s, Pruned(s, Queue(OldNames(c, listed, latest, false)), oks))
  {
    var olds := OldNames(c, listed, latest, false);
    PrunedKeeps(s, Queue(olds), oks);
    OldAreOwn(c, listed, latest);
    forall st: string, born: nat | IsStamp(st)
      ensures
        var a := Snap("repl-" + st, born);
        var t := Pruned(s, Queue(olds), oks);
        (a in t.local <==> a in s.local) && (a in t.remote <==> a in s.remote)
    {
      OldIsNoLegacy(c, olds, st);
      assert forall i :: 0 <= i < |Queue(olds)| ==> Queue(olds)[i] in Queue(olds);
    }
  }

  lemma OldAreOwn(c: Config, listed: seq<string>, latest: string)
    requires Own(latest, c.id)
    ensures forall name :: name in OldNames(c, listed, latest, false) ==> Own(name, c.id)
    ensures forall name :: name in OldNames(c, listed, latest, false) ==> StartsWith(name, "repl-" + Dec(c.id) + "-")
  {
    var mine := MineWith(listed, latest, c.id, false);
    forall name | name in OldNames(c, listed, latest, false)
      ensures Own(name, c.id) && StartsWith(name, "repl-" + Dec(c.id) + "-")
    {
      assert name in mine;
    }
  }

  lemma OldIsNoLegacy(c: Config, olds: seq<string>, st: string)
    requires IsStamp(st) && forall name :: name in olds ==> Own(name, c.id)
    ensures "repl-" + st !in olds
  {
    var name := "repl-" + st;
    assert name[5..] == st && name[..5] == "repl-";
    LegacyIsNobodys(name, c.id);
  }

  /**
   * And alone on the dataset it takes them as its own: the stamped name of a run before ids, once enough came after it.
   */
  lemma LegacyGoes(c: Config, listed: seq<string>, latest: string, t: Time, i: nat)
    requires Distinct(listed) && Own(latest, c.id) && i < |listed|
    requires t.Valid() && 0 <= t.year <= 9999 && listed[i] == "repl-" + Stamp(t)
    requires Count(listed[i + 1..], c.id, true) >= c.keep
    ensures listed[i] in OldNames(c, listed, latest, true)
  {
    StampShape(t);
    OldExactly(c, listed, latest, true, i);
  }

  // ---- the order of the destroys ----

  /** Names here go before the same names there, and none goes before an older one has gone on both sides. */
  lemma {:induction false} OldestFirst(olds: seq<string>, i: nat)
    requires i < |olds|
    ensures Queue(olds)[2 * i] == Here(olds[i]) && Queue(olds)[2 * i + 1] == There(olds[i])
    decreases i
  {
    if i > 0 {
      OldestFirst(olds[1..], i - 1);
      Shifted([Here(olds[0]), There(olds[0])], Queue(olds[1..]), 2 * (i - 1));
    }
  }

  lemma Shifted(two: seq<Destroy>, rest: seq<Destroy>, k: nat)
    requires |two| == 2 && k + 1 < |rest|
    ensures (two + rest)[k + 2] == rest[k] && (two + rest)[k + 3] == rest[k + 1]
  {}

  /**
   * Wherever a prune stops, while its destroys succeed: exactly the oldest names are gone, as many here as on the
   * target or one more. So the target never lacks a snapshot that is still here and that this prune was to take.
   */
  lemma StoppedPrune(s: State, olds: seq<string>, m: nat)
    requires m <= 2 * |olds|
    ensures
      var t := Pruned(s, Queue(olds)[..m], seq(m, _ => true));
      && (forall a :: a in t.local <==> a in s.local && a.name !in olds[..(m + 1) / 2])
      && (forall a :: a in t.remote <==> a in s.remote && a.name !in olds[..m / 2])
  {
    var queue, oks := Queue(olds)[..m], seq(m, _ => true);
    PrunedKeeps(s, queue, oks);
    forall n ensures n in olds[..(m + 1) / 2] <==> Here(n) in queue {
      HereGone(olds, m, n);
    }
    forall n ensures n in olds[..m / 2] <==> There(n) in queue {
      ThereGone(olds, m, n);
    }
    assert forall d :: d in queue <==> exists i :: 0 <= i < |queue| && oks[i] && queue[i] == d;
  }

  /** What stands at a place of the queue. */
  lemma PlaceIs(olds: seq<string>, k: nat) returns (i: nat)
    requires k < 2 * |olds|
    ensures i < |olds| && (k == 2 * i || k == 2 * i + 1)
    ensures Queue(olds)[k] == if k == 2 * i then Here(olds[i]) else There(olds[i])
  {
    i := k / 2;
    OldestFirst(olds, i);
    assert k == 2 * i || k == 2 * i + 1;
  }

  lemma HereGone(olds: seq<string>, m: nat, n: string)
    requires m <= 2 * |olds|
    ensures n in olds[..(m + 1) / 2] <==> Here(n) in Queue(olds)[..m]
  {
    if n in olds[..(m + 1) / 2] {
      var i :| 0 <= i < (m + 1) / 2 && olds[i] == n;
      OldestFirst(olds, i);
      InQueue(Queue(olds), m, 2 * i);
    }
    if Here(n) in Queue(olds)[..m] {
      var k :| 0 <= k < m && Queue(olds)[k] == Here(n);
      var i := PlaceIs(olds, k);
      assert olds[..(m + 1) / 2][i] == n;
    }
  }

  lemma ThereGone(olds: seq<string>, m: nat, n: string)
    requires m <= 2 * |olds|
    ensures n in olds[..m / 2] <==> There(n) in Queue(olds)[..m]
  {
    if n in olds[..m / 2] {
      var i :| 0 <= i < m / 2 && olds[i] == n;
      OldestFirst(olds, i);
      InQueue(Queue(olds), m, 2 * i + 1);
    }
    if There(n) in Queue(olds)[..m] {
      var k :| 0 <= k < m && Queue(olds)[k] == There(n);
      var i := PlaceIs(olds, k);
      assert olds[..m / 2][i] == n;
    }
  }

  lemma InQueue(queue: seq<Destroy>, m: nat, k: nat)
    requires k < m <= |queue|
    ensures queue[k] in queue[..m]
  {
    assert queue[..m][k] == queue[k];
  }

  // ---- the loop as it runs ----

  /** The two datasets a replication joins, as its prune loop changes them. */
  class Sides {
    var local: seq<Snap>
    var remote: seq<Snap>

    constructor (local: seq<Snap>, remote: seq<Snap>)
      ensures this.local == local && this.remote == remote
    {
      this.local, this.remote := local, remote;
    }

    ghost function Now(): State reads this { State(local, remote, true, None, 0, Idle) }

    /** One zfs destroy, which may be refused. */
    method RunDestroy(d: Destroy, ok: bool)
      modifies this
      ensures Now() == if ok then Destroyed(old(Now()), d) else old(Now())
    {
      if ok {
        if d.Here? {
          local := Without(local, d.name);
        } else {
          remote := Without(remote, d.name);
        }
      }
    }

    /** Oldest first, this side and then the other; `answers` is how each destroy ends. */
    method DestroyOld(c: Config, listed: seq<string>, latest: string, alone: bool, answers: seq<bool>)
      requires |answers| == |Queue(OldNames(c, listed, latest, alone))|
      modifies this
      ensures Now() == Pruned(old(Now()), Queue(OldNames(c, listed, latest, alone)), answers)
      ensures !alone && Own(latest, c.id) ==> SameLegacy(old(Now()), Now())
    {
      var mine := OwnSnapshots(listed, c.id, alone);
      if latest !in mine {
        mine := mine + [latest];
      }
      if !alone && Own(latest, c.id) {
        LegacyStays(c, Now(), listed, latest, answers);
      }
      var olds := mine[..if |mine| > c.keep then |mine| - c.keep else 0];
      var answered := answers;
      ghost var end := Pruned(Now(), Queue(OldNames(c, listed, latest, alone)), answers);
      assert olds == OldNames(c, listed, latest, alone);
      while olds != []
        invariant |Queue(olds)| == |answered|
        invariant Pruned(Now(), Queue(olds), answered) == end
        decreases |olds|
      {
        PrunedStep(Now(), olds, answered);
        RunDestroy(Destroy.Here(olds[0]), answered[0]);
        RunDestroy(Destroy.There(olds[0]), answered[1]);
        olds, answered := olds[1..], answered[2..];
      }
    }
  }

  lemma PrunedStep(s: State, olds: seq<string>, oks: seq<bool>)
    requires olds != [] && |oks| == |Queue(olds)|
    ensures |oks| >= 2 && |Queue(olds[1..])| == |oks[2..]|
    ensures
      var s1 := if oks[0] then Destroyed(s, Here(olds[0])) else s;
      var s2 := if oks[1] then Destroyed(s1, There(olds[0])) else s1;
      Pruned(s, Queue(olds), oks) == Pruned(s2, Queue(olds[1..]), oks[2..])
  {
    var q := Queue(olds);
    assert q[1..][1..] == Queue(olds[1..]) && oks[1..][1..] == oks[2..];
    assert q[0] == Here(olds[0]) && q[1..][0] == There(olds[0]) && oks[1..][0] == oks[1];
  }
}
