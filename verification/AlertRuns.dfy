/**
 * Alerts over any history of evaluations and acknowledgements: how long a row is open, since when, and what it says.
 */
module AlertRuns {
  import opened Text
  import opened Alerts

  datatype Event = Evaluated(cs: seq<Condition>, now: int) | Acknowledged(key: string, now: int)

  function AckRow(row: Option<Row>, now: int): Option<Row> {
    if Opened(row) && row.value.acked.None? then Some(row.value.(acked := Some(now))) else row
  }

  function Step(row: Option<Row>, e: Event, key: string): Option<Row> {
    match e
    case Evaluated(cs, now) => RowAfter(row, cs, key, now)
    case Acknowledged(k, now) => if k == key then AckRow(row, now) else row
  }

  /** A key's row after a history that begins with an empty table. */
  function RowAt(es: seq<Event>, key: string): Option<Row> {
    if es == [] then None else Step(RowAt(Front(es), key), es[|es| - 1], key)
  }

  /** The database goes through the history row by row like that. */
  method Replay(es: seq<Event>) returns (db: Db)
    ensures forall key :: Get(db.rows, key) == RowAt(es, key)
  {
    db := new Db();
    for i := 0 to |es|
      invariant fresh(db)
      invariant forall key :: Get(db.rows, key) == RowAt(es[..i], key)
    {
      assert Front(es[..i + 1]) == es[..i];
      ghost var was := db.rows;
      match es[i] {
        case Evaluated(cs, now) => db.Evaluate(cs, now);
        case Acknowledged(key, now) =>
          var changed := db.AckAlert(key, now);
          AckedAt(was, key, now);
      }
      assert forall key :: Get(db.rows, key) == Step(Get(was, key), es[i], key);
    }
    assert es[..|es|] == es;
  }

  lemma AckedAt(rows: Table, k: string, now: int)
    ensures
      forall key :: Get(Acked(rows, k, now), key) == if k == key then AckRow(Get(rows, key), now) else Get(rows, key)
  {
  }

  // ---- stretches ----

  predicate Raises(e: Event, key: string) { e.Evaluated? && Holds(e.cs, key) }

  /** Evaluation `i` is the first of an uninterrupted stretch of evaluations with the key, which lasts to the end. */
  ghost predicate Starts(es: seq<Event>, key: string, i: nat) {
    && i < |es| && Raises(es[i], key)
    && (forall j :: i < j < |es| && es[j].Evaluated? ==> Raises(es[j], key))
    && (forall j :: 0 <= j < i && Raises(es[j], key) ==>
      exists k :: j < k < i && es[k].Evaluated? && !Raises(es[k], key))
  }

  /** The first acknowledgement of the key after evaluation `i`. */
  ghost predicate FirstAck(es: seq<Event>, key: string, i: nat, j: nat) {
    i < j < |es| && es[j].Acknowledged? && es[j].key == key
    && forall k :: i < k < j ==> !(es[k].Acknowledged? && es[k].key == key)
  }

  /** An open row tells its stretch: since when, and its first acknowledgement. */
  ghost predicate Tells(es: seq<Event>, key: string, i: nat, row: Option<Row>) {
    && i < |es| && Opened(row)
    && row.value.since == row.value.raisedAt == es[i].now && row.value.confirmedAt == es[i].now + 60_000
    && (row.value.acked.Some? <==> exists j: nat :: FirstAck(es, key, i, j))
    && (forall j: nat :: FirstAck(es, key, i, j) ==> row.value.acked == Some(es[j].now))
  }

  lemma {:induction false} FindStart(es: seq<Event>, key: string, j: nat) returns (i: nat)
    requires j < |es| && Raises(es[j], key) && forall k :: j < k < |es| && es[k].Evaluated? ==> Raises(es[k], key)
    ensures Starts(es, key, i)
    decreases j
  {
    i := j;
    if !Starts(es, key, j) {
      var h :| 0 <= h < j && Raises(es[h], key) && !exists k :: h < k < j && es[k].Evaluated? && !Raises(es[k], key);
      i := FindStart(es, key, h);
    }
  }

  lemma StartsAfterAck(es: seq<Event>, key: string, i: nat)
    requires es != [] && es[|es| - 1].Acknowledged?
    ensures Starts(es, key, i) <==> Starts(Front(es), key, i)
  {
    assert forall j :: 0 <= j < |es| - 1 ==> Front(es)[j] == es[j];
    if Starts(Front(es), key, i) {
      forall j | 0 <= j < i && Raises(es[j], key)
        ensures exists k :: j < k < i && es[k].Evaluated? && !Raises(es[k], key)
      {
        var k :| j < k < i && Front(es)[k].Evaluated? && !Raises(Front(es)[k], key);
        assert es[k].Evaluated? && !Raises(es[k], key);
      }
    }
    if Starts(es, key, i) {
      forall j | 0 <= j < i && Raises(Front(es)[j], key)
        ensures exists k :: j < k < i && Front(es)[k].Evaluated? && !Raises(Front(es)[k], key)
      {
        var k :| j < k < i && es[k].Evaluated? && !Raises(es[k], key);
        assert Front(es)[k].Evaluated? && !Raises(Front(es)[k], key);
      }
    }
  }

  lemma StartsAfterTrue(es: seq<Event>, key: string, i: nat)
    requires es != [] && Raises(es[|es| - 1], key) && i < |es| - 1
    ensures Starts(es, key, i) <==> Starts(Front(es), key, i)
  {
    var f := Front(es);
    assert forall j :: 0 <= j < |f| ==> f[j] == es[j];
    if Starts(f, key, i) {
      forall j | 0 <= j < i && Raises(es[j], key)
        ensures exists k :: j < k < i && es[k].Evaluated? && !Raises(es[k], key)
      {
        var k :| j < k < i && f[k].Evaluated? && !Raises(f[k], key);
        assert es[k].Evaluated? && !Raises(es[k], key);
      }
    }
    if Starts(es, key, i) {
      forall j | 0 <= j < i && Raises(f[j], key)
        ensures exists k :: j < k < i && f[k].Evaluated? && !Raises(f[k], key)
      {
        var k :| j < k < i && es[k].Evaluated? && !Raises(es[k], key);
        assert f[k].Evaluated? && !Raises(f[k], key);
      }
    }
  }

  /** A new stretch begins with the last evaluation exactly when none was going on before it. */
  lemma StartsNow(es: seq<Event>, key: string)
    requires es != [] && Raises(es[|es| - 1], key)
    ensures Starts(es, key, |es| - 1) <==> forall i: nat :: !Starts(Front(es), key, i)
  {
    var f, n := Front(es), |es| - 1;
    assert forall j :: 0 <= j < n ==> f[j] == es[j];
    if Starts(es, key, n) {
      forall i: nat ensures !Starts(f, key, i) {
      }
    }
    if forall i: nat :: !Starts(f, key, i) {
      forall j | 0 <= j < n && Raises(es[j], key)
        ensures exists k :: j < k < n && es[k].Evaluated? && !Raises(es[k], key)
      {
        if forall k :: j < k < n && es[k].Evaluated? ==> Raises(es[k], key) {
          var i := FindStart(f, key, j);
          assert false;
        }
      }
    }
  }

  lemma AcksBefore(es: seq<Event>, key: string, i: nat)
    requires es != [] && i < |es| - 1
    ensures forall j: nat :: j < |es| - 1 ==> (FirstAck(es, key, i, j) <==> FirstAck(Front(es), key, i, j))
    ensures
      FirstAck(es, key, i, |es| - 1) <==>
        es[|es| - 1].Acknowledged? && es[|es| - 1].key == key && forall j: nat :: !FirstAck(Front(es), key, i, j)
  {
    var f, n := Front(es), |es| - 1;
    assert forall j :: 0 <= j < n ==> f[j] == es[j];
    if forall j: nat :: !FirstAck(f, key, i, j) {
      forall j | i < j < n ensures !(es[j].Acknowledged? && es[j].key == key) {
        if es[j].Acknowledged? && es[j].key == key {
          var first := FindAck(f, key, i, j);
          assert false;
        }
      }
    }
    forall j: nat | FirstAck(f, key, i, j) ensures !FirstAck(es, key, i, n) {
      assert es[j] == f[j];
    }
  }

  lemma {:induction false} FindAck(es: seq<Event>, key: string, i: nat, j: nat) returns (first: nat)
    requires i < j < |es| && es[j].Acknowledged? && es[j].key == key
    ensures FirstAck(es, key, i, first)
    decreases j
  {
    first := j;
    if h :| i < h < j && es[h].Acknowledged? && es[h].key == key {
      first := FindAck(es, key, i, h);
    }
  }

  lemma TellsOn(es: seq<Event>, key: string, i: nat, row: Option<Row>)
    requires es != [] && i < |es| - 1 && Tells(Front(es), key, i, row)
    requires es[|es| - 1].Evaluated? ==> Raises(es[|es| - 1], key)
    ensures Tells(es, key, i, Step(row, es[|es| - 1], key))
  {
    AcksBefore(es, key, i);
    assert Front(es)[i] == es[i];
    forall j: nat | FirstAck(Front(es), key, i, j) ensures FirstAck(es, key, i, j) && es[j] == Front(es)[j] {
    }
  }

  /**
   * After any history, a key has an open row exactly when it is in an uninterrupted stretch of evaluations, and the row
   * tells that stretch: since its first evaluation, acknowledged by its first acknowledgement and by no earlier one.
   */
  lemma {:induction false} OpenRowsTellStretches(es: seq<Event>, key: string)
    ensures Opened(RowAt(es, key)) <==> exists i: nat :: Starts(es, key, i)
    ensures forall i: nat :: Starts(es, key, i) ==> Tells(es, key, i, RowAt(es, key))
    decreases |es|
  {
    if es != [] {
      var f, e := Front(es), es[|es| - 1];
      OpenRowsTellStretches(f, key);
      if e.Acknowledged? {
        forall i: nat ensures Starts(es, key, i) <==> Starts(f, key, i) {
          StartsAfterAck(es, key, i);
        }
        forall i: nat | Starts(es, key, i) ensures Tells(es, key, i, RowAt(es, key)) {
          TellsOn(es, key, i, RowAt(f, key));
        }
      } else if Raises(e, key) {
        StretchGoesOn(es, key);
      } else {
        forall i: nat ensures !Starts(es, key, i) {
        }
      }
    }
  }

  lemma StretchGoesOn(es: seq<Event>, key: string)
    requires es != [] && Raises(es[|es| - 1], key)
    requires Opened(RowAt(Front(es), key)) <==> exists i: nat :: Starts(Front(es), key, i)
    requires forall i: nat :: Starts(Front(es), key, i) ==> Tells(Front(es), key, i, RowAt(Front(es), key))
    ensures Opened(RowAt(es, key)) && exists i: nat :: Starts(es, key, i)
    ensures forall i: nat :: Starts(es, key, i) ==> Tells(es, key, i, RowAt(es, key))
  {
    var f, n := Front(es), |es| - 1;
    StartsNow(es, key);
    if i: nat :| Starts(f, key, i) {
      StartsAfterTrue(es, key, i);
    }
    forall i: nat | Starts(es, key, i) ensures Tells(es, key, i, RowAt(es, key)) {
      if i < n {
        StartsAfterTrue(es, key, i);
        TellsOn(es, key, i, RowAt(f, key));
      } else {
        assert !Opened(RowAt(f, key));
        assert forall j: nat :: !FirstAck(es, key, n, j);
      }
    }
  }

  // ---- when it was last seen, and how long it is kept ----

  /** When the last evaluation was. */
  function LastEvaluated(es: seq<Event>): Option<int> {
    if es == [] then None
    else if es[|es| - 1].Evaluated? then Some(es[|es| - 1].now)
    else LastEvaluated(Front(es))
  }

  /** An open row was last seen by the last evaluation; a cleared one when it was cleared. */
  lemma {:induction false} LastSeenIs(es: seq<Event>, key: string)
    ensures
      RowAt(es, key).Some? ==>
        var row := RowAt(es, key).value;
        if row.cleared.None? then LastEvaluated(es) == Some(row.lastSeen) else row.cleared == Some(row.lastSeen)
    decreases |es|
  {
    if es != [] {
      LastSeenIs(Front(es), key);
    }
  }

  /** No evaluation raises the key. */
  ghost predicate Quiet(es: seq<Event>, key: string) { forall i :: 0 <= i < |es| ==> !Raises(es[i], key) }

  /** No evaluation comes more than a month, thirty days of milliseconds, after this time. */
  ghost predicate WithinMonth(es: seq<Event>, since: int) {
    forall i :: 0 <= i < |es| && es[i].Evaluated? ==> es[i].now <= since + 2_592_000_000
  }

  /**
   * An open row whose key is no longer raised is cleared at that evaluation. While the key is not raised again it stays
   * as it was cleared, for exactly a month: until an evaluation that comes later than that.
   */
  lemma {:induction false} ClearedStaysExactly(
      es: seq<Event>, cs: seq<Condition>, now: int, later: seq<Event>, key: string)
    requires Opened(RowAt(es, key)) && !Holds(cs, key) && Quiet(later, key)
    ensures
      RowAt(es + [Evaluated(cs, now)] + later, key)
      == if WithinMonth(later, now)
         then Some(RowAt(es, key).value.(cleared := Some(now), lastSeen := now)) else None
    decreases |later|
  {
    var upto := es + [Evaluated(cs, now)];
    if later == [] {
      assert upto + later == upto && Front(upto) == es;
    } else {
      assert Front(upto + later) == upto + Front(later) && (upto + later)[|upto + later| - 1] == later[|later| - 1];
      assert forall i :: 0 <= i < |later| - 1 ==> Front(later)[i] == later[i];
      ClearedStaysExactly(es, cs, now, Front(later), key);
      WithinFront(later, now);
    }
  }

  lemma WithinFront(es: seq<Event>, since: int)
    requires es != []
    ensures
      WithinMonth(es, since) <==>
      WithinMonth(Front(es), since) && (es[|es| - 1].Evaluated? ==> es[|es| - 1].now <= since + 2_592_000_000)
  {
    assert forall i :: 0 <= i < |es| - 1 ==> Front(es)[i] == es[i];
    if WithinMonth(es, since) {
      forall i | 0 <= i < |Front(es)| && Front(es)[i].Evaluated? ensures Front(es)[i].now <= since + 2_592_000_000 {
        assert es[i].Evaluated?;
      }
    }
  }

  // ---- what an open row says ----

  /** All conditions with the key say the same. */
  ghost predicate Agrees(cs: seq<Condition>, key: string, wording: Wording) {
    forall i :: 0 <= i < |cs| && cs[i].key == key ==> cs[i].wording == wording
  }

  lemma {:induction false} LastAgrees(cs: seq<Condition>, key: string, was: Option<Wording>, wording: Wording)
    requires Agrees(cs, key, wording) && (was == Some(wording) || Holds(cs, key))
    ensures Last(cs, key, was) == Some(wording)
    decreases |cs|
  {
    if cs != [] && !(cs[|cs| - 1].key == key && was != Some(cs[|cs| - 1].wording)) {
      assert forall i :: 0 <= i < |cs| - 1 ==> Front(cs)[i] == cs[i];
      HoldsFront(cs, key);
      LastAgrees(Front(cs), key, was, wording);
    }
  }

  /** When all conditions of a key agree, its row says what they say, whatever it said before. */
  lemma RowSaysWhatIsTrue(es: seq<Event>, cs: seq<Condition>, now: int, key: string, wording: Wording)
    requires Holds(cs, key) && Agrees(cs, key, wording)
    ensures
      var row := RowAt(es + [Evaluated(cs, now)], key);
      Opened(row) && row.value.wording == wording && row.value.lastSeen == now
  {
    var more := es + [Evaluated(cs, now)];
    assert Front(more) == es;
    var row := RowAt(es, key);
    LastAgrees(cs, key, if Opened(row) then Some(row.value.wording) else None, wording);
  }

  /** A row's wording stays over the same conditions exactly when none of them says another thing. */
  lemma {:induction false} WordingStaysExactly(cs: seq<Condition>, key: string, wording: Wording)
    ensures Last(cs, key, Some(wording)) == Some(wording) <==> Agrees(cs, key, wording)
    decreases |cs|
  {
    if cs != [] {
      WordingStaysExactly(Front(cs), key, wording);
      assert forall i :: 0 <= i < |cs| - 1 ==> Front(cs)[i] == cs[i];
      if Agrees(Front(cs), key, wording) && !(cs[|cs| - 1].key == key && cs[|cs| - 1].wording != wording) {
        assert Agrees(cs, key, wording);
      }
    }
  }

  /** So two conditions with one key that disagree make its row say another thing at every evaluation. */
  lemma DisagreeingFlaps(es: seq<Event>, cs: seq<Condition>, now: int, key: string, i: nat, j: nat)
    requires i < j < |cs| && cs[i].key == cs[j].key == key && cs[i].wording != cs[j].wording
    requires Opened(RowAt(es, key))
    ensures
      var row := RowAt(es + [Evaluated(cs, now)], key);
      Opened(row) && row.value.wording != RowAt(es, key).value.wording
  {
    var more := es + [Evaluated(cs, now)];
    assert Front(more) == es;
    assert Holds(cs, key);
    WordingStaysExactly(cs, key, RowAt(es, key).value.wording);
    LastIsSome(cs, key, Some(RowAt(es, key).value.wording));
  }
}
