/**
 * The alert about scans: its key can come twice, since a whole stretch of history is read, and then its text may not
 * settle.
 */
module AlertScans {
  import opened Text
  import opened Alerts
  import opened AlertRuns
  import opened AlertConditions
  import opened AlertLooks

  /** All failed scans of the target say the same. */
  ghost predicate ScansAgree(scans: seq<Scan>, target: string, wording: Wording) {
    forall i :: 0 <= i < |scans| && scans[i].failed && scans[i].target == target ==> ScanSays(scans[i]) == wording
  }

  /** What is said under a scan's key is what the failed scans of the target say. */
  lemma OnlyScansSay(r: Reading, held: string -> bool, target: string, wording: Wording)
    ensures Agrees(ConditionsOf(r, held), ScanKey(target), wording) <==> ScansAgree(r.scans, target, wording)
  {
    SaidIs(ConditionsOf(r, held), ScanKey(target));
    forall w ensures w in Said(ConditionsOf(r, held), ScanKey(target)) <==> ScanCalls(target)(r, w) {
      ScanIsSaid(r, held, target, w);
    }
    AllSay(Said(ConditionsOf(r, held), ScanKey(target)), r, target, wording);
  }

  lemma AllSay(said: seq<Wording>, r: Reading, target: string, wording: Wording)
    requires forall w :: w in said <==> ScanCalls(target)(r, w)
    ensures (forall w :: w in said ==> w == wording) <==> ScansAgree(r.scans, target, wording)
  {
    if forall w :: w in said ==> w == wording {
      forall i | 0 <= i < |r.scans| && r.scans[i].failed && r.scans[i].target == target
        ensures ScanSays(r.scans[i]) == wording
      {
        assert r.scans[i] in r.scans && ScanCalls(target)(r, ScanSays(r.scans[i]));
      }
    }
    if ScansAgree(r.scans, target, wording) {
      forall w | w in said ensures w == wording {
        var s :| s in r.scans && s.target == target && s.failed && w == ScanSays(s);
        var i :| 0 <= i < |r.scans| && r.scans[i] == s;
      }
    }
  }

  lemma ScanIsHeld(r: Reading, held: string -> bool, i: nat)
    requires i < |r.scans| && r.scans[i].failed
    ensures Holds(ConditionsOf(r, held), ScanKey(r.scans[i].target))
  {
    SaidIs(ConditionsOf(r, held), ScanKey(r.scans[i].target));
    assert r.scans[i] in r.scans;
    ScanIsSaid(r, held, r.scans[i].target, ScanSays(r.scans[i]));
  }

  /**
   * At a look that reads a failed scan of a target whose alert is open, the alert's text stays exactly when every
   * failed scan of the target that was read says what the alert says.
   */
  lemma ScanTextStaysExactly(sweeps: seq<Sweep>, r: Reading, now: int, i: nat)
    requires i < |r.scans| && r.scans[i].failed
    requires Opened(RowAt(History(sweeps), ScanKey(r.scans[i].target)))
    ensures
      var key := ScanKey(r.scans[i].target);
      var before, after := RowAt(History(sweeps), key), RowAt(History(sweeps + [Look(r, now)]), key);
      Opened(after)
      && (after.value.wording == before.value.wording
          <==> ScansAgree(r.scans, r.scans[i].target, before.value.wording))
  {
    var key := ScanKey(r.scans[i].target);
    var es := History(sweeps);
    var held := OpenAt(es);
    var row := RowAt(es, key);
    HistoryMore(sweeps, r, now);
    ScanIsHeld(r, held, i);
    OnlyScansSay(r, held, r.scans[i].target, row.value.wording);
    WordingStaysExactly(ConditionsOf(r, held), key, row.value.wording);
    LastIsSome(ConditionsOf(r, held), key, Some(row.value.wording));
    RowMore(es, ConditionsOf(r, held), now, key);
  }

  function TwoScans(first: string, second: string): Reading {
    Reading([], [], None, [], [Scan(true, "tank", true, Some(first)), Scan(true, "tank", true, Some(second))], None)
  }

  /** Two failed scrubs of one pool with different messages in the history: the alert's text changes at every look. */
  lemma TwoScansFlap(sweeps: seq<Sweep>, first: string, second: string, now: int)
    requires first != second && Opened(RowAt(History(sweeps), ScanKey("tank")))
    ensures
      var r := TwoScans(first, second);
      var before := RowAt(History(sweeps), ScanKey("tank"));
      var after := RowAt(History(sweeps + [Look(r, now)]), ScanKey("tank"));
      Opened(after) && after.value.wording != before.value.wording
  {
    var r := TwoScans(first, second);
    ScanTextStaysExactly(sweeps, r, now, 0);
    assert ScanSays(r.scans[0]).detail != ScanSays(r.scans[1]).detail;
  }

  /** What those two scans are read as; the alert is open from the first look on, so the second already changes it. */
  lemma TwoScansFlapFromTheStart(first: string, second: string, now: int, later: int)
    requires first != second
    ensures
      var r := TwoScans(first, second);
      var once := RowAt(History([Look(r, now)]), ScanKey("tank"));
      var twice := RowAt(History([Look(r, now), Look(r, later)]), ScanKey("tank"));
      Opened(once) && Opened(twice) && once.value.wording != twice.value.wording
  {
    var r := TwoScans(first, second);
    var held := OpenAt(History([]));
    HistoryMore([], r, now);
    ScanIsHeld(r, held, 0);
    RowMore([], ConditionsOf(r, held), now, ScanKey("tank"));
    assert [] + [Look(r, now)] == [Look(r, now)];
    TwoScansFlap([Look(r, now)], first, second, later);
    assert [Look(r, now)] + [Look(r, later)] == [Look(r, now), Look(r, later)];
  }
}
