/**
 * Alerts: the difference between the open rows and what is true now, the loops that write it to the table, and what the
 * table says after any history of evaluations and acknowledgements.
 */
module Alerts {
  import opened Text

  datatype Severity = Info | Warning | Critical
  datatype Wording = Wording(severity: Severity, title: string, detail: Option<string>)
  datatype Condition = Condition(key: string, wording: Wording)

  datatype Row = Row(
    wording: Wording, since: int, raisedAt: int, lastSeen: int, confirmedAt: int, acked: Option<int>,
    cleared: Option<int>)

  type Table = map<string, Row>

  const CONFIRM_AFTER := 60_000
  const MONTH := 30 * 86_400_000

  predicate IsOpen(rows: Table, key: string) { key in rows && rows[key].cleared.None? }

  predicate Holds(cs: seq<Condition>, key: string) { exists i :: 0 <= i < |cs| && cs[i].key == key }

  // ---- what one evaluation means ----

  function Front<T>(s: seq<T>): seq<T>
    requires s != []
  {
    s[..|s| - 1]
  }

  /** The wording a key ends with: the last one that is not what it had, or the last one when it had none. */
  function Last(cs: seq<Condition>, key: string, was: Option<Wording>): Option<Wording> {
    if cs == [] then was
    else
      var c := cs[|cs| - 1];
      if c.key == key && was != Some(c.wording) then Some(c.wording) else Last(Front(cs), key, was)
  }

  function Raised(wording: Wording, now: int): Row { Row(wording, now, now, now, now + CONFIRM_AFTER, None, None) }

  predicate Kept(row: Row, now: int) { row.cleared.Some? ==> row.cleared.value >= now - MONTH }

  function Get(rows: Table, key: string): Option<Row> { if key in rows then Some(rows[key]) else None }

  predicate Opened(row: Option<Row>) { row.Some? && row.value.cleared.None? }

  /** The row of one key after an evaluation, if it has one. */
  function RowAfter(row: Option<Row>, cs: seq<Condition>, key: string, now: int): Option<Row> {
    if Holds(cs, key) then
      var was := if Opened(row) then Some(row.value.wording) else None;
      LastIsSome(cs, key, was);
      var wording := Last(cs, key, was).value;
      if Opened(row) then Some(row.value.(wording := wording, lastSeen := now)) else Some(Raised(wording, now))
    else if row.None? then None
    else
      var left := if Opened(row) then row.value.(cleared := Some(now), lastSeen := now) else row.value;
      if Kept(left, now) then Some(left) else None
  }

  lemma {:induction false} LastIsSome(cs: seq<Condition>, key: string, was: Option<Wording>)
    requires was.Some? || Holds(cs, key)
    ensures Last(cs, key, was).Some?
    decreases |cs|
  {
    if cs != [] && !(cs[|cs| - 1].key == key && was != Some(cs[|cs| - 1].wording)) {
      if was.None? {
        var i :| 0 <= i < |cs| && cs[i].key == key;
        assert Front(cs)[i].key == key;
      }
      LastIsSome(Front(cs), key, was);
    }
  }

  ghost predicate After(rows: Table, cs: seq<Condition>, now: int, next: Table) {
    forall key :: Get(next, key) == RowAfter(Get(rows, key), cs, key, now)
  }

  // ---- the difference ----

  datatype Plan = Plan(raise: seq<Condition>, update: seq<Condition>, touch: seq<string>, clear: seq<string>)

  /** What is open, by key. */
  type Open = map<string, Wording>

  function OpenOf(rows: Table): Open { map key | key in rows && rows[key].cleared.None? :: rows[key].wording }

  function RaiseOf(open: Open, cs: seq<Condition>): seq<Condition> {
    if cs == [] then []
    else
      var c := cs[|cs| - 1];
      RaiseOf(open, Front(cs)) + if c.key !in open then [c] else []
  }

  function UpdateOf(open: Open, cs: seq<Condition>): seq<Condition> {
    if cs == [] then []
    else
      var c := cs[|cs| - 1];
      UpdateOf(open, Front(cs)) + if c.key in open && open[c.key] != c.wording then [c] else []
  }

  function TouchOf(open: Open, cs: seq<Condition>): seq<string> {
    if cs == [] then []
    else
      var c := cs[|cs| - 1];
      TouchOf(open, Front(cs)) + if c.key in open && open[c.key] == c.wording then [c.key] else []
  }

  ghost predicate Differs(open: Open, cs: seq<Condition>, plan: Plan) {
    && plan.raise == RaiseOf(open, cs) && plan.update == UpdateOf(open, cs) && plan.touch == TouchOf(open, cs)
    && forall key :: key in plan.clear <==> key in open && !Holds(cs, key)
  }

  /** `keys`: the open rows in the order they were read. */
  method Reconcile(open: Open, keys: seq<string>, cs: seq<Condition>) returns (plan: Plan)
    requires forall key :: key in keys <==> key in open
    ensures Differs(open, cs, plan)
  {
    var raise, update, touch := [], [], [];
    for i := 0 to |cs|
      invariant raise == RaiseOf(open, cs[..i]) && update == UpdateOf(open, cs[..i]) && touch == TouchOf(open, cs[..i])
    {
      var c := cs[i];
      assert Front(cs[..i + 1]) == cs[..i];
      if c.key !in open {
        raise := raise + [c];
      } else if open[c.key] != c.wording {
        update := update + [c];
      } else {
        touch := touch + [c.key];
      }
    }
    assert cs[..|cs|] == cs;
    var live := set c | c in cs :: c.key;
    var clear := [];
    for i := 0 to |keys|
      invariant forall key :: key in clear <==> key in keys[..i] && key !in live
    {
      if keys[i] !in live {
        clear := clear + [keys[i]];
      }
    }
    assert keys[..|keys|] == keys;
    forall key ensures key in live <==> Holds(cs, key) {
      if key in live {
        var c :| c in cs && c.key == key;
        var i :| 0 <= i < |cs| && cs[i] == c;
      }
    }
    plan := Plan(raise, update, touch, clear);
  }

  // ---- writing it ----

  function RaiseAll(rows: Table, cs: seq<Condition>, now: int): Table {
    if cs == [] then rows else RaiseAll(rows, Front(cs), now)[cs[|cs| - 1].key := Raised(cs[|cs| - 1].wording, now)]
  }

  function Updated(rows: Table, key: string, wording: Wording, now: int): Table {
    if IsOpen(rows, key) then rows[key := rows[key].(wording := wording, lastSeen := now)] else rows
  }

  function UpdateAll(rows: Table, cs: seq<Condition>, now: int): Table {
    if cs == [] then rows else Updated(UpdateAll(rows, Front(cs), now), cs[|cs| - 1].key, cs[|cs| - 1].wording, now)
  }

  function Touched(rows: Table, key: string, now: int): Table {
    if IsOpen(rows, key) then rows[key := rows[key].(lastSeen := now)] else rows
  }

  function TouchAll(rows: Table, keys: seq<string>, now: int): Table {
    if keys == [] then rows else Touched(TouchAll(rows, Front(keys), now), keys[|keys| - 1], now)
  }

  function Cleared(rows: Table, key: string, now: int): Table {
    if IsOpen(rows, key) then rows[key := rows[key].(cleared := Some(now), lastSeen := now)] else rows
  }

  function ClearAll(rows: Table, keys: seq<string>, now: int): Table {
    if keys == [] then rows else Cleared(ClearAll(rows, Front(keys), now), keys[|keys| - 1], now)
  }

  function Applied(rows: Table, plan: Plan, now: int): Table {
    ClearAll(TouchAll(UpdateAll(RaiseAll(rows, plan.raise, now), plan.update, now), plan.touch, now), plan.clear, now)
  }

  function Pruned(rows: Table, now: int): Table { map key | key in rows && Kept(rows[key], now) :: rows[key] }

  function Acked(rows: Table, key: string, now: int): Table {
    if IsOpen(rows, key) && rows[key].acked.None? then rows[key := rows[key].(acked := Some(now))] else rows
  }

  class Db {
    var rows: Table

    constructor ()
      ensures rows == map[]
    {
      rows := map[];
    }

    method OpenAlerts() returns (open: Open, keys: seq<string>)
      ensures open == OpenOf(rows) && forall key :: key in keys <==> key in open
    {
      open, keys := map[], [];
      var left := rows.Keys;
      while left != {}
        invariant left <= rows.Keys
        invariant open == map key | key in rows && key !in left && rows[key].cleared.None? :: rows[key].wording
        invariant forall key :: key in keys <==> key in open
        decreases left
      {
        var key :| key in left;
        left := left - {key};
        if rows[key].cleared.None? {
          open, keys := open[key := rows[key].wording], keys + [key];
        }
      }
    }

    method ApplyAlerts(plan: Plan, now: int)
      modifies this
      ensures rows == Applied(old(rows), plan, now)
    {
      for i := 0 to |plan.raise|
        invariant rows == RaiseAll(old(rows), plan.raise[..i], now)
      {
        assert Front(plan.raise[..i + 1]) == plan.raise[..i];
        rows := rows[plan.raise[i].key := Raised(plan.raise[i].wording, now)];
      }
      assert plan.raise[..|plan.raise|] == plan.raise;
      Update(plan.update, now);
      Touch(plan.touch, now);
      Clear(plan.clear, now);
    }

    method Update(cs: seq<Condition>, now: int)
      modifies this
      ensures rows == UpdateAll(old(rows), cs, now)
    {
      for i := 0 to |cs|
        invariant rows == UpdateAll(old(rows), cs[..i], now)
      {
        assert Front(cs[..i + 1]) == cs[..i];
        if cs[i].key in rows && rows[cs[i].key].cleared.None? {
          rows := rows[cs[i].key := rows[cs[i].key].(wording := cs[i].wording, lastSeen := now)];
        }
      }
      assert cs[..|cs|] == cs;
    }

    method Touch(keys: seq<string>, now: int)
      modifies this
      ensures rows == TouchAll(old(rows), keys, now)
    {
      for i := 0 to |keys|
        invariant rows == TouchAll(old(rows), keys[..i], now)
      {
        assert Front(keys[..i + 1]) == keys[..i];
        if keys[i] in rows && rows[keys[i]].cleared.None? {
          rows := rows[keys[i] := rows[keys[i]].(lastSeen := now)];
        }
      }
      assert keys[..|keys|] == keys;
    }

    method Clear(keys: seq<string>, now: int)
      modifies this
      ensures rows == ClearAll(old(rows), keys, now)
    {
      for i := 0 to |keys|
        invariant rows == ClearAll(old(rows), keys[..i], now)
      {
        assert Front(keys[..i + 1]) == keys[..i];
        if keys[i] in rows && rows[keys[i]].cleared.None? {
          rows := rows[keys[i] := rows[keys[i]].(cleared := Some(now), lastSeen := now)];
        }
      }
      assert keys[..|keys|] == keys;
    }

    method AckAlert(key: string, now: int) returns (changed: bool)
      modifies this
      ensures rows == Acked(old(rows), key, now)
      ensures changed <==> IsOpen(old(rows), key) && old(rows)[key].acked.None?
    {
      changed := key in rows && rows[key].cleared.None? && rows[key].acked.None?;
      if changed {
        rows := rows[key := rows[key].(acked := Some(now))];
      }
    }

    method PruneAlerts(now: int)
      modifies this
      ensures rows == Pruned(old(rows), now)
    {
      rows := map key | key in rows && (rows[key].cleared.Some? ==> rows[key].cleared.value >= now - MONTH)
        :: rows[key];
    }

    /** Read what is open, write the difference, drop what is long gone. */
    method Evaluate(cs: seq<Condition>, now: int)
      modifies this
      ensures After(old(rows), cs, now, rows)
    {
      var open, keys := OpenAlerts();
      var plan := Reconcile(open, keys, cs);
      ApplyAlerts(plan, now);
      PruneAlerts(now);
      AppliedIsAfter(old(rows), cs, now, plan);
    }
  }

  // ---- the loops together write what the evaluation means ----

  lemma HoldsFront(cs: seq<Condition>, key: string)
    requires cs != []
    ensures Holds(cs, key) <==> Holds(Front(cs), key) || cs[|cs| - 1].key == key
  {
    if i :| 0 <= i < |cs| - 1 && cs[i].key == key {
      assert Front(cs)[i].key == key;
    }
  }

  lemma LastOfMore(before: seq<Condition>, c: Condition, key: string)
    ensures Last(before + [c], key, None) == if c.key == key then Some(c.wording) else Last(before, key, None)
    ensures Front(before + [c]) == before
  {
    assert (before + [c])[..|before|] == before;
  }

  lemma {:induction false} RaiseAllAt(rows: Table, cs: seq<Condition>, now: int, key: string)
    ensures Holds(cs, key) ==> Last(cs, key, None).Some?
    ensures
      Get(RaiseAll(rows, cs, now), key)
      == if Holds(cs, key) then Some(Raised(Last(cs, key, None).value, now)) else Get(rows, key)
    decreases |cs|
  {
    if cs != [] {
      RaiseAllAt(rows, Front(cs), now, key);
      HoldsFront(cs, key);
    }
  }

  lemma {:induction false} UpdateAllAt(rows: Table, cs: seq<Condition>, now: int, key: string)
    ensures Holds(cs, key) ==> Last(cs, key, None).Some?
    ensures
      Get(UpdateAll(rows, cs, now), key)
      == if Holds(cs, key) && IsOpen(rows, key)
         then Some(rows[key].(wording := Last(cs, key, None).value, lastSeen := now))
      else Get(rows, key)
    decreases |cs|
  {
    if cs != [] {
      UpdateAllAt(rows, Front(cs), now, key);
      HoldsFront(cs, key);
    }
  }

  lemma {:induction false} TouchAllAt(rows: Table, keys: seq<string>, now: int, key: string)
    ensures
      Get(TouchAll(rows, keys, now), key)
      == if key in keys && IsOpen(rows, key) then Some(rows[key].(lastSeen := now)) else Get(rows, key)
    decreases |keys|
  {
    if keys != [] {
      TouchAllAt(rows, Front(keys), now, key);
      assert keys == Front(keys) + [keys[|keys| - 1]];
    }
  }

  lemma {:induction false} ClearAllAt(rows: Table, keys: seq<string>, now: int, key: string)
    ensures
      Get(ClearAll(rows, keys, now), key)
      == if key in keys && IsOpen(rows, key) then Some(rows[key].(cleared := Some(now), lastSeen := now))
        else Get(rows, key)
    decreases |keys|
  {
    if keys != [] {
      ClearAllAt(rows, Front(keys), now, key);
      assert keys == Front(keys) + [keys[|keys| - 1]];
    }
  }

  lemma {:induction false} RaiseOfAt(open: Open, cs: seq<Condition>, key: string)
    ensures Holds(RaiseOf(open, cs), key) <==> Holds(cs, key) && key !in open
    ensures key !in open ==> Last(RaiseOf(open, cs), key, None) == Last(cs, key, None)
    decreases |cs|
  {
    if cs != [] {
      RaiseOfAt(open, Front(cs), key);
      HoldsFront(cs, key);
      var c, before := cs[|cs| - 1], RaiseOf(open, Front(cs));
      assert before + [] == before;
      if c.key !in open {
        HoldsFront(before + [c], key);
        LastOfMore(before, c, key);
      }
    }
  }

  lemma {:induction false} UpdateOfAt(open: Open, cs: seq<Condition>, key: string)
    requires key in open
    ensures Holds(UpdateOf(open, cs), key) ==> Holds(cs, key)
    ensures
      Last(cs, key, Some(open[key]))
      == if Holds(UpdateOf(open, cs), key) then Last(UpdateOf(open, cs), key, None) else Some(open[key])
    ensures Holds(cs, key) ==> Holds(UpdateOf(open, cs), key) || key in TouchOf(open, cs)
    ensures key in TouchOf(open, cs) ==> Holds(cs, key)
    decreases |cs|
  {
    if cs != [] {
      UpdateOfAt(open, Front(cs), key);
      HoldsFront(cs, key);
      var c, before := cs[|cs| - 1], UpdateOf(open, Front(cs));
      assert before + [] == before;
      if c.key in open && open[c.key] != c.wording {
        HoldsFront(before + [c], key);
        LastOfMore(before, c, key);
      }
    }
  }

  lemma {:induction false} NotOpenNotNamed(open: Open, cs: seq<Condition>, key: string)
    requires key !in open
    ensures !Holds(UpdateOf(open, cs), key) && key !in TouchOf(open, cs)
    decreases |cs|
  {
    if cs != [] {
      NotOpenNotNamed(open, Front(cs), key);
      var c, before := cs[|cs| - 1], UpdateOf(open, Front(cs));
      assert before + [] == before;
      if c.key in open && open[c.key] != c.wording {
        HoldsFront(before + [c], key);
        LastOfMore(before, c, key);
      }
    }
  }

  lemma PrunedAt(rows: Table, now: int, key: string)
    ensures Get(Pruned(rows, now), key) == if key in rows && Kept(rows[key], now) then Some(rows[key]) else None
  {
  }

  lemma AppliedToOpen(rows: Table, cs: seq<Condition>, now: int, plan: Plan, key: string)
    requires Differs(OpenOf(rows), cs, plan) && IsOpen(rows, key)
    ensures Get(Pruned(Applied(rows, plan, now), now), key) == RowAfter(Some(rows[key]), cs, key, now)
  {
    var open := OpenOf(rows);
    var raised := RaiseAll(rows, plan.raise, now);
    var updated := UpdateAll(raised, plan.update, now);
    var touched := TouchAll(updated, plan.touch, now);
    RaiseOfAt(open, cs, key);
    UpdateOfAt(open, cs, key);
    RaiseAllAt(rows, plan.raise, now, key);
    assert Get(raised, key) == Some(rows[key]);
    UpdateAllAt(raised, plan.update, now, key);
    TouchAllAt(updated, plan.touch, now, key);
    ClearAllAt(touched, plan.clear, now, key);
    PrunedAt(Applied(rows, plan, now), now, key);
  }

  lemma AppliedToOther(rows: Table, cs: seq<Condition>, now: int, plan: Plan, key: string)
    requires Differs(OpenOf(rows), cs, plan) && !IsOpen(rows, key)
    ensures Get(Pruned(Applied(rows, plan, now), now), key) == RowAfter(Get(rows, key), cs, key, now)
  {
    var open := OpenOf(rows);
    var raised := RaiseAll(rows, plan.raise, now);
    var updated := UpdateAll(raised, plan.update, now);
    var touched := TouchAll(updated, plan.touch, now);
    RaiseOfAt(open, cs, key);
    NotOpenNotNamed(open, cs, key);
    RaiseAllAt(rows, plan.raise, now, key);
    UpdateAllAt(raised, plan.update, now, key);
    TouchAllAt(updated, plan.touch, now, key);
    ClearAllAt(touched, plan.clear, now, key);
    assert Get(Applied(rows, plan, now), key) == Get(raised, key);
    PrunedAt(Applied(rows, plan, now), now, key);
  }

  lemma AppliedIsAfter(rows: Table, cs: seq<Condition>, now: int, plan: Plan)
    requires Differs(OpenOf(rows), cs, plan)
    ensures After(rows, cs, now, Pruned(Applied(rows, plan, now), now))
  {
    var next := Pruned(Applied(rows, plan, now), now);
    forall key ensures Get(next, key) == RowAfter(Get(rows, key), cs, key, now) {
      if IsOpen(rows, key) {
        AppliedToOpen(rows, cs, now, plan, key);
      } else {
        AppliedToOther(rows, cs, now, plan, key);
      }
    }
  }
}
