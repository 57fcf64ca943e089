/** The agent's own alerts over any run of looks and acknowledgements: when each is open, and what it says. */
module AlertLooks {
  import opened Text
  import opened Alerts
  import opened AlertRuns
  import opened AlertConditions

  datatype Sweep = Look(reading: Reading, now: int) | Ack(key: string, now: int)

  /** The history of a run: each look's conditions are worked out against what was open then. */
  function History(sweeps: seq<Sweep>): seq<Event> {
    if sweeps == [] then []
    else
      var before := History(Front(sweeps));
      match sweeps[|sweeps| - 1]
      case Look(reading, now) => before + [Evaluated(ConditionsOf(reading, OpenAt(before)), now)]
      case Ack(key, now) => before + [Acknowledged(key, now)]
  }

  function OpenAt(es: seq<Event>): string -> bool { key => Opened(RowAt(es, key)) }

  lemma HistoryMore(sweeps: seq<Sweep>, r: Reading, now: int)
    ensures
      History(sweeps + [Look(r, now)])
      == History(sweeps) + [Evaluated(ConditionsOf(r, OpenAt(History(sweeps))), now)]
  {
    assert Front(sweeps + [Look(r, now)]) == sweeps;
  }

  lemma RowMore(es: seq<Event>, cs: seq<Condition>, now: int, key: string)
    ensures RowAt(es + [Evaluated(cs, now)], key) == RowAfter(RowAt(es, key), cs, key, now)
  {
    assert Front(es + [Evaluated(cs, now)]) == es;
  }

  lemma RowAcked(es: seq<Event>, k: string, now: int, key: string)
    ensures
      RowAt(es + [Acknowledged(k, now)], key) == if k == key then AckRow(RowAt(es, key), now) else RowAt(es, key)
  {
    assert Front(es + [Acknowledged(k, now)]) == es;
  }

  // ---- the last look decides ----

  /** What the last look read. */
  function LastLook(sweeps: seq<Sweep>): Option<Reading> {
    if sweeps == [] then None
    else if sweeps[|sweeps| - 1].Look? then Some(sweeps[|sweeps| - 1].reading)
    else LastLook(Front(sweeps))
  }

  /** What was said at the last look under a key, in order. */
  function SaidLast(sweeps: seq<Sweep>, key: string): seq<Wording> {
    if sweeps == [] then []
    else
      match sweeps[|sweeps| - 1]
      case Look(reading, _) => Said(ConditionsOf(reading, OpenAt(History(Front(sweeps)))), key)
      case Ack(_, _) => SaidLast(Front(sweeps), key)
  }

  /** All that is said is this. */
  ghost predicate Only(said: seq<Wording>, wording: Wording) { said != [] && forall w :: w in said ==> w == wording }

  /** A key is open exactly while the last look said something under it, and says that when the look said one thing. */
  lemma {:induction false} LastLookDecides(sweeps: seq<Sweep>, key: string)
    ensures Opened(RowAt(History(sweeps), key)) <==> SaidLast(sweeps, key) != []
    ensures
      forall wording :: Only(SaidLast(sweeps, key), wording) ==> RowAt(History(sweeps), key).value.wording == wording
    decreases |sweeps|
  {
    if sweeps != [] {
      var es := History(Front(sweeps));
      match sweeps[|sweeps| - 1]
      case Look(reading, now) => LookDecides(es, ConditionsOf(reading, OpenAt(es)), now, key);
      case Ack(k, now) =>
        LastLookDecides(Front(sweeps), key);
        RowAcked(es, k, now, key);
    }
  }

  lemma LookDecides(es: seq<Event>, cs: seq<Condition>, now: int, key: string)
    ensures Opened(RowAt(es + [Evaluated(cs, now)], key)) <==> Said(cs, key) != []
    ensures
      forall wording :: Only(Said(cs, key), wording) ==>
        RowAt(es + [Evaluated(cs, now)], key).value.wording == wording
  {
    SaidIs(cs, key);
    RowMore(es, cs, now, key);
    forall wording | Only(Said(cs, key), wording)
      ensures RowAt(es + [Evaluated(cs, now)], key).value.wording == wording
    {
      RowSaysWhatIsTrue(es, cs, now, key, wording);
    }
  }

  /** Which readings call for which wording, for a key that does not hold on. */
  type Calls = (Reading, Wording) -> bool

  /** These are the readings that call for the key, whatever is open. */
  ghost predicate Decides(calls: Calls, key: string) {
    forall r, held, w :: w in Said(ConditionsOf(r, held), key) <==> calls(r, w)
  }

  lemma {:induction false} SaidLastIs(sweeps: seq<Sweep>, key: string, calls: Calls, w: Wording)
    requires Decides(calls, key)
    ensures w in SaidLast(sweeps, key) <==> LastLook(sweeps).Some? && calls(LastLook(sweeps).value, w)
    decreases |sweeps|
  {
    if sweeps != [] {
      match sweeps[|sweeps| - 1]
      case Look(reading, _) =>
        assert w in Said(ConditionsOf(reading, OpenAt(History(Front(sweeps)))), key) <==> calls(reading, w);
      case Ack(_, _) => SaidLastIs(Front(sweeps), key, calls, w);
    }
  }

  /** Such a key is open exactly when the last look calls for it, and says what alone is called for. */
  ghost predicate ByLastLook(sweeps: seq<Sweep>, key: string, calls: Calls) {
    var row, last := RowAt(History(sweeps), key), LastLook(sweeps);
    && (Opened(row) <==> last.Some? && exists w :: calls(last.value, w))
    && (last.Some? ==> forall w :: calls(last.value, w) && (forall v :: calls(last.value, v) ==> v == w) ==>
          row.value.wording == w)
  }

  lemma DecidedByLastLook(sweeps: seq<Sweep>, key: string, calls: Calls)
    requires Decides(calls, key)
    ensures ByLastLook(sweeps, key, calls)
  {
    LastLookDecides(sweeps, key);
    forall w ensures w in SaidLast(sweeps, key) <==> LastLook(sweeps).Some? && calls(LastLook(sweeps).value, w) {
      SaidLastIs(sweeps, key, calls, w);
    }
    if SaidLast(sweeps, key) != [] {
      assert SaidLast(sweeps, key)[0] in SaidLast(sweeps, key);
    }
    if LastLook(sweeps).Some? {
      var r := LastLook(sweeps).value;
      forall w | calls(r, w) && forall v :: calls(r, v) ==> v == w
        ensures RowAt(History(sweeps), key).value.wording == w
      {
        assert Only(SaidLast(sweeps, key), w);
      }
    }
  }

  // ---- pools and disks ----

  /** A pool of this name was read that is not online. */
  ghost predicate Broken(r: Reading, name: string) {
    exists p :: p in r.pools && p.name == name && p.health != "ONLINE"
  }

  /** The one pool of this name. */
  ghost predicate ThePool(r: Reading, name: string, p: Pool) {
    p in r.pools && p.name == name && forall q :: q in r.pools && q.name == name ==> q == p
  }

  ghost function StateCalls(name: string): Calls {
    (r: Reading, w: Wording) =>
      exists p :: p in r.pools && p.name == name && p.health != "ONLINE" && w == StateSays(p)
  }

  lemma StateIsSaid(r: Reading, held: string -> bool, name: string, w: Wording)
    ensures w in Said(ConditionsOf(r, held), StateKey(name)) <==> StateCalls(name)(r, w)
  {
    PoolLetters(name);
    ReadingSays(r, held, StateKey(name));
    StateSaid(r.pools, held, name, w);
  }

  lemma StateDecides(name: string)
    ensures Decides(StateCalls(name), StateKey(name))
  {
    forall r, held, w
      ensures w in Said(ConditionsOf(r, held), StateKey(name)) <==> StateCalls(name)(r, w)
    {
      StateIsSaid(r, held, name, w);
    }
  }

  /**
   * The alert about a pool's state is open exactly while the last look read a pool of that name that is not online. It
   * is critical and names the pool and its health, when one pool has the name.
   */
  lemma StateExactly(sweeps: seq<Sweep>, name: string)
    ensures
      Opened(RowAt(History(sweeps), StateKey(name)))
      <==> LastLook(sweeps).Some? && Broken(LastLook(sweeps).value, name)
    ensures
      LastLook(sweeps).Some? ==>
      forall p :: ThePool(LastLook(sweeps).value, name, p) && p.health != "ONLINE" ==>
        RowAt(History(sweeps), StateKey(name)).value.wording
        == Wording(Critical, "Pool " + name + " is " + p.health, Some(p.stateDetail))
  {
    var calls := StateCalls(name);
    StateDecides(name);
    DecidedByLastLook(sweeps, StateKey(name), calls);
    if LastLook(sweeps).Some? {
      var r := LastLook(sweeps).value;
      forall p | p in r.pools && p.name == name && p.health != "ONLINE" ensures calls(r, StateSays(p)) {
      }
    }
  }

  /** What SMART can hold against a disk. */
  predicate Faulty(s: Smart) { s.passed == Some(false) || Or0(s.reallocated) > 0 || Or0(s.pending) > 0 }

  ghost predicate Failing(r: Reading, id: string) {
    exists d :: d in r.disks && d.id == id && d.smart.Some? && Faulty(d.smart.value)
  }

  ghost predicate TheDisk(r: Reading, id: string, s: Smart) {
    Disk(id, Some(s)) in r.disks && forall d :: d in r.disks && d.id == id ==> d.smart == Some(s)
  }

  ghost function SmartCalls(id: string): Calls {
    (r: Reading, w: Wording) =>
      exists d :: d in r.disks && d.id == id && d.smart.Some? && SmartSays(id, d.smart.value) == Some(w)
  }

  lemma SmartIsSaid(r: Reading, held: string -> bool, id: string, w: Wording)
    ensures w in Said(ConditionsOf(r, held), SmartKey(id)) <==> SmartCalls(id)(r, w)
  {
    DiskLetters(id);
    ReadingSays(r, held, SmartKey(id));
    SmartSaid(r.disks, held, id, w);
  }

  lemma SmartDecides(id: string)
    ensures Decides(SmartCalls(id), SmartKey(id))
  {
    forall r, held, w
      ensures w in Said(ConditionsOf(r, held), SmartKey(id)) <==> SmartCalls(id)(r, w)
    {
      SmartIsSaid(r, held, id, w);
    }
  }

  /**
   * The alert about a disk's SMART is open exactly while the last look read a disk of that id that did not pass, or has
   * sectors reallocated or waiting to be. It names the worst of these, and is critical for all but sectors that wait.
   */
  lemma SmartExactly(sweeps: seq<Sweep>, id: string)
    ensures
      Opened(RowAt(History(sweeps), SmartKey(id)))
      <==> LastLook(sweeps).Some? && Failing(LastLook(sweeps).value, id)
    ensures
      LastLook(sweeps).Some? ==>
      forall s :: TheDisk(LastLook(sweeps).value, id, s) && Faulty(s) ==>
        Blames(RowAt(History(sweeps), SmartKey(id)).value.wording, id, s)
  {
    var calls := SmartCalls(id);
    SmartDecides(id);
    DecidedByLastLook(sweeps, SmartKey(id), calls);
    if LastLook(sweeps).Some? {
      SmartCalled(LastLook(sweeps).value, id, calls);
    }
  }

  /** A disk's alert names its worst fault, with the count of its sectors, and gives SMART's own words. */
  predicate Blames(wording: Wording, id: string, s: Smart)
    requires Faulty(s)
  {
    && wording.detail == Some(s.smartDetail)
    && (wording.severity == if s.passed == Some(false) || Or0(s.reallocated) > 0 then Critical else Warning)
    && (s.passed == Some(false) ==> wording.title == "Disk " + id + " says it is failing")
    && (s.passed != Some(false) && Or0(s.reallocated) > 0 ==>
          wording.title == "Disk " + id + " has " + Dec(Or0(s.reallocated)) + " reallocated sectors")
    && (s.passed != Some(false) && Or0(s.reallocated) <= 0 ==>
          wording.title == "Disk " + id + " has " + Dec(Or0(s.pending)) + " sectors waiting to be checked")
  }

  lemma SmartCalled(r: Reading, id: string, calls: Calls)
    requires
      forall w :: calls(r, w) <==>
        exists d :: d in r.disks && d.id == id && d.smart.Some? && SmartSays(id, d.smart.value) == Some(w)
    ensures (exists w :: calls(r, w)) <==> Failing(r, id)
    ensures
      forall s :: TheDisk(r, id, s) && Faulty(s) ==>
        && calls(r, SmartSays(id, s).value) && Blames(SmartSays(id, s).value, id, s)
        && forall w :: calls(r, w) ==> w == SmartSays(id, s).value
  {
    forall d | d in r.disks && d.id == id && d.smart.Some? && Faulty(d.smart.value)
      ensures calls(r, SmartSays(id, d.smart.value).value)
    {
    }
    forall s | TheDisk(r, id, s) && Faulty(s)
      ensures calls(r, SmartSays(id, s).value) && Blames(SmartSays(id, s).value, id, s)
    {
      assert Disk(id, Some(s)).smart == Some(s);
    }
  }

  // ---- backup, copies, scans, updates ----

  ghost function BackupCalls(): Calls {
    (r: Reading, w: Wording) =>
      r.backup.Some? && r.backup.value.failed && w == BackupSays(r.backup.value)
  }

  lemma BackupIsSaid(r: Reading, held: string -> bool, w: Wording)
    ensures w in Said(ConditionsOf(r, held), BackupKey()) <==> BackupCalls()(r, w)
  {
    BackupLetter();
    ReadingSays(r, held, BackupKey());
    BackupSaid(r.backup, w);
  }

  lemma BackupDecides()
    ensures Decides(BackupCalls(), BackupKey())
  {
    forall r, held, w
      ensures w in Said(ConditionsOf(r, held), BackupKey()) <==> BackupCalls()(r, w)
    {
      BackupIsSaid(r, held, w);
    }
  }

  lemma BackupExactly(sweeps: seq<Sweep>)
    ensures
      Opened(RowAt(History(sweeps), "backup:settings"))
      <==> LastLook(sweeps).Some? && LastLook(sweeps).value.backup.Some? && LastLook(sweeps).value.backup.value.failed
    ensures
      Opened(RowAt(History(sweeps), "backup:settings")) ==>
        var b, wording := LastLook(sweeps).value.backup.value, RowAt(History(sweeps), "backup:settings").value.wording;
        wording.severity == Warning && (b.message.Some? ==> wording.detail == b.message)
  {
    var calls := BackupCalls();
    BackupDecides();
    DecidedByLastLook(sweeps, BackupKey(), calls);
    if LastLook(sweeps).Some? && LastLook(sweeps).value.backup.Some? {
      var r := LastLook(sweeps).value;
      assert r.backup.value.failed ==> calls(r, BackupSays(r.backup.value));
    }
  }

  ghost predicate TheCopy(r: Reading, id: nat, c: Copy) {
    c in r.copies && c.id == id && forall d :: d in r.copies && d.id == id ==> d == c
  }

  ghost function CopyCalls(id: nat): Calls {
    (r: Reading, w: Wording) =>
      exists c :: c in r.copies && c.id == id && c.failed && w == CopySays(c)
  }

  lemma CopyIsSaid(r: Reading, held: string -> bool, id: nat, w: Wording)
    ensures w in Said(ConditionsOf(r, held), CopyKey(id)) <==> CopyCalls(id)(r, w)
  {
    CopyLetter(id);
    ReadingSays(r, held, CopyKey(id));
    CopySaid(r.copies, id, w);
  }

  lemma CopyDecides(id: nat)
    ensures Decides(CopyCalls(id), CopyKey(id))
  {
    forall r, held, w
      ensures w in Said(ConditionsOf(r, held), CopyKey(id)) <==> CopyCalls(id)(r, w)
    {
      CopyIsSaid(r, held, id, w);
    }
  }

  /** A copy's alert is open exactly while the last look read a replication of that id whose last run failed. */
  lemma CopyExactly(sweeps: seq<Sweep>, id: nat)
    ensures
      Opened(RowAt(History(sweeps), CopyKey(id)))
      <==> LastLook(sweeps).Some? && exists c :: c in LastLook(sweeps).value.copies && c.id == id && c.failed
    ensures
      LastLook(sweeps).Some? ==>
      forall c :: TheCopy(LastLook(sweeps).value, id, c) && c.failed ==>
        Tells(RowAt(History(sweeps), CopyKey(id)).value.wording, c)
  {
    var calls := CopyCalls(id);
    CopyDecides(id);
    DecidedByLastLook(sweeps, CopyKey(id), calls);
    if LastLook(sweeps).Some? {
      CopyCalled(LastLook(sweeps).value, id, calls);
    }
  }

  /** What a failed copy's alert has to tell: which copy it is, and its own last message if it left one. */
  predicate Tells(wording: Wording, c: Copy) {
    && wording.title == "Copying " + c.dataset + " to " + c.host + " failed"
    && (c.message.Some? ==> wording.detail == c.message)
  }

  lemma CopyCalled(r: Reading, id: nat, calls: Calls)
    requires forall w :: calls(r, w) <==> exists c :: c in r.copies && c.id == id && c.failed && w == CopySays(c)
    ensures (exists w :: calls(r, w)) <==> exists c :: c in r.copies && c.id == id && c.failed
    ensures
      forall c :: TheCopy(r, id, c) && c.failed ==>
        calls(r, CopySays(c)) && Tells(CopySays(c), c) && forall w :: calls(r, w) ==> w == CopySays(c)
  {
    forall c | c in r.copies && c.id == id && c.failed ensures calls(r, CopySays(c)) {
    }
  }

  ghost function ScanCalls(target: string): Calls {
    (r: Reading, w: Wording) =>
      exists s :: s in r.scans && s.target == target && s.failed && w == ScanSays(s)
  }

  lemma ScanIsSaid(r: Reading, held: string -> bool, target: string, w: Wording)
    ensures w in Said(ConditionsOf(r, held), ScanKey(target)) <==> ScanCalls(target)(r, w)
  {
    ScanLetter(target);
    ReadingSays(r, held, ScanKey(target));
    ScanSaid(r.scans, target, w);
  }

  lemma ScanDecides(target: string)
    ensures Decides(ScanCalls(target), ScanKey(target))
  {
    forall r, held, w
      ensures w in Said(ConditionsOf(r, held), ScanKey(target)) <==> ScanCalls(target)(r, w)
    {
      ScanIsSaid(r, held, target, w);
    }
  }

  /** A target's scan alert is open exactly while one of the scans the last look read is a failed one of it. */
  lemma ScanExactly(sweeps: seq<Sweep>, target: string)
    ensures
      Opened(RowAt(History(sweeps), ScanKey(target)))
      <==> LastLook(sweeps).Some? && exists s :: s in LastLook(sweeps).value.scans && s.target == target && s.failed
    ensures
      LastLook(sweeps).Some? ==>
      forall s :: TheScan(LastLook(sweeps).value, target, s) ==>
        ScanTold(RowAt(History(sweeps), ScanKey(target)).value.wording, s)
  {
    var calls := ScanCalls(target);
    ScanDecides(target);
    DecidedByLastLook(sweeps, ScanKey(target), calls);
    if LastLook(sweeps).Some? {
      ScanCalled(LastLook(sweeps).value, target, calls);
    }
  }

  /** The one failed scan of the target. */
  ghost predicate TheScan(r: Reading, target: string, s: Scan) {
    && s in r.scans && s.target == target && s.failed
    && forall t :: t in r.scans && t.target == target && t.failed ==> t == s
  }

  /** What a failed scan's alert has to tell: which scan of what it was, and its own message if it left one. */
  predicate ScanTold(wording: Wording, s: Scan) {
    && wording.severity == Warning
    && wording.title
      == "The last " + (if s.scrub then "scrub" else "scan") + " of " + s.target + " did not come back clean"
    && (s.message.Some? ==> wording.detail == s.message)
  }

  lemma ScanCalled(r: Reading, target: string, calls: Calls)
    requires
      forall w :: calls(r, w) <==> exists s :: s in r.scans && s.target == target && s.failed && w == ScanSays(s)
    ensures (exists w :: calls(r, w)) <==> exists s :: s in r.scans && s.target == target && s.failed
    ensures
      forall s :: TheScan(r, target, s) ==>
        calls(r, ScanSays(s)) && ScanTold(ScanSays(s), s) && forall w :: calls(r, w) ==> w == ScanSays(s)
  {
    forall s | s in r.scans && s.target == target && s.failed ensures calls(r, ScanSays(s)) {
    }
  }

  predicate CheckFailed(u: Update) { u.error.Some? && u.error.value != "" }

  predicate NewerOut(u: Update) { !CheckFailed(u) && u.latest.Some? && u.newer }

  lemma CheckIsSaid(r: Reading, held: string -> bool, w: Wording)
    ensures
      w in Said(ConditionsOf(r, held), CheckKey()) <==>
      r.update.Some? && CheckFailed(r.update.value) && w == CheckSays(r.update.value.error.value)
  {
    UpdateLetters();
    ReadingSays(r, held, CheckKey());
    UpdateSaid(r.update, w);
  }

  lemma ReleaseIsSaid(r: Reading, held: string -> bool, w: Wording)
    ensures
      w in Said(ConditionsOf(r, held), ReleaseKey()) <==>
      r.update.Some? && NewerOut(r.update.value) && w == ReleaseSays(r.update.value.latest.value)
  {
    UpdateLetters();
    ReadingSays(r, held, ReleaseKey());
    UpdateSaid(r.update, w);
  }

  ghost function CheckCalls(): Calls {
    (r: Reading, w: Wording) =>
      r.update.Some? && CheckFailed(r.update.value) && w == CheckSays(r.update.value.error.value)
  }

  lemma CheckDecides()
    ensures Decides(CheckCalls(), CheckKey())
  {
    forall r, held, w
      ensures w in Said(ConditionsOf(r, held), CheckKey()) <==> CheckCalls()(r, w)
    {
      CheckIsSaid(r, held, w);
    }
  }

  /** That the box could not check for updates is told exactly while the last check failed. */
  lemma CheckExactly(sweeps: seq<Sweep>)
    ensures
      Opened(RowAt(History(sweeps), "update:check")) <==>
      LastLook(sweeps).Some? && LastLook(sweeps).value.update.Some? && CheckFailed(LastLook(sweeps).value.update.value)
    ensures
      Opened(RowAt(History(sweeps), "update:check")) ==>
        var wording := RowAt(History(sweeps), "update:check").value.wording;
        wording.severity == Info && wording.detail == LastLook(sweeps).value.update.value.error
  {
    var calls := CheckCalls();
    CheckDecides();
    DecidedByLastLook(sweeps, CheckKey(), calls);
    if LastLook(sweeps).Some? && LastLook(sweeps).value.update.Some? {
      var r := LastLook(sweeps).value;
      assert CheckFailed(r.update.value) ==> calls(r, CheckSays(r.update.value.error.value));
    }
  }

  ghost function ReleaseCalls(): Calls {
    (r: Reading, w: Wording) =>
      r.update.Some? && NewerOut(r.update.value) && w == ReleaseSays(r.update.value.latest.value)
  }

  lemma ReleaseDecides()
    ensures Decides(ReleaseCalls(), ReleaseKey())
  {
    forall r, held, w
      ensures w in Said(ConditionsOf(r, held), ReleaseKey()) <==> ReleaseCalls()(r, w)
    {
      ReleaseIsSaid(r, held, w);
    }
  }

  /** A release is told exactly while the last check did not fail and found a newer one. */
  lemma ReleaseExactly(sweeps: seq<Sweep>)
    ensures
      Opened(RowAt(History(sweeps), "update:available")) <==>
      LastLook(sweeps).Some? && LastLook(sweeps).value.update.Some? && NewerOut(LastLook(sweeps).value.update.value)
    ensures
      Opened(RowAt(History(sweeps), "update:available")) ==>
        var wording := RowAt(History(sweeps), "update:available").value.wording;
        && wording.severity == Info
        && wording.title == "mk-nas " + LastLook(sweeps).value.update.value.latest.value + " is out"
  {
    var calls := ReleaseCalls();
    ReleaseDecides();
    DecidedByLastLook(sweeps, ReleaseKey(), calls);
    if LastLook(sweeps).Some? && LastLook(sweeps).value.update.Some? {
      var r := LastLook(sweeps).value;
      assert NewerOut(r.update.value) ==> calls(r, ReleaseSays(r.update.value.latest.value));
    }
  }

  // ---- what holds on ----

  /** What the looks of a run read. */
  function Looks(sweeps: seq<Sweep>): seq<Reading> {
    if sweeps == [] then []
    else Looks(Front(sweeps)) + if sweeps[|sweeps| - 1].Look? then [sweeps[|sweeps| - 1].reading] else []
  }

  /** Whether a reading reaches a line. */
  type Reaches = (Reading, int) -> bool

  /** The upper line was reached at some look, and the lower one at every look since. */
  ghost predicate Held(looks: seq<Reading>, reaches: Reaches, upper: int, lower: int) {
    exists i :: 0 <= i < |looks| && reaches(looks[i], upper)
      && forall j :: i < j < |looks| ==> reaches(looks[j], lower)
  }

  lemma HeldOn(looks: seq<Reading>, last: Reading, reaches: Reaches, upper: int, lower: int)
    requires reaches(last, upper) ==> reaches(last, lower)
    ensures
      Held(looks + [last], reaches, upper, lower)
      <==> reaches(last, if Held(looks, reaches, upper, lower) then lower else upper)
  {
    var more := looks + [last];
    assert forall j :: 0 <= j < |looks| ==> more[j] == looks[j];
    assert more[|looks|] == last;
    if i :| 0 <= i < |looks| && reaches(looks[i], upper) && forall j :: i < j < |looks| ==> reaches(looks[j], lower) {
      if reaches(last, lower) {
        assert reaches(more[i], upper) && forall j :: i < j < |more| ==> reaches(more[j], lower);
      }
    }
    if reaches(last, upper) {
      assert reaches(more[|looks|], upper);
    }
    if i :| 0 <= i < |more| && reaches(more[i], upper) && forall j :: i < j < |more| ==> reaches(more[j], lower) {
      if i < |looks| {
        assert reaches(more[|looks|], lower);
        assert reaches(looks[i], upper) && forall j :: i < j < |looks| ==> reaches(looks[j], lower);
      }
    }
  }

  ghost predicate PoolReaches(r: Reading, name: string, line: int) {
    exists p :: p in r.pools && p.name == name && p.capacity >= line
  }

  ghost predicate DiskReaches(r: Reading, id: string, line: int) {
    exists d :: d in r.disks && d.id == id && d.smart.Some? && Or0(d.smart.value.temperature) >= line
  }

  /** A key that holds on: what is said of it depends on whether it is open, by the upper or the lower line. */
  ghost predicate HoldsOn(key: string, reaches: Reaches, upper: int, lower: int) {
    && (forall r :: reaches(r, upper) ==> reaches(r, lower))
    && forall r, held :: Said(ConditionsOf(r, held), key) != [] <==> reaches(r, if held(key) then lower else upper)
  }

  lemma {:induction false} OpenWhileHeld(sweeps: seq<Sweep>, key: string, reaches: Reaches, upper: int, lower: int)
    requires HoldsOn(key, reaches, upper, lower)
    ensures Opened(RowAt(History(sweeps), key)) <==> Held(Looks(sweeps), reaches, upper, lower)
    decreases |sweeps|
  {
    if sweeps != [] {
      var es := History(Front(sweeps));
      OpenWhileHeld(Front(sweeps), key, reaches, upper, lower);
      match sweeps[|sweeps| - 1]
      case Look(r, now) =>
        LookDecides(es, ConditionsOf(r, OpenAt(es)), now, key);
        HeldOn(Looks(Front(sweeps)), r, reaches, upper, lower);
      case Ack(k, now) =>
        RowAcked(es, k, now, key);
        assert Looks(sweeps) == Looks(Front(sweeps)) + [] == Looks(Front(sweeps));
    }
  }

  /**
   * Whatever happens in between, the alert about a full pool is open exactly when the pool was at 90 or more at some
   * look and at 88 or more at every look since.
   */
  lemma FullExactly(sweeps: seq<Sweep>, name: string)
    ensures
      Opened(RowAt(History(sweeps), FullKey(name)))
      <==> Held(Looks(sweeps), (r, line) => PoolReaches(r, name, line), 90, 88)
  {
    var reaches := (r, line) => PoolReaches(r, name, line);
    forall r, held
      ensures Said(ConditionsOf(r, held), FullKey(name)) != [] <==> reaches(r, if held(FullKey(name)) then 88 else 90)
    {
      FullIsSaid(r, held, name);
    }
    OpenWhileHeld(sweeps, FullKey(name), reaches, 90, 88);
  }

  lemma FullIsSaid(r: Reading, held: string -> bool, name: string)
    ensures
      Said(ConditionsOf(r, held), FullKey(name)) != []
      <==> PoolReaches(r, name, if held(FullKey(name)) then 88 else 90)
  {
    PoolLetters(name);
    ReadingSays(r, held, FullKey(name));
    FullInPools(r, held, name);
  }

  lemma FullInPools(r: Reading, held: string -> bool, name: string)
    ensures
      Said(Each(r.pools, PoolOf(held)), FullKey(name)) != []
      <==> PoolReaches(r, name, if held(FullKey(name)) then 88 else 90)
  {
    var said := Said(Each(r.pools, PoolOf(held)), FullKey(name));
    if said != [] {
      FullSaid(r.pools, held, name, said[0]);
    }
    if PoolReaches(r, name, if held(FullKey(name)) then 88 else 90) {
      var p :| p in r.pools && p.name == name && p.capacity >= (if held(FullKey(name)) then 88 else 90);
      FullSaid(r.pools, held, name, FullSays(p));
    }
  }

  /** The alert about a hot disk: at 55 or more at some look and at 50 or more at every look since. */
  lemma HotExactly(sweeps: seq<Sweep>, id: string)
    ensures
      Opened(RowAt(History(sweeps), HotKey(id)))
      <==> Held(Looks(sweeps), (r, line) => DiskReaches(r, id, line), 55, 50)
  {
    var reaches := (r, line) => DiskReaches(r, id, line);
    forall r, held
      ensures Said(ConditionsOf(r, held), HotKey(id)) != [] <==> reaches(r, if held(HotKey(id)) then 50 else 55)
    {
      HotIsSaid(r, held, id);
    }
    OpenWhileHeld(sweeps, HotKey(id), reaches, 55, 50);
  }

  lemma HotIsSaid(r: Reading, held: string -> bool, id: string)
    ensures
      Said(ConditionsOf(r, held), HotKey(id)) != []
      <==> DiskReaches(r, id, if held(HotKey(id)) then 50 else 55)
  {
    DiskLetters(id);
    ReadingSays(r, held, HotKey(id));
    HotInDisks(r, held, id);
  }

  lemma HotInDisks(r: Reading, held: string -> bool, id: string)
    ensures
      Said(Each(r.disks, DiskOf(held)), HotKey(id)) != []
      <==> DiskReaches(r, id, if held(HotKey(id)) then 50 else 55)
  {
    var said := Said(Each(r.disks, DiskOf(held)), HotKey(id));
    if said != [] {
      HotSaid(r.disks, held, id, said[0]);
    }
    if DiskReaches(r, id, if held(HotKey(id)) then 50 else 55) {
      var d :| d in r.disks && d.id == id && d.smart.Some?
        && Or0(d.smart.value.temperature) >= if held(HotKey(id)) then 50 else 55;
      HotSaid(r.disks, held, id, HotSays(d.smart.value));
    }
  }

  /**
   * Whether a pool's alert was raised at 90 or holds on, it is critical exactly at 95 or more, if one pool has the
   * name.
   */
  lemma FullSeverity(sweeps: seq<Sweep>, name: string, p: Pool)
    requires LastLook(sweeps).Some? && ThePool(LastLook(sweeps).value, name, p)
    requires Opened(RowAt(History(sweeps), FullKey(name)))
    ensures
      RowAt(History(sweeps), FullKey(name)).value.wording.severity == if p.capacity >= 95 then Critical else Warning
  {
    LastLookDecides(sweeps, FullKey(name));
    SaidByTheOne(sweeps, name, p);
    assert Only(SaidLast(sweeps, FullKey(name)), FullSays(p));
  }

  lemma {:induction false} SaidByTheOne(sweeps: seq<Sweep>, name: string, p: Pool)
    requires LastLook(sweeps).Some? && ThePool(LastLook(sweeps).value, name, p)
    ensures forall w :: w in SaidLast(sweeps, FullKey(name)) ==> w == FullSays(p)
    decreases |sweeps|
  {
    match sweeps[|sweeps| - 1]
    case Look(r, now) =>
      var held := OpenAt(History(Front(sweeps)));
      PoolLetters(name);
      ReadingSays(r, held, FullKey(name));
      forall w | w in SaidLast(sweeps, FullKey(name)) ensures w == FullSays(p) {
        FullSaid(r.pools, held, name, w);
      }
    case Ack(_, _) => SaidByTheOne(Front(sweeps), name, p);
  }

  /** The alert about a hot disk is a warning with the title that came in with the reading, if one disk has the id. */
  lemma HotSaysSo(sweeps: seq<Sweep>, id: string, s: Smart)
    requires
      LastLook(sweeps).Some? && TheDisk(LastLook(sweeps).value, id, s) && Opened(RowAt(History(sweeps), HotKey(id)))
    ensures
      var wording := RowAt(History(sweeps), HotKey(id)).value.wording;
      wording.severity == Warning && wording.title == s.hotSays.title
  {
    LastLookDecides(sweeps, HotKey(id));
    SaidByTheDisk(sweeps, id, s);
    assert Only(SaidLast(sweeps, HotKey(id)), HotSays(s));
  }

  lemma {:induction false} SaidByTheDisk(sweeps: seq<Sweep>, id: string, s: Smart)
    requires LastLook(sweeps).Some? && TheDisk(LastLook(sweeps).value, id, s)
    ensures forall w :: w in SaidLast(sweeps, HotKey(id)) ==> w == HotSays(s)
    decreases |sweeps|
  {
    match sweeps[|sweeps| - 1]
    case Look(r, now) =>
      var held := OpenAt(History(Front(sweeps)));
      DiskLetters(id);
      ReadingSays(r, held, HotKey(id));
      forall w | w in SaidLast(sweeps, HotKey(id)) ensures w == HotSays(s) {
        HotSaid(r.disks, held, id, w);
      }
    case Ack(_, _) => SaidByTheDisk(Front(sweeps), id, s);
  }
}
