/** An address change with a promised revert. */
module NetworkChange {
  import opened Text
  import NetworkFile
  import OrderedMap

  /** The note of a pending change: torn writes leave one that does not parse, which reads as none. */
  datatype Note = NoNote | Garbled | Note(previous: Option<string>, expires: int)

  datatype Reason = Setting | Refused | Expired
  datatype Stage = WriteFile | Generate | Apply | ForgetNote

  datatype Op =
    | Idle
    | WritingNote(content: string, previous: Option<string>, expires: int)
    | Applying(target: Option<string>, reason: Reason, stage: Stage)

  /**
   * The file, the note of the pending change and the configuration in force, changed step by step: `file` is the
   * agent's netplan file if there is one, `applied` what netplan runs of it. The agent can die and the box can restart
   * between any two steps and in the middle of any write, and netplan can refuse anything.
   */
  datatype State = State(file: Option<string>, note: Note, applied: Option<string>, op: Op)

  datatype Event =
    | SetStart(content: string, expires: int)
    | NoteWritten
    | NoteFails(left: Note)
    | FileWritten
    | FileFails(torn: Option<string>)
    | Generated(ok: bool)
    | Applied
    | ApplyFails(running: Option<string>)
    | Forgotten
    | ForgetFails
    | RevertStart(now: int)
    | Confirm
    | Crash(torn: Option<string>, left: Note, running: Option<string>)
    | Reboot(torn: Option<string>, left: Note)

  /** What a write of a note that did not finish can leave. */
  predicate TornNote(op: Op, left: Note)
    requires op.WritingNote?
  {
    left == NoNote || left == Garbled || left == Note(op.previous, op.expires)
  }

  predicate Enabled(s: State, e: Event) {
    match e
    case SetStart(_, _) => s.op.Idle? && !s.note.Note?
    case NoteWritten => s.op.WritingNote?
    case NoteFails(left) => s.op.WritingNote? && TornNote(s.op, left)
    case FileWritten => s.op.Applying? && s.op.stage == WriteFile
    case FileFails(_) => s.op.Applying? && s.op.stage == WriteFile
    case Generated(_) => s.op.Applying? && s.op.stage == Generate
    case Applied => s.op.Applying? && s.op.stage == Apply
    case ApplyFails(_) => s.op.Applying? && s.op.stage == Apply
    case Forgotten => s.op.Applying? && s.op.stage == ForgetNote
    case ForgetFails => s.op.Applying? && s.op.stage == ForgetNote
    case RevertStart(now) => s.op.Idle? && s.note.Note? && s.note.expires <= now
    case Confirm => s.op.Idle?
    case Crash(_, left, _) => s.op.WritingNote? ==> TornNote(s.op, left)
    case Reboot(_, left) => s.op.WritingNote? ==> TornNote(s.op, left)
  }

  /** A change netplan or the disk refused is reverted at once; a revert that fails leaves its note for the next try. */
  function Failed(s: State): State {
    if s.op.Applying? && s.op.reason.Setting? && s.note.Note?
    then s.(op := Applying(s.note.previous, Refused, WriteFile))
    else s.(op := Idle)
  }

  /** What is on the disk when the agent stops here. */
  function Stopped(s: State, torn: Option<string>, left: Note): State {
    match s.op
    case WritingNote(_, _, _) => s.(note := left, op := Idle)
    case Applying(_, _, WriteFile) => s.(file := torn, op := Idle)
    case _ => s.(op := Idle)
  }

  function Next(s: State, e: Event): State
    requires Enabled(s, e)
  {
    match e
    case SetStart(content, expires) => s.(op := WritingNote(content, s.file, expires))
    case NoteWritten =>
      s.(note := Note(s.op.previous, s.op.expires), op := Applying(Some(s.op.content), Setting, WriteFile))
    case NoteFails(left) => s.(note := left, op := Idle)
    case FileWritten => s.(file := s.op.target, op := s.op.(stage := Generate))
    case FileFails(torn) => Failed(s.(file := torn))
    case Generated(ok) => if ok then s.(op := s.op.(stage := Apply)) else Failed(s)
    case Applied =>
      s.(applied := s.op.target, op := if s.op.reason.Setting? then Idle else s.op.(stage := ForgetNote))
    case ApplyFails(running) => Failed(s.(applied := running))
    case Forgotten => s.(note := NoNote, op := Idle)
    case ForgetFails => s.(op := Idle)
    case RevertStart(_) => s.(op := Applying(s.note.previous, Expired, WriteFile))
    case Confirm => s.(note := NoNote)
    case Crash(torn, left, running) =>
      var t := Stopped(s, torn, left);
      if s.op.Applying? && s.op.stage == Apply then t.(applied := running) else t
    case Reboot(torn, left) =>
      var t := Stopped(s, torn, left);
      t.(applied := t.file)
  }

  predicate Runs(s: State, es: seq<Event>)
    decreases |es|
  {
    es == [] || (Enabled(s, es[0]) && Runs(Next(s, es[0]), es[1..]))
  }

  function Final(s: State, es: seq<Event>): State
    requires Runs(s, es)
    decreases |es|
  {
    if es == [] then s else Final(Next(s, es[0]), es[1..])
  }

  /** Nothing pending: the file holds F and F is what runs. */
  predicate Settled(s: State, F: Option<string>) {
    !s.note.Note? && s.op.Idle? && s.file == F && s.applied == F
  }

  /** What every step but a confirm keeps, F being the content before the change. */
  predicate Inv(s: State, F: Option<string>) {
    if s.note.Note? then
      && s.note.previous == F
      && !s.op.WritingNote?
      && (s.op.Applying? && !s.op.reason.Setting? ==>
        && s.op.target == F
        && (s.op.stage != WriteFile ==> s.file == F)
        && (s.op.stage == ForgetNote ==> s.applied == F))
      && (s.op.Applying? && s.op.reason.Setting? ==> s.op.stage != ForgetNote)
    else
      s.file == F && s.applied == F && !s.op.Applying? && (s.op.WritingNote? ==> s.op.previous == F)
  }

  lemma StepKeeps(s: State, e: Event, F: Option<string>)
    requires Inv(s, F) && Enabled(s, e) && !e.Confirm?
    ensures Inv(Next(s, e), F)
  {}

  lemma {:induction false} RunKeeps(s: State, es: seq<Event>, F: Option<string>)
    requires Inv(s, F) && Runs(s, es) && Confirm !in es
    ensures Inv(Final(s, es), F)
    decreases |es|
  {
    if es != [] {
      StepKeeps(s, es[0], F);
      RunKeeps(Next(s, es[0]), es[1..], F);
    }
  }

  /**
   * From a settled box, through any number of changes, deaths, restarts, torn writes, refusals, retried reverts: while
   * a note is there it promises the old content, and whenever none is and no verb is at work, the old content is both
   * in the file and in force. Only a confirm changes that.
   */
  lemma UnconfirmedChangesComeBack(s: State, es: seq<Event>, F: Option<string>)
    requires Settled(s, F) && Runs(s, es) && Confirm !in es
    ensures
      var t := Final(s, es);
      && (t.note.Note? ==> t.note.previous == F)
      && (!t.note.Note? && t.op.Idle? ==> Settled(t, F))
  {
    RunKeeps(s, es, F);
  }

  /** netplan or the disk refuses what the change writes. */
  predicate IsRefusal(e: Event) {
    e.FileFails? || e.ApplyFails? || (e.Generated? && !e.ok)
  }

  /** No step of these reverts a change: no confirm, no refusal, and no try to revert before its time is up. */
  predicate Undisturbed(es: seq<Event>, expires: int) {
    forall e :: e in es ==> !e.Confirm? && !IsRefusal(e) && (e.RevertStart? ==> e.now < expires)
  }

  /** At work on the change itself, if on anything, and not on a revert. */
  predicate NotReverting(s: State) {
    s.op.Idle? || (s.op.Applying? && s.op.reason.Setting? && s.op.stage != ForgetNote)
  }

  /**
   * Before its time is up a change is not reverted, whatever dies or is read, unless netplan refuses it: the note
   * stays, and nothing is at work but the change. Once the change was written and applied, or given up half-way, the
   * file stays as it is, and what runs is what ran then or what the file says.
   */
  lemma {:induction false} NotRevertedEarly(s: State, es: seq<Event>)
    requires s.note.Note? && Runs(s, es) && NotReverting(s) && Undisturbed(es, s.note.expires)
    ensures Final(s, es).note == s.note && NotReverting(Final(s, es))
    ensures s.op.Idle? ==>
      var t := Final(s, es);
      t.op.Idle? && t.file == s.file && (t.applied == s.applied || t.applied == s.file)
    decreases |es|
  {
    if es != [] {
      assert es[0] in es;
      NotRevertedEarly(Next(s, es[0]), es[1..]);
    }
  }

  /** Once it is up, one undisturbed try brings the old content back, from whatever state the tries before left. */
  lemma RetryComesBack(s: State, now: int, F: Option<string>)
    requires Inv(s, F) && s.op.Idle? && s.note.Note? && s.note.expires <= now
    ensures
      var es := [RevertStart(now), FileWritten, Generated(true), Applied, Forgotten];
      Runs(s, es) && Settled(Final(s, es), F)
  {
    var s1 := Next(s, RevertStart(now));
    var s2 := Next(s1, FileWritten);
    var s3 := Next(s2, Generated(true));
    var s4 := Next(s3, Applied);
    RunCons(s4, Forgotten, []);
    RunCons(s3, Applied, [Forgotten]);
    RunCons(s2, Generated(true), [Applied, Forgotten]);
    RunCons(s1, FileWritten, [Generated(true), Applied, Forgotten]);
    RunCons(s, RevertStart(now), [FileWritten, Generated(true), Applied, Forgotten]);
  }

  lemma RunCons(s: State, e: Event, es: seq<Event>)
    requires Enabled(s, e) && Runs(Next(s, e), es)
    ensures Runs(s, [e] + es) && Final(s, [e] + es) == Final(Next(s, e), es)
  {
    assert ([e] + es)[1..] == es;
  }

  lemma {:induction false} RunConcat(s: State, a: seq<Event>, b: seq<Event>)
    requires Runs(s, a) && Runs(Final(s, a), b)
    ensures Runs(s, a + b) && Final(s, a + b) == Final(Final(s, a), b)
    decreases |a|
  {
    if a == [] {
      assert a + b == b;
    } else {
      assert (a + b)[0] == a[0] && (a + b)[1..] == a[1..] + b;
      RunConcat(Next(s, a[0]), a[1..], b);
    }
  }

  /** A change that nothing refuses. */
  function SetSteps(content: string, expires: int): seq<Event> {
    [SetStart(content, expires), NoteWritten, FileWritten, Generated(true), Applied]
  }

  lemma SetRuns(s: State, content: string, expires: int)
    requires s.op.Idle? && !s.note.Note?
    ensures Runs(s, SetSteps(content, expires))
    ensures Final(s, SetSteps(content, expires)) == State(Some(content), Note(s.file, expires), Some(content), Idle)
  {
    var s1 := Next(s, SetStart(content, expires));
    var s2 := Next(s1, NoteWritten);
    var s3 := Next(s2, FileWritten);
    var s4 := Next(s3, Generated(true));
    RunCons(s4, Applied, []);
    RunCons(s3, Generated(true), [Applied]);
    RunCons(s2, FileWritten, [Generated(true), Applied]);
    RunCons(s1, NoteWritten, [FileWritten, Generated(true), Applied]);
    RunCons(s, SetStart(content, expires), [NoteWritten, FileWritten, Generated(true), Applied]);
  }

  /**
   * A change that nothing refuses, then any deaths, restarts and reads, then a confirm in time: the box is settled on
   * the new content, in the file and in force, and no revert is promised any more.
   */
  lemma ConfirmedChangeSettles(s: State, content: string, expires: int, between: seq<Event>)
    requires s.op.Idle? && !s.note.Note?
    requires
      Runs(State(Some(content), Note(s.file, expires), Some(content), Idle), between) && Undisturbed(between, expires)
    ensures
      var es := SetSteps(content, expires) + (between + [Confirm]);
      Runs(s, es) && Settled(Final(s, es), Some(content))
  {
    var pending := State(Some(content), Note(s.file, expires), Some(content), Idle);
    SetRuns(s, content, expires);
    NotRevertedEarly(pending, between);
    RunCons(Final(pending, between), Confirm, []);
    assert [Confirm] + [] == [Confirm];
    RunConcat(pending, between, [Confirm]);
    RunConcat(s, SetSteps(content, expires), between + [Confirm]);
  }

  // ---- the verbs as they run ----

  /** How the disk and netplan answer one try to put a content in force. */
  datatype Answers = Answers(write: bool, torn: Option<string>, generate: bool, apply: bool, running: Option<string>) {
    predicate Ok() { write && generate && apply }
  }

  datatype Verdict = BadArgs | StillPending | Kept | PutBack | RevertFailed

  /** The steps of one try, as far as it gets. */
  function TrySteps(a: Answers): seq<Event> {
    if !a.write then [FileFails(a.torn)]
    else if !a.generate then [FileWritten, Generated(false)]
    else if !a.apply then [FileWritten, Generated(true), ApplyFails(a.running)]
    else [FileWritten, Generated(true), Applied]
  }

  /** What a try leaves, of the disk and of what runs. */
  function Tried(s: State, target: Option<string>, a: Answers): State {
    s.(file := if a.write then target else a.torn,
       applied := if !a.write || !a.generate then s.applied else if a.apply then target else a.running)
  }

  lemma TryRuns(s: State, target: Option<string>, reason: Reason, a: Answers)
    requires s.op == Applying(target, reason, WriteFile)
    ensures Runs(s, TrySteps(a))
    ensures
      Final(s, TrySteps(a))
      == if a.Ok()
         then Tried(s, target, a).(op := if reason.Setting? then Idle else Applying(target, reason, ForgetNote))
      else Failed(Tried(s, target, a))
  {
    if !a.write {
      RunCons(s, FileFails(a.torn), []);
    } else {
      var s1 := Next(s, FileWritten);
      if !a.generate {
        RunCons(s1, Generated(false), []);
        RunCons(s, FileWritten, [Generated(false)]);
      } else {
        var s2 := Next(s1, Generated(true));
        var last := if a.apply then Applied else ApplyFails(a.running);
        RunCons(s2, last, []);
        RunCons(s1, Generated(true), [last]);
        RunCons(s, FileWritten, [Generated(true), last]);
      }
    }
  }

  /** A revert's steps after it was begun: the try, and then, if netplan took the old file, the note. */
  function RevertSteps(a: Answers): seq<Event> { TrySteps(a) + if a.Ok() then [Forgotten] else [] }

  /** What a revert leaves. */
  function Reverted(s: State, a: Answers): State
    requires s.note.Note?
  {
    var t := Tried(s, s.note.previous, a).(op := Idle);
    if a.Ok() then t.(note := NoNote) else t
  }

  lemma RevertRuns(s: State, reason: Reason, a: Answers)
    requires s.note.Note? && !reason.Setting? && s.op == Applying(s.note.previous, reason, WriteFile)
    ensures Runs(s, RevertSteps(a)) && Final(s, RevertSteps(a)) == Reverted(s, a)
  {
    TryRuns(s, s.note.previous, reason, a);
    if a.Ok() {
      RunCons(Final(s, TrySteps(a)), Forgotten, []);
      assert [Forgotten] + [] == [Forgotten];
      RunConcat(s, TrySteps(a), [Forgotten]);
    } else {
      assert TrySteps(a) + [] == TrySteps(a);
    }
  }

  lemma ExpiredRuns(s: State, now: int, a: Answers)
    requires s.op.Idle? && s.note.Note? && s.note.expires <= now
    ensures
      Runs(s, [RevertStart(now)] + RevertSteps(a)) && Final(s, [RevertStart(now)] + RevertSteps(a)) == Reverted(s, a)
  {
    RevertRuns(Next(s, RevertStart(now)), Expired, a);
    RunCons(s, RevertStart(now), RevertSteps(a));
  }

  /** The steps of a set, with those of the revert of one that was refused. */
  function SetAndRevertSteps(content: string, expires: int, a: Answers, back: Answers): seq<Event> {
    [SetStart(content, expires)] + ([NoteWritten] + (TrySteps(a) + if a.Ok() then [] else RevertSteps(back)))
  }

  /** What a set leaves. */
  function AfterSet(s: State, content: string, expires: int, a: Answers, back: Answers): State {
    var tried := Tried(s.(note := Note(s.file, expires)), Some(content), a);
    if a.Ok() then tried else Reverted(tried, back)
  }

  lemma SetAndRevertRuns(s: State, content: string, expires: int, a: Answers, back: Answers)
    requires s.op.Idle? && !s.note.Note?
    ensures
      var es := SetAndRevertSteps(content, expires, a, back);
      Runs(s, es) && Final(s, es) == AfterSet(s, content, expires, a, back)
  {
    var s1 := Next(s, SetStart(content, expires));
    var s2 := Next(s1, NoteWritten);
    TryRuns(s2, Some(content), Setting, a);
    var s3 := Final(s2, TrySteps(a));
    var rest: seq<Event> := if a.Ok() then [] else RevertSteps(back);
    if !a.Ok() {
      RevertRuns(s3, Refused, back);
    }
    RunConcat(s2, TrySteps(a), rest);
    RunCons(s1, NoteWritten, TrySteps(a) + rest);
    RunCons(s, SetStart(content, expires), [NoteWritten] + (TrySteps(a) + rest));
  }

  class Box {
    var file: Option<string>
    var note: Note
    var applied: Option<string>

    constructor (file: Option<string>)
      ensures Settled(Now(), file)
    {
      this.file, note, applied := file, NoNote, file;
    }

    ghost function Now(): State reads this { State(file, note, applied, Idle) }

    /** The file, then netplan generate, then netplan apply; the first that fails ends it. */
    method ApplyFile(content: Option<string>, a: Answers) returns (ok: bool)
      modifies this`file, this`applied
      ensures ok == a.Ok() && Now() == Tried(old(Now()), content, a)
    {
      if !a.write {
        file := a.torn;
        return false;
      }
      file := content;
      if !a.generate {
        return false;
      }
      if !a.apply {
        applied := a.running;
        return false;
      }
      applied := content;
      return true;
    }

    /** The note goes only once netplan took the old file. */
    method Revert(a: Answers) returns (done: bool)
      modifies this
      ensures done == (old(note).Note? && a.Ok())
      ensures Now() == if old(note).Note? then Reverted(old(Now()), a) else old(Now())
    {
      if !note.Note? {
        return false;
      }
      done := ApplyFile(note.previous, a);
      if done {
        note := NoNote;
      }
    }

    /**
     * The promised revert: what it does is a run of the machine, and it settles the box on the old content when netplan
     * takes it.
     */
    method RevertIfExpired(now: int, a: Answers) returns (done: bool, ghost es: seq<Event>)
      modifies this
      ensures Runs(old(Now()), es) && Now() == Final(old(Now()), es)
      ensures done == (old(note).Note? && old(note).expires <= now && a.Ok())
      ensures done ==> Settled(Now(), old(note).previous)
      ensures !old(note).Note? || now < old(note).expires ==> Now() == old(Now())
      ensures !done ==> note == old(note)
    {
      es := [];
      if !note.Note? || note.expires > now {
        return false, [];
      }
      ExpiredRuns(Now(), now, a);
      es := [RevertStart(now)] + RevertSteps(a);
      done := Revert(a);
    }

    method ConfirmNetwork()
      modifies this`note
      ensures Now() == Next(old(Now()), Confirm)
    {
      note := NoNote;
    }

    /** The checks, the note, the new content, and the revert of one that was refused: a run of the machine. */
    method PutContent(settable: bool, content: string, expires: int, a: Answers, back: Answers)
      returns (v: Verdict, ghost es: seq<Event>)
      modifies this
      ensures Runs(old(Now()), es) && Now() == Final(old(Now()), es)
      ensures v == VerdictOf(settable, old(Now()), a, back)
      ensures Now() == SetLeaves(settable, old(Now()), content, expires, a, back)
    {
      if !settable {
        return BadArgs, [];
      }
      if note.Note? {
        return StillPending, [];
      }
      SetAndRevertRuns(Now(), content, expires, a, back);
      es := SetAndRevertSteps(content, expires, a, back);
      note := Note(file, expires);
      var ok := ApplyFile(Some(content), a);
      if ok {
        return Kept, es;
      }
      var done := Revert(back);
      v := if done then PutBack else RevertFailed;
    }

    /** One interface set in the agent's own file, once its arguments were judged. */
    method SetChecked(
        settable: bool, iface: string, c: NetworkFile.Config, now: int, seconds: nat, a: Answers, back: Answers)
      returns (v: Verdict, ghost es: seq<Event>)
      modifies this
      ensures Runs(old(Now()), es) && Now() == Final(old(Now()), es)
      ensures v == VerdictOf(settable, old(Now()), a, back)
      ensures
        Now() == SetLeaves(settable, old(Now()), ContentWith(old(file), iface, c), now + 1000 * seconds, a, back)
    {
      var content := WriteContent(file, iface, c);
      v, es := PutContent(settable, content, now + 1000 * seconds, a, back);
    }

    /**
     * One interface set in the agent's own file, the rest of the file's interfaces kept. `seconds` is how long the
     * change waits for its confirmation; `back` is how netplan answers the revert of a change it refused. What it does
     * is a run of the machine.
     */
    method SetNetwork(iface: string, c: NetworkFile.Config, now: int, seconds: nat, a: Answers, back: Answers)
      returns (v: Verdict, ghost es: seq<Event>)
      modifies this
      ensures Runs(old(Now()), es) && Now() == Final(old(Now()), es)
      ensures v == VerdictOf(Takes(iface, c), old(Now()), a, back)
      ensures
        Now()
        == SetLeaves(Takes(iface, c), old(Now()), ContentWith(old(file), iface, c), now + 1000 * seconds, a, back)
    {
      v, es := SetChecked(Takes(iface, c), iface, c, now, seconds, a, back);
    }
  }

  /** The checks of an interface and its configuration. */
  predicate Takes(iface: string, c: NetworkFile.Config) { NetworkFile.InterfaceName(iface) && NetworkFile.Accepted(c) }

  /**
   * What a set answers: refused before anything is touched, or kept for now, or put back, or left to be put back later.
   */
  function VerdictOf(settable: bool, s: State, a: Answers, back: Answers): Verdict {
    if !settable then BadArgs
    else if s.note.Note? then StillPending
    else if a.Ok() then Kept
    else if back.Ok() then PutBack
    else RevertFailed
  }

  /** What a set leaves: all as it was when it is refused. */
  function SetLeaves(settable: bool, s: State, content: string, expires: int, a: Answers, back: Answers): State {
    if !settable || s.note.Note? then s else AfterSet(s, content, expires, a, back)
  }

  /**
   * What a set comes to: the new content in the file and in force with the old one promised, or the box settled on the
   * old one again, or, when the revert failed too, the old one still promised.
   */
  lemma SetComesTo(s: State, content: string, expires: int, a: Answers, back: Answers)
    requires s.op.Idle? && !s.note.Note?
    ensures
      var t := AfterSet(s, content, expires, a, back);
      if a.Ok() then t == State(Some(content), Note(s.file, expires), Some(content), Idle)
      else if back.Ok() then Settled(t, s.file)
      else t.note == Note(s.file, expires) && t.op.Idle?
  {
  }

  /** The file read, with one interface put, and written again. */
  method WriteContent(previous: Option<string>, iface: string, c: NetworkFile.Config) returns (content: string)
    ensures content == ContentWith(previous, iface, c)
  {
    var own := NetworkFile.ParseOwn(previous);
    content := NetworkFile.Content(OrderedMap.Put(own, iface, c));
  }

  /** The agent's file with one interface set and the others as they were. */
  function ContentWith(previous: Option<string>, iface: string, c: NetworkFile.Config): string {
    NetworkFile.Content(OrderedMap.Put(Entries(previous), iface, c))
  }

  /** Setting one interface in a file of the agent's: it is read as set, and every other one as it was. */
  lemma SetKeepsOthers(
      m: OrderedMap.Entries<NetworkFile.Config>, iface: string, c: NetworkFile.Config, other: string)
    requires NetworkFile.Settable(m) && Takes(iface, c)
    requires forall e :: e in m && e.1.Static? ==> NetworkFile.Clean(e.1.address)
    requires c.Static? ==> NetworkFile.Clean(c.address)
    ensures
      var after := NetworkFile.Parsed(ContentWith(Some(NetworkFile.Content(m)), iface, c));
      && OrderedMap.Get(after, iface) == Some(c)
      && (other != iface ==> OrderedMap.Get(after, other) == OrderedMap.Get(m, other))
  {
    NetworkFile.SettingOneKeepsTheOthers(m, iface, c, other);
  }

  /** The first interface ever set: a box without a file has none. */
  lemma FirstSet(iface: string, c: NetworkFile.Config)
    requires Takes(iface, c) && (c.Static? ==> NetworkFile.Clean(c.address))
    ensures NetworkFile.Parsed(ContentWith(None, iface, c)) == [(iface, c)]
  {
    NetworkFile.OneSettable(iface, c);
    assert OrderedMap.Put([], iface, c) == [(iface, c)];
    NetworkFile.ComesBackExactlyWhenClean([(iface, c)]);
  }

  /** What the agent's file says. */
  function Entries(text: Option<string>): OrderedMap.Entries<NetworkFile.Config> {
    if text.None? then [] else NetworkFile.Parsed(text.value)
  }
}
