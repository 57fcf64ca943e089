/** Which snapshots a replication may prune, decided on the text of their names. */
module ReplicationNames {
  import opened Text

  /** A UTC instant to the minute. ECMAScript dates reach years -271821 to 275760. */
  datatype Time = Time(year: int, month: nat, day: nat, hour: nat, minute: nat) {
    predicate Valid() {
      -271821 <= year <= 275760 && 1 <= month <= 12 && 1 <= day <= 31 && hour < 24 && minute < 60
    }
  }

  function TwoDigits(n: nat): (s: string)
    requires n < 100
    ensures |s| == 2 && Fits(s, "dd")
  {
    [Digit(n / 10), Digit(n % 10)]
  }

  /** The year as toISOString prints it: four digits, or a sign and six digits outside 0 to 9999. */
  function YearText(y: int): (s: string)
    requires -1000000 < y < 1000000
    ensures 0 <= y <= 9999 ==> |s| == 4 && Fits(s, "dddd")
    ensures !(0 <= y <= 9999) ==> |s| == 7 && (s[0] == '+' || s[0] == '-')
  {
    if 0 <= y <= 9999 then TwoDigits(y / 100) + TwoDigits(y % 100)
    else
      var a := if y < 0 then -y else y;
      [if y < 0 then '-' else '+'] + TwoDigits(a / 10000) + TwoDigits(a / 100 % 100) + TwoDigits(a % 100)
  }

  /** toISOString up to the minutes; what follows never reaches the 16 characters a stamp keeps. */
  function Iso(t: Time): string
    requires t.Valid()
  {
    YearText(t.year) + "-" + TwoDigits(t.month) + "-" + TwoDigits(t.day) + "T" + TwoDigits(t.hour) + ":"
      + TwoDigits(t.minute)
  }

  /** String.prototype.replace of a one-character string: the first occurrence only. */
  function ReplaceFirst(s: string, c: char, with: char): (r: string)
    ensures |r| == |s|
  {
    var i := IndexOf(s, c);
    if i == |s| then s else s[i := with]
  }

  function Stamp(t: Time): string
    requires t.Valid()
  {
    ReplaceFirst(ReplaceFirst(Iso(t)[..16], 'T', '_'), ':', '-')
  }

  function ReplName(id: nat, t: Time): string
    requires t.Valid()
  {
    "repl-" + Dec(id) + "-" + Stamp(t)
  }

  /** A shape: `d` stands for a digit, any other character for itself. */
  predicate Fits(s: string, shape: string) {
    if s == [] || shape == [] then s == [] && shape == []
    else (if shape[0] == 'd' then IsDigit(s[0]) else s[0] == shape[0]) && Fits(s[1..], shape[1..])
  }

  const STAMP := "dddd" + "-" + "dd" + "-" + "dd" + "_" + "dd" + "-" + "dd"

  predicate IsStamp(s: string) { |s| == 16 && Fits(s, STAMP) }

  function OwnPrefix(id: nat): string { "repl-" + Dec(id) + "-" }

  predicate Own(name: string, id: nat) {
    StartsWith(name, OwnPrefix(id)) && IsStamp(name[|OwnPrefix(id)|..])
  }

  predicate Legacy(name: string) {
    StartsWith(name, "repl-") && IsStamp(name[5..])
  }

  /** What replication id prunes: its own names, and the names from before ids while it is the dataset's only one. */
  predicate IsMine(name: string, id: nat, alone: bool) {
    Own(name, id) || (alone && Legacy(name))
  }

  function OwnSnapshots(names: seq<string>, id: nat, alone: bool): (r: seq<string>)
    ensures forall s :: s in r <==> s in names && IsMine(s, id, alone)
  {
    if names == [] then []
    else
      var rest := OwnSnapshots(names[1..], id, alone);
      if IsMine(names[0], id, alone) then [names[0]] + rest else rest
  }

  /** What a stamp looks like, character by character. */
  lemma StampIs(s: string)
    ensures
      IsStamp(s) <==>
      && |s| == 16 && s[4] == s[7] == s[13] == '-' && s[10] == '_'
      && IsDigit(s[0]) && IsDigit(s[1]) && IsDigit(s[2]) && IsDigit(s[3]) && IsDigit(s[5]) && IsDigit(s[6])
      && IsDigit(s[8]) && IsDigit(s[9]) && IsDigit(s[11]) && IsDigit(s[12]) && IsDigit(s[14]) && IsDigit(s[15])
  {
    if |s| == 16 {
      var date, time := s[..10], s[11..];
      assert s == date + [s[10]] + time;
      DateIs(date);
      TimeIs(time);
      MarkIs(s[10], '_');
      FitsConcat(date, "dddd-dd-dd", [s[10]], "_");
      FitsConcat(date + [s[10]], "dddd-dd-dd" + "_", time, "dd-dd");
      StampShapeIs();
    }
  }

  lemma StampShapeIs()
    ensures STAMP == "dddd-dd-dd" + "_" + "dd-dd"
  {}

  lemma DateIs(s: string)
    requires |s| == 10
    ensures
      Fits(s, "dddd-dd-dd") <==>
      && s[4] == s[7] == '-' && IsDigit(s[0]) && IsDigit(s[1]) && IsDigit(s[2]) && IsDigit(s[3])
      && IsDigit(s[5]) && IsDigit(s[6]) && IsDigit(s[8]) && IsDigit(s[9])
  {
    FitsAt(s, "dddd-dd-dd");
  }

  lemma TimeIs(s: string)
    requires |s| == 5
    ensures
      Fits(s, "dd-dd") <==> s[2] == '-' && IsDigit(s[0]) && IsDigit(s[1]) && IsDigit(s[3]) && IsDigit(s[4])
  {
    FitsAt(s, "dd-dd");
  }

  lemma MarkIs(c: char, mark: char)
    requires mark != 'd'
    ensures Fits([c], [mark]) <==> c == mark
  {
    FitsAt([c], [mark]);
  }

  lemma {:induction false} FitsAt(s: string, shape: string)
    requires |s| == |shape|
    ensures
      Fits(s, shape) <==>
      forall i :: 0 <= i < |s| ==> if shape[i] == 'd' then IsDigit(s[i]) else s[i] == shape[i]
  {
    if s != "" {
      FitsAt(s[1..], shape[1..]);
      assert forall i :: 0 < i < |s| ==> s[i] == s[1..][i - 1] && shape[i] == shape[1..][i - 1];
      assert forall i :: 0 <= i < |s| - 1 ==> s[1..][i] == s[i + 1] && shape[1..][i] == shape[i + 1];
    }
  }

  /**
   * What the agent promises of names: the id's own ones, and those from before ids for the dataset's only replication.
   */
  ghost predicate Named(name: string, id: nat, alone: bool) {
    exists st ::
      IsStamp(st) && (name == "repl-" + Dec(id) + "-" + st || (alone && name == "repl-" + st))
  }

  lemma MineExactly(name: string, id: nat, alone: bool)
    ensures IsMine(name, id, alone) <==> Named(name, id, alone)
  {
    if Own(name, id) {
      assert name == OwnPrefix(id) + name[|OwnPrefix(id)|..];
      assert OwnPrefix(id) == "repl-" + Dec(id) + "-";
    }
    if Legacy(name) {
      assert name == "repl-" + name[5..];
    }
    if Named(name, id, alone) {
      var st :| IsStamp(st) && (name == "repl-" + Dec(id) + "-" + st || (alone && name == "repl-" + st));
      if name == "repl-" + Dec(id) + "-" + st {
        assert name[|OwnPrefix(id)|..] == st;
      } else {
        assert name[5..] == st;
      }
    }
  }

  /** A name belongs to at most one replication. */
  lemma OneOwner(name: string, a: nat, b: nat)
    requires Own(name, a) && Own(name, b)
    ensures a == b
  {
    OwnParts(name, a);
    OwnParts(name, b);
    DecInjective(a, b);
  }

  lemma OwnParts(name: string, id: nat)
    requires Own(name, id)
    ensures |name| == 22 + |Dec(id)| && name[5..|name| - 17] == Dec(id)
  {
    var prefix := OwnPrefix(id);
    assert |prefix| == 6 + |Dec(id)| && prefix[5..5 + |Dec(id)|] == Dec(id);
    assert name[..|prefix|] == prefix && name[5..5 + |Dec(id)|] == prefix[5..5 + |Dec(id)|];
  }

  /** A name from before ids is nobody's own, not even of an id that reads like a year. */
  lemma LegacyIsNobodys(name: string, id: nat)
    ensures !(Own(name, id) && Legacy(name))
  {
    if Own(name, id) {
      OwnParts(name, id);
    }
  }

  lemma ReplaceAt(a: string, c: char, b: string, with: char)
    requires c !in a
    ensures ReplaceFirst(a + [c] + b, c, with) == a + [with] + b
  {
    IndexOfFirst(a, c, b);
  }

  /** What the two replacements leave of a date, an hour and a minute. */
  lemma StampParts(date: string, hour: string, minute: string)
    requires |date| == 10 && |hour| == 2 && |minute| == 2
    requires 'T' !in date && ':' !in date && ':' !in hour
    ensures
      var iso := date + "T" + hour + ":" + minute;
      ReplaceFirst(ReplaceFirst(iso[..16], 'T', '_'), ':', '-') == date + "_" + hour + "-" + minute
  {
    var tail := hour + ":" + minute;
    var iso := date + "T" + hour + ":" + minute;
    assert iso[..16] == date + ['T'] + tail;
    ReplaceAt(date, 'T', tail, '_');
    var u := date + "_" + hour;
    assert date + ['_'] + tail == u + [':'] + minute;
    ReplaceAt(u, ':', minute, '-');
  }

  lemma {:induction false} FitsConcat(a: string, p: string, b: string, q: string)
    requires |a| == |p|
    ensures Fits(a + b, p + q) <==> Fits(a, p) && Fits(b, q)
  {
    if a == [] {
      assert a + b == b && p + q == q;
    } else {
      assert (a + b)[1..] == a[1..] + b && (p + q)[1..] == p[1..] + q;
      FitsConcat(a[1..], p[1..], b, q);
    }
  }

  lemma StampOfParts(year: string, month: string, day: string, hour: string, minute: string)
    requires |year| == 4 && |month| == |day| == |hour| == |minute| == 2
    requires Fits(year, "dddd") && Fits(month, "dd") && Fits(day, "dd") && Fits(hour, "dd") && Fits(minute, "dd")
    ensures IsStamp(year + "-" + month + "-" + day + "_" + hour + "-" + minute)
  {
    Separators();
    FitsConcat(year, "dddd", "-", "-");
    FitsConcat(year + "-", "dddd" + "-", month, "dd");
    FitsConcat(year + "-" + month, "dddd" + "-" + "dd", "-", "-");
    FitsConcat(year + "-" + month + "-", "dddd" + "-" + "dd" + "-", day, "dd");
    var date, shape := year + "-" + month + "-" + day, "dddd" + "-" + "dd" + "-" + "dd";
    FitsConcat(date, shape, "_", "_");
    FitsConcat(date + "_", shape + "_", hour, "dd");
    FitsConcat(date + "_" + hour, shape + "_" + "dd", "-", "-");
    FitsConcat(date + "_" + hour + "-", shape + "_" + "dd" + "-", minute, "dd");
  }

  lemma Separators()
    ensures Fits("-", "-") && Fits("_", "_")
  {}

  lemma {:induction false} FitsNoMarks(s: string, shape: string)
    requires Fits(s, shape) && forall c :: c in shape ==> c == 'd'
    ensures 'T' !in s && ':' !in s
  {
    if s != [] {
      assert shape[0] in shape && forall c :: c in shape[1..] ==> c in shape;
      FitsNoMarks(s[1..], shape[1..]);
    }
  }

  /** The stamp of a four-digit year has the shape, and only that. */
  lemma StampShape(t: Time)
    requires t.Valid()
    ensures |Stamp(t)| == 16
    ensures IsStamp(Stamp(t)) <==> 0 <= t.year <= 9999
  {
    if 0 <= t.year <= 9999 {
      StampFits(t);
    } else {
      StampHasSign(t);
      SignNeverFits(Stamp(t));
    }
  }

  lemma StampFits(t: Time)
    requires t.Valid() && 0 <= t.year <= 9999
    ensures IsStamp(Stamp(t))
  {
    StampText(t);
    var year, month, day := YearText(t.year), TwoDigits(t.month), TwoDigits(t.day);
    var hour, minute := TwoDigits(t.hour), TwoDigits(t.minute);
    StampOfParts(year, month, day, hour, minute);
  }

  // ---- which instant a stamp names ----

  function DigitAt(s: string, i: nat): int
    requires i < |s|
  {
    s[i] as int - '0' as int
  }

  function TwoAt(s: string, i: nat): int
    requires i + 1 < |s|
  {
    10 * DigitAt(s, i) + DigitAt(s, i + 1)
  }

  lemma TwoDigitsAre(n: nat)
    requires n < 100
    ensures TwoAt(TwoDigits(n), 0) == n
  {
    DigitIs(n / 10);
    DigitIs(n % 10);
  }

  /** Read as year, month, day, hour and minute, a stamp names the instant it was made for. */
  lemma StampReadsBack(t: Time)
    requires t.Valid() && 0 <= t.year <= 9999
    ensures |Stamp(t)| == 16
    ensures
      var s := Stamp(t);
      && 100 * TwoAt(s, 0) + TwoAt(s, 2) == t.year && TwoAt(s, 5) == t.month && TwoAt(s, 8) == t.day
      && TwoAt(s, 11) == t.hour && TwoAt(s, 14) == t.minute
  {
    StampText(t);
    var century, year := TwoDigits(t.year / 100), TwoDigits(t.year % 100);
    var month, day, hour, minute := TwoDigits(t.month), TwoDigits(t.day), TwoDigits(t.hour), TwoDigits(t.minute);
    TwoDigitsAre(t.year / 100);
    TwoDigitsAre(t.year % 100);
    TwoDigitsAre(t.month);
    TwoDigitsAre(t.day);
    TwoDigitsAre(t.hour);
    TwoDigitsAre(t.minute);
    PartsAt(century, year, month, day, hour, minute);
  }

  lemma PartsAt(century: string, year: string, month: string, day: string, hour: string, minute: string)
    requires |century| == |year| == |month| == |day| == |hour| == |minute| == 2
    ensures
      var s := century + year + "-" + month + "-" + day + "_" + hour + "-" + minute;
      && |s| == 16
      && TwoAt(s, 0) == TwoAt(century, 0) && TwoAt(s, 2) == TwoAt(year, 0) && TwoAt(s, 5) == TwoAt(month, 0)
      && TwoAt(s, 8) == TwoAt(day, 0) && TwoAt(s, 11) == TwoAt(hour, 0) && TwoAt(s, 14) == TwoAt(minute, 0)
  {}

  lemma StampText(t: Time)
    requires t.Valid() && 0 <= t.year <= 9999
    ensures
      Stamp(t) == TwoDigits(t.year / 100) + TwoDigits(t.year % 100) + "-" + TwoDigits(t.month) + "-" + TwoDigits(t.day)
        + "_" + TwoDigits(t.hour) + "-" + TwoDigits(t.minute)
  {
    var year, month, day := YearText(t.year), TwoDigits(t.month), TwoDigits(t.day);
    var hour, minute := TwoDigits(t.hour), TwoDigits(t.minute);
    FitsNoMarks(year, "dddd");
    FitsNoMarks(month, "dd");
    FitsNoMarks(day, "dd");
    FitsNoMarks(hour, "dd");
    StampParts(year + "-" + month + "-" + day, hour, minute);
  }

  lemma StampHasSign(t: Time)
    requires t.Valid() && !(0 <= t.year <= 9999)
    ensures |Stamp(t)| == 16 && (Stamp(t)[0] == '+' || Stamp(t)[0] == '-')
  {
    assert Iso(t)[0] == YearText(t.year)[0];
    FirstStays(Iso(t)[..16]);
  }

  lemma SignNeverFits(s: string)
    requires s != [] && (s[0] == '+' || s[0] == '-')
    ensures !IsStamp(s)
  {
    assert STAMP[0] == 'd';
  }

  lemma FirstStays(s: string)
    requires s != [] && s[0] != 'T' && s[0] != ':'
    ensures ReplaceFirst(ReplaceFirst(s, 'T', '_'), ':', '-')[0] == s[0]
  {
    assert ReplaceFirst(s, 'T', '_')[0] == s[0];
  }

  lemma OwnOfParts(id: nat, st: string, other: nat)
    requires |st| == 16
    ensures Own(OwnPrefix(id) + st, other) <==> other == id && IsStamp(st)
  {
    var name := OwnPrefix(id) + st;
    assert name[|OwnPrefix(id)|..] == st;
    if Own(name, other) {
      OwnParts(name, other);
      assert name[5..|name| - 17] == Dec(id);
      DecInjective(id, other);
    }
  }

  /** A name a run takes is own to exactly its replication, as long as the year has four digits. */
  lemma ReplNameIsOwn(id: nat, t: Time, other: nat)
    requires t.Valid()
    ensures Own(ReplName(id, t), other) <==> other == id && 0 <= t.year <= 9999
  {
    StampShape(t);
    OwnOfParts(id, Stamp(t), other);
  }
}
