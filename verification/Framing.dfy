/** The agent's connection: a client's stream cut into lines, with a limit on each line, however the stream arrives. */
module Framing {
  import opened Text

  const MAX_LINE: nat := 65536

  // ---- what a stream means ----

  /** A piece between line feeds as a line: trimmed, and passed over when nothing is left. */
  function LineOf(piece: string): seq<string> { if Trim(piece) == "" then [] else [Trim(piece)] }

  function Lines(pieces: seq<string>): seq<string> {
    if pieces == [] then [] else Lines(pieces[..|pieces| - 1]) + LineOf(pieces[|pieces| - 1])
  }

  /** How many pieces there are before the first that is too long. */
  function Short(pieces: seq<string>): (n: nat)
    ensures n <= |pieces|
    ensures forall i :: 0 <= i < n ==> |pieces[i]| <= MAX_LINE
    ensures n < |pieces| ==> |pieces[n]| > MAX_LINE
  {
    if pieces == [] || |pieces[0]| > MAX_LINE then 0 else 1 + Short(pieces[1..])
  }

  function Pieces(stream: string): (r: seq<string>)
    ensures |r| > 0
  {
    Split(stream, '\n')
  }

  /** The lines handed on: the finished ones before the first piece, finished or not, that is too long. */
  function Handed(stream: string): seq<string> { HandedOf(Pieces(stream)) }

  function HandedOf(pieces: seq<string>): seq<string>
    requires pieces != []
  {
    var n := Short(pieces);
    Lines(if n < |pieces| then pieces[..n] else pieces[..|pieces| - 1])
  }

  predicate Refused(stream: string) { Short(Pieces(stream)) < |Pieces(stream)| }

  /** A stream is refused exactly when some piece of it, finished or not, is too long. */
  lemma RefusedExactly(stream: string)
    ensures Refused(stream) <==> exists i :: 0 <= i < |Pieces(stream)| && |Pieces(stream)[i]| > 65536
  {
    var n := Short(Pieces(stream));
    if n < |Pieces(stream)| {
      assert |Pieces(stream)[n]| > MAX_LINE;
    }
  }

  // ---- a stream that goes on ----

  function Last(pieces: seq<string>): string
    requires pieces != []
  {
    pieces[|pieces| - 1]
  }

  function Front(pieces: seq<string>): seq<string>
    requires pieces != []
  {
    pieces[..|pieces| - 1]
  }

  lemma PiecesOfFirst(first: string, rest: string)
    requires '\n' !in first
    ensures Pieces(first + ['\n'] + rest) == [first] + Pieces(rest)
  {
    SplitAppend(first, rest, '\n');
    SplitNone(first, '\n');
  }

  lemma FrontOfFirst(first: string, pieces: seq<string>, more: seq<string>)
    requires pieces != []
    ensures Last([first] + pieces) == Last(pieces)
    ensures Front([first] + pieces) + more == [first] + (Front(pieces) + more)
  {
  }

  /** A stream that goes on: the finished pieces stay, the unfinished one goes on. */
  lemma {:induction false} PiecesGoOn(a: string, b: string)
    ensures Pieces(a + b) == Front(Pieces(a)) + Pieces(Last(Pieces(a)) + b)
    decreases |a|
  {
    var i := IndexOf(a, '\n');
    if i == |a| {
      SplitNone(a, '\n');
      assert Front([a]) == [] && Last([a]) == a;
    } else {
      var first, rest := a[..i], a[i + 1..];
      assert a == first + ['\n'] + rest;
      assert a + b == first + ['\n'] + (rest + b);
      PiecesOfFirst(first, rest);
      PiecesOfFirst(first, rest + b);
      PiecesGoOn(rest, b);
      FrontOfFirst(first, Pieces(rest), Pieces(Last(Pieces(rest)) + b));
    }
  }

  lemma ShortIs(pieces: seq<string>, n: nat)
    requires n <= |pieces| && forall i :: 0 <= i < n ==> |pieces[i]| <= MAX_LINE
    requires n < |pieces| ==> |pieces[n]| > MAX_LINE
    ensures Short(pieces) == n
  {
  }

  lemma FirstIsLonger(a: string, b: string)
    requires '\n' !in a
    ensures |Pieces(a + b)[0]| >= |a|
  {
  }

  lemma FrontThen(p: seq<string>, more: seq<string>, n: nat)
    requires p != [] && more != [] && n < |p|
    ensures
      var q := Front(p) + more;
      && |q| == |p| - 1 + |more| && q[|p| - 1] == more[0] && q[..n] == p[..n]
      && (n < |p| - 1 ==> q[n] == p[n])
  {}

  lemma ShortOfMore(p: seq<string>, more: seq<string>)
    requires p != [] && more != [] && Short(p) < |p| && |more[0]| >= |Last(p)|
    ensures Short(Front(p) + more) == Short(p) && (Front(p) + more)[..Short(p)] == p[..Short(p)]
  {
    var q, n := Front(p) + more, Short(p);
    FrontThen(p, more, n);
    forall i | 0 <= i < n ensures |q[i]| <= MAX_LINE {
      assert q[i] == q[..n][i];
    }
    ShortIs(q, n);
  }

  /** Once a stream is refused, more of it changes nothing: it stays refused, with the same lines handed on. */
  lemma RefusedStays(a: string, b: string)
    requires Refused(a)
    ensures Refused(a + b) && Handed(a + b) == Handed(a)
  {
    var p := Pieces(a);
    PiecesGoOn(a, b);
    FirstIsLonger(Last(p), b);
    ShortOfMore(p, Pieces(Last(p) + b));
  }

  // ---- reading on ----

  /** These pieces of the stream are done with, none too long, and `buf` is the rest of it. */
  ghost predicate Reading(stream: string, done: seq<string>, buf: string, handed: seq<string>) {
    && Pieces(stream) == done + Pieces(buf)
    && (forall i :: 0 <= i < |done| ==> |done[i]| <= MAX_LINE)
    && handed == Lines(done)
  }

  /** What a connection has done and holds is what the stream so far means. */
  ghost predicate Judged(stream: string, buf: string, handed: seq<string>, closed: bool) {
    && handed == Handed(stream)
    && closed == Refused(stream)
    && (!closed ==> buf == Last(Pieces(stream)))
  }

  lemma NoneLong(pieces: seq<string>)
    requires pieces != [] && Short(pieces) == |pieces|
    ensures HandedOf(pieces) == Lines(Front(pieces))
    ensures forall i :: 0 <= i < |Front(pieces)| ==> |Front(pieces)[i]| <= MAX_LINE
  {}

  lemma StartReading(was: string, chunk: string)
    requires !Refused(was)
    ensures Reading(was + chunk, Front(Pieces(was)), Last(Pieces(was)) + chunk, Handed(was))
  {
    NoneLong(Pieces(was));
    PiecesGoOn(was, chunk);
  }

  lemma PiecesOfLine(buf: string)
    requires IndexOf(buf, '\n') < |buf|
    ensures Pieces(buf) == [buf[..IndexOf(buf, '\n')]] + Pieces(buf[IndexOf(buf, '\n') + 1..])
  {
  }

  lemma LinesMore(done: seq<string>, piece: string)
    ensures Lines(done + [piece]) == Lines(done) + LineOf(piece)
  {
    assert (done + [piece])[..|done|] == done;
  }

  lemma NextLine(stream: string, done: seq<string>, buf: string, handed: seq<string>)
    requires Reading(stream, done, buf, handed) && IndexOf(buf, '\n') < |buf| && IndexOf(buf, '\n') <= MAX_LINE
    ensures
      var nl := IndexOf(buf, '\n');
      Reading(stream, done + [buf[..nl]], buf[nl + 1..], handed + LineOf(buf[..nl]))
  {
    var nl := IndexOf(buf, '\n');
    PiecesOfLine(buf);
    LinesMore(done, buf[..nl]);
    Associates(done, [buf[..nl]], Pieces(buf[nl + 1..]));
  }

  lemma LongLine(stream: string, done: seq<string>, buf: string, handed: seq<string>)
    requires Reading(stream, done, buf, handed) && MAX_LINE < IndexOf(buf, '\n') < |buf|
    ensures Judged(stream, buf, handed, true)
  {
    PiecesOfLine(buf);
    ShortIs(Pieces(stream), |done|);
    assert Pieces(stream)[..|done|] == done;
    assert |Pieces(stream)[|done|]| > MAX_LINE;
  }

  lemma HandedOfDone(done: seq<string>, buf: string)
    requires forall i :: 0 <= i < |done| ==> |done[i]| <= MAX_LINE
    ensures HandedOf(done + [buf]) == Lines(done) && Last(done + [buf]) == buf
    ensures Short(done + [buf]) == if |buf| > MAX_LINE then |done| else |done| + 1
  {
    var p := done + [buf];
    assert p[..|done|] == done;
    ShortIs(p, if |buf| > MAX_LINE then |done| else |p|);
  }

  lemma NoMoreLines(stream: string, done: seq<string>, buf: string, handed: seq<string>)
    requires Reading(stream, done, buf, handed) && IndexOf(buf, '\n') == |buf|
    ensures Judged(stream, buf, handed, |buf| > MAX_LINE)
  {
    SplitNone(buf, '\n');
    HandedOfDone(done, buf);
  }

  // ---- what a client sends is what is handed on ----

  /** A line as a client may send it: blanks around it, or nothing but blanks. */
  datatype Sent = Sent(before: string, line: string, after: string) {
    function Piece(): string { before + line + after }

    predicate Fits() {
      && Blanks(before) && Blanks(after) && '\n' !in Piece() && |Piece()| <= 65536
      && (line != "" ==> !IsSpace(line[0]) && !IsSpace(line[|line| - 1]))
    }
  }

  function Stream(sent: seq<Sent>): string {
    if sent == [] then "" else sent[0].Piece() + "\n" + Stream(sent[1..])
  }

  /** The lines with something in them, in order. */
  function Messages(sent: seq<Sent>): seq<string> {
    if sent == [] then [] else (if sent[0].line == "" then [] else [sent[0].line]) + Messages(sent[1..])
  }

  lemma TrimmedPiece(m: Sent)
    requires m.Fits()
    ensures Trim(m.Piece()) == m.line
  {
    if m.line == "" {
      assert m.Piece() == (m.before + m.after) + "";
      TrimStartOf(m.before + m.after, "");
    } else {
      assert m.Piece() == m.before + (m.line + m.after);
      TrimStartOf(m.before, m.line + m.after);
      TrimEndOf(m.line, m.after);
    }
  }

  lemma PieceFits(m: Sent)
    requires m.Fits()
    ensures '\n' !in m.Piece() && |m.Piece()| <= MAX_LINE && LineOf(m.Piece()) == if m.line == "" then [] else [m.line]
  {
    TrimmedPiece(m);
  }

  function PiecesSent(sent: seq<Sent>): seq<string> {
    if sent == [] then [] else [sent[0].Piece()] + PiecesSent(sent[1..])
  }

  lemma {:induction false} StreamPieces(sent: seq<Sent>)
    requires forall i :: 0 <= i < |sent| ==> sent[i].Fits()
    ensures Pieces(Stream(sent)) == PiecesSent(sent) + [""]
  {
    if sent == [] {
      SplitNone("", '\n');
    } else {
      StreamPieces(sent[1..]);
      var first, rest := sent[0].Piece(), Stream(sent[1..]);
      assert Stream(sent) == first + ['\n'] + rest;
      PiecesOfFirst(first, rest);
      Associates([first], PiecesSent(sent[1..]), [""]);
    }
  }

  lemma {:induction false} LinesJoined(a: seq<string>, b: seq<string>)
    ensures Lines(a + b) == Lines(a) + Lines(b)
    decreases |b|
  {
    if b == [] {
      assert a + b == a && Lines(a) + [] == Lines(a);
    } else {
      var front, last := b[..|b| - 1], b[|b| - 1];
      assert (a + b)[..|a + b| - 1] == a + front && (a + b)[|a + b| - 1] == last;
      LinesJoined(a, front);
      Associates(Lines(a), Lines(front), LineOf(last));
    }
  }

  lemma {:induction false} LinesSent(sent: seq<Sent>)
    requires forall i :: 0 <= i < |sent| ==> sent[i].Fits()
    ensures Lines(PiecesSent(sent)) == Messages(sent)
    ensures forall i :: 0 <= i < |PiecesSent(sent)| ==> |PiecesSent(sent)[i]| <= MAX_LINE
  {
    if sent != [] {
      LinesSent(sent[1..]);
      PieceFits(sent[0]);
      LinesFirst(sent[0].Piece(), PiecesSent(sent[1..]));
    }
  }

  lemma LinesFirst(piece: string, rest: seq<string>)
    ensures Lines([piece] + rest) == LineOf(piece) + Lines(rest)
  {
    LinesJoined([piece], rest);
    assert [piece][..0] == [] && Lines([piece][..0]) == [];
    assert [] + LineOf(piece) == LineOf(piece);
  }

  /**
   * Lines of up to 65536 characters, sent with any blanks around them and any blank lines between them, are all handed
   * on, as they are without the blanks and in their order; the blank ones are passed over and nothing is refused.
   */
  lemma SentIsHandedOn(sent: seq<Sent>)
    requires forall i :: 0 <= i < |sent| ==> sent[i].Fits()
    ensures Handed(Stream(sent)) == Messages(sent) && !Refused(Stream(sent))
  {
    StreamPieces(sent);
    LinesSent(sent);
    HandedOfDone(PiecesSent(sent), "");
  }

  // ---- the connection ----

  class Conn {
    var buf: string
    var handed: seq<string>
    var closed: bool
    ghost var stream: string

    /** What came so far, whatever the cuts, decides everything. */
    ghost predicate Valid()
      reads this
    {
      Judged(stream, buf, handed, closed)
    }

    constructor ()
      ensures Valid() && stream == ""
    {
      buf, handed, closed, stream := "", [], false, "";
      new;
      assert Pieces("") == [""];
    }

    method OnData(chunk: string)
      requires Valid()
      modifies this
      ensures Valid() && stream == old(stream) + chunk
    {
      ghost var was := stream;
      stream := stream + chunk;
      if closed {
        RefusedStays(was, chunk);
        return;
      }
      StartReading(was, chunk);
      buf := buf + chunk;
      ReadLines(Front(Pieces(was)));
    }

    /** Every finished line of the buffer in turn, judged by its length, and then what is left of it. */
    method ReadLines(ghost done: seq<string>)
      requires Reading(stream, done, buf, handed) && !closed
      modifies this`buf, this`handed, this`closed
      ensures Valid()
    {
      ghost var over := done;
      var nl := IndexOf(buf, '\n');
      while nl < |buf|
        invariant nl == IndexOf(buf, '\n') && Reading(stream, over, buf, handed) && !closed
        decreases |buf|
      {
        if nl > MAX_LINE {
          TooLong(over, nl);
          return;
        }
        over := HandOn(nl, over);
        nl := IndexOf(buf, '\n');
      }
      Remainder(over);
    }

    /** A finished line that is too long ends the connection. */
    method TooLong(ghost done: seq<string>, nl: nat)
      requires Reading(stream, done, buf, handed) && nl == IndexOf(buf, '\n') && MAX_LINE < nl < |buf|
      modifies this`closed
      ensures Valid()
    {
      LongLine(stream, done, buf, handed);
      closed := true;
    }

    /** What is left is a line still on its way, and too long as it is or not. */
    method Remainder(ghost done: seq<string>)
      requires Reading(stream, done, buf, handed) && IndexOf(buf, '\n') == |buf| && !closed
      modifies this`closed
      ensures Valid()
    {
      NoMoreLines(stream, done, buf, handed);
      if |buf| > MAX_LINE {
        closed := true;
      }
    }

    /** One finished line leaves the buffer; a blank one is passed over. */
    method HandOn(nl: nat, ghost done: seq<string>) returns (ghost over: seq<string>)
      requires Reading(stream, done, buf, handed) && nl == IndexOf(buf, '\n') && nl < |buf| && nl <= MAX_LINE
      modifies this`buf, this`handed
      ensures buf == old(buf)[nl + 1..]
      ensures handed == old(handed) + LineOf(old(buf)[..nl])
      ensures Reading(stream, over, buf, handed)
    {
      NextLine(stream, done, buf, handed);
      over := done + [buf[..nl]];
      var line := Trim(buf[..nl]);
      buf := buf[nl + 1..];
      if line != "" {
        handed := handed + [line];
      }
    }
  }

  // ---- cuts do not matter ----

  function Whole(chunks: seq<string>): string {
    if chunks == [] then "" else Whole(chunks[..|chunks| - 1]) + chunks[|chunks| - 1]
  }

  lemma WholeMore(chunks: seq<string>, i: nat)
    requires i < |chunks|
    ensures Whole(chunks[..i + 1]) == Whole(chunks[..i]) + chunks[i]
  {
    assert chunks[..i + 1][..i] == chunks[..i];
  }

  /** However a stream is cut into chunks, the lines handed on and the refusal are those of the whole stream. */
  method Serve(chunks: seq<string>) returns (handed: seq<string>, closed: bool)
    ensures handed == Handed(Whole(chunks)) && closed == Refused(Whole(chunks))
  {
    var conn := new Conn();
    assert chunks[..0] == [];
    for i := 0 to |chunks|
      invariant conn.Valid() && fresh(conn) && conn.stream == Whole(chunks[..i])
    {
      WholeMore(chunks, i);
      conn.OnData(chunks[i]);
    }
    assert chunks[..|chunks|] == chunks;
    handed, closed := conn.handed, conn.closed;
  }
}
