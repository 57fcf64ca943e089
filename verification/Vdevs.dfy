/** The device tree in the lines of `zpool status`, and the indented print of any forest read back. */
module Vdevs {
  import opened Text
  import opened VdevStack

  // ---- the lines ----

  function WordEnd(s: string): (n: nat)
    ensures n <= |s|
    ensures forall i :: 0 <= i < n ==> !IsSpace(s[i])
    ensures n < |s| ==> IsSpace(s[n])
  {
    if s == "" || IsSpace(s[0]) then 0 else 1 + WordEnd(s[1..])
  }

  lemma TrimStartShorter(s: string)
    ensures |TrimStart(s)| <= |s|
  {
  }

  /** Split at runs of white space. */
  function Words(s: string): seq<string>
    decreases |s|
  {
    var n := WordEnd(s);
    if n == |s| then [s]
    else
      TrimStartShorter(s[n + 1..]);
      [s[..n]] + Words(TrimStart(s[n + 1..]))
  }

  function ReadRow(line: string): Row {
    var body := if line != "" && line[0] == '\t' then line[1..] else line;
    Row(CountSpaces(body), Words(Trim(body)))
  }

  predicate IsBlank(line: string) { Trim(line) == "" }

  predicate IsErrors(line: string) { StartsWith(TrimStart(line), "errors:") }

  /** NAME, white space, STATE. */
  predicate IsHeader(line: string) {
    var s := TrimStart(line);
    StartsWith(s, "NAME") && |s| > 4 && IsSpace(s[4]) && StartsWith(TrimStart(s[4..]), "STATE")
  }

  /** What a line is to the reading loop. */
  datatype Line = Blank | Errors | Entry(header: bool, row: Row)

  function LineOf(line: string): Line {
    if IsBlank(line) then Blank else if IsErrors(line) then Errors else Entry(IsHeader(line), ReadRow(line))
  }

  function LinesOf(lines: seq<string>): seq<Line> {
    seq(|lines|, i requires 0 <= i < |lines| => LineOf(lines[i]))
  }

  /** The rows of the tree: from the header on, up to a blank line after a row or the errors line. */
  function TreeRows(lines: seq<Line>, sawHeader: bool, sawRow: bool): seq<Row> {
    if lines == [] then []
    else
      match lines[0]
      case Blank => if sawHeader && sawRow then [] else TreeRows(lines[1..], sawHeader, sawRow)
      case Errors => []
      case Entry(header, row) =>
        if !sawHeader then TreeRows(lines[1..], header, sawRow) else [row] + TreeRows(lines[1..], true, true)
  }

  /** What is still to be read after a number of lines, with the first of it read. */
  lemma TreeRowsNext(lines: seq<Line>, i: nat, sawHeader: bool, rows: seq<Row>, all: seq<Row>)
    requires i < |lines| && all == rows + TreeRows(lines[i..], sawHeader, rows != [])
    ensures
      match lines[i]
      case Blank =>
        (if sawHeader && rows != [] then all == rows
         else all == rows + TreeRows(lines[i + 1..], sawHeader, rows != []))
      case Errors => all == rows
      case Entry(header, row) =>
        if !sawHeader then all == rows + TreeRows(lines[i + 1..], header, rows != [])
        else all == (rows + [row]) + TreeRows(lines[i + 1..], true, true)
  {
    assert lines[i..][0] == lines[i] && lines[i..][1..] == lines[i + 1..];
    if lines[i].Entry? && sawHeader {
      var row, rest := lines[i].row, TreeRows(lines[i + 1..], true, true);
      assert rows + ([row] + rest) == (rows + [row]) + rest;
    }
  }

  /** The reading loop over the lines after "config:". */
  method ReadRows(lines: seq<Line>) returns (rows: seq<Row>)
    ensures rows == TreeRows(lines, false, false)
  {
    ghost var all := TreeRows(lines, false, false);
    rows := [];
    var sawHeader := false;
    var i := 0;
    while i < |lines|
      invariant 0 <= i <= |lines|
      invariant all == rows + TreeRows(lines[i..], sawHeader, rows != [])
    {
      TreeRowsNext(lines, i, sawHeader, rows, all);
      match lines[i] {
        case Blank =>
          if sawHeader && rows != [] {
            return;
          }
        case Errors =>
          return;
        case Entry(header, row) =>
          if !sawHeader {
            sawHeader := header;
          } else {
            rows := rows + [row];
          }
      }
      i := i + 1;
    }
  }

  /** The nodes left by the loops show the forest the lines mean. */
  method ReadTree(lines: seq<string>) returns (vdevs: seq<Node>, ghost nodes: seq<Node>)
    ensures fresh(nodes) && ShowsAll(nodes, vdevs, Build(TreeRows(LinesOf(lines), false, false)))
  {
    var rows := ReadRows(LinesOf(lines));
    vdevs, nodes := BuildTree(rows);
    ShowsForest(nodes, rows);
  }

  // ---- a printed forest read back ----

  /** Columns as the command prints them: at least one, none with white space in it, and not the errors line. */
  predicate Columns(cols: seq<string>) {
    cols != [] && (forall i :: 0 <= i < |cols| ==> IsWord(cols[i])) && !StartsWith(cols[0], "errors:")
  }

  /** Columns with one blank and so many more behind each, and so many behind the last. */
  function Spread(cols: seq<string>, pads: seq<nat>): string
    requires |pads| == |cols| > 0
  {
    if |cols| == 1 then cols[0] + Spaces(pads[0])
    else cols[0] + Spaces(1 + pads[0]) + Spread(cols[1..], pads[1..])
  }

  predicate Pads(rows: seq<Row>, pads: seq<seq<nat>>) {
    |pads| == |rows| && forall i :: 0 <= i < |rows| ==> |pads[i]| == |rows[i].cols| > 0
  }

  /** A row as the command prints it, its columns padded in any way. */
  function Print(row: Row, pads: seq<nat>): string
    requires |pads| == |row.cols| > 0
  {
    "\t" + Spaces(row.indent) + Spread(row.cols, pads)
  }

  function Printed(rows: seq<Row>, pads: seq<seq<nat>>): (r: seq<string>)
    requires Pads(rows, pads)
    ensures |r| == |rows|
  {
    seq(|rows|, i requires 0 <= i < |rows| => Print(rows[i], pads[i]))
  }

  lemma WordEndIs(w: string, n: nat, rest: string)
    requires IsWord(w)
    ensures WordEnd(w) == |w|
    ensures WordEnd(w + Spaces(1 + n) + rest) == |w|
  {
    var s := w + Spaces(1 + n) + rest;
    assert forall i :: 0 <= i < |w| ==> s[i] == w[i];
    assert s[|w|] == ' ';
  }

  lemma SpacesAreBlank(n: nat)
    ensures Blanks(Spaces(n))
  {}

  lemma WordsOfFirst(w: string, n: nat, rest: string)
    requires IsWord(w) && rest != "" && !IsSpace(rest[0])
    ensures Words(w + Spaces(1 + n) + rest) == [w] + Words(rest)
  {
    WordEndIs(w, n, rest);
    SpacesAreBlank(n);
    TrimStartOf(Spaces(n), rest);
    BehindWord(w, n, rest);
    FirstWord(w + Spaces(1 + n) + rest, w, Spaces(n) + rest, rest);
  }

  lemma BehindWord(w: string, n: nat, rest: string)
    ensures
      var s := w + Spaces(1 + n) + rest;
      |s| > |w| && s[..|w|] == w && s[|w| + 1..] == Spaces(n) + rest
  {}

  lemma FirstWord(s: string, w: string, behind: string, rest: string)
    requires WordEnd(s) == |w| < |s| && s[..|w|] == w && s[|w| + 1..] == behind && TrimStart(behind) == rest
    ensures Words(s) == [w] + Words(rest)
  {}

  lemma {:induction false} TrimEndBehind(a: string, s: string)
    requires TrimEnd(s) != ""
    ensures TrimEnd(a + s) == a + TrimEnd(s)
    decreases |s|
  {
    if IsSpace(s[|s| - 1]) {
      assert (a + s)[..|a + s| - 1] == a + s[..|s| - 1];
      TrimEndBehind(a, s[..|s| - 1]);
    }
  }

  /** Read without the blanks at its end, a spread row begins with its first column and has its columns as words. */
  lemma {:induction false} SpreadReads(cols: seq<string>, pads: seq<nat>)
    requires |pads| == |cols| > 0 && forall i :: 0 <= i < |cols| ==> IsWord(cols[i])
    ensures Reads(Spread(cols, pads), cols)
  {
    if |cols| == 1 {
      OneReads(cols, pads[0]);
    } else {
      SpreadReads(cols[1..], pads[1..]);
      MoreReads(cols, pads[0], Spread(cols[1..], pads[1..]));
    }
  }

  ghost predicate Reads(s: string, cols: seq<string>)
    requires cols != []
  {
    var t := TrimEnd(s);
    && t != "" && cols[0] <= t && (|t| > |cols[0]| ==> t[|cols[0]|] == ' ')
    && !IsSpace(s[0]) && Words(t) == cols
  }

  lemma OneReads(cols: seq<string>, pad: nat)
    requires |cols| == 1 && IsWord(cols[0])
    ensures Reads(cols[0] + Spaces(pad), cols)
  {
    var col := cols[0];
    SpacesAreBlank(pad);
    TrimEndOf(col, Spaces(pad));
    WordEndIs(col, 0, "");
    assert cols == [col];
  }

  lemma MoreReads(cols: seq<string>, pad: nat, rest: string)
    requires |cols| > 1 && IsWord(cols[0]) && IsWord(cols[1]) && Reads(rest, cols[1..])
    ensures Reads(cols[0] + Spaces(1 + pad) + rest, cols)
  {
    TrimEndBehind(cols[0] + Spaces(1 + pad), rest);
    ColumnFirst(cols[0], pad, cols[1], TrimEnd(rest));
    assert cols == [cols[0]] + cols[1..];
  }

  lemma ColumnFirst(col: string, pad: nat, second: string, rest: string)
    requires IsWord(col) && IsWord(second) && second <= rest
    ensures
      var s := col + Spaces(1 + pad) + rest;
      col <= s && s[|col|] == ' ' && s[0] == col[0] && Words(s) == [col] + Words(rest)
  {
    assert rest[0] == second[0];
    WordsOfFirst(col, pad, rest);
  }

  lemma ReadPrinted(row: Row, pads: seq<nat>)
    requires Columns(row.cols) && |pads| == |row.cols|
    ensures LineOf(Print(row, pads)).Entry? && LineOf(Print(row, pads)).row == row
  {
    var s := Spread(row.cols, pads);
    var body := Spaces(row.indent) + s;
    var line := Print(row, pads);
    assert line == ['\t'] + body && line[1..] == body;
    SpreadReads(row.cols, pads);
    LeadingSpaces(row.indent, s);
    TrimmedLine(line, body, s);
    NotErrors(row.cols[0], s);
  }

  lemma TrimmedLine(line: string, body: string, s: string)
    requires line == ['\t'] + body && TrimStart(body) == s && TrimEnd(s) != ""
    ensures TrimStart(line) == s && Trim(line) == Trim(body) == TrimEnd(s)
  {
    assert line[1..] == body;
  }

  lemma {:induction false} TrimEndStops(s: string)
    ensures |s| > |TrimEnd(s)| ==> IsSpace(s[|TrimEnd(s)|])
    decreases |s|
  {
    if s != "" && IsSpace(s[|s| - 1]) {
      TrimEndStops(s[..|s| - 1]);
    }
  }

  lemma NotErrors(first: string, s: string)
    requires IsWord(first) && !StartsWith(first, "errors:")
    requires first <= TrimEnd(s) && (|TrimEnd(s)| > |first| ==> TrimEnd(s)[|first|] == ' ')
    ensures !StartsWith(s, "errors:")
  {
    TrimEndStops(s);
    ErrorsIsWord();
    assert first <= s && (|first| < |s| ==> IsSpace(s[|first|]));
    if |first| < 7 {
      NotPrefix(s, "errors:", |first|);
    } else {
      assert StartsWith(s, "errors:") ==> StartsWith(first, "errors:");
    }
  }

  lemma ErrorsIsWord()
    ensures |"errors:"| == 7 && IsWord("errors:")
  {}

  lemma NotPrefix(s: string, prefix: string, i: nat)
    requires i < |prefix| && (i >= |s| || s[i] != prefix[i])
    ensures !StartsWith(s, prefix)
  {}

  lemma {:induction false} ReadAll(rows: seq<Row>, pads: seq<seq<nat>>, rest: seq<Line>, sawRow: bool)
    requires Pads(rows, pads) && forall i :: 0 <= i < |rows| ==> Columns(rows[i].cols)
    requires rest == [] || rest[0] == Errors || (rest[0] == Blank && (sawRow || rows != []))
    ensures TreeRows(LinesOf(Printed(rows, pads)) + rest, true, sawRow) == rows
  {
    var lines := LinesOf(Printed(rows, pads)) + rest;
    if rows == [] {
      assert lines == rest;
    } else {
      ReadPrinted(rows[0], pads[0]);
      PrintedFirst(rows, pads);
      FirstLine(LineOf(Print(rows[0], pads[0])), LinesOf(Printed(rows[1..], pads[1..])), rest);
      ReadAll(rows[1..], pads[1..], rest, true);
      assert rows == [rows[0]] + rows[1..];
    }
  }

  lemma PrintedFirst(rows: seq<Row>, pads: seq<seq<nat>>)
    requires Pads(rows, pads) && rows != []
    ensures Pads(rows[1..], pads[1..])
    ensures
      LinesOf(Printed(rows, pads)) == [LineOf(Print(rows[0], pads[0]))] + LinesOf(Printed(rows[1..], pads[1..]))
  {}

  lemma FirstLine(first: Line, more: seq<Line>, rest: seq<Line>)
    ensures ([first] + more + rest)[0] == first && ([first] + more + rest)[1..] == more + rest
  {}

  /** Columns of every row of a forest. */
  predicate AllColumns(vdevs: seq<Vdev>)
    decreases vdevs
  {
    vdevs == [] || (Columns(vdevs[0].cols) && AllColumns(vdevs[0].children) && AllColumns(vdevs[1..]))
  }

  lemma {:induction false} LaidColumns(vdevs: seq<Vdev>, depth: nat)
    requires AllColumns(vdevs)
    ensures forall i :: 0 <= i < |Laid(vdevs, depth)| ==> Columns(Laid(vdevs, depth)[i].cols)
    decreases vdevs
  {
    if vdevs != [] {
      LaidColumns(vdevs[0].children, depth + 1);
      LaidColumns(vdevs[1..], depth);
    }
  }

  /** The header, its two first columns apart by one blank and so many more, whatever follows them. */
  function Header(pad: nat, more: string): string { "\tNAME" + Spaces(1 + pad) + "STATE" + more }

  /** Lines that may stand before the header: blank ones, and any that are neither it nor the errors line. */
  predicate Before(lines: seq<string>) {
    forall i :: 0 <= i < |lines| ==> LineOf(lines[i]).Blank? || (LineOf(lines[i]).Entry? && !LineOf(lines[i]).header)
  }

  lemma {:induction false} SkipBefore(lines: seq<string>, rest: seq<Line>)
    requires Before(lines)
    ensures TreeRows(LinesOf(lines) + rest, false, false) == TreeRows(rest, false, false)
  {
    if lines == [] {
      assert LinesOf(lines) + rest == rest;
    } else {
      var all := LinesOf(lines) + rest;
      assert all[0] == LineOf(lines[0]) && all[1..] == LinesOf(lines[1..]) + rest;
      SkipBefore(lines[1..], rest);
    }
  }

  /**
   * Any forest printed under the header, padded in any way, is read as that forest, whatever stands before the header
   * and whatever follows the blank line after the last row.
   */
  lemma ReadsBack(
      before: seq<string>, vdevs: seq<Vdev>, pads: seq<seq<nat>>, pad: nat, more: string, after: seq<string>)
    requires Before(before) && vdevs != [] && AllColumns(vdevs) && Pads(Laid(vdevs, 0), pads)
    ensures
      var tree := [Header(pad, more)] + Printed(Laid(vdevs, 0), pads) + [""] + after;
      Build(TreeRows(LinesOf(before + tree), false, false)) == vdevs
  {
    var tree := [Header(pad, more)] + Printed(Laid(vdevs, 0), pads) + [""] + after;
    LinesOfJoined(before, tree);
    SkipBefore(before, LinesOf(tree));
    ReadsTree(vdevs, pads, pad, more, after);
  }

  lemma ReadsTree(vdevs: seq<Vdev>, pads: seq<seq<nat>>, pad: nat, more: string, after: seq<string>)
    requires vdevs != [] && AllColumns(vdevs) && Pads(Laid(vdevs, 0), pads)
    ensures
      Build(TreeRows(LinesOf([Header(pad, more)] + Printed(Laid(vdevs, 0), pads) + [""] + after), false, false))
        == vdevs
  {
    var rows := Laid(vdevs, 0);
    var rest := LinesOf([""] + after);
    LinesOfParts(Header(pad, more), Printed(rows, pads), "", after);
    LaidColumns(vdevs, 0);
    ReadAll(rows, pads, rest, false);
    ReadHeader(LineOf(Header(pad, more)), pad, more, LinesOf(Printed(rows, pads)) + rest);
    BuildLaid(vdevs, 0);
  }

  lemma LinesOfParts(header: string, printed: seq<string>, blank: string, after: seq<string>)
    ensures
      LinesOf([header] + printed + [blank] + after) == [LineOf(header)] + (LinesOf(printed) + LinesOf([blank] + after))
    ensures LinesOf([blank] + after)[0] == LineOf(blank)
  {
    assert [header] + printed + [blank] + after == [header] + (printed + ([blank] + after));
    LinesOfJoined([header], printed + ([blank] + after));
    LinesOfJoined(printed, [blank] + after);
    LinesOfJoined([blank], after);
  }

  lemma LinesOfJoined(a: seq<string>, b: seq<string>)
    ensures LinesOf(a + b) == LinesOf(a) + LinesOf(b)
    ensures |a| == 1 ==> LinesOf(a) == [LineOf(a[0])]
  {}

  lemma ReadHeader(header: Line, pad: nat, more: string, lines: seq<Line>)
    requires header == LineOf(Header(pad, more))
    ensures TreeRows([header] + lines, false, false) == TreeRows(lines, true, false)
  {
    HeaderIsHeader(pad, more);
    assert ([header] + lines)[1..] == lines;
  }

  lemma HeaderIsHeader(pad: nat, more: string)
    ensures LineOf(Header(pad, more)).Entry? && LineOf(Header(pad, more)).header
  {
    var s := "NAME" + Spaces(1 + pad) + "STATE" + more;
    NameFirst(pad, more);
    NameState(pad, more);
    NotBlank(Header(pad, more), s);
  }

  lemma NameFirst(pad: nat, more: string)
    ensures TrimStart(Header(pad, more)) == "NAME" + Spaces(1 + pad) + "STATE" + more
  {
    var s := "NAME" + Spaces(1 + pad) + "STATE" + more;
    assert Header(pad, more) == ['\t'] + s && (['\t'] + s)[1..] == s && s[0] == 'N';
    assert TrimStart(s) == s;
  }

  lemma NotBlank(line: string, s: string)
    requires TrimStart(line) == s && s != "" && s[0] == 'N'
    ensures !IsBlank(line) && !IsErrors(line)
  {
    assert "errors:"[0] == 'e';
    if Trim(line) == "" {
      TrimEndEmpty(s);
      assert false;
    }
  }

  lemma {:induction false} TrimEndEmpty(s: string)
    requires TrimEnd(s) == "" && s != ""
    ensures IsSpace(s[0])
    decreases |s|
  {
    if |s| > 1 {
      TrimEndEmpty(s[..|s| - 1]);
    }
  }

  /** NAME, blanks, STATE. */
  lemma NameState(pad: nat, more: string)
    ensures
      var s := "NAME" + Spaces(1 + pad) + "STATE" + more;
      && s[0] == 'N' && StartsWith(s, "NAME") && |s| > 4 && IsSpace(s[4]) && StartsWith(TrimStart(s[4..]), "STATE")
  {
    var s, behind := "NAME" + Spaces(1 + pad) + "STATE" + more, "STATE" + more;
    assert s == "NAME" + (Spaces(1 + pad) + behind) && s[4..] == Spaces(1 + pad) + behind;
    SpacesAreBlank(1 + pad);
    assert behind[0] == 'S';
    TrimStartOf(Spaces(1 + pad), behind);
  }
}
