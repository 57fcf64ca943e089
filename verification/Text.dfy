/** Strings as the agent handles them: splitting and joining on a separator, trimming, decimal numbers. */
module Text {

  datatype Option<+T> = None | Some(value: T)

  lemma Associates<T>(a: seq<T>, b: seq<T>, c: seq<T>)
    ensures a + (b + c) == a + b + c
  {}

  predicate IsDigit(c: char) { '0' <= c <= '9' }

  /** The line terminators a `.` of an ECMAScript regular expression does not match. */
  predicate IsLineEnd(c: char) { c == '\n' || c == '\r' || c == '\U{2028}' || c == '\U{2029}' }

  /** ECMAScript white space, as String.prototype.trim and \s take it. */
  predicate IsSpace(c: char) {
    || IsLineEnd(c) || c == ' ' || c == '\t' || c == '\U{b}' || c == '\U{c}'
    || c == '\U{a0}' || c == '\U{feff}' || c == '\U{1680}' || '\U{2000}' <= c <= '\U{200a}'
    || c == '\U{202f}' || c == '\U{205f}' || c == '\U{3000}'
  }

  /** The first position of c in s, or |s| when there is none. */
  function IndexOf(s: string, c: char): (i: nat)
    ensures i <= |s| && c !in s[..i]
    ensures i < |s| ==> s[i] == c
    ensures i == |s| <==> c !in s
  {
    if s == [] then 0 else if s[0] == c then 0 else IndexOf(s[1..], c) + 1
  }

  lemma {:induction false} IndexOfFirst(a: string, c: char, b: string)
    requires c !in a
    ensures IndexOf(a + [c] + b, c) == |a|
  {
    if a != [] {
      assert (a + [c] + b)[1..] == a[1..] + [c] + b;
      IndexOfFirst(a[1..], c, b);
    }
  }

  /** String.prototype.split on one character. */
  function Split(s: string, sep: char): (r: seq<string>)
    ensures |r| > 0
    ensures forall i :: 0 <= i < |r| ==> sep !in r[i]
    ensures Join(r, sep) == s
    decreases |s|
  {
    var i := IndexOf(s, sep);
    if i == |s| then [s]
    else
      var rest := Split(s[i + 1..], sep);
      assert s == s[..i] + [sep] + s[i + 1..];
      assert ([s[..i]] + rest)[1..] == rest;
      [s[..i]] + rest
  }

  /** Array.prototype.join with a one-character separator. */
  function Join(lines: seq<string>, sep: char): string
  {
    if |lines| == 0 then ""
    else if |lines| == 1 then lines[0]
    else lines[0] + [sep] + Join(lines[1..], sep)
  }

  lemma {:induction false} SplitJoin(lines: seq<string>, sep: char)
    requires |lines| > 0
    requires forall i :: 0 <= i < |lines| ==> sep !in lines[i]
    ensures Split(Join(lines, sep), sep) == lines
  {
    if |lines| == 1 {
      assert Join(lines, sep) == lines[0];
    } else {
      var rest := Join(lines[1..], sep);
      var s := lines[0] + [sep] + rest;
      IndexOfFirst(lines[0], sep, rest);
      SplitJoin(lines[1..], sep);
      assert s[..|lines[0]|] == lines[0] && s[|lines[0]| + 1..] == rest;
    }
  }

  lemma {:induction false} JoinAppend(a: seq<string>, b: seq<string>, sep: char)
    requires |a| > 0 && |b| > 0
    ensures Join(a + b, sep) == Join(a, sep) + [sep] + Join(b, sep)
  {
    if |a| == 1 {
      assert (a + b)[1..] == b;
    } else {
      assert (a + b)[1..] == a[1..] + b;
      JoinAppend(a[1..], b, sep);
    }
  }

  /** A split cut at one separator is the splits of the two sides. */
  lemma {:induction false} SplitAppend(a: string, b: string, sep: char)
    ensures Split(a + [sep] + b, sep) == Split(a, sep) + Split(b, sep)
  {
    var x, y := Split(a, sep), Split(b, sep);
    JoinAppend(x, y, sep);
    SplitJoin(x + y, sep);
  }

  lemma SplitNone(s: string, sep: char)
    requires sep !in s
    ensures Split(s, sep) == [s]
  {}

  /** Nothing in it ends a line of a file. */
  predicate OneLine(s: string) { '\n' !in s }

  ghost predicate OneLiners(lines: seq<string>) { forall l :: l in lines ==> OneLine(l) }

  /** Lines joined and ended by a line end split into themselves and an empty one. */
  lemma SplitEnded(lines: seq<string>)
    requires lines != [] && OneLiners(lines)
    ensures Split(Join(lines, '\n') + "\n", '\n') == lines + [""]
  {
    var text := Join(lines, '\n');
    assert forall i :: 0 <= i < |lines| ==> lines[i] in lines;
    SplitJoin(lines, '\n');
    SplitAppend(text, "", '\n');
    SplitNone("", '\n');
    assert text + ['\n'] + "" == text + "\n";
  }

  function TrimStart(s: string): (r: string)
    ensures r == "" || !IsSpace(r[0])
    ensures forall c :: c in r ==> c in s
  {
    if s == "" || !IsSpace(s[0]) then s else TrimStart(s[1..])
  }

  function TrimEnd(s: string): (r: string)
    ensures r == "" || !IsSpace(r[|r| - 1])
    ensures r <= s
  {
    if s == "" || !IsSpace(s[|s| - 1]) then s else TrimEnd(s[..|s| - 1])
  }

  function Trim(s: string): (r: string)
    ensures r == "" || (!IsSpace(r[0]) && !IsSpace(r[|r| - 1]))
    ensures forall c :: c in r ==> c in s
  {
    var t := TrimStart(s);
    assert TrimEnd(t) != "" ==> TrimEnd(t)[0] == t[0];
    TrimEnd(t)
  }

  /** White space alone. */
  predicate Blanks(s: string) { forall c :: c in s ==> IsSpace(c) }

  lemma {:induction false} TrimStartOf(lead: string, s: string)
    requires Blanks(lead) && (s == "" || !IsSpace(s[0]))
    ensures TrimStart(lead + s) == s
  {
    if lead == "" {
      assert lead + s == s;
    } else {
      assert (lead + s)[1..] == lead[1..] + s && lead[0] in lead;
      TrimStartOf(lead[1..], s);
    }
  }

  lemma {:induction false} TrimEndOf(s: string, tail: string)
    requires Blanks(tail) && (s == "" || !IsSpace(s[|s| - 1]))
    ensures TrimEnd(s + tail) == s
    decreases |tail|
  {
    if tail == "" {
      assert s + tail == s;
    } else {
      var front := tail[..|tail| - 1];
      assert (s + tail)[..|s + tail| - 1] == s + front && (s + tail)[|s + tail| - 1] == tail[|tail| - 1];
      assert tail[|tail| - 1] in tail;
      TrimEndOf(s, front);
    }
  }

  lemma TrimClean(s: string)
    requires s == "" || (!IsSpace(s[0]) && !IsSpace(s[|s| - 1]))
    ensures Trim(s) == s
  {}

  // ---- words and blanks ----

  predicate IsWord(w: string) { w != "" && forall i :: 0 <= i < |w| ==> !IsSpace(w[i]) }

  function Spaces(n: nat): (s: string)
    ensures |s| == n
  {
    seq(n, _ => ' ')
  }

  function CountSpaces(s: string): (n: nat)
    ensures n <= |s|
  {
    if s == "" || s[0] != ' ' then 0 else 1 + CountSpaces(s[1..])
  }

  lemma {:induction false} LeadingSpaces(n: nat, s: string)
    requires s != "" && !IsSpace(s[0])
    ensures CountSpaces(Spaces(n) + s) == n && TrimStart(Spaces(n) + s) == s
  {
    var t := Spaces(n) + s;
    if n > 0 {
      assert t[0] == ' ' && t[1..] == Spaces(n - 1) + s;
      LeadingSpaces(n - 1, s);
    } else {
      assert t == s;
    }
  }

  lemma {:induction false} JoinEnds(cols: seq<string>)
    requires cols != [] && forall i :: 0 <= i < |cols| ==> IsWord(cols[i])
    ensures
      var s := Join(cols, ' ');
      && s != "" && !IsSpace(s[0]) && !IsSpace(s[|s| - 1])
      && cols[0] <= s && (|cols| > 1 ==> |s| > |cols[0]| && s[|cols[0]|] == ' ')
  {
    if |cols| > 1 {
      JoinEnds(cols[1..]);
    }
  }

  predicate StartsWith(s: string, prefix: string) { prefix <= s }

  function Digit(d: nat): char
    requires d < 10
  {
    "0123456789"[d]
  }

  lemma DigitIs(d: nat)
    requires d < 10
    ensures IsDigit(Digit(d)) && Digit(d) as int - '0' as int == d
  {
    assert "0123456789"[d] == ['0', '1', '2', '3', '4', '5', '6', '7', '8', '9'][d];
  }

  /** A natural number in decimal. */
  function Dec(n: nat): (s: string)
    ensures |s| > 0 && forall c :: c in s ==> IsDigit(c)
  {
    if n < 10 then [Digit(n)] else Dec(n / 10) + [Digit(n % 10)]
  }

  lemma DecLength(n: nat)
    ensures |Dec(n)| == 1 <==> n < 10
  {}

  lemma {:induction false} DecInjective(a: nat, b: nat)
    requires Dec(a) == Dec(b)
    ensures a == b
  {
    if a < 10 || b < 10 {
      DecLength(a);
      DecLength(b);
    } else {
      var s := Dec(a);
      assert s[..|s| - 1] == Dec(a / 10) && s[..|s| - 1] == Dec(b / 10);
      assert s[|s| - 1] == Digit(a % 10) == Digit(b % 10);
      DecInjective(a / 10, b / 10);
    }
  }
}
