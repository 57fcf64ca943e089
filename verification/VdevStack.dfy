/** Indented rows built into a forest of nodes with a stack of open ones, and the forest the rows mean. */
module VdevStack {
  import opened Text

  /** A row of the tree: how many spaces it is indented, and its columns. */
  datatype Row = Row(indent: nat, cols: seq<string>)

  datatype Vdev = Vdev(cols: seq<string>, children: seq<Vdev>)

  class Node {
    var cols: seq<string>
    var children: seq<Node>

    constructor (cols: seq<string>)
      ensures this.cols == cols && children == []
    {
      this.cols := cols;
      children := [];
    }
  }

  // ---- what the rows mean ----

  /** Nothing from `from` up to `c` is less indented than `c`. */
  predicate Low(rows: seq<Row>, from: nat, c: nat)
    requires c < |rows|
  {
    forall j :: from <= j < c ==> rows[j].indent >= rows[c].indent
  }

  /** `p` is the nearest earlier row that is less indented than `c`. */
  predicate ParentIs(rows: seq<Row>, p: nat, c: nat)
    requires c < |rows|
  {
    p < c && rows[p].indent < rows[c].indent && Low(rows, p + 1, c)
  }

  predicate IsRoot(rows: seq<Row>, c: nat)
    requires c < |rows|
  {
    Low(rows, 0, c)
  }

  function Kids(rows: seq<Row>, p: nat, upto: nat): (r: seq<nat>)
    requires upto <= |rows|
    ensures forall k :: 0 <= k < |r| ==> r[k] < upto && ParentIs(rows, p, r[k])
  {
    if upto == 0 then []
    else Kids(rows, p, upto - 1) + if ParentIs(rows, p, upto - 1) then [upto - 1] else []
  }

  /** The rows from `from` on that no earlier one of them is less indented than. */
  function Lows(rows: seq<Row>, from: nat, upto: nat): (r: seq<nat>)
    requires from <= upto <= |rows|
    ensures forall k :: 0 <= k < |r| ==> from <= r[k] < upto && Low(rows, from, r[k])
    decreases upto
  {
    if upto == from then []
    else Lows(rows, from, upto - 1) + if Low(rows, from, upto - 1) then [upto - 1] else []
  }

  /** Where the rows under the first one end. */
  function End(rows: seq<Row>): (e: nat)
    requires rows != []
    ensures 1 <= e <= |rows|
    ensures forall j :: 1 <= j < e ==> rows[j].indent > rows[0].indent
    ensures e < |rows| ==> rows[e].indent <= rows[0].indent
  {
    EndFrom(rows, 1)
  }

  function EndFrom(rows: seq<Row>, k: nat): (e: nat)
    requires 1 <= k <= |rows| && forall j :: 1 <= j < k ==> rows[j].indent > rows[0].indent
    ensures k <= e <= |rows|
    ensures forall j :: 1 <= j < e ==> rows[j].indent > rows[0].indent
    ensures e < |rows| ==> rows[e].indent <= rows[0].indent
    decreases |rows| - k
  {
    if k == |rows| || rows[k].indent <= rows[0].indent then k else EndFrom(rows, k + 1)
  }

  function Build(rows: seq<Row>): seq<Vdev>
    decreases |rows|
  {
    if rows == [] then []
    else [Vdev(rows[0].cols, Build(rows[1..End(rows)]))] + Build(rows[End(rows)..])
  }

  // ---- the stack ----

  function At(nodes: seq<Node>, indices: seq<nat>): (r: seq<Node>)
    requires forall k :: 0 <= k < |indices| ==> indices[k] < |nodes|
    ensures |r| == |indices|
  {
    seq(|indices|, k requires 0 <= k < |indices| => nodes[indices[k]])
  }

  /** Every node's children, by the rows. */
  function AllKids(nodes: seq<Node>, rows: seq<Row>): (r: seq<seq<Node>>)
    requires |nodes| <= |rows|
    ensures |r| == |nodes|
  {
    seq(|nodes|, i requires 0 <= i < |nodes| => At(nodes, Kids(rows, i, |nodes|)))
  }

  function Roots(nodes: seq<Node>, rows: seq<Row>): seq<Node>
    requires |nodes| <= |rows|
  {
    At(nodes, Lows(rows, 0, |nodes|))
  }

  /** The nodes are those of the rows, with these children. */
  ghost predicate Shape(nodes: seq<Node>, rows: seq<Row>, kids: seq<seq<Node>>)
    reads nodes
  {
    && |kids| == |nodes| <= |rows|
    && (forall i, j :: 0 <= i < j < |nodes| ==> nodes[i] != nodes[j])
    && forall i :: 0 <= i < |nodes| ==> nodes[i].cols == rows[i].cols && nodes[i].children == kids[i]
  }

  ghost predicate Holds(nodes: seq<Node>, rows: seq<Row>)
    requires |nodes| <= |rows|
    reads nodes
  {
    Shape(nodes, rows, AllKids(nodes, rows))
  }

  /** The open rows: a root, then each one's nearest less indented earlier row just below it, the latest row on top. */
  predicate Chain(rows: seq<Row>, chain: seq<nat>, upto: nat) {
    && (forall k :: 0 <= k < |chain| ==> chain[k] < upto <= |rows|)
    && (chain != [] ==> IsRoot(rows, chain[0]))
    && (forall k :: 0 < k < |chain| ==> ParentIs(rows, chain[k - 1], chain[k]))
  }

  predicate Above(rows: seq<Row>, chain: seq<nat>, i: nat)
    requires i < |rows| && Chain(rows, chain, i)
  {
    if chain == [] then Low(rows, 0, i) else Low(rows, chain[|chain| - 1] + 1, i)
  }

  lemma PopKeeps(rows: seq<Row>, chain: seq<nat>, i: nat)
    requires i < |rows| && Chain(rows, chain, i) && Above(rows, chain, i)
    requires chain != [] && rows[chain[|chain| - 1]].indent >= rows[i].indent
    ensures Chain(rows, chain[..|chain| - 1], i) && Above(rows, chain[..|chain| - 1], i)
  {
    var top := chain[|chain| - 1];
    if |chain| > 1 {
      assert ParentIs(rows, chain[|chain| - 2], top);
    }
  }

  lemma PushKeeps(rows: seq<Row>, chain: seq<nat>, i: nat)
    requires i < |rows| && Chain(rows, chain, i) && Above(rows, chain, i)
    requires chain != [] ==> rows[chain[|chain| - 1]].indent < rows[i].indent
    ensures chain == [] ==> IsRoot(rows, i)
    ensures chain != [] ==> ParentIs(rows, chain[|chain| - 1], i) && !IsRoot(rows, i)
    ensures Chain(rows, chain + [i], i + 1)
    ensures i + 1 < |rows| ==> Above(rows, chain + [i], i + 1)
  {
  }

  lemma OneParent(rows: seq<Row>, p: nat, q: nat, c: nat)
    requires c < |rows| && ParentIs(rows, p, c) && ParentIs(rows, q, c)
    ensures p == q
  {
  }

  lemma AtMore(nodes: seq<Node>, node: Node, indices: seq<nat>)
    requires forall k :: 0 <= k < |indices| ==> indices[k] < |nodes|
    ensures At(nodes + [node], indices) == At(nodes, indices)
    ensures At(nodes + [node], indices + [|nodes|]) == At(nodes, indices) + [node]
  {
  }

  lemma NoKids(rows: seq<Row>, i: nat, upto: nat)
    requires upto <= i + 1 && upto <= |rows|
    ensures Kids(rows, i, upto) == []
  {
    if upto > 0 {
      NoKids(rows, i, upto - 1);
    }
  }

  lemma KidsMore(nodes: seq<Node>, node: Node, rows: seq<Row>, p: nat)
    requires p < |nodes| < |rows|
    ensures
      AllKids(nodes + [node], rows)[p]
      == AllKids(nodes, rows)[p] + if ParentIs(rows, p, |nodes|) then [node] else []
  {
    AtMore(nodes, node, Kids(rows, p, |nodes|));
  }

  lemma RootsMore(nodes: seq<Node>, node: Node, rows: seq<Row>)
    requires |nodes| < |rows|
    ensures Roots(nodes + [node], rows) == Roots(nodes, rows) + if IsRoot(rows, |nodes|) then [node] else []
  {
    AtMore(nodes, node, Lows(rows, 0, |nodes|));
  }

  /** One more node changes the children of its parent, and of no other. */
  lemma AddKid(nodes: seq<Node>, node: Node, rows: seq<Row>, p: nat)
    requires p < |nodes| < |rows| && ParentIs(rows, p, |nodes|)
    ensures
      var kids := AllKids(nodes, rows);
      AllKids(nodes + [node], rows) == kids[p := kids[p] + [node]] + [[]]
  {
    var kids := AllKids(nodes, rows);
    var more := AllKids(nodes + [node], rows);
    NoKids(rows, |nodes|, |nodes| + 1);
    forall q | 0 <= q < |nodes| ensures more[q] == kids[p := kids[p] + [node]][q] {
      KidsMore(nodes, node, rows, q);
      if ParentIs(rows, q, |nodes|) {
        OneParent(rows, p, q, |nodes|);
      }
    }
  }

  lemma AddRoot(nodes: seq<Node>, node: Node, rows: seq<Row>)
    requires |nodes| < |rows| && IsRoot(rows, |nodes|)
    ensures AllKids(nodes + [node], rows) == AllKids(nodes, rows) + [[]]
  {
    NoKids(rows, |nodes|, |nodes| + 1);
    forall q | 0 <= q < |nodes| ensures AllKids(nodes + [node], rows)[q] == AllKids(nodes, rows)[q] {
      KidsMore(nodes, node, rows, q);
    }
  }

  ghost predicate Open(rows: seq<Row>, nodes: seq<Node>, chain: seq<nat>, stack: seq<(nat, Node)>)
    requires |nodes| <= |rows|
  {
    && |stack| == |chain|
    && forall k :: 0 <= k < |chain| ==> chain[k] < |nodes| && stack[k] == (rows[chain[k]].indent, nodes[chain[k]])
  }

  /** The node goes under the row left open, or is a root. */
  method Attach(
    vdevs: seq<Node>, stack: seq<(nat, Node)>, node: Node, ghost rows: seq<Row>, ghost nodes: seq<Node>,
    ghost kids: seq<seq<Node>>,
    ghost p: nat)
    returns (roots: seq<Node>)
    requires |nodes| < |rows| && Shape(nodes, rows, kids)
    requires node !in nodes && node.cols == rows[|nodes|].cols && node.children == []
    requires stack != [] ==> p < |nodes| && stack[|stack| - 1].1 == nodes[p]
    modifies nodes
    ensures roots == if stack == [] then vdevs + [node] else vdevs
    ensures Shape(nodes + [node], rows, (if stack == [] then kids else kids[p := kids[p] + [node]]) + [[]])
  {
    roots := vdevs;
    if stack != [] {
      var top := stack[|stack| - 1].1;
      top.children := top.children + [node];
    } else {
      roots := roots + [node];
    }
  }

  /** Rows no less indented than the next one are closed. */
  method Close(
      stack: seq<(nat, Node)>, ghost rows: seq<Row>, ghost nodes: seq<Node>, ghost chain: seq<nat>, indent: nat)
    returns (left: seq<(nat, Node)>, ghost open: seq<nat>)
    requires |nodes| < |rows| && rows[|nodes|].indent == indent
    requires Chain(rows, chain, |nodes|) && Above(rows, chain, |nodes|) && Open(rows, nodes, chain, stack)
    ensures Chain(rows, open, |nodes|) && Above(rows, open, |nodes|) && Open(rows, nodes, open, left)
    ensures left != [] ==> left[|left| - 1].0 < indent
  {
    left, open := stack, chain;
    while left != [] && left[|left| - 1].0 >= indent
      invariant Chain(rows, open, |nodes|) && Above(rows, open, |nodes|)
      invariant Open(rows, nodes, open, left)
    {
      PopKeeps(rows, open, |nodes|);
      left := left[..|left| - 1];
      open := open[..|open| - 1];
    }
  }

  lemma OpenMore(rows: seq<Row>, nodes: seq<Node>, chain: seq<nat>, stack: seq<(nat, Node)>, node: Node)
    requires |nodes| < |rows| && Open(rows, nodes, chain, stack)
    ensures Open(rows, nodes + [node], chain + [|nodes|], stack + [(rows[|nodes|].indent, node)])
  {
  }

  /** The loop's state, with every row so far in its place. */
  ghost predicate Ready(rows: seq<Row>, nodes: seq<Node>, vdevs: seq<Node>, chain: seq<nat>, stack: seq<(nat, Node)>)
    reads nodes
  {
    && |nodes| <= |rows| && Holds(nodes, rows) && vdevs == Roots(nodes, rows)
    && Chain(rows, chain, |nodes|) && (|nodes| < |rows| ==> Above(rows, chain, |nodes|))
    && Open(rows, nodes, chain, stack)
  }

  /** A row closes what is no less indented, joins the row left open, and is open itself. */
  method AddRow(
    vdevs: seq<Node>, stack: seq<(nat, Node)>, row: Row, ghost rows: seq<Row>, ghost nodes: seq<Node>,
    ghost chain: seq<nat>)
    returns (roots: seq<Node>, pushed: seq<(nat, Node)>, node: Node, ghost open: seq<nat>)
    requires |nodes| < |rows| && rows[|nodes|] == row && Ready(rows, nodes, vdevs, chain, stack)
    modifies nodes
    ensures fresh(node) && pushed != [] && Ready(rows, nodes + [node], roots, open, pushed)
  {
    ghost var left;
    pushed, left := Close(stack, rows, nodes, chain, row.indent);
    PushKeeps(rows, left, |nodes|);
    node := new Node(row.cols);
    OpenMore(rows, nodes, left, pushed, node);
    RootsMore(nodes, node, rows);
    ghost var p := if left == [] then 0 else left[|left| - 1];
    if left == [] {
      AddRoot(nodes, node, rows);
    } else {
      AddKid(nodes, node, rows, p);
    }
    roots := Attach(vdevs, pushed, node, rows, nodes, AllKids(nodes, rows), p);
    pushed := pushed + [(row.indent, node)];
    open := left + [|nodes|];
  }

  /** The building loop. */
  method BuildTree(rows: seq<Row>) returns (vdevs: seq<Node>, ghost nodes: seq<Node>)
    ensures |nodes| == |rows| && fresh(nodes) && Holds(nodes, rows) && vdevs == Roots(nodes, rows)
  {
    vdevs, nodes := [], [];
    var stack: seq<(nat, Node)> := [];
    ghost var chain: seq<nat> := [];
    for i := 0 to |rows|
      invariant |nodes| == i && fresh(nodes) && Ready(rows, nodes, vdevs, chain, stack)
    {
      var node;
      vdevs, stack, node, chain := AddRow(vdevs, stack, rows[i], rows, nodes, chain);
      nodes := nodes + [node];
    }
  }

  // ---- the forest the nodes show ----

  ghost predicate Shows(nodes: seq<Node>, node: Node, vdev: Vdev)
    reads nodes
    decreases vdev
  {
    node in nodes && node.cols == vdev.cols && ShowsAll(nodes, node.children, vdev.children)
  }

  ghost predicate ShowsAll(nodes: seq<Node>, some: seq<Node>, vdevs: seq<Vdev>)
    reads nodes
    decreases vdevs
  {
    |some| == |vdevs| && (some == [] || (Shows(nodes, some[0], vdevs[0]) && ShowsAll(nodes, some[1..], vdevs[1..])))
  }

  lemma LowsOfFirst(rows: seq<Row>, lo: nat, hi: nat)
    requires lo < hi <= |rows| && forall j :: lo < j < hi ==> rows[j].indent > rows[lo].indent
    ensures Lows(rows, lo, hi) == [lo]
    decreases hi
  {
    if hi > lo + 1 {
      LowsOfFirst(rows, lo, hi - 1);
      assert rows[hi - 1].indent > rows[lo].indent;
    }
  }

  lemma LowAfter(rows: seq<Row>, lo: nat, e: nat, c: nat)
    requires lo < e <= c < |rows| && forall j :: lo < j < e ==> rows[j].indent > rows[lo].indent
    requires rows[e].indent <= rows[lo].indent
    ensures Low(rows, lo, c) <==> Low(rows, e, c)
  {
    if Low(rows, e, c) {
      assert rows[e].indent >= rows[c].indent;
      forall j | lo <= j < c ensures rows[j].indent >= rows[c].indent {
      }
    }
  }

  lemma {:induction false} LowsConcat(rows: seq<Row>, lo: nat, e: nat, hi: nat)
    requires lo < e <= hi <= |rows| && Lows(rows, lo, e) == [lo]
    requires forall c :: e <= c < hi ==> (Low(rows, lo, c) <==> Low(rows, e, c))
    ensures Lows(rows, lo, hi) == [lo] + Lows(rows, e, hi)
    decreases hi
  {
    if hi > e {
      LowsConcat(rows, lo, e, hi - 1);
      Associates([lo], Lows(rows, e, hi - 1), if Low(rows, e, hi - 1) then [hi - 1] else []);
    }
  }

  /** The first row of a stretch, and then the tops of what follows its own rows. */
  lemma LowsSplit(rows: seq<Row>, lo: nat, e: nat, hi: nat)
    requires lo < e <= hi <= |rows| && forall j :: lo < j < e ==> rows[j].indent > rows[lo].indent
    requires e < hi ==> rows[e].indent <= rows[lo].indent
    ensures Lows(rows, lo, hi) == [lo] + Lows(rows, e, hi)
  {
    LowsOfFirst(rows, lo, e);
    forall c | e <= c < hi ensures Low(rows, lo, c) <==> Low(rows, e, c) {
      LowAfter(rows, lo, e, c);
    }
    LowsConcat(rows, lo, e, hi);
  }

  lemma KidIsLow(rows: seq<Row>, p: nat, e: nat, c: nat)
    requires p < e <= |rows| && p < c < |rows| && forall j :: p < j < e ==> rows[j].indent > rows[p].indent
    requires e < |rows| ==> rows[e].indent <= rows[p].indent
    ensures ParentIs(rows, p, c) <==> c < e && Low(rows, p + 1, c)
  {
  }

  /** A row's children are the tops of the rows under it. */
  lemma {:induction false} KidsAreLows(rows: seq<Row>, p: nat, e: nat, upto: nat)
    requires p < e <= |rows| && p < upto <= |rows| && forall j :: p < j < e ==> rows[j].indent > rows[p].indent
    requires e < |rows| ==> rows[e].indent <= rows[p].indent
    ensures Kids(rows, p, upto) == Lows(rows, p + 1, if upto < e then upto else e)
    decreases upto
  {
    if upto == p + 1 {
      NoKids(rows, p, upto);
    } else {
      KidsAreLows(rows, p, e, upto - 1);
      KidIsLow(rows, p, e, upto - 1);
    }
  }

  /** Nothing in the stretch is less indented than the row after it. */
  predicate Closed(rows: seq<Row>, lo: nat, hi: nat) {
    lo <= hi <= |rows| && (hi < |rows| ==> forall j :: lo <= j < hi ==> rows[hi].indent <= rows[j].indent)
  }

  lemma {:induction false} ShowsStretch(nodes: seq<Node>, rows: seq<Row>, lo: nat, hi: nat)
    requires |nodes| == |rows| && Holds(nodes, rows) && Closed(rows, lo, hi)
    ensures ShowsAll(nodes, At(nodes, Lows(rows, lo, hi)), Build(rows[lo..hi]))
    decreases hi - lo
  {
    if lo < hi {
      var e := StretchEnd(rows, lo, hi);
      ShowsStretch(nodes, rows, lo + 1, e);
      ShowsStretch(nodes, rows, e, hi);
      LowsSplit(rows, lo, e, hi);
      KidsAreLows(rows, lo, e, |rows|);
      ShowsFirst(nodes, rows, lo, e, hi);
    } else {
      assert rows[lo..hi] == [] && Lows(rows, lo, hi) == [];
    }
  }

  /** Where the rows under the first one of a stretch end, and that both parts are closed again. */
  lemma StretchEnd(rows: seq<Row>, lo: nat, hi: nat) returns (e: nat)
    requires Closed(rows, lo, hi) && lo < hi
    ensures lo < e <= hi && Closed(rows, lo + 1, e) && Closed(rows, e, hi)
    ensures forall j :: lo < j < e ==> rows[j].indent > rows[lo].indent
    ensures e < |rows| ==> rows[e].indent <= rows[lo].indent
    ensures Build(rows[lo..hi]) == [Vdev(rows[lo].cols, Build(rows[lo + 1..e]))] + Build(rows[e..hi])
  {
    var stretch := rows[lo..hi];
    e := lo + End(stretch);
    assert forall j :: lo < j < e ==> rows[j] == stretch[j - lo];
    assert e < hi ==> rows[e] == stretch[e - lo];
    assert stretch[1..e - lo] == rows[lo + 1..e] && stretch[e - lo..] == rows[e..hi];
  }

  lemma ShowsFirst(nodes: seq<Node>, rows: seq<Row>, lo: nat, e: nat, hi: nat)
    requires |nodes| == |rows| && Holds(nodes, rows) && lo < e <= hi <= |rows|
    requires Kids(rows, lo, |rows|) == Lows(rows, lo + 1, e) && Lows(rows, lo, hi) == [lo] + Lows(rows, e, hi)
    requires Build(rows[lo..hi]) == [Vdev(rows[lo].cols, Build(rows[lo + 1..e]))] + Build(rows[e..hi])
    requires ShowsAll(nodes, At(nodes, Lows(rows, lo + 1, e)), Build(rows[lo + 1..e]))
    requires ShowsAll(nodes, At(nodes, Lows(rows, e, hi)), Build(rows[e..hi]))
    ensures ShowsAll(nodes, At(nodes, Lows(rows, lo, hi)), Build(rows[lo..hi]))
  {
    AtCons(nodes, lo, Lows(rows, e, hi));
    ShowsCons(
      nodes, nodes[lo], At(nodes, Lows(rows, e, hi)), Vdev(rows[lo].cols, Build(rows[lo + 1..e])), Build(rows[e..hi]));
  }

  lemma AtCons(nodes: seq<Node>, first: nat, rest: seq<nat>)
    requires first < |nodes| && forall k :: 0 <= k < |rest| ==> rest[k] < |nodes|
    ensures At(nodes, [first] + rest) == [nodes[first]] + At(nodes, rest)
  {
  }

  lemma ShowsCons(nodes: seq<Node>, node: Node, some: seq<Node>, vdev: Vdev, vdevs: seq<Vdev>)
    requires Shows(nodes, node, vdev) && ShowsAll(nodes, some, vdevs)
    ensures ShowsAll(nodes, [node] + some, [vdev] + vdevs)
  {
    assert ([node] + some)[1..] == some && ([vdev] + vdevs)[1..] == vdevs;
  }

  lemma ShowsForest(nodes: seq<Node>, rows: seq<Row>)
    requires |nodes| == |rows| && Holds(nodes, rows)
    ensures ShowsAll(nodes, Roots(nodes, rows), Build(rows))
  {
    ShowsStretch(nodes, rows, 0, |rows|);
    assert rows[0..|rows|] == rows;
  }

  // ---- what the forest holds ----

  /** The columns of a forest, every row before the ones under it. */
  function Preorder(vdevs: seq<Vdev>): seq<seq<string>>
    decreases vdevs
  {
    if vdevs == [] then [] else [vdevs[0].cols] + Preorder(vdevs[0].children) + Preorder(vdevs[1..])
  }

  function ColsOf(rows: seq<Row>): (r: seq<seq<string>>)
    ensures |r| == |rows|
  {
    seq(|rows|, i requires 0 <= i < |rows| => rows[i].cols)
  }

  lemma ColsOfParts(rows: seq<Row>, e: nat)
    requires 1 <= e <= |rows|
    ensures ColsOf(rows) == [rows[0].cols] + ColsOf(rows[1..e]) + ColsOf(rows[e..])
  {
    var first, under, rest := rows[..1], rows[1..e], rows[e..];
    assert rows == first + under + rest;
    ColsOfJoined(first, under);
    ColsOfJoined(first + under, rest);
    assert ColsOf(first) == [rows[0].cols];
  }

  lemma ColsOfJoined(a: seq<Row>, b: seq<Row>)
    ensures ColsOf(a + b) == ColsOf(a) + ColsOf(b)
  {}

  lemma PreorderOfFirst(cols: seq<string>, children: seq<Vdev>, rest: seq<Vdev>)
    ensures Preorder([Vdev(cols, children)] + rest) == [cols] + Preorder(children) + Preorder(rest)
  {
    assert ([Vdev(cols, children)] + rest)[1..] == rest;
  }

  /** Every row is in the forest once, in the order of the rows. */
  lemma {:induction false} PreorderIsRows(rows: seq<Row>)
    ensures Preorder(Build(rows)) == ColsOf(rows)
    decreases |rows|
  {
    if rows != [] {
      var e := End(rows);
      PreorderIsRows(rows[1..e]);
      PreorderIsRows(rows[e..]);
      ColsOfParts(rows, e);
      PreorderOfFirst(rows[0].cols, Build(rows[1..e]), Build(rows[e..]));
    }
  }

  lemma {:induction false} InKids(rows: seq<Row>, p: nat, c: nat, upto: nat)
    requires c < upto <= |rows| && ParentIs(rows, p, c)
    ensures c in Kids(rows, p, upto)
    decreases upto
  {
    if c < upto - 1 {
      InKids(rows, p, c, upto - 1);
    }
  }

  lemma {:induction false} InLows(rows: seq<Row>, c: nat, upto: nat)
    requires c < upto <= |rows| && IsRoot(rows, c)
    ensures c in Lows(rows, 0, upto)
    decreases upto
  {
    if c < upto - 1 {
      InLows(rows, c, upto - 1);
    }
  }

  lemma NearestBelow(rows: seq<Row>, c: nat, from: nat) returns (p: nat)
    requires from < c < |rows| && rows[from].indent < rows[c].indent
    ensures from <= p && ParentIs(rows, p, c)
    decreases c - from
  {
    p := from;
    if !Low(rows, from + 1, c) {
      var j :| from + 1 <= j < c && rows[j].indent < rows[c].indent;
      p := NearestBelow(rows, c, j);
    }
  }

  /** A row is a root, or under the nearest earlier row less indented than it, and under no other. */
  lemma EveryRowPlaced(rows: seq<Row>, c: nat)
    requires c < |rows|
    ensures c in Lows(rows, 0, |rows|) <==> forall j :: 0 <= j < c ==> rows[j].indent >= rows[c].indent
    ensures c !in Lows(rows, 0, |rows|) ==> exists p: nat :: ParentIs(rows, p, c)
    ensures forall p: nat :: c in Kids(rows, p, |rows|) <==> ParentIs(rows, p, c)
  {
    if IsRoot(rows, c) {
      InLows(rows, c, |rows|);
    } else {
      var j :| 0 <= j < c && rows[j].indent < rows[c].indent;
      var p := NearestBelow(rows, c, j);
    }
    forall p: nat ensures c in Kids(rows, p, |rows|) <==> ParentIs(rows, p, c) {
      if ParentIs(rows, p, c) {
        InKids(rows, p, c, |rows|);
      }
    }
  }

  // ---- a forest laid out and built again ----

  /** The rows of a forest, two spaces a level. */
  function Laid(vdevs: seq<Vdev>, depth: nat): seq<Row>
    decreases vdevs
  {
    if vdevs == [] then []
    else [Row(2 * depth, vdevs[0].cols)] + Laid(vdevs[0].children, depth + 1) + Laid(vdevs[1..], depth)
  }

  lemma {:induction false} LaidIsDeep(vdevs: seq<Vdev>, depth: nat)
    ensures forall i :: 0 <= i < |Laid(vdevs, depth)| ==> Laid(vdevs, depth)[i].indent >= 2 * depth
    decreases vdevs
  {
    if vdevs != [] {
      LaidIsDeep(vdevs[0].children, depth + 1);
      LaidIsDeep(vdevs[1..], depth);
    }
  }

  lemma EndIs(rows: seq<Row>, e: nat)
    requires 1 <= e <= |rows| && forall j :: 1 <= j < e ==> rows[j].indent > rows[0].indent
    requires e < |rows| ==> rows[e].indent <= rows[0].indent
    ensures End(rows) == e
  {
  }

  /** Building the rows of any forest gives that forest. */
  lemma {:induction false} BuildLaid(vdevs: seq<Vdev>, depth: nat)
    ensures Build(Laid(vdevs, depth)) == vdevs
    decreases vdevs
  {
    if vdevs != [] {
      BuildFirst(vdevs, depth);
      BuildLaid(vdevs[0].children, depth + 1);
      BuildLaid(vdevs[1..], depth);
      assert vdevs == [Vdev(vdevs[0].cols, vdevs[0].children)] + vdevs[1..];
    }
  }

  lemma BuildFirst(vdevs: seq<Vdev>, depth: nat)
    requires vdevs != []
    ensures
      Build(Laid(vdevs, depth))
      == [Vdev(vdevs[0].cols, Build(Laid(vdevs[0].children, depth + 1)))] + Build(Laid(vdevs[1..], depth))
  {
    var under := Laid(vdevs[0].children, depth + 1);
    var after := Laid(vdevs[1..], depth);
    LaidIsDeep(vdevs[0].children, depth + 1);
    assert after != [] ==> after[0].indent == 2 * depth;
    BuildParts(Row(2 * depth, vdevs[0].cols), under, after);
  }

  lemma BuildParts(top: Row, under: seq<Row>, after: seq<Row>)
    requires forall i :: 0 <= i < |under| ==> under[i].indent > top.indent
    requires after != [] ==> after[0].indent <= top.indent
    ensures Build([top] + under + after) == [Vdev(top.cols, Build(under))] + Build(after)
  {
    var rows := [top] + under + after;
    EndIs(rows, 1 + |under|);
    assert rows[1..1 + |under|] == under && rows[1 + |under|..] == after;
  }
}
