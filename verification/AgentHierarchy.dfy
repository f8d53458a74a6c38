/** The agent tree of `apps/web/components/digital-workforce-hierarchy.tsx`, with `directReports`
    of `apps/web/lib/digital-workforce.ts`: a recursion over supervisor links that may be cyclic. */
module AgentHierarchy {
  import opened JsText

  /** `supervisor` is null for an agent that has none. */
  datatype Node = Node(agentId: string, displayName: string, supervisor: Option<string>)

  /** One rendered list item; items stand in document order. */
  datatype Row = Row(node: Node, depth: nat)

  /** The sign of `localeCompare`: negative when the first name sorts before the second. */
  type Compare = (string, string) -> int

  ghost predicate DistinctIds(nodes: seq<Node>) {
    forall i, j :: 0 <= i < j < |nodes| ==> nodes[i].agentId != nodes[j].agentId
  }

  // ---- Sorting and selection -------------------------------------------------------------------

  function Insert(node: Node, sorted: seq<Node>, compare: Compare): seq<Node> {
    if sorted == [] || compare(node.displayName, sorted[0].displayName) <= 0 then [node] + sorted
    else [sorted[0]] + Insert(node, sorted[1..], compare)
  }

  /** A stable sort by display name. */
  function SortByName(nodes: seq<Node>, compare: Compare): seq<Node> {
    if nodes == [] then [] else Insert(nodes[0], SortByName(nodes[1..], compare), compare)
  }

  function Filter(nodes: seq<Node>, keep: Node -> bool): seq<Node> {
    if nodes == [] then []
    else (if keep(nodes[0]) then [nodes[0]] else []) + Filter(nodes[1..], keep)
  }

  predicate SomeHasId(nodes: seq<Node>, id: string) {
    exists n :: n in nodes && n.agentId == id
  }

  /** A root has no supervisor, an empty one, or one that is not in the list. */
  predicate IsRoot(nodes: seq<Node>, node: Node) {
    node.supervisor.None? || node.supervisor.value == ""
    || !SomeHasId(nodes, node.supervisor.value)
  }

  function Unsupervised(nodes: seq<Node>): Node -> bool {
    (n: Node) => IsRoot(nodes, n)
  }

  function SupervisedBy(id: string): Node -> bool {
    (n: Node) => n.supervisor == Some(id)
  }

  function Roots(nodes: seq<Node>, compare: Compare): seq<Node> {
    SortByName(Filter(nodes, Unsupervised(nodes)), compare)
  }

  function DirectReports(nodes: seq<Node>, id: string, compare: Compare): seq<Node> {
    SortByName(Filter(nodes, SupervisedBy(id)), compare)
  }

  function Count(nodes: seq<Node>, x: Node): nat {
    if nodes == [] then 0 else (if nodes[0] == x then 1 else 0) + Count(nodes[1..], x)
  }

  lemma {:induction false} InsertCount(node: Node, sorted: seq<Node>, compare: Compare, x: Node)
    ensures Count(Insert(node, sorted, compare), x) == Count(sorted, x) + if node == x then 1 else 0
  {
    if sorted == [] || compare(node.displayName, sorted[0].displayName) <= 0 {
      assert ([node] + sorted)[1..] == sorted;
    } else {
      InsertCount(node, sorted[1..], compare, x);
      var rest := Insert(node, sorted[1..], compare);
      assert ([sorted[0]] + rest)[1..] == rest;
    }
  }

  lemma {:induction false} SortCount(nodes: seq<Node>, compare: Compare, x: Node)
    ensures Count(SortByName(nodes, compare), x) == Count(nodes, x)
  {
    if nodes != [] {
      SortCount(nodes[1..], compare, x);
      InsertCount(nodes[0], SortByName(nodes[1..], compare), compare, x);
    }
  }

  lemma {:induction false} FilterCount(nodes: seq<Node>, keep: Node -> bool, x: Node)
    ensures Count(Filter(nodes, keep), x) == if keep(x) then Count(nodes, x) else 0
  {
    if nodes != [] {
      FilterCount(nodes[1..], keep, x);
      if keep(nodes[0]) {
        assert ([nodes[0]] + Filter(nodes[1..], keep))[1..] == Filter(nodes[1..], keep);
      } else {
        assert [] + Filter(nodes[1..], keep) == Filter(nodes[1..], keep);
      }
    }
  }

  lemma {:induction false} CountIn(nodes: seq<Node>, x: Node)
    ensures Count(nodes, x) > 0 <==> x in nodes
    ensures DistinctIds(nodes) && x in nodes ==> Count(nodes, x) == 1
  {
    if nodes != [] {
      assert nodes == [nodes[0]] + nodes[1..];
      CountIn(nodes[1..], x);
    }
  }

  lemma SelectionCount(nodes: seq<Node>, compare: Compare, x: Node)
    ensures Count(Roots(nodes, compare), x) == if IsRoot(nodes, x) then Count(nodes, x) else 0
    ensures forall id :: Count(DirectReports(nodes, id, compare), x) ==
                         if x.supervisor == Some(id) then Count(nodes, x) else 0
  {
    SortCount(Filter(nodes, Unsupervised(nodes)), compare, x);
    FilterCount(nodes, Unsupervised(nodes), x);
    forall id ensures Count(DirectReports(nodes, id, compare), x) ==
                      if x.supervisor == Some(id) then Count(nodes, x) else 0
    {
      SortCount(Filter(nodes, SupervisedBy(id)), compare, x);
      FilterCount(nodes, SupervisedBy(id), x);
    }
  }

  ghost predicate Consistent(compare: Compare) {
    && (forall a, b :: compare(a, b) <= 0 || compare(b, a) <= 0)
    && (forall a, b, c :: compare(a, b) <= 0 && compare(b, c) <= 0 ==> compare(a, c) <= 0)
  }

  ghost predicate InOrder(nodes: seq<Node>, compare: Compare) {
    forall i, j :: 0 <= i < j < |nodes| ==>
      compare(nodes[i].displayName, nodes[j].displayName) <= 0
  }

  lemma {:induction false} InsertedAre(node: Node, sorted: seq<Node>, compare: Compare, k: nat)
    requires k < |Insert(node, sorted, compare)|
    ensures var n := Insert(node, sorted, compare)[k]; n == node || n in sorted
  {
    if sorted != [] && compare(node.displayName, sorted[0].displayName) > 0 {
      if k > 0 { InsertedAre(node, sorted[1..], compare, k - 1); }
    }
  }

  lemma {:induction false} InsertInOrder(node: Node, sorted: seq<Node>, compare: Compare)
    requires Consistent(compare) && InOrder(sorted, compare)
    ensures InOrder(Insert(node, sorted, compare), compare)
  {
    if sorted != [] && compare(node.displayName, sorted[0].displayName) > 0 {
      InsertInOrder(node, sorted[1..], compare);
      FirstStays(node, sorted, compare);
    }
  }

  /** What the first name comes before, it still comes before with the new node inserted. */
  lemma FirstStays(node: Node, sorted: seq<Node>, compare: Compare)
    requires Consistent(compare) && InOrder(sorted, compare) && sorted != []
    requires compare(node.displayName, sorted[0].displayName) > 0
    ensures forall j :: 0 <= j < |Insert(node, sorted[1..], compare)| ==>
              compare(sorted[0].displayName, Insert(node, sorted[1..], compare)[j].displayName) <= 0
  {
    forall j | 0 <= j < |Insert(node, sorted[1..], compare)|
      ensures compare(sorted[0].displayName, Insert(node, sorted[1..], compare)[j].displayName) <= 0
    {
      InsertedAre(node, sorted[1..], compare, j);
    }
  }

  lemma {:induction false} SortInOrder(nodes: seq<Node>, compare: Compare)
    requires Consistent(compare)
    ensures InOrder(SortByName(nodes, compare), compare)
  {
    if nodes != [] {
      SortInOrder(nodes[1..], compare);
      InsertInOrder(nodes[0], SortByName(nodes[1..], compare), compare);
    }
  }

  /** `a` is listed before `b`. */
  predicate Earlier(nodes: seq<Node>, a: Node, b: Node) {
    exists i, j :: 0 <= i < j < |nodes| && nodes[i] == a && nodes[j] == b
  }

  /** `a` sorts before `b`, or has the same place in the order of names and is listed before it. */
  predicate Precedes(nodes: seq<Node>, a: Node, b: Node, compare: Compare) {
    && compare(a.displayName, b.displayName) <= 0
    && (compare(b.displayName, a.displayName) <= 0 ==> Earlier(nodes, a, b))
  }

  ghost predicate Ordered(nodes: seq<Node>, list: seq<Node>, compare: Compare) {
    forall i, j :: 0 <= i < j < |list| ==> Precedes(nodes, list[i], list[j], compare)
  }

  /** Names that tie stay in the order of the list. */
  ghost predicate Stable(nodes: seq<Node>, list: seq<Node>, compare: Compare) {
    forall i, j :: 0 <= i < j < |list| && compare(list[j].displayName, list[i].displayName) <= 0 ==>
      Earlier(nodes, list[i], list[j])
  }

  lemma {:induction false} InsertIsStable(nodes: seq<Node>, node: Node, sorted: seq<Node>, compare: Compare)
    requires Stable(nodes, sorted, compare) && forall n :: n in sorted ==> Earlier(nodes, node, n)
    ensures Stable(nodes, Insert(node, sorted, compare), compare)
  {
    if sorted != [] && compare(node.displayName, sorted[0].displayName) > 0 {
      var rest := Insert(node, sorted[1..], compare);
      InsertIsStable(nodes, node, sorted[1..], compare);
      forall k: nat | k < |rest| && compare(rest[k].displayName, sorted[0].displayName) <= 0
        ensures Earlier(nodes, sorted[0], rest[k])
      {
        InsertedAre(node, sorted[1..], compare, k);
        var m :| 0 <= m < |sorted[1..]| && sorted[1..][m] == rest[k];
        assert sorted[m + 1] == rest[k];
      }
    }
  }

  lemma EarlierLater(head: Node, tail: seq<Node>)
    ensures forall a, b :: Earlier(tail, a, b) ==> Earlier([head] + tail, a, b)
    ensures forall b :: b in tail ==> Earlier([head] + tail, head, b)
  {
    var all := [head] + tail;
    forall a, b | Earlier(tail, a, b) ensures Earlier(all, a, b) {
      var i, j :| 0 <= i < j < |tail| && tail[i] == a && tail[j] == b;
      assert all[i + 1] == a && all[j + 1] == b;
    }
    forall b | b in tail ensures Earlier(all, head, b) {
      var j :| 0 <= j < |tail| && tail[j] == b;
      assert all[0] == head && all[j + 1] == b;
    }
  }

  lemma {:induction false} FilterKeepsOrder(nodes: seq<Node>, keep: Node -> bool)
    ensures forall a, b :: Earlier(Filter(nodes, keep), a, b) ==> Earlier(nodes, a, b)
    ensures forall n :: n in Filter(nodes, keep) ==> n in nodes
  {
    if nodes != [] {
      var later := Filter(nodes[1..], keep);
      FilterKeepsOrder(nodes[1..], keep);
      EarlierLater(nodes[0], nodes[1..]);
      assert nodes == [nodes[0]] + nodes[1..];
      if keep(nodes[0]) {
        forall a, b | Earlier([nodes[0]] + later, a, b) ensures Earlier(nodes, a, b) {
          var i, j :| 0 <= i < j < |later| + 1 && ([nodes[0]] + later)[i] == a && ([nodes[0]] + later)[j] == b;
          if i > 0 { assert later[i - 1] == a && later[j - 1] == b && Earlier(later, a, b); }
        }
      } else {
        assert Filter(nodes, keep) == later;
      }
    }
  }

  lemma {:induction false} SortIsStable(nodes: seq<Node>, compare: Compare)
    ensures Stable(nodes, SortByName(nodes, compare), compare)
    ensures forall n :: n in SortByName(nodes, compare) ==> n in nodes
  {
    if nodes != [] {
      var sorted := SortByName(nodes[1..], compare);
      SortIsStable(nodes[1..], compare);
      EarlierLater(nodes[0], nodes[1..]);
      assert nodes == [nodes[0]] + nodes[1..];
      InsertIsStable(nodes, nodes[0], sorted, compare);
      forall n | n in SortByName(nodes, compare) ensures n in nodes {
        var k :| 0 <= k < |SortByName(nodes, compare)| && SortByName(nodes, compare)[k] == n;
        InsertedAre(nodes[0], sorted, compare, k);
      }
    }
  }

  lemma SelectionIsOrdered(nodes: seq<Node>, keep: Node -> bool, compare: Compare)
    requires Consistent(compare)
    ensures Ordered(nodes, SortByName(Filter(nodes, keep), compare), compare)
  {
    SortInOrder(Filter(nodes, keep), compare);
    SortIsStable(Filter(nodes, keep), compare);
    FilterKeepsOrder(nodes, keep);
  }

  /** The direct reports of an agent stand in order of their names, those with the same name in the
      order of the list, each listed one once. */
  lemma ReportsInOrder(nodes: seq<Node>, id: string, compare: Compare, x: Node)
    requires Consistent(compare) && DistinctIds(nodes)
    ensures Ordered(nodes, DirectReports(nodes, id, compare), compare)
    ensures Count(DirectReports(nodes, id, compare), x) ==
            if x in nodes && x.supervisor == Some(id) then 1 else 0
  {
    SelectionIsOrdered(nodes, SupervisedBy(id), compare);
    SelectionCount(nodes, compare, x);
    CountIn(nodes, x);
  }

  // ---- Supervisor chains -----------------------------------------------------------------------

  /** `child` is a direct report of `parent`, and both are listed. */
  predicate Reports(nodes: seq<Node>, parent: Node, child: Node) {
    parent in nodes && child in nodes && child.supervisor == Some(parent.agentId)
  }

  predicate Linked(nodes: seq<Node>, path: seq<Node>) {
    forall i :: 0 <= i < |path| - 1 ==> Reports(nodes, path[i], path[i + 1])
  }

  /** A chain from a root down: what the recursion has descended when it renders its last node. */
  predicate Chain(nodes: seq<Node>, chain: seq<Node>) {
    chain != [] && chain[0] in nodes && IsRoot(nodes, chain[0]) && Linked(nodes, chain)
  }

  /** Reports lead from the node with the empty id back to it.  No other cycle can be entered from a
      root: only an agent supervised by the empty id is a root and still has a supervisor. */
  predicate Loop(nodes: seq<Node>, path: seq<Node>) {
    && |path| >= 2 && path[0] == path[|path| - 1] && path[0].agentId == "" && Linked(nodes, path)
  }

  ghost predicate Loops(nodes: seq<Node>) {
    exists path :: Loop(nodes, path)
  }

  lemma OneSupervisor(nodes: seq<Node>, a: Node, b: Node, child: Node)
    requires DistinctIds(nodes) && Reports(nodes, a, child) && Reports(nodes, b, child)
    ensures a == b
  {
    var i :| 0 <= i < |nodes| && nodes[i] == a;
    var j :| 0 <= j < |nodes| && nodes[j] == b;
  }

  /** A root that has a listed supervisor names the empty id. */
  lemma SupervisedRoot(nodes: seq<Node>, parent: Node, root: Node)
    requires Reports(nodes, parent, root) && IsRoot(nodes, root)
    ensures parent.agentId == ""
  {
    assert parent in nodes && parent.agentId == root.supervisor.value;
  }

  /** Of two paths that end in the same node the shorter is the end of the longer. */
  lemma {:induction false} SameEnd(nodes: seq<Node>, a: seq<Node>, b: seq<Node>)
    requires DistinctIds(nodes) && Linked(nodes, a) && Linked(nodes, b)
    requires 0 < |a| <= |b| && a[|a| - 1] == b[|b| - 1]
    ensures b[|b| - |a|..] == a
  {
    var n, m := |a| - 1, |b| - 1;
    if n > 0 {
      OneSupervisor(nodes, a[n - 1], b[m - 1], a[n]);
      SameEnd(nodes, a[..n], b[..m]);
      assert b[m - n..] == b[..m][m - n..] + [b[m]];
      assert a == a[..n] + [a[n]];
    } else {
      assert b[m..] == [b[m]] && a == [a[0]];
    }
  }

  lemma ChainPrefix(nodes: seq<Node>, chain: seq<Node>, n: nat)
    requires Chain(nodes, chain) && 0 < n <= |chain|
    ensures Chain(nodes, chain[..n])
  {
  }

  lemma ChainListed(nodes: seq<Node>, chain: seq<Node>, i: nat)
    requires Chain(nodes, chain) && i < |chain|
    ensures chain[i] in nodes
  {
    if i > 0 {
      assert Reports(nodes, chain[i - 1], chain[i]);
    }
  }

  /** A node that comes twice on a chain closes a loop through the empty id. */
  lemma NoRepeats(nodes: seq<Node>, chain: seq<Node>, i: nat, j: nat)
    requires DistinctIds(nodes) && Chain(nodes, chain) && i < j < |chain| && chain[i] == chain[j]
    ensures Loops(nodes)
  {
    var m := j - i;
    SameEnd(nodes, chain[..i + 1], chain[..j + 1]);
    assert chain[..j + 1][m] == chain[..j + 1][m..][0];
    assert chain[m] == chain[0] && Reports(nodes, chain[m - 1], chain[m]);
    SupervisedRoot(nodes, chain[m - 1], chain[m]);
    var path := [chain[m - 1]] + chain[..m];
    assert forall k :: 1 <= k < |path| ==> path[k] == chain[k - 1];
    assert Loop(nodes, path);
  }

  /** Without such a loop a chain is no longer than the list. */
  lemma ChainIsShort(nodes: seq<Node>, chain: seq<Node>)
    requires DistinctIds(nodes) && !Loops(nodes) && Chain(nodes, chain)
    ensures |chain| <= |nodes|
  {
    forall i, j | 0 <= i < j < |chain| ensures chain[i] != chain[j] {
      if chain[i] == chain[j] { NoRepeats(nodes, chain, i, j); }
    }
    forall i | 0 <= i < |chain| ensures chain[i] in nodes {
      ChainListed(nodes, chain, i);
    }
    Pigeonhole(chain, nodes);
  }

  lemma {:induction false} Pigeonhole(a: seq<Node>, b: seq<Node>)
    requires forall i, j :: 0 <= i < j < |a| ==> a[i] != a[j]
    requires forall i :: 0 <= i < |a| ==> a[i] in b
    ensures |a| <= |b|
  {
    if a != [] {
      var last := |a| - 1;
      var k :| 0 <= k < |b| && b[k] == a[last];
      var rest := b[..k] + b[k + 1..];
      forall i | 0 <= i < last ensures a[i] in rest {
        var m :| 0 <= m < |b| && b[m] == a[i];
        assert rest[if m < k then m else m - 1] == a[i];
      }
      Pigeonhole(a[..last], rest);
    }
  }

  /** Round a loop there are chains of any length. */
  lemma {:induction false} LongChain(nodes: seq<Node>, path: seq<Node>, n: nat)
    returns (chain: seq<Node>)
    requires Loop(nodes, path)
    ensures Chain(nodes, chain) && |chain| > n && chain[|chain| - 1] == path[0]
  {
    var round := path[1..];
    assert Reports(nodes, path[0], path[1]);
    assert Linked(nodes, round);
    if n == 0 {
      chain := round;
    } else {
      var before := LongChain(nodes, path, n - 1);
      chain := before + round;
    }
  }

  ghost predicate DepthWithin(nodes: seq<Node>, bound: nat) {
    forall chain :: Chain(nodes, chain) ==> |chain| <= bound
  }

  /** The recursion descends exactly the chains of reports.  Its depth is bounded, whatever other
      supervisor cycles there are, if and only if no reports lead from the empty id back to it. */
  lemma RecursionEndsExactly(nodes: seq<Node>)
    requires DistinctIds(nodes)
    ensures (exists bound: nat :: DepthWithin(nodes, bound)) <==> !Loops(nodes)
  {
    if Loops(nodes) {
      var path :| Loop(nodes, path);
      forall bound: nat ensures !DepthWithin(nodes, bound) {
        var chain := LongChain(nodes, path, bound);
      }
    } else {
      forall chain | Chain(nodes, chain) ensures |chain| <= |nodes| {
        ChainIsShort(nodes, chain);
      }
      assert DepthWithin(nodes, |nodes|);
    }
  }

  // ---- The recursion ---------------------------------------------------------------------------

  lemma ReportsExtend(nodes: seq<Node>, above: seq<Node>, node: Node, compare: Compare)
    requires DistinctIds(nodes) && Chain(nodes, above + [node])
    ensures forall child :: child in DirectReports(nodes, node.agentId, compare) <==>
                            Chain(nodes, above + [node] + [child])
  {
    ChainListed(nodes, above + [node], |above|);
    forall child
      ensures child in DirectReports(nodes, node.agentId, compare) <==>
              Chain(nodes, above + [node] + [child])
    {
      ReportsListed(nodes, node, child, compare);
      LongerChain(nodes, above + [node], child);
    }
  }

  lemma ReportsListed(nodes: seq<Node>, node: Node, child: Node, compare: Compare)
    requires node in nodes
    ensures child in DirectReports(nodes, node.agentId, compare) <==> Reports(nodes, node, child)
  {
    CountIn(DirectReports(nodes, node.agentId, compare), child);
    SelectionCount(nodes, compare, child);
    CountIn(nodes, child);
  }

  lemma LongerChain(nodes: seq<Node>, chain: seq<Node>, child: Node)
    requires Chain(nodes, chain)
    ensures Chain(nodes, chain + [child]) <==> Reports(nodes, chain[|chain| - 1], child)
  {
    var longer := chain + [child];
    if Chain(nodes, longer) {
      assert Reports(nodes, longer[|chain| - 1], longer[|chain|]);
    }
  }

  /** `renderNode`: the item of a node, then those of its direct reports one level deeper.  `above`
      is the chain the recursion came down, which is what makes it end. */
  function RenderNode(nodes: seq<Node>, node: Node, depth: nat, compare: Compare,
                      ghost above: seq<Node>): seq<Row>
    requires DistinctIds(nodes) && !Loops(nodes) && Chain(nodes, above + [node])
    decreases |nodes| - |above|, 0, 0
  {
    ChainIsShort(nodes, above + [node]);
    ReportsExtend(nodes, above, node, compare);
    [Row(node, depth)]
    + RenderList(nodes, DirectReports(nodes, node.agentId, compare), depth + 1, compare,
                 above + [node])
  }

  function RenderList(nodes: seq<Node>, list: seq<Node>, depth: nat, compare: Compare,
                      ghost above: seq<Node>): seq<Row>
    requires DistinctIds(nodes) && !Loops(nodes)
    requires forall n :: n in list ==> Chain(nodes, above + [n])
    decreases |nodes| - |above|, 1, |list|
  {
    if list == [] then []
    else
      RenderNode(nodes, list[0], depth, compare, above)
      + RenderList(nodes, list[1..], depth, compare, above)
  }

  lemma RootsAreChains(nodes: seq<Node>, compare: Compare)
    requires DistinctIds(nodes)
    ensures forall n :: n in Roots(nodes, compare) <==> Chain(nodes, [] + [n])
  {
    forall n ensures n in Roots(nodes, compare) <==> Chain(nodes, [] + [n]) {
      assert [] + [n] == [n];
      CountIn(Roots(nodes, compare), n);
      SelectionCount(nodes, compare, n);
      CountIn(nodes, n);
    }
  }

  /** The whole component. */
  function Hierarchy(nodes: seq<Node>, compare: Compare): seq<Row>
    requires DistinctIds(nodes) && !Loops(nodes)
  {
    RootsAreChains(nodes, compare);
    RenderList(nodes, Roots(nodes, compare), 0, compare, [])
  }
}
