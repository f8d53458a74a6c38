/** The document order of the agent tree: every item stands right below its supervisor's, after the
    items of the siblings that sort before it and all that is below those. */
module HierarchyOrder {
  import opened JsText
  import opened AgentHierarchy

  /** Item `p` is the one that item `i` is nested in. */
  predicate NestedIn(rows: seq<Row>, p: nat, i: nat) {
    && p < i < |rows| && rows[p].depth + 1 == rows[i].depth
    && forall q :: p < q < i ==> rows[q].depth >= rows[i].depth
  }

  /** Items `i` and `j` are nested in the same item. */
  predicate Siblings(rows: seq<Row>, i: nat, j: nat) {
    && i < j < |rows| && rows[i].depth == rows[j].depth
    && forall q :: i < q < j ==> rows[q].depth >= rows[i].depth
  }

  ghost predicate NestedRight(rows: seq<Row>, i: nat)
    requires i < |rows|
  {
    exists p: nat :: NestedIn(rows, p, i) && rows[i].node.supervisor == Some(rows[p].node.agentId)
  }

  ghost predicate SortedRight(nodes: seq<Node>, rows: seq<Row>, i: nat, j: nat, compare: Compare) {
    Siblings(rows, i, j) ==> Precedes(nodes, rows[i].node, rows[j].node, compare)
  }

  /** Items from depth `d` on, each nested in the item of its supervisor unless it is at depth `d`
      itself, and siblings in order of their names, and of the list where names tie. */
  ghost predicate Tree(nodes: seq<Node>, rows: seq<Row>, d: nat, compare: Compare) {
    DeepFrom(rows, d) && AllNested(rows, d) && AllSorted(nodes, rows, compare)
  }

  predicate DeepFrom(rows: seq<Row>, d: nat) {
    forall i :: 0 <= i < |rows| ==> rows[i].depth >= d
  }

  ghost predicate AllNested(rows: seq<Row>, d: nat) {
    forall i :: 0 <= i < |rows| && rows[i].depth > d ==> NestedRight(rows, i)
  }

  ghost predicate AllSorted(nodes: seq<Node>, rows: seq<Row>, compare: Compare) {
    forall i: nat, j: nat :: Siblings(rows, i, j) ==> SortedRight(nodes, rows, i, j, compare)
  }

  /** The items at depth `d` show nodes of the list. */
  predicate TopFrom(rows: seq<Row>, d: nat, list: seq<Node>) {
    forall i :: 0 <= i < |rows| && rows[i].depth == d ==> rows[i].node in list
  }

  predicate Starts(rows: seq<Row>, d: nat) {
    rows == [] || rows[0].depth == d
  }

  /** On any data whose recursion ends: the items at the top are roots, every other item is nested in
      the item of its supervisor, and siblings stand in order of their names, and of the list where
      names tie. */
  lemma DocumentOrder(nodes: seq<Node>, compare: Compare)
    requires DistinctIds(nodes) && !Loops(nodes) && Consistent(compare)
    ensures var rows := Hierarchy(nodes, compare);
            && Tree(nodes, rows, 0, compare)
            && forall i :: 0 <= i < |rows| && rows[i].depth == 0 ==> IsRoot(nodes, rows[i].node)
  {
    RootsAreChains(nodes, compare);
    SelectionIsOrdered(nodes, Unsupervised(nodes), compare);
    ListIsTree(nodes, Roots(nodes, compare), 0, compare, []);
    forall n | n in Roots(nodes, compare) ensures IsRoot(nodes, n) {
      assert ([] + [n])[0] == n && Chain(nodes, [] + [n]);
    }
  }

  lemma {:induction false} NodeIsTree(nodes: seq<Node>, node: Node, depth: nat, compare: Compare,
                                      above: seq<Node>)
    requires DistinctIds(nodes) && !Loops(nodes) && Consistent(compare) && Chain(nodes, above + [node])
    ensures var rows := RenderNode(nodes, node, depth, compare, above);
            Tree(nodes, rows, depth, compare) && rows[0] == Row(node, depth) && TopFrom(rows, depth, [node])
    decreases |nodes| - |above|, 0, 0
  {
    ChainIsShort(nodes, above + [node]);
    ReportsExtend(nodes, above, node, compare);
    var reports := DirectReports(nodes, node.agentId, compare);
    SelectionIsOrdered(nodes, SupervisedBy(node.agentId), compare);
    ListIsTree(nodes, reports, depth + 1, compare, above + [node]);
    forall n | n in reports ensures n.supervisor == Some(node.agentId) {
      ChainListed(nodes, above + [node], |above|);
      assert (above + [node])[|above|] == node;
      ReportsListed(nodes, node, n, compare);
    }
    Nest(nodes, node, depth, reports,
         RenderList(nodes, reports, depth + 1, compare, above + [node]), compare);
  }

  lemma {:induction false} ListIsTree(nodes: seq<Node>, list: seq<Node>, depth: nat,
                                      compare: Compare, above: seq<Node>)
    requires DistinctIds(nodes) && !Loops(nodes) && Consistent(compare) && Ordered(nodes, list, compare)
    requires forall n :: n in list ==> Chain(nodes, above + [n])
    ensures var rows := RenderList(nodes, list, depth, compare, above);
            Tree(nodes, rows, depth, compare) && TopFrom(rows, depth, list) && Starts(rows, depth)
    decreases |nodes| - |above|, 1, |list|
  {
    if list != [] {
      NodeIsTree(nodes, list[0], depth, compare, above);
      ListIsTree(nodes, list[1..], depth, compare, above);
      Append(nodes, list, RenderNode(nodes, list[0], depth, compare, above),
             RenderList(nodes, list[1..], depth, compare, above), depth, compare);
    }
  }

  /** An item on top of the items of its reports. */
  lemma Nest(nodes: seq<Node>, node: Node, d: nat, reports: seq<Node>, rows: seq<Row>, compare: Compare)
    requires Tree(nodes, rows, d + 1, compare) && TopFrom(rows, d + 1, reports)
    requires forall n :: n in reports ==> n.supervisor == Some(node.agentId)
    ensures Tree(nodes, [Row(node, d)] + rows, d, compare)
    ensures TopFrom([Row(node, d)] + rows, d, [node])
  {
    var all := [Row(node, d)] + rows;
    assert forall i :: 0 < i < |all| ==> all[i] == rows[i - 1];
    forall i | 0 <= i < |all| && all[i].depth > d ensures NestedRight(all, i) {
      NestBelow(node, d, reports, rows, i);
    }
    SortedBelow(nodes, node, d, rows, compare);
  }

  lemma NestBelow(node: Node, d: nat, reports: seq<Node>, rows: seq<Row>, i: nat)
    requires DeepFrom(rows, d + 1) && AllNested(rows, d + 1) && TopFrom(rows, d + 1, reports)
    requires forall n :: n in reports ==> n.supervisor == Some(node.agentId)
    requires i < |rows| + 1 && ([Row(node, d)] + rows)[i].depth > d
    ensures NestedRight([Row(node, d)] + rows, i)
  {
    var all := [Row(node, d)] + rows;
    assert all[i] == rows[i - 1];
    if all[i].depth == d + 1 {
      assert forall q :: 0 < q < i ==> all[q] == rows[q - 1];
      assert NestedIn(all, 0, i);
    } else {
      NestedAppend([Row(node, d)], rows, i);
    }
  }

  lemma SortedBelow(nodes: seq<Node>, node: Node, d: nat, rows: seq<Row>, compare: Compare)
    requires DeepFrom(rows, d + 1) && AllSorted(nodes, rows, compare)
    ensures AllSorted(nodes, [Row(node, d)] + rows, compare)
  {
    var all := [Row(node, d)] + rows;
    forall i: nat, j: nat | Siblings(all, i, j) ensures SortedRight(nodes, all, i, j, compare) {
      SiblingsAppend([Row(node, d)], rows, i, j);
      assert i > 0;
      assert SortedRight(nodes, rows, i - 1, j - 1, compare);
    }
  }

  /** Siblings both in the first part, both in the second, or with the start of the second between. */
  lemma SiblingsAppend(a: seq<Row>, b: seq<Row>, i: nat, j: nat)
    requires Siblings(a + b, i, j)
    ensures j < |a| ==> Siblings(a, i, j)
    ensures i >= |a| ==> Siblings(b, i - |a|, j - |a|)
    ensures i < |a| <= j ==> a[i].depth == b[j - |a|].depth && a[i].depth <= b[0].depth
  {
    var all := a + b;
    if j < |a| {
      assert forall q :: 0 <= q <= j ==> all[q] == a[q];
    } else if i >= |a| {
      assert forall q :: 0 <= q <= j - |a| ==> b[q] == all[q + |a|];
    } else {
      assert all[|a|] == b[0];
    }
  }

  /** The items of one node before those of the nodes after it. */
  lemma Append(nodes: seq<Node>, list: seq<Node>, a: seq<Row>, b: seq<Row>, d: nat, compare: Compare)
    requires list != [] && Ordered(nodes, list, compare)
    requires Tree(nodes, a, d, compare) && TopFrom(a, d, [list[0]]) && Starts(a, d)
    requires Tree(nodes, b, d, compare) && TopFrom(b, d, list[1..]) && Starts(b, d)
    requires a != []
    ensures Tree(nodes, a + b, d, compare) && TopFrom(a + b, d, list) && Starts(a + b, d)
  {
    var all := a + b;
    forall i | 0 <= i < |all| && all[i].depth > d ensures NestedRight(all, i) {
      NestedAppend(a, b, i);
    }
    forall i: nat, j: nat | Siblings(all, i, j) ensures SortedRight(nodes, all, i, j, compare) {
      SortedAppend(nodes, list, a, b, d, compare, i, j);
    }
  }

  lemma NestedAppend(a: seq<Row>, b: seq<Row>, i: nat)
    requires i < |a + b|
    requires if i < |a| then NestedRight(a, i) else NestedRight(b, i - |a|)
    ensures NestedRight(a + b, i)
  {
    var all := a + b;
    if i < |a| {
      var p: nat :| NestedIn(a, p, i) && a[i].node.supervisor == Some(a[p].node.agentId);
      assert forall q :: 0 <= q <= i ==> all[q] == a[q];
      assert NestedIn(all, p, i);
    } else {
      var k := i - |a|;
      var p: nat :| NestedIn(b, p, k) && b[k].node.supervisor == Some(b[p].node.agentId);
      assert forall q :: |a| <= q <= i ==> all[q] == b[q - |a|];
      assert NestedIn(all, |a| + p, i);
    }
  }

  lemma SortedAppend(nodes: seq<Node>, list: seq<Node>, a: seq<Row>, b: seq<Row>, d: nat,
                     compare: Compare, i: nat, j: nat)
    requires list != [] && Ordered(nodes, list, compare)
    requires Tree(nodes, a, d, compare) && TopFrom(a, d, [list[0]])
    requires Tree(nodes, b, d, compare) && TopFrom(b, d, list[1..]) && Starts(b, d)
    requires Siblings(a + b, i, j)
    ensures SortedRight(nodes, a + b, i, j, compare)
  {
    SiblingsAppend(a, b, i, j);
    if j < |a| {
      assert SortedRight(nodes, a, i, j, compare);
    } else if i >= |a| {
      assert SortedRight(nodes, b, i - |a|, j - |a|, compare);
    } else {
      FirstSorts(nodes, list, a[i].node, b[j - |a|].node, compare);
    }
  }

  lemma FirstSorts(nodes: seq<Node>, list: seq<Node>, first: Node, later: Node, compare: Compare)
    requires list != [] && Ordered(nodes, list, compare) && first in [list[0]] && later in list[1..]
    ensures Precedes(nodes, first, later, compare)
  {
    var k :| 0 <= k < |list[1..]| && list[1..][k] == later;
    assert list[k + 1] == later;
  }
}
