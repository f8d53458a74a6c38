/** What the agent tree shows: a node once for every root its supervisor chain comes down from, which
    is exactly once, or never for a node on or below a supervisor cycle, exactly when the empty id is
    not in the way. */
module HierarchyRendering {
  import opened JsText
  import opened AgentHierarchy

  /** How many items show `x`. */
  function Items(rows: seq<Row>, x: Node): nat {
    if rows == [] then 0 else (if rows[0].node == x then 1 else 0) + Items(rows[1..], x)
  }

  lemma {:induction false} ItemsConcat(a: seq<Row>, b: seq<Row>, x: Node)
    ensures Items(a + b, x) == Items(a, x) + Items(b, x)
  {
    if a == [] {
      assert a + b == b;
    } else {
      assert (a + b)[1..] == a[1..] + b;
      ItemsConcat(a[1..], b, x);
    }
  }

  // ---- The supervisor chain, followed upwards --------------------------------------------------

  ghost function Supervisor(nodes: seq<Node>, x: Node): (s: Option<Node>)
    ensures s.None? <==> IsRoot(nodes, x)
    ensures s.Some? ==> s.value in nodes && x.supervisor == Some(s.value.agentId)
  {
    if IsRoot(nodes, x) then None
    else
      var n :| n in nodes && n.agentId == x.supervisor.value;
      Some(n)
  }

  /** The node `k` supervisors up, if no root comes before it. */
  ghost function Ancestor(nodes: seq<Node>, x: Node, k: nat): Option<Node> {
    if k == 0 then Some(x)
    else
      var below := Ancestor(nodes, x, k - 1);
      if below.None? then None else Supervisor(nodes, below.value)
  }

  /** The supervisor chain reaches a root. */
  ghost predicate ChainEnds(nodes: seq<Node>, x: Node) {
    exists k: nat :: Ancestor(nodes, x, k).None?
  }

  ghost predicate OnOrBelowCycle(nodes: seq<Node>, x: Node) {
    exists j: nat, k: nat ::
      j < k && Ancestor(nodes, x, j).Some? && Ancestor(nodes, x, j) == Ancestor(nodes, x, k)
  }

  // ---- The main results --------------------------------------------------------------------------

  /** What the tree is meant to show of `x`. */
  ghost predicate ShownRight(nodes: seq<Node>, compare: Compare, x: Node)
    requires DistinctIds(nodes) && !Loops(nodes)
  {
    Items(Hierarchy(nodes, compare), x) == if OnOrBelowCycle(nodes, x) then 0 else 1
  }

  /** Some agent names the empty id as its supervisor, which makes it a root, while the agent that
      has this id is itself under a root. */
  ghost predicate Doubled(nodes: seq<Node>) {
    exists e, y :: e in nodes && y in nodes && e.agentId == "" && y.supervisor == Some("")
                   && ChainEnds(nodes, e)
  }

  /** On any data with distinct ids: the recursion ends and shows every listed node exactly once,
      except those on or below a supervisor cycle, which it never shows, if and only if no agent
      under the empty id would be shown both as a root and as its report. */
  lemma ShownExactly(nodes: seq<Node>, compare: Compare)
    requires DistinctIds(nodes)
    ensures (!Loops(nodes) && forall x :: x in nodes ==> ShownRight(nodes, compare, x)) <==>
            !Doubled(nodes)
  {
    if Loops(nodes) {
      LoopsAreDoubled(nodes);
    } else if Doubled(nodes) {
      var e, y :| e in nodes && y in nodes && e.agentId == "" && y.supervisor == Some("")
                  && ChainEnds(nodes, e);
      ShownTwice(nodes, e, y, compare);
      RootIsNoCycle(nodes, y);
    } else {
      forall x | x in nodes ensures ShownRight(nodes, compare, x) {
        ShownOnce(nodes, x, compare);
      }
    }
  }

  /** A listed node is on or below a supervisor cycle if and only if its chain reaches no root. */
  lemma CycleOrRoot(nodes: seq<Node>, x: Node)
    requires DistinctIds(nodes) && x in nodes
    ensures OnOrBelowCycle(nodes, x) <==> !ChainEnds(nodes, x)
  {
    if ChainEnds(nodes, x) {
      var chain := ChainOf(nodes, x);
      ChainHasNoCycle(nodes, chain);
    } else {
      EndlessRepeats(nodes, x);
    }
  }

  /** In general a node is shown once for each root that a chain leads down from. */
  lemma ShownOncePerRoot(nodes: seq<Node>, x: Node, compare: Compare)
    requires DistinctIds(nodes) && !Loops(nodes)
    ensures Items(Hierarchy(nodes, compare), x) == Leading(nodes, Roots(nodes, compare), x)
  {
    RootsAreChains(nodes, compare);
    RootItems(nodes, Roots(nodes, compare), compare, x);
  }

  /** Every item shows a listed node, indented by the length of the chain it was reached by. */
  lemma IndentedByRank(nodes: seq<Node>, compare: Compare, row: Row)
    requires DistinctIds(nodes) && !Loops(nodes) && row in Hierarchy(nodes, compare)
    ensures row.node in nodes
    ensures exists chain :: Chain(nodes, chain) && chain[|chain| - 1] == row.node
                            && |chain| == row.depth + 1
  {
    RootsAreChains(nodes, compare);
    var chain := ListRow(nodes, Roots(nodes, compare), 0, compare, [], row);
    ChainListed(nodes, chain, |chain| - 1);
  }

  // ---- Once per root -----------------------------------------------------------------------------

  predicate LeadsBy(nodes: seq<Node>, root: Node, x: Node, chain: seq<Node>) {
    Chain(nodes, chain) && chain[0] == root && chain[|chain| - 1] == x
  }

  ghost predicate Leads(nodes: seq<Node>, root: Node, x: Node) {
    exists chain :: LeadsBy(nodes, root, x, chain)
  }

  ghost function Leading(nodes: seq<Node>, roots: seq<Node>, x: Node): nat {
    if roots == [] then 0
    else (if Leads(nodes, roots[0], x) then 1 else 0) + Leading(nodes, roots[1..], x)
  }

  /** From one root there is at most one chain to a node. */
  lemma OneChain(nodes: seq<Node>, a: seq<Node>, b: seq<Node>)
    requires DistinctIds(nodes) && !Loops(nodes) && Chain(nodes, a) && Chain(nodes, b)
    requires a[0] == b[0] && a[|a| - 1] == b[|b| - 1]
    ensures a == b
  {
    if |a| <= |b| {
      ShorterChain(nodes, a, b);
    } else {
      ShorterChain(nodes, b, a);
    }
  }

  lemma ShorterChain(nodes: seq<Node>, a: seq<Node>, b: seq<Node>)
    requires DistinctIds(nodes) && !Loops(nodes) && Chain(nodes, a) && Chain(nodes, b)
    requires |a| <= |b| && a[0] == b[0] && a[|a| - 1] == b[|b| - 1]
    ensures a == b
  {
    SameEnd(nodes, a, b);
    var m := |b| - |a|;
    assert b[m] == b[m..][0];
    if m > 0 { NoRepeats(nodes, b, 0, m); }
  }

  lemma {:induction false} NodeItems(nodes: seq<Node>, node: Node, depth: nat, compare: Compare,
                                     above: seq<Node>, chain: seq<Node>)
    requires DistinctIds(nodes) && !Loops(nodes)
    requires Chain(nodes, above + [node]) && Chain(nodes, chain) && chain[0] == (above + [node])[0]
    ensures Items(RenderNode(nodes, node, depth, compare, above), chain[|chain| - 1]) ==
            if above + [node] <= chain then 1 else 0
    decreases |nodes| - |above|, 0, 0
  {
    var x, here := chain[|chain| - 1], above + [node];
    var reports := DirectReports(nodes, node.agentId, compare);
    ChainIsShort(nodes, here);
    ReportsExtend(nodes, above, node, compare);
    ItemsConcat([Row(node, depth)], RenderList(nodes, reports, depth + 1, compare, here), x);
    ListItems(nodes, reports, depth + 1, compare, here, chain);
    if node == x {
      OneChain(nodes, here, chain);
    } else if here <= chain {
      ProperPrefix(here, chain);
      NextIsReport(nodes, here, chain, compare);
    }
  }

  lemma ProperPrefix(here: seq<Node>, chain: seq<Node>)
    requires here != [] && chain != [] && here <= chain && here[|here| - 1] != chain[|chain| - 1]
    ensures here < chain && here[|here| - 1] == chain[|here| - 1]
  {
    assert |here| == |chain| ==> here == chain;
  }

  lemma NextIsReport(nodes: seq<Node>, here: seq<Node>, chain: seq<Node>, compare: Compare)
    requires DistinctIds(nodes) && Chain(nodes, chain) && here != [] && here < chain
    ensures Count(DirectReports(nodes, here[|here| - 1].agentId, compare), chain[|here|]) == 1
  {
    assert Reports(nodes, chain[|here| - 1], chain[|here|]);
    SelectionCount(nodes, compare, chain[|here|]);
    CountIn(nodes, chain[|here|]);
  }

  lemma {:induction false} ListItems(nodes: seq<Node>, list: seq<Node>, depth: nat,
                                     compare: Compare, above: seq<Node>, chain: seq<Node>)
    requires DistinctIds(nodes) && !Loops(nodes)
    requires Chain(nodes, chain) && above != [] && chain[0] == above[0]
    requires forall n :: n in list ==> Chain(nodes, above + [n])
    ensures Items(RenderList(nodes, list, depth, compare, above), chain[|chain| - 1]) ==
            if above < chain then Count(list, chain[|above|]) else 0
    decreases |nodes| - |above|, 1, |list|
  {
    if list != [] {
      var first := RenderNode(nodes, list[0], depth, compare, above);
      ItemsConcat(first, RenderList(nodes, list[1..], depth, compare, above), chain[|chain| - 1]);
      NodeItems(nodes, list[0], depth, compare, above, chain);
      ListItems(nodes, list[1..], depth, compare, above, chain);
      LongerPrefix(above, list[0], chain);
    }
  }

  lemma LongerPrefix(above: seq<Node>, node: Node, chain: seq<Node>)
    ensures above + [node] <= chain <==> above < chain && chain[|above|] == node
  {
    if above < chain && chain[|above|] == node {
      assert chain[..|above| + 1] == above + [node];
    }
  }

  lemma RootItem(nodes: seq<Node>, root: Node, compare: Compare, x: Node)
    requires DistinctIds(nodes) && !Loops(nodes) && Chain(nodes, [] + [root])
    ensures Items(RenderNode(nodes, root, 0, compare, []), x) ==
            if Leads(nodes, root, x) then 1 else 0
  {
    var rows := RenderNode(nodes, root, 0, compare, []);
    if Leads(nodes, root, x) {
      var chain :| LeadsBy(nodes, root, x, chain);
      NodeItems(nodes, root, 0, compare, [], chain);
    } else if Items(rows, x) > 0 {
      ItemsAreRows(rows, x);
      var row :| row in rows && row.node == x;
      var chain := NodeRow(nodes, root, 0, compare, [], row);
      assert LeadsBy(nodes, root, x, chain);
    }
  }

  lemma {:induction false} RootItems(nodes: seq<Node>, roots: seq<Node>, compare: Compare, x: Node)
    requires DistinctIds(nodes) && !Loops(nodes)
    requires forall n :: n in roots ==> Chain(nodes, [] + [n])
    ensures Items(RenderList(nodes, roots, 0, compare, []), x) == Leading(nodes, roots, x)
  {
    if roots != [] {
      RootItem(nodes, roots[0], compare, x);
      RootItems(nodes, roots[1..], compare, x);
      ItemsConcat(RenderNode(nodes, roots[0], 0, compare, []),
                  RenderList(nodes, roots[1..], 0, compare, []), x);
    }
  }

  // ---- Items and chains ----------------------------------------------------------------------------

  lemma {:induction false} NodeRow(nodes: seq<Node>, node: Node, depth: nat, compare: Compare,
                                   above: seq<Node>, row: Row) returns (chain: seq<Node>)
    requires DistinctIds(nodes) && !Loops(nodes)
    requires Chain(nodes, above + [node]) && depth == |above|
    requires row in RenderNode(nodes, node, depth, compare, above)
    ensures Chain(nodes, chain) && chain[|chain| - 1] == row.node && |chain| == row.depth + 1
    ensures above + [node] <= chain
    decreases |nodes| - |above|, 0, 0
  {
    ChainIsShort(nodes, above + [node]);
    ReportsExtend(nodes, above, node, compare);
    if row == Row(node, depth) {
      chain := above + [node];
    } else {
      chain := ListRow(nodes, DirectReports(nodes, node.agentId, compare), depth + 1, compare,
                       above + [node], row);
    }
  }

  lemma {:induction false} ListRow(nodes: seq<Node>, list: seq<Node>, depth: nat, compare: Compare,
                                   above: seq<Node>, row: Row) returns (chain: seq<Node>)
    requires DistinctIds(nodes) && !Loops(nodes) && depth == |above|
    requires forall n :: n in list ==> Chain(nodes, above + [n])
    requires row in RenderList(nodes, list, depth, compare, above)
    ensures Chain(nodes, chain) && chain[|chain| - 1] == row.node && |chain| == row.depth + 1
    ensures above <= chain
    decreases |nodes| - |above|, 1, |list|
  {
    var first := RenderNode(nodes, list[0], depth, compare, above);
    var later := RenderList(nodes, list[1..], depth, compare, above);
    InEither(first, later, row);
    if row in first {
      chain := NodeRow(nodes, list[0], depth, compare, above, row);
    } else {
      chain := ListRow(nodes, list[1..], depth, compare, above, row);
    }
  }

  lemma InEither(a: seq<Row>, b: seq<Row>, row: Row)
    ensures row in a + b <==> row in a || row in b
  {
  }

  lemma {:induction false} ItemsAreRows(rows: seq<Row>, x: Node)
    requires Items(rows, x) > 0
    ensures exists row :: row in rows && row.node == x
  {
    if rows[0].node != x {
      ItemsAreRows(rows[1..], x);
    }
  }

  // ---- One root, or two ----------------------------------------------------------------------------

  lemma {:induction false} LeadingOne(nodes: seq<Node>, roots: seq<Node>, x: Node, root: Node)
    requires forall r :: Leads(nodes, r, x) <==> r == root
    ensures Leading(nodes, roots, x) == Count(roots, root)
  {
    if roots != [] {
      LeadingOne(nodes, roots[1..], x, root);
    }
  }

  lemma {:induction false} LeadingNone(nodes: seq<Node>, roots: seq<Node>, x: Node)
    requires forall r :: !Leads(nodes, r, x)
    ensures Leading(nodes, roots, x) == 0
  {
    if roots != [] {
      LeadingNone(nodes, roots[1..], x);
    }
  }

  lemma {:induction false} LeadingSome(nodes: seq<Node>, roots: seq<Node>, x: Node, r: Node)
    requires r in roots && Leads(nodes, r, x)
    ensures Leading(nodes, roots, x) >= 1
  {
    if roots[0] != r {
      LeadingSome(nodes, roots[1..], x, r);
    }
  }

  lemma {:induction false} LeadingTwo(nodes: seq<Node>, roots: seq<Node>, x: Node, r: Node, q: Node)
    requires r in roots && q in roots && r != q && Leads(nodes, r, x) && Leads(nodes, q, x)
    ensures Leading(nodes, roots, x) >= 2
  {
    if roots[0] == r {
      LeadingSome(nodes, roots[1..], x, q);
    } else if roots[0] == q {
      LeadingSome(nodes, roots[1..], x, r);
    } else {
      LeadingTwo(nodes, roots[1..], x, r, q);
    }
  }

  lemma ShownOnce(nodes: seq<Node>, x: Node, compare: Compare)
    requires DistinctIds(nodes) && !Loops(nodes) && !Doubled(nodes) && x in nodes
    ensures ShownRight(nodes, compare, x)
  {
    CycleOrRoot(nodes, x);
    ShownOncePerRoot(nodes, x, compare);
    if ChainEnds(nodes, x) {
      var chain := ChainOf(nodes, x);
      forall r ensures Leads(nodes, r, x) <==> r == chain[0] {
        assert LeadsBy(nodes, chain[0], x, chain);
        if Leads(nodes, r, x) { OnlyRoot(nodes, chain, r); }
      }
      LeadingOne(nodes, Roots(nodes, compare), x, chain[0]);
      SelectionCount(nodes, compare, chain[0]);
      CountIn(nodes, chain[0]);
    } else {
      forall r ensures !Leads(nodes, r, x) {
        if Leads(nodes, r, x) {
          var chain :| LeadsBy(nodes, r, x, chain);
          ChainReachesRoot(nodes, chain);
        }
      }
      LeadingNone(nodes, Roots(nodes, compare), x);
    }
  }

  /** Unless a node is doubled, the first root above it is the only one. */
  lemma OnlyRoot(nodes: seq<Node>, chain: seq<Node>, r: Node)
    requires DistinctIds(nodes) && !Doubled(nodes) && Direct(nodes, chain)
    requires Leads(nodes, r, chain[|chain| - 1])
    ensures r == chain[0]
  {
    var other :| LeadsBy(nodes, r, chain[|chain| - 1], other);
    if |other| <= |chain| {
      SameEnd(nodes, other, chain);
      assert chain[|chain| - |other|] == chain[|chain| - |other|..][0];
    } else {
      SameEnd(nodes, chain, other);
      var m := |other| - |chain|;
      assert other[m] == other[m..][0];
      assert Reports(nodes, other[m - 1], other[m]);
      SupervisedRoot(nodes, other[m - 1], other[m]);
      ChainPrefix(nodes, other, m);
      ChainReachesRoot(nodes, other[..m]);
    }
  }

  lemma LoopsAreDoubled(nodes: seq<Node>)
    requires Loops(nodes)
    requires DistinctIds(nodes)
    ensures Doubled(nodes)
  {
    var path :| Loop(nodes, path);
    assert Reports(nodes, path[0], path[1]);
    var chain := LongChain(nodes, path, 0);
    ChainReachesRoot(nodes, chain);
  }

  lemma ShownTwice(nodes: seq<Node>, e: Node, y: Node, compare: Compare)
    requires DistinctIds(nodes) && !Loops(nodes) && e in nodes && y in nodes
    requires e.agentId == "" && y.supervisor == Some("") && ChainEnds(nodes, e)
    ensures Items(Hierarchy(nodes, compare), y) >= 2
  {
    var chain := ChainOf(nodes, e);
    LongerChain(nodes, chain, y);
    assert LeadsBy(nodes, chain[0], y, chain + [y]) && LeadsBy(nodes, y, y, [y]);
    if chain[0] == y { OneChain(nodes, chain + [y], [y]); }
    RootListed(nodes, chain[0], compare);
    RootListed(nodes, y, compare);
    LeadingTwo(nodes, Roots(nodes, compare), y, y, chain[0]);
    ShownOncePerRoot(nodes, y, compare);
  }

  lemma RootListed(nodes: seq<Node>, root: Node, compare: Compare)
    requires DistinctIds(nodes) && root in nodes && IsRoot(nodes, root)
    ensures root in Roots(nodes, compare)
  {
    SelectionCount(nodes, compare, root);
    CountIn(nodes, root);
    CountIn(Roots(nodes, compare), root);
  }

  lemma RootIsNoCycle(nodes: seq<Node>, y: Node)
    requires DistinctIds(nodes) && y in nodes && IsRoot(nodes, y)
    ensures !OnOrBelowCycle(nodes, y)
  {
    assert Ancestor(nodes, y, 1).None?;
    CycleOrRoot(nodes, y);
  }

  // ---- Chains, ancestors and cycles ------------------------------------------------------------------

  /** A chain with no root but its first node. */
  predicate Direct(nodes: seq<Node>, chain: seq<Node>) {
    Chain(nodes, chain) && forall i :: 0 < i < |chain| ==> !IsRoot(nodes, chain[i])
  }

  /** A direct chain read upwards is the ancestors of its last node, and then there are none. */
  lemma {:induction false} Ancestors(nodes: seq<Node>, chain: seq<Node>, k: nat)
    requires DistinctIds(nodes) && Direct(nodes, chain)
    ensures Ancestor(nodes, chain[|chain| - 1], k) ==
            if k < |chain| then Some(chain[|chain| - 1 - k]) else None
  {
    if k > 0 {
      Ancestors(nodes, chain, k - 1);
      if k < |chain| {
        var child, parent := chain[|chain| - k], chain[|chain| - 1 - k];
        assert Reports(nodes, parent, child);
        OneSupervisor(nodes, parent, Supervisor(nodes, child).value, child);
      }
    }
  }

  lemma ChainHasNoCycle(nodes: seq<Node>, chain: seq<Node>)
    requires DistinctIds(nodes) && Direct(nodes, chain)
    ensures !OnOrBelowCycle(nodes, chain[|chain| - 1])
  {
    var x, n := chain[|chain| - 1], |chain|;
    forall j: nat, k: nat | j < k && Ancestor(nodes, x, j).Some?
      ensures Ancestor(nodes, x, j) != Ancestor(nodes, x, k)
    {
      Ancestors(nodes, chain, j);
      Ancestors(nodes, chain, k);
      if k < n && chain[n - 1 - j] == chain[n - 1 - k] {
        var a, b := chain[..n - k], chain[..n - j];
        SameEnd(nodes, a, b);
      }
    }
  }

  /** The last node of any chain has a root above it. */
  lemma ChainReachesRoot(nodes: seq<Node>, chain: seq<Node>)
    requires DistinctIds(nodes) && Chain(nodes, chain)
    ensures ChainEnds(nodes, chain[|chain| - 1])
  {
    var m := |chain| - 1;
    while !IsRoot(nodes, chain[m])
      invariant 0 <= m < |chain| && forall i :: m < i < |chain| ==> !IsRoot(nodes, chain[i])
      decreases m
    {
      m := m - 1;
    }
    ChainListed(nodes, chain, m);
    Ancestors(nodes, chain[m..], |chain[m..]|);
  }

  /** The first `k` ancestors of a node and the node itself, the highest first. */
  lemma {:induction false} Upwards(nodes: seq<Node>, x: Node, k: nat) returns (line: seq<Node>)
    requires x in nodes && Ancestor(nodes, x, k).Some?
    ensures |line| == k + 1 && line[k] == x && line[0] in nodes
    ensures forall i :: 0 <= i <= k ==> Ancestor(nodes, x, i) == Some(line[k - i])
    ensures Linked(nodes, line) && forall i :: 0 < i <= k ==> !IsRoot(nodes, line[i])
  {
    if k == 0 {
      line := [x];
    } else {
      var below := Upwards(nodes, x, k - 1);
      var top := Supervisor(nodes, below[0]).value;
      line := [top] + below;
      assert Ancestor(nodes, x, k) == Some(top);
      forall i | 0 <= i < k ensures Ancestor(nodes, x, i) == Some(line[k - i]) {
        assert line[k - i] == below[k - 1 - i];
      }
    }
  }

  lemma ChainOf(nodes: seq<Node>, x: Node) returns (chain: seq<Node>)
    requires x in nodes && ChainEnds(nodes, x)
    ensures Direct(nodes, chain) && chain[|chain| - 1] == x
  {
    var k: nat :| Ancestor(nodes, x, k).None?;
    while k > 1 && Ancestor(nodes, x, k - 1).None?
      invariant k > 0 && Ancestor(nodes, x, k).None?
    {
      k := k - 1;
    }
    chain := Upwards(nodes, x, k - 1);
    assert Ancestor(nodes, x, k - 1) == Some(chain[0]);
  }

  /** A chain that never ends comes back to a node: there are only so many nodes. */
  lemma EndlessRepeats(nodes: seq<Node>, x: Node)
    requires DistinctIds(nodes) && x in nodes && !ChainEnds(nodes, x)
    ensures OnOrBelowCycle(nodes, x)
  {
    var n := |nodes|;
    var line := Upwards(nodes, x, n);
    if !OnOrBelowCycle(nodes, x) {
      forall i, j | 0 <= i < j <= n ensures line[i] != line[j] {
        assert Ancestor(nodes, x, n - j) == Some(line[j]);
        assert Ancestor(nodes, x, n - i) == Some(line[i]);
      }
      forall i | 0 <= i <= n ensures line[i] in nodes {
        assert i > 0 ==> Reports(nodes, line[i - 1], line[i]);
      }
      Pigeonhole(line, nodes);
    }
  }
}
