/**
 * Convexity of a fused node set: the depth-first search that looks for a path out of the set and
 * back in, and what its answer means for contracting the set to one node.
 */
module FusionGraph {
  type NodeId = nat

  /** Per node, for each of its outputs, the nodes that consume it. */
  datatype Graph = Graph(outputs: map<NodeId, seq<seq<NodeId>>>) {
    ghost predicate Edge(a: NodeId, b: NodeId) {
      a in outputs && exists o :: 0 <= o < |outputs[a]| && b in outputs[a][o]
    }

    /** Consumers are nodes of the graph. */
    ghost predicate Closed() {
      forall a, b {:trigger Edge(a, b)} :: Edge(a, b) ==> b in outputs
    }

    ghost predicate IsPath(p: seq<NodeId>) {
      |p| > 0 && forall i {:trigger p[i]} :: 0 < i < |p| ==> Edge(p[i - 1], p[i])
    }

    ghost predicate Acyclic() {
      forall p {:trigger IsPath(p)} :: IsPath(p) && |p| > 1 ==> p[0] != p[|p| - 1]
    }
  }

  /** p leaves the set through a node outside it and later comes back. */
  ghost predicate LeavesAndReturns(g: Graph, from: set<NodeId>, selected: set<NodeId>, p: seq<NodeId>) {
    g.IsPath(p) && |p| > 2 && p[0] in from && p[1] !in selected && p[|p| - 1] in selected
  }

  ghost predicate Convex(g: Graph, from: set<NodeId>, selected: set<NodeId>) {
    forall p {:trigger LeavesAndReturns(g, from, selected, p)} :: !LeavesAndReturns(g, from, selected, p)
  }

  /** p leads from node to a selected node. */
  ghost predicate Reaches(g: Graph, node: NodeId, selected: set<NodeId>, p: seq<NodeId>) {
    g.IsPath(p) && p[0] == node && p[|p| - 1] in selected
  }

  /** The search has exhausted the nodes it added: none is selected, and their successors were visited. */
  ghost predicate Exhausted(g: Graph, selected: set<NodeId>, before: set<NodeId>, after: set<NodeId>) {
    && before <= after
    && (forall x {:trigger x in after} :: x in after && x !in before ==> x !in selected)
    && (forall x, y {:trigger g.Edge(x, y)} :: x in after && x !in before && g.Edge(x, y) ==> y in after)
  }

  lemma {:induction false} ExhaustedHasNoWay(g: Graph, selected: set<NodeId>, visited: set<NodeId>, p: seq<NodeId>)
    requires Exhausted(g, selected, {}, visited) && g.IsPath(p) && p[0] in visited
    ensures p[|p| - 1] !in selected
    decreases |p|
  {
    if |p| > 1 {
      assert g.Edge(p[0], p[1]);
      var rest := p[1..];
      forall i | 0 < i < |rest|
        ensures g.Edge(rest[i - 1], rest[i])
      {
        assert rest[i] == p[i + 1] && rest[i - 1] == p[i];
      }
      ExhaustedHasNoWay(g, selected, visited, rest);
    }
  }

  lemma PrependReaches(g: Graph, node: NodeId, next: NodeId, selected: set<NodeId>, p: seq<NodeId>)
    requires g.Edge(node, next) && Reaches(g, next, selected, p)
    ensures Reaches(g, node, selected, [node] + p)
  {
    var q := [node] + p;
    forall i | 0 < i < |q|
      ensures g.Edge(q[i - 1], q[i])
    {
      if i > 1 {
        assert q[i] == p[i - 1] && q[i - 1] == p[i - 2];
      }
    }
  }

  /**
   * Search from node, sharing the visited set between branches. A hit comes with a path; a miss
   * leaves behind a visited set that nothing escapes.
   */
  method PathReachesSelectedNode(g: Graph, node: NodeId, selected: set<NodeId>, visited: set<NodeId>)
    returns (found: bool, visited': set<NodeId>)
    requires g.Closed() && node in g.outputs && visited <= g.outputs.Keys
    ensures visited <= visited' <= g.outputs.Keys
    ensures found ==> exists p :: Reaches(g, node, selected, p)
    ensures !found ==> node in visited' && Exhausted(g, selected, visited, visited')
    decreases g.outputs.Keys - visited
  {
    if node in visited {
      return false, visited;
    }
    visited' := visited + {node};
    if node in selected {
      assert Reaches(g, node, selected, [node]);
      return true, visited';
    }
    var outputs := g.outputs[node];
    var o := 0;
    while o < |outputs|
      invariant 0 <= o <= |outputs|
      invariant visited + {node} <= visited' <= g.outputs.Keys
      invariant Exhausted(g, selected, visited + {node}, visited')
      invariant forall i, c :: 0 <= i < o && 0 <= c < |outputs[i]| ==> outputs[i][c] in visited'
    {
      var consumers := outputs[o];
      var c := 0;
      while c < |consumers|
        invariant 0 <= c <= |consumers|
        invariant visited + {node} <= visited' <= g.outputs.Keys
        invariant Exhausted(g, selected, visited + {node}, visited')
        invariant forall i, d :: 0 <= i < o && 0 <= d < |outputs[i]| ==> outputs[i][d] in visited'
        invariant forall d :: 0 <= d < c ==> consumers[d] in visited'
      {
        assert g.Edge(node, consumers[c]);
        var before := visited';
        found, visited' := PathReachesSelectedNode(g, consumers[c], selected, visited');
        if found {
          ghost var p :| Reaches(g, consumers[c], selected, p);
          PrependReaches(g, node, consumers[c], selected, p);
          return;
        }
        c := c + 1;
      }
      o := o + 1;
    }
    found := false;
    forall x, y | x in visited' && x !in visited && g.Edge(x, y)
      ensures y in visited'
    {
      if x == node {
        var i :| 0 <= i < |outputs| && y in outputs[i];
        var d :| 0 <= d < |outputs[i]| && outputs[i][d] == y;
      }
    }
  }

  /** The check is exact: it succeeds if and only if no path leaves the set and re-enters it. */
  method FusionHasNoExternalPathBetweenSelectedNodes(g: Graph, fusionNodes: seq<NodeId>, selected: set<NodeId>)
    returns (ok: bool)
    requires g.Closed() && forall i :: 0 <= i < |fusionNodes| ==> fusionNodes[i] in g.outputs
    ensures ok <==> Convex(g, (set n | n in fusionNodes), selected)
  {
    ghost var from := (set n | n in fusionNodes);
    var n := 0;
    while n < |fusionNodes|
      invariant 0 <= n <= |fusionNodes|
      invariant forall p {:trigger LeavesAndReturns(g, from, selected, p)} ::
        LeavesAndReturns(g, from, selected, p) ==> p[0] !in fusionNodes[..n]
    {
      var node := fusionNodes[n];
      var outputs := g.outputs[node];
      var o := 0;
      while o < |outputs|
        invariant 0 <= o <= |outputs|
        invariant forall p, i {:trigger LeavesAndReturns(g, from, selected, p), outputs[i]} ::
          LeavesAndReturns(g, from, selected, p) && p[0] == node && 0 <= i < o ==> p[1] !in outputs[i]
      {
        var consumers := outputs[o];
        var c := 0;
        while c < |consumers|
          invariant 0 <= c <= |consumers|
          invariant forall p {:trigger LeavesAndReturns(g, from, selected, p)} ::
            LeavesAndReturns(g, from, selected, p) && p[0] == node ==> p[1] !in consumers[..c]
        {
          var consumer := consumers[c];
          assert g.Edge(node, consumer);
          if consumer !in selected {
            var found, visited := PathReachesSelectedNode(g, consumer, selected, {});
            if found {
              ghost var p :| Reaches(g, consumer, selected, p);
              PrependReaches(g, node, consumer, selected, p);
              ghost var q := [node] + p;
              assert |p| > 1 && q[1] == consumer;
              assert LeavesAndReturns(g, from, selected, q);
              return false;
            }
            forall p | LeavesAndReturns(g, from, selected, p) && p[0] == node
              ensures p[1] != consumer
            {
              if p[1] == consumer {
                TailIsPath(g, p);
                ExhaustedHasNoWay(g, selected, visited, p[1..]);
              }
            }
          }
          assert consumers[..c + 1] == consumers[..c] + [consumer];
          c := c + 1;
        }
        assert consumers[..|consumers|] == consumers;
        o := o + 1;
      }
      forall p | LeavesAndReturns(g, from, selected, p)
        ensures p[0] != node
      {
        assert g.Edge(p[0], p[1]);
      }
      assert fusionNodes[..n + 1] == fusionNodes[..n] + [node];
      n := n + 1;
    }
    assert fusionNodes[..n] == fusionNodes;
    ok := true;
  }

  lemma TailIsPath(g: Graph, p: seq<NodeId>)
    requires g.IsPath(p) && |p| > 1
    ensures g.IsPath(p[1..]) && p[1..][0] == p[1] && p[1..][|p| - 2] == p[|p| - 1]
  {
    forall i | 0 < i < |p[1..]|
      ensures g.Edge(p[1..][i - 1], p[1..][i])
    {
      assert p[1..][i] == p[i + 1] && p[1..][i - 1] == p[i];
    }
  }

  // Contracting each of several disjoint sets to one node.

  datatype Contracted = Fused(index: nat) | Kept(id: NodeId)

  ghost predicate Disjoint(sets: seq<set<NodeId>>) {
    forall i, j :: 0 <= i < j < |sets| ==> sets[i] !! sets[j]
  }

  /** The first of the sets that holds a, or how many sets there are. */
  function IndexOf(sets: seq<set<NodeId>>, a: NodeId): (i: nat)
    ensures i <= |sets| && (i < |sets| ==> a in sets[i]) && forall j :: 0 <= j < i ==> a !in sets[j]
  {
    if sets == [] || a in sets[0] then 0 else 1 + IndexOf(sets[1..], a)
  }

  function Image(sets: seq<set<NodeId>>, a: NodeId): Contracted {
    var i := IndexOf(sets, a);
    if i < |sets| then Fused(i) else Kept(a)
  }

  /** An edge of g between two different nodes of the contracted graph; edges inside a set disappear. */
  ghost predicate ContractedEdge(g: Graph, sets: seq<set<NodeId>>, u: Contracted, v: Contracted) {
    u != v && exists a, b :: g.Edge(a, b) && Image(sets, a) == u && Image(sets, b) == v
  }

  ghost predicate ContractedPath(g: Graph, sets: seq<set<NodeId>>, q: seq<Contracted>) {
    |q| > 0 && forall i {:trigger q[i]} :: 0 < i < |q| ==> ContractedEdge(g, sets, q[i - 1], q[i])
  }

  ghost predicate ContractionAcyclic(g: Graph, sets: seq<set<NodeId>>) {
    forall q {:trigger ContractedPath(g, sets, q)} ::
      ContractedPath(g, sets, q) && |q| > 1 ==> q[0] != q[|q| - 1]
  }

  ghost predicate AllConvex(g: Graph, sets: seq<set<NodeId>>) {
    forall i :: 0 <= i < |sets| ==> Convex(g, sets[i], sets[i])
  }

  /** Some path leads from the one set to the other. */
  ghost predicate Leads(g: Graph, a: set<NodeId>, b: set<NodeId>) {
    exists p :: g.IsPath(p) && p[0] in a && p[|p| - 1] in b
  }

  ghost predicate Feeds(g: Graph, sets: seq<set<NodeId>>, i: nat, j: nat) {
    i < |sets| && j < |sets| && i != j && Leads(g, sets[i], sets[j])
  }

  /** Each set feeds the next. */
  ghost predicate FeedWalk(g: Graph, sets: seq<set<NodeId>>, w: seq<nat>) {
    |w| > 0 && forall k {:trigger w[k]} :: 0 < k < |w| ==> Feeds(g, sets, w[k - 1], w[k])
  }

  ghost predicate FeedsAcyclic(g: Graph, sets: seq<set<NodeId>>) {
    forall w {:trigger FeedWalk(g, sets, w)} :: FeedWalk(g, sets, w) && |w| > 1 ==> w[0] != w[|w| - 1]
  }

  lemma ImageOfMember(sets: seq<set<NodeId>>, i: nat, a: NodeId)
    requires Disjoint(sets) && i < |sets|
    ensures a in sets[i] <==> Image(sets, a) == Fused(i)
  {
    assert forall j :: 0 <= j < |sets| && j != i ==> sets[j] !! sets[i];
  }

  // From the graph to the contracted graph.

  lemma Joined(g: Graph, sets: seq<set<NodeId>>, q: seq<Contracted>, r: seq<Contracted>)
    requires ContractedPath(g, sets, q) && ContractedPath(g, sets, r) && q[|q| - 1] == r[0]
    ensures ContractedPath(g, sets, q + r[1..])
    ensures (q + r[1..])[0] == q[0] && (q + r[1..])[|q + r[1..]| - 1] == r[|r| - 1]
  {
    hide ContractedEdge;
    var s := q + r[1..];
    forall i | 0 < i < |s|
      ensures ContractedEdge(g, sets, s[i - 1], s[i])
    {
      if i < |q| {
        assert s[i] == q[i] && s[i - 1] == q[i - 1];
      } else {
        var m := i - |q| + 1;
        assert s[i] == r[m] && s[i - 1] == r[m - 1];
      }
    }
  }

  /** A path becomes a path of the contracted graph, without the steps inside a set. */
  lemma {:induction false} Projected(g: Graph, sets: seq<set<NodeId>>, p: seq<NodeId>) returns (q: seq<Contracted>)
    requires g.IsPath(p)
    ensures ContractedPath(g, sets, q) && q[0] == Image(sets, p[0]) && q[|q| - 1] == Image(sets, p[|p| - 1])
    decreases |p|
  {
    if |p| == 1 {
      q := [Image(sets, p[0])];
    } else {
      TailIsPath(g, p);
      var rest := Projected(g, sets, p[1..]);
      var u, v := Image(sets, p[0]), Image(sets, p[1]);
      if u == v {
        q := rest;
      } else {
        assert g.Edge(p[0], p[1]);
        Joined(g, sets, [u, v], rest);
        q := [u, v] + rest[1..];
      }
    }
  }

  /** A path that leaves a set and comes back is a cycle through the contracted node. */
  lemma ExternalPathGivesCycle(g: Graph, sets: seq<set<NodeId>>, i: nat, p: seq<NodeId>)
    requires Disjoint(sets) && i < |sets| && LeavesAndReturns(g, sets[i], sets[i], p)
    ensures !ContractionAcyclic(g, sets)
  {
    TailIsPath(g, p);
    var q := Projected(g, sets, p[1..]);
    ImageOfMember(sets, i, p[0]);
    ImageOfMember(sets, i, p[1]);
    ImageOfMember(sets, i, p[|p| - 1]);
    assert g.Edge(p[0], p[1]);
    Joined(g, sets, [Fused(i), q[0]], q);
    var r := [Fused(i), q[0]] + q[1..];
    assert ContractedPath(g, sets, r) && r[0] == r[|r| - 1];
  }

  lemma {:induction false} FeedWalkContracts(g: Graph, sets: seq<set<NodeId>>, w: seq<nat>) returns (q: seq<Contracted>)
    requires Disjoint(sets) && FeedWalk(g, sets, w) && |w| > 1
    ensures ContractedPath(g, sets, q) && |q| > 1 && q[0] == Fused(w[0]) && q[|q| - 1] == Fused(w[|w| - 1])
    decreases |w|
  {
    hide ContractedEdge;
    var n := |w| - 1;
    assert Feeds(g, sets, w[n - 1], w[n]);
    var p :| g.IsPath(p) && p[0] in sets[w[n - 1]] && p[|p| - 1] in sets[w[n]];
    var last := Projected(g, sets, p);
    ImageOfMember(sets, w[n - 1], p[0]);
    ImageOfMember(sets, w[n], p[|p| - 1]);
    if n == 1 {
      q := last;
    } else {
      assert w[..n][|w[..n]| - 1] == w[n - 1];
      assert forall k {:trigger w[..n][k]} :: 0 < k < n ==> w[..n][k] == w[k] && w[..n][k - 1] == w[k - 1];
      var first := FeedWalkContracts(g, sets, w[..n]);
      Joined(g, sets, first, last);
      q := first + last[1..];
    }
  }

  // And back.

  /** A cycle that avoids the contracted nodes was a cycle before. */
  lemma KeptCycleIsCycle(g: Graph, sets: seq<set<NodeId>>, q: seq<Contracted>)
    requires ContractedPath(g, sets, q) && |q| > 1 && q[0] == q[|q| - 1]
    requires forall i :: 0 <= i < |q| ==> q[i].Kept?
    ensures !g.Acyclic()
  {
    var p := seq(|q|, i requires 0 <= i < |q| => q[i].id);
    forall i | 0 < i < |p|
      ensures g.Edge(p[i - 1], p[i])
    {
      assert ContractedEdge(g, sets, q[i - 1], q[i]);
    }
    assert g.IsPath(p);
  }

  /** A cycle can be started at any of its nodes. */
  lemma Rotated(g: Graph, sets: seq<set<NodeId>>, q: seq<Contracted>, k: nat) returns (r: seq<Contracted>)
    requires ContractedPath(g, sets, q) && |q| > 1 && q[0] == q[|q| - 1] && k < |q|
    ensures ContractedPath(g, sets, r) && |r| > 1 && r[0] == q[k] == r[|r| - 1]
  {
    hide ContractedEdge;
    r := q[k..] + q[1..k + 1];
    forall i | 0 < i < |r|
      ensures ContractedEdge(g, sets, r[i - 1], r[i])
    {
      if i < |q| - k {
        assert r[i] == q[k + i] && r[i - 1] == q[k + i - 1];
      } else {
        var m := i - (|q| - k) + 1;
        assert r[i] == q[m] && r[i - 1] == q[m - 1];
      }
    }
  }

  lemma EdgeUnfolds(g: Graph, sets: seq<set<NodeId>>, u: Contracted, v: Contracted) returns (a: NodeId, b: NodeId)
    requires ContractedEdge(g, sets, u, v)
    ensures g.Edge(a, b) && Image(sets, a) == u && Image(sets, b) == v
  {
    a :| exists c :: g.Edge(a, c) && Image(sets, a) == u && Image(sets, c) == v;
    b :| g.Edge(a, b) && Image(sets, b) == v;
  }

  lemma ImageTells(sets: seq<set<NodeId>>, a: NodeId)
    ensures Image(sets, a).Kept? ==> Image(sets, a).id == a && forall i :: 0 <= i < |sets| ==> a !in sets[i]
    ensures Image(sets, a).Fused? ==> Image(sets, a).index < |sets| && a in sets[Image(sets, a).index]
  {
  }

  /** From one contracted node to the next one on a path: a path of the graph. */
  lemma SegmentUnfolds(g: Graph, sets: seq<set<NodeId>>, r: seq<Contracted>, j: nat) returns (p: seq<NodeId>)
    requires ContractedPath(g, sets, r) && 0 < j < |r| && r[0].Fused? && r[j].Fused?
    requires forall i :: 0 < i < j ==> r[i].Kept?
    ensures r[0].index < |sets| && r[j].index < |sets|
    ensures g.IsPath(p) && |p| == j + 1 && p[0] in sets[r[0].index] && p[j] in sets[r[j].index]
    ensures forall i, k :: 0 < i < j && 0 <= k < |sets| ==> p[i] !in sets[k]
  {
    hide ContractedEdge, Graph.Edge, Image;
    assert ContractedEdge(g, sets, r[0], r[1]) && ContractedEdge(g, sets, r[j - 1], r[j]);
    var a, a' := EdgeUnfolds(g, sets, r[0], r[1]);
    var b', b := EdgeUnfolds(g, sets, r[j - 1], r[j]);
    if j == 1 {
      b := a';
    }
    ImageTells(sets, a);
    ImageTells(sets, a');
    ImageTells(sets, b);
    ImageTells(sets, b');
    p := seq(j + 1, i requires 0 <= i <= j => if i == 0 then a else if i == j then b else r[i].id);
    forall i | 0 < i < |p|
      ensures g.Edge(p[i - 1], p[i]) && (i < j ==> forall k :: 0 <= k < |sets| ==> p[i] !in sets[k])
    {
      assert ContractedEdge(g, sets, r[i - 1], r[i]);
      var c, d := EdgeUnfolds(g, sets, r[i - 1], r[i]);
      ImageTells(sets, c);
      ImageTells(sets, d);
    }
  }

  /** A path between contracted nodes shows which sets feed which, if all of them are convex. */
  lemma {:induction false} FusedPathFeeds(g: Graph, sets: seq<set<NodeId>>, r: seq<Contracted>) returns (w: seq<nat>)
    requires AllConvex(g, sets) && ContractedPath(g, sets, r) && r[0].Fused? && r[|r| - 1].Fused?
    ensures FeedWalk(g, sets, w) && w[0] == r[0].index && w[|w| - 1] == r[|r| - 1].index
    ensures |r| > 1 ==> |w| > 1
    decreases |r|
  {
    hide ContractedEdge, Graph.Edge, Leads;
    if |r| == 1 {
      w := [r[0].index];
    } else {
      var j := 1;
      while r[j].Kept?
        invariant 0 < j < |r|
        invariant forall i :: 0 < i < j ==> r[i].Kept?
        decreases |r| - j
      {
        j := j + 1;
      }
      var p := SegmentUnfolds(g, sets, r, j);
      FirstStepDiffers(g, sets, r);
      assert r[0] == r[j] ==> LeavesAndReturns(g, sets[r[0].index], sets[r[0].index], p);
      assert Leads(g, sets[r[0].index], sets[r[j].index]) by {
        PathLeads(g, sets[r[0].index], sets[r[j].index], p);
      }
      assert Feeds(g, sets, r[0].index, r[j].index);
      SuffixIsPath(g, sets, r, j);
      var rest := FusedPathFeeds(g, sets, r[j..]);
      Fed(g, sets, r[0].index, rest);
      w := [r[0].index] + rest;
    }
  }

  lemma SuffixIsPath(g: Graph, sets: seq<set<NodeId>>, r: seq<Contracted>, j: nat)
    requires ContractedPath(g, sets, r) && j < |r|
    ensures ContractedPath(g, sets, r[j..])
  {
    hide ContractedEdge;
    forall i | 0 < i < |r[j..]|
      ensures ContractedEdge(g, sets, r[j..][i - 1], r[j..][i])
    {
      assert r[j..][i] == r[j + i] && r[j..][i - 1] == r[j + i - 1];
    }
  }

  lemma Fed(g: Graph, sets: seq<set<NodeId>>, i: nat, w: seq<nat>)
    requires FeedWalk(g, sets, w) && Feeds(g, sets, i, w[0])
    ensures FeedWalk(g, sets, [i] + w)
  {
    hide Feeds;
    var v := [i] + w;
    forall k | 0 < k < |v|
      ensures Feeds(g, sets, v[k - 1], v[k])
    {
      assert v[k] == w[k - 1] && (k > 1 ==> v[k - 1] == w[k - 2]);
    }
  }

  lemma PathLeads(g: Graph, a: set<NodeId>, b: set<NodeId>, p: seq<NodeId>)
    requires g.IsPath(p) && p[0] in a && p[|p| - 1] in b
    ensures Leads(g, a, b)
  {
  }

  lemma FirstStepDiffers(g: Graph, sets: seq<set<NodeId>>, r: seq<Contracted>)
    requires ContractedPath(g, sets, r) && |r| > 1
    ensures r[0] != r[1]
  {
    assert ContractedEdge(g, sets, r[0], r[1]);
  }

  /**
   * Contracting each of several disjoint sets of an acyclic graph leaves it acyclic if and only if
   * every set is convex and the sets do not feed each other in a circle.
   */
  lemma ContractionAcyclicIff(g: Graph, sets: seq<set<NodeId>>)
    requires g.Acyclic() && Disjoint(sets)
    ensures ContractionAcyclic(g, sets) <==> AllConvex(g, sets) && FeedsAcyclic(g, sets)
  {
    hide ContractedEdge, Graph.Edge, Feeds;
    if !AllConvex(g, sets) {
      var i :| 0 <= i < |sets| && !Convex(g, sets[i], sets[i]);
      var p :| LeavesAndReturns(g, sets[i], sets[i], p);
      ExternalPathGivesCycle(g, sets, i, p);
    } else if !FeedsAcyclic(g, sets) {
      var w :| FeedWalk(g, sets, w) && |w| > 1 && w[0] == w[|w| - 1];
      var q := FeedWalkContracts(g, sets, w);
    } else if !ContractionAcyclic(g, sets) {
      var q: seq<Contracted> :| ContractedPath(g, sets, q) && |q| > 1 && q[0] == q[|q| - 1];
      if k: nat :| 0 <= k < |q| && q[k].Fused? {
        var r := Rotated(g, sets, q, k);
        var w := FusedPathFeeds(g, sets, r);
        assert false;
      } else {
        KeptCycleIsCycle(g, sets, q);
      }
    }
  }

  /** On an acyclic graph, convexity is exactly what contracting one set to a node needs. */
  lemma ConvexIffContractionAcyclic(g: Graph, selected: set<NodeId>)
    requires g.Acyclic()
    ensures Convex(g, selected, selected) <==> ContractionAcyclic(g, [selected])
  {
    ContractionAcyclicIff(g, [selected]);
    forall w | FeedWalk(g, [selected], w)
      ensures |w| <= 1
    {
      assert |w| > 1 ==> Feeds(g, [selected], w[0], w[1]);
    }
    var sets := [selected];
    assert sets[0] == selected;
  }

  /** Two convex sets can be contracted together exactly if they do not lead into each other both ways. */
  lemma TwoSetsContract(g: Graph, a: set<NodeId>, b: set<NodeId>)
    requires g.Acyclic() && a !! b && Convex(g, a, a) && Convex(g, b, b)
    ensures ContractionAcyclic(g, [a, b]) <==> !(Leads(g, a, b) && Leads(g, b, a))
  {
    var sets := [a, b];
    ContractionAcyclicIff(g, sets);
    if Leads(g, a, b) && Leads(g, b, a) {
      assert Feeds(g, sets, 0, 1) && Feeds(g, sets, 1, 0);
      assert FeedWalk(g, sets, [0, 1, 0]);
    }
    forall w | FeedWalk(g, sets, w) && !(Leads(g, a, b) && Leads(g, b, a))
      ensures |w| > 1 ==> w[0] != w[|w| - 1]
    {
      OneWayWalk(g, sets, w);
    }
  }

  lemma OneWayWalk(g: Graph, sets: seq<set<NodeId>>, w: seq<nat>)
    requires |sets| == 2 && FeedWalk(g, sets, w)
    ensures |w| > 1 ==> w[0] != w[1] && w[0] < 2 && w[1] < 2 && Leads(g, sets[w[0]], sets[w[1]])
    ensures |w| > 2 ==> Leads(g, sets[w[1]], sets[w[0]])
  {
    hide Leads;
    assert |w| > 1 ==> Feeds(g, sets, w[0], w[1]);
    assert |w| > 2 ==> Feeds(g, sets, w[1], w[2]);
  }

  lemma TwoSteps(g: Graph, p: seq<NodeId>)
    requires g.IsPath(p)
    ensures |p| > 2 ==> exists x, y, z :: g.Edge(x, y) && g.Edge(y, z)
  {
    if |p| > 2 {
      assert g.Edge(p[0], p[1]) && g.Edge(p[1], p[2]);
    }
  }

  /** Two edges, each from one of two sets to the other. */
  lemma CrossedEdges() returns (g: Graph)
    ensures g.Closed() && g.Acyclic() && g.IsPath([0, 1]) && g.IsPath([2, 3])
    ensures forall p {:trigger g.IsPath(p)} :: g.IsPath(p) ==> |p| <= 2
  {
    g := Graph(map[0 := [[1]], 1 := [], 2 := [[3]], 3 := []]);
    var outs: map<NodeId, seq<seq<NodeId>>> := g.outputs;
    assert outs[0] == [[1]] && outs[2] == [[3]] && outs[1] == [] && outs[3] == [];
    assert 1 in outs[0][0] && 3 in outs[2][0];
    assert forall x, y {:trigger g.Edge(x, y)} :: g.Edge(x, y) <==> (x == 0 && y == 1) || (x == 2 && y == 3);
    assert g.Edge(0, 1) && g.Edge(2, 3);
    forall p | g.IsPath(p)
      ensures |p| <= 2 && (|p| == 2 ==> p[0] != p[1])
    {
      TwoSteps(g, p);
      assert |p| > 1 ==> g.Edge(p[0], p[1]);
    }
  }

  /** Each of two sets can be convex, and contracting both still makes a cycle. */
  lemma ConvexSetsMayFeedEachOther() returns (g: Graph, a: set<NodeId>, b: set<NodeId>)
    ensures g.Closed() && g.Acyclic() && a !! b && Convex(g, a, a) && Convex(g, b, b)
    ensures ContractionAcyclic(g, [a]) && ContractionAcyclic(g, [b]) && !ContractionAcyclic(g, [a, b])
  {
    hide ContractionAcyclic, Graph.IsPath, Graph.Acyclic;
    g := CrossedEdges();
    a, b := {0, 3}, {1, 2};
    PathLeads(g, a, b, [0, 1]);
    PathLeads(g, b, a, [2, 3]);
    ConvexIffContractionAcyclic(g, a);
    ConvexIffContractionAcyclic(g, b);
    TwoSetsContract(g, a, b);
  }
}
