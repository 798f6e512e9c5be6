/**
 * Greedy acceptance of fusion candidates. Finders run in priority order, each told which nodes are
 * taken; a candidate is accepted when it is well formed, takes no taken node and is legal for its
 * finder. Finders are arbitrary.
 */
module FusionMatcher {
  import opened FusionGraph
  import opened Options

  /** A list of nodes, some of which may be null. */
  type Candidate = seq<Option<NodeId>>

  datatype Finder = Finder(name: string, find: set<NodeId> -> seq<Candidate>, legal: Candidate -> bool)

  datatype FusionMatch = FusionMatch(finder: string, fusions: seq<Candidate>, rejections: seq<Candidate>)

  function NodesOf(c: Candidate): set<NodeId> {
    set n | n in c && n.Some? :: n.value
  }

  function ClaimedBy(fusions: seq<Candidate>): set<NodeId> {
    if fusions == [] then {} else ClaimedBy(fusions[..|fusions| - 1]) + NodesOf(fusions[|fusions| - 1])
  }

  ghost predicate WellFormed(c: Candidate) {
    && c != [] && (forall i :: 0 <= i < |c| ==> c[i].Some?)
    && forall i, j :: 0 <= i < j < |c| ==> c[i] != c[j]
  }

  ghost predicate Separate(fusions: seq<Candidate>) {
    && (forall i :: 0 <= i < |fusions| ==> WellFormed(fusions[i]))
    && forall i, j :: 0 <= i < j < |fusions| ==> NodesOf(fusions[i]) !! NodesOf(fusions[j])
  }

  ghost predicate Acceptable(c: Candidate, legal: Candidate -> bool, taken: set<NodeId>) {
    WellFormed(c) && NodesOf(c) !! taken && legal(c)
  }

  /** Fusion k is acceptable after the fusions before it. */
  ghost predicate AcceptableInTurn(legal: Candidate -> bool, taken: set<NodeId>, fusions: seq<Candidate>, k: nat)
    requires k < |fusions|
  {
    Acceptable(fusions[k], legal, taken + ClaimedBy(fusions[..k]))
  }

  /** Place i lies behind the first k chosen places and before the rest. */
  predicate InGap(at: seq<nat>, k: nat, i: nat)
    requires k <= |at|
  {
    (k == 0 || at[k - 1] < i) && (k == |at| || i < at[k])
  }

  /** The fusions are the candidates at these places. */
  ghost predicate Listed(candidates: seq<Candidate>, at: seq<nat>, fusions: seq<Candidate>) {
    && |at| == |fusions|
    && (forall k :: 0 <= k < |at| ==> at[k] < |candidates| && fusions[k] == candidates[at[k]])
    && (forall k, l :: 0 <= k < l < |at| ==> at[k] < at[l])
  }

  /**
   * Greedy choice: each fusion is acceptable after the fusions before it, and each candidate
   * between two chosen places was not acceptable after the fusions before it.
   */
  ghost predicate Greedy(candidates: seq<Candidate>, legal: Candidate -> bool, taken: set<NodeId>,
                         at: seq<nat>, fusions: seq<Candidate>) {
    && Listed(candidates, at, fusions)
    && (forall k :: 0 <= k < |fusions| ==> AcceptableInTurn(legal, taken, fusions, k))
    && forall k, i {:trigger InGap(at, k, i)} :: 0 <= k <= |at| && 0 <= i < |candidates| && InGap(at, k, i) ==>
         !Acceptable(candidates[i], legal, taken + ClaimedBy(fusions[..k]))
  }

  /** Well formed and clear of what was taken, but not legal for the finder. */
  ghost predicate Illegal(c: Candidate, legal: Candidate -> bool, taken: set<NodeId>) {
    WellFormed(c) && NodesOf(c) !! taken && !legal(c)
  }

  /** The rejections on record: exactly the candidates that were illegal after the fusions before them. */
  ghost predicate Recorded(candidates: seq<Candidate>, legal: Candidate -> bool, taken: set<NodeId>,
                           at: seq<nat>, fusions: seq<Candidate>, refused: seq<nat>, rejections: seq<Candidate>)
    requires |at| == |fusions|
  {
    && Listed(candidates, refused, rejections) && (forall i :: i in refused ==> i !in at)
    && forall k, i {:trigger InGap(at, k, i)} :: 0 <= k <= |at| && 0 <= i < |candidates| && InGap(at, k, i) ==>
         (i in refused <==> Illegal(candidates[i], legal, taken + ClaimedBy(fusions[..k])))
  }

  lemma ClaimedByPush(fusions: seq<Candidate>, c: Candidate)
    ensures ClaimedBy(fusions + [c]) == ClaimedBy(fusions) + NodesOf(c)
  {
    assert (fusions + [c])[..|fusions|] == fusions;
  }

  lemma {:induction false} ClaimedByAppend(a: seq<Candidate>, b: seq<Candidate>)
    ensures ClaimedBy(a + b) == ClaimedBy(a) + ClaimedBy(b)
  {
    if b == [] {
      assert a + b == a;
    } else {
      var n := |b| - 1;
      assert a + b == (a + b[..n]) + [b[n]];
      ClaimedByPush(a + b[..n], b[n]);
      ClaimedByAppend(a, b[..n]);
    }
  }

  lemma {:induction false} ClaimedByHas(fusions: seq<Candidate>, i: nat)
    requires i < |fusions|
    ensures NodesOf(fusions[i]) <= ClaimedBy(fusions)
  {
    var n := |fusions| - 1;
    if i < n {
      ClaimedByHas(fusions[..n], i);
    }
  }

  lemma {:induction false} ClaimedByElement(fusions: seq<Candidate>, m: NodeId) returns (i: nat)
    requires m in ClaimedBy(fusions)
    ensures i < |fusions| && m in NodesOf(fusions[i])
  {
    var n := |fusions| - 1;
    if m in NodesOf(fusions[n]) {
      i := n;
    } else {
      i := ClaimedByElement(fusions[..n], m);
    }
  }

  /** Reject null nodes, repeated nodes and empty candidates. */
  method NormalizeCandidate(candidate: Candidate) returns (ok: bool, nodeIds: seq<NodeId>)
    ensures ok <==> WellFormed(candidate)
    ensures ok ==> |nodeIds| == |candidate| && forall i :: 0 <= i < |candidate| ==> candidate[i] == Some(nodeIds[i])
  {
    nodeIds := [];
    if candidate == [] {
      return false, nodeIds;
    }
    var seen: set<NodeId> := {};
    var i := 0;
    while i < |candidate|
      invariant 0 <= i <= |candidate| && |nodeIds| == i
      invariant forall j :: 0 <= j < i ==> candidate[j] == Some(nodeIds[j])
      invariant forall n :: n in seen <==> Some(n) in candidate[..i]
      invariant forall j, k :: 0 <= j < k < i ==> candidate[j] != candidate[k]
    {
      assert candidate[..i + 1] == candidate[..i] + [candidate[i]];
      if candidate[i] == None {
        return false, nodeIds;
      }
      var id := candidate[i].value;
      if id in seen {
        assert exists j :: 0 <= j < i && candidate[j] == candidate[i];
        return false, nodeIds;
      }
      assert forall j :: 0 <= j < i ==> candidate[j] in candidate[..i];
      seen := seen + {id};
      nodeIds := nodeIds + [id];
      i := i + 1;
    }
    ok := true;
  }

  method CandidateOverlapsAccepted(nodeIds: seq<NodeId>, accepted: set<NodeId>) returns (overlaps: bool)
    ensures overlaps <==> exists i :: 0 <= i < |nodeIds| && nodeIds[i] in accepted
  {
    var i := 0;
    while i < |nodeIds|
      invariant 0 <= i <= |nodeIds|
      invariant forall j :: 0 <= j < i ==> nodeIds[j] !in accepted
    {
      if nodeIds[i] in accepted {
        return true;
      }
      i := i + 1;
    }
    overlaps := false;
  }

  lemma IdsAreNodes(c: Candidate, nodeIds: seq<NodeId>)
    requires |nodeIds| == |c| && forall i :: 0 <= i < |c| ==> c[i] == Some(nodeIds[i])
    ensures NodesOf(c) == set n | n in nodeIds
  {
    forall m
      ensures m in NodesOf(c) <==> m in nodeIds
    {
      if m in NodesOf(c) {
        var i :| 0 <= i < |c| && c[i] == Some(m);
        assert nodeIds[i] == m;
      }
      if m in nodeIds {
        var i :| 0 <= i < |nodeIds| && nodeIds[i] == m;
        assert c[i] == Some(m);
      }
    }
  }

  /** One finder's candidates, in order. */
  method AcceptFusionCandidates(candidates: seq<Candidate>, legal: Candidate -> bool, taken: set<NodeId>)
    returns (accepted: seq<Candidate>, rejections: seq<Candidate>, taken': set<NodeId>, ghost at: seq<nat>,
             ghost refused: seq<nat>)
    ensures Greedy(candidates, legal, taken, at, accepted)
    ensures taken' == taken + ClaimedBy(accepted)
    ensures Recorded(candidates, legal, taken, at, accepted, refused, rejections)
  {
    hide Greedy, WellFormed, ClaimedBy, NodesOf, Recorded;
    NothingConsidered(legal, taken);
    assert candidates[..0] == [];
    accepted, rejections, taken', at, refused := [], [], taken, [], [];
    var i := 0;
    while i < |candidates|
      invariant 0 <= i <= |candidates|
      invariant taken' == taken + ClaimedBy(accepted)
      invariant Greedy(candidates[..i], legal, taken, at, accepted) && |at| == |accepted|
      invariant Recorded(candidates[..i], legal, taken, at, accepted, refused, rejections)
    {
      var candidate := candidates[i];
      ghost var now := taken';
      var ok, nodeIds := NormalizeCandidate(candidate);
      var overlaps := true;
      if ok {
        IdsAreNodes(candidate, nodeIds);
        overlaps := CandidateOverlapsAccepted(nodeIds, taken');
        assert overlaps <==> !(NodesOf(candidate) !! taken');
      }
      assert candidates[..i + 1] == candidates[..i] + [candidate];
      if !ok || overlaps {
        GreedySkip(candidates[..i], legal, taken, at, accepted, candidate);
        RecordedSkip(candidates[..i], legal, taken, at, accepted, refused, rejections, candidate);
      } else if !legal(candidate) {
        GreedySkip(candidates[..i], legal, taken, at, accepted, candidate);
        RecordedRefuse(candidates[..i], legal, taken, at, accepted, refused, rejections, candidate);
        rejections := rejections + [candidate];
        refused := refused + [i];
      } else {
        GreedyTake(candidates[..i], legal, taken, at, accepted, candidate);
        RecordedTake(candidates[..i], legal, taken, at, accepted, refused, rejections, candidate);
        ClaimedByPush(accepted, candidate);
        taken' := taken' + (set n | n in nodeIds);
        accepted := accepted + [candidate];
        at := at + [i];
      }
      i := i + 1;
    }
    assert candidates[..i] == candidates;
  }

  lemma NothingConsidered(legal: Candidate -> bool, taken: set<NodeId>)
    ensures Greedy([], legal, taken, [], []) && ClaimedBy([]) == {}
    ensures Recorded([], legal, taken, [], [], [], [])
  {
  }

  lemma GreedyPlaces(candidates: seq<Candidate>, legal: Candidate -> bool, taken: set<NodeId>,
                     at: seq<nat>, fusions: seq<Candidate>)
    requires Greedy(candidates, legal, taken, at, fusions)
    ensures |at| == |fusions| && forall k :: 0 <= k < |at| ==> at[k] < |candidates|
  {
  }

  lemma RecordedSkip(candidates: seq<Candidate>, legal: Candidate -> bool, taken: set<NodeId>, at: seq<nat>,
                     fusions: seq<Candidate>, refused: seq<nat>, rejections: seq<Candidate>, c: Candidate)
    requires Greedy(candidates, legal, taken, at, fusions) && |at| == |fusions|
    requires Recorded(candidates, legal, taken, at, fusions, refused, rejections)
    requires !Illegal(c, legal, taken + ClaimedBy(fusions))
    ensures Recorded(candidates + [c], legal, taken, at, fusions, refused, rejections)
  {
    hide Acceptable, Illegal, ClaimedBy;
    assert fusions[..|fusions|] == fusions;
  }

  lemma RecordedRefuse(candidates: seq<Candidate>, legal: Candidate -> bool, taken: set<NodeId>, at: seq<nat>,
                       fusions: seq<Candidate>, refused: seq<nat>, rejections: seq<Candidate>, c: Candidate)
    requires Greedy(candidates, legal, taken, at, fusions) && |at| == |fusions|
    requires Recorded(candidates, legal, taken, at, fusions, refused, rejections)
    requires Illegal(c, legal, taken + ClaimedBy(fusions))
    ensures Recorded(candidates + [c], legal, taken, at, fusions, refused + [|candidates|], rejections + [c])
  {
    hide Acceptable, Illegal, ClaimedBy;
    assert fusions[..|fusions|] == fusions;
    GreedyPlaces(candidates, legal, taken, at, fusions);
  }

  lemma RecordedTake(candidates: seq<Candidate>, legal: Candidate -> bool, taken: set<NodeId>, at: seq<nat>,
                     fusions: seq<Candidate>, refused: seq<nat>, rejections: seq<Candidate>, c: Candidate)
    requires Greedy(candidates, legal, taken, at, fusions) && |at| == |fusions|
    requires Recorded(candidates, legal, taken, at, fusions, refused, rejections)
    ensures Recorded(candidates + [c], legal, taken, at + [|candidates|], fusions + [c], refused, rejections)
  {
    hide Acceptable, Illegal, ClaimedBy, InGap;
    GreedyPlaces(candidates, legal, taken, at, fusions);
    var candidates', fusions', at' := candidates + [c], fusions + [c], at + [|candidates|];
    forall k, i | 0 <= k <= |at'| && 0 <= i < |candidates'| && InGap(at', k, i)
      ensures i in refused <==> Illegal(candidates'[i], legal, taken + ClaimedBy(fusions'[..k]))
    {
      GapBefore(at, |candidates|, k, i);
      assert fusions'[..k] == fusions[..k];
    }
  }

  lemma GreedySkip(candidates: seq<Candidate>, legal: Candidate -> bool, taken: set<NodeId>,
                   at: seq<nat>, fusions: seq<Candidate>, c: Candidate)
    requires Greedy(candidates, legal, taken, at, fusions) && !Acceptable(c, legal, taken + ClaimedBy(fusions))
    ensures Greedy(candidates + [c], legal, taken, at, fusions)
  {
    hide Acceptable, ClaimedBy;
    assert fusions[..|fusions|] == fusions;
  }

  lemma GapBefore(at: seq<nat>, n: nat, k: nat, i: nat)
    requires (forall j :: 0 <= j < |at| ==> at[j] < n) && k <= |at| + 1 && i <= n && InGap(at + [n], k, i)
    ensures k <= |at| && i < n && InGap(at, k, i)
  {
  }

  lemma ListedTake(candidates: seq<Candidate>, at: seq<nat>, fusions: seq<Candidate>, c: Candidate)
    requires Listed(candidates, at, fusions)
    ensures |at| == |fusions| && (forall k :: 0 <= k < |at| ==> at[k] < |candidates|)
    ensures Listed(candidates + [c], at + [|candidates|], fusions + [c])
  {
  }

  lemma GreedyTake(candidates: seq<Candidate>, legal: Candidate -> bool, taken: set<NodeId>,
                   at: seq<nat>, fusions: seq<Candidate>, c: Candidate)
    requires Greedy(candidates, legal, taken, at, fusions) && Acceptable(c, legal, taken + ClaimedBy(fusions))
    ensures Greedy(candidates + [c], legal, taken, at + [|candidates|], fusions + [c])
  {
    ListedTake(candidates, at, fusions, c);
    hide Acceptable, ClaimedBy, Listed, InGap;
    var candidates', fusions', at' := candidates + [c], fusions + [c], at + [|candidates|];
    forall k | 0 <= k < |fusions'|
      ensures AcceptableInTurn(legal, taken, fusions', k)
    {
      assert k < |fusions| ==> AcceptableInTurn(legal, taken, fusions, k);
      assert fusions'[..k] == if k < |fusions| then fusions[..k] else fusions;
    }
    forall k, i | 0 <= k <= |at'| && 0 <= i < |candidates'| && InGap(at', k, i)
      ensures !Acceptable(candidates'[i], legal, taken + ClaimedBy(fusions'[..k]))
    {
      GapBefore(at, |candidates|, k, i);
      assert fusions'[..k] == fusions[..k];
    }
  }

  /**
   * A well-formed legal candidate that was left out overlaps a node taken before the finder ran, or
   * a fusion accepted from an earlier place of the list.
   */
  lemma LeftOutOverlaps(candidates: seq<Candidate>, legal: Candidate -> bool, taken: set<NodeId>,
                        at: seq<nat>, fusions: seq<Candidate>, i: nat)
    requires Greedy(candidates, legal, taken, at, fusions)
    requires i < |candidates| && i !in at && WellFormed(candidates[i]) && legal(candidates[i])
    ensures
      || !(NodesOf(candidates[i]) !! taken)
      || exists k :: 0 <= k < |at| && at[k] < i && !(NodesOf(candidates[i]) !! NodesOf(fusions[k]))
  {
    hide ClaimedBy, WellFormed, NodesOf;
    var k := GapOf(at, i);
    assert InGap(at, k, i);
    var m :| m in NodesOf(candidates[i]) && m in taken + ClaimedBy(fusions[..k]);
    if m !in taken {
      var l := ClaimedByElement(fusions[..k], m);
      assert m in NodesOf(fusions[l]) && at[l] <= at[k - 1] < i;
    }
  }

  lemma SeparatePush(fusions: seq<Candidate>, c: Candidate)
    ensures Separate(fusions + [c]) <==> Separate(fusions) && WellFormed(c) && NodesOf(c) !! ClaimedBy(fusions)
  {
    hide WellFormed, NodesOf;
    var all := fusions + [c];
    if Separate(all) {
      assert all[|fusions|] == c;
      forall i | 0 <= i < |fusions|
        ensures all[i] == fusions[i]
      {
      }
      forall m | m in ClaimedBy(fusions)
        ensures m !in NodesOf(c)
      {
        var i := ClaimedByElement(fusions, m);
        assert NodesOf(all[i]) !! NodesOf(all[|fusions|]);
      }
    }
    forall i | 0 <= i < |fusions|
      ensures NodesOf(fusions[i]) <= ClaimedBy(fusions)
    {
      ClaimedByHas(fusions, i);
    }
  }

  lemma SeparatePrefix(a: seq<Candidate>, b: seq<Candidate>)
    requires Separate(a + b)
    ensures Separate(a)
  {
    forall i | 0 <= i < |a|
      ensures (a + b)[i] == a[i]
    {
    }
  }

  /** What one finder adds is separate, and apart from what was taken. */
  lemma {:induction false} GreedyIsSeparate(candidates: seq<Candidate>, legal: Candidate -> bool, taken: set<NodeId>,
                                            at: seq<nat>, fusions: seq<Candidate>, before: seq<Candidate>, k: nat)
    requires Greedy(candidates, legal, taken, at, fusions) && Separate(before) && taken == ClaimedBy(before)
    requires k <= |fusions|
    ensures Separate(before + fusions[..k])
  {
    if k == 0 {
      assert before + fusions[..0] == before;
    } else {
      hide Separate, ClaimedBy;
      GreedyIsSeparate(candidates, legal, taken, at, fusions, before, k - 1);
      assert AcceptableInTurn(legal, taken, fusions, k - 1);
      assert before + fusions[..k] == (before + fusions[..k - 1]) + [fusions[k - 1]];
      ClaimedByAppend(before, fusions[..k - 1]);
      SeparatePush(before + fusions[..k - 1], fusions[k - 1]);
    }
  }

  function Flatten(matches: seq<FusionMatch>): seq<Candidate> {
    if matches == [] then [] else Flatten(matches[..|matches| - 1]) + matches[|matches| - 1].fusions
  }

  lemma FlattenPush(matches: seq<FusionMatch>, m: FusionMatch)
    ensures Flatten(matches + [m]) == Flatten(matches) + m.fusions
  {
    assert (matches + [m])[..|matches|] == matches;
  }

  lemma {:induction false} FlattenPrefix(matches: seq<FusionMatch>, m: nat) returns (rest: seq<Candidate>)
    requires m <= |matches|
    ensures Flatten(matches) == Flatten(matches[..m]) + rest
  {
    if m == |matches| {
      assert matches[..m] == matches;
      rest := [];
    } else {
      var n := |matches| - 1;
      rest := FlattenPrefix(matches[..n], m);
      assert matches[..n][..m] == matches[..m];
      rest := rest + matches[n].fusions;
    }
  }

  /** The closing check is exact. */
  method FusionMatchesHaveNoOverlap(matches: seq<FusionMatch>) returns (ok: bool)
    ensures ok <==> Separate(Flatten(matches))
  {
    hide Separate, WellFormed, ClaimedBy, NodesOf, Flatten;
    var seen: set<NodeId> := {};
    var m := 0;
    NothingFlat();
    assert matches[..0] == [];
    while m < |matches|
      invariant 0 <= m <= |matches|
      invariant Separate(Flatten(matches[..m])) && seen == ClaimedBy(Flatten(matches[..m]))
    {
      var fusions := matches[m].fusions;
      ghost var before := Flatten(matches[..m]);
      assert matches[..m + 1] == matches[..m] + [matches[m]];
      FlattenPush(matches[..m], matches[m]);
      ghost var rest := FlattenPrefix(matches, m + 1);
      var f := 0;
      assert before + fusions[..0] == before;
      while f < |fusions|
        invariant 0 <= f <= |fusions|
        invariant Separate(before + fusions[..f]) && seen == ClaimedBy(before + fusions[..f])
      {
        ghost var flat := before + fusions[..f];
        var clear := TakeFusion(flat, fusions[f], seen);
        assert before + fusions[..f + 1] == flat + [fusions[f]];
        SeparatePush(flat, fusions[f]);
        if !clear {
          assert Flatten(matches) == (flat + [fusions[f]]) + (fusions[f + 1..] + rest);
          if Separate(Flatten(matches)) {
            SeparatePrefix(flat + [fusions[f]], fusions[f + 1..] + rest);
          }
          return false;
        }
        ClaimedByPush(flat, fusions[f]);
        seen := seen + NodesOf(fusions[f]);
        f := f + 1;
      }
      assert fusions[..f] == fusions;
      m := m + 1;
    }
    assert matches[..m] == matches;
    ok := true;
  }

  lemma NothingFlat()
    ensures Flatten([]) == [] && Separate([]) && ClaimedBy([]) == {}
  {
  }

  lemma IdsAreDistinct(c: Candidate, nodeIds: seq<NodeId>, j: nat)
    requires WellFormed(c) && j < |nodeIds| == |c| && forall i :: 0 <= i < |c| ==> c[i] == Some(nodeIds[i])
    ensures nodeIds[j] !in nodeIds[..j]
  {
    forall k | 0 <= k < j
      ensures nodeIds[k] != nodeIds[j]
    {
      assert c[k] != c[j];
    }
  }

  /** Whether a fusion is well formed and takes no node seen before. */
  method TakeFusion(ghost flat: seq<Candidate>, fusion: Candidate, seen: set<NodeId>) returns (clear: bool)
    requires seen == ClaimedBy(flat)
    ensures clear <==> WellFormed(fusion) && NodesOf(fusion) !! ClaimedBy(flat)
  {
    var ok, nodeIds := NormalizeCandidate(fusion);
    if !ok {
      return false;
    }
    IdsAreNodes(fusion, nodeIds);
    var all := seen;
    var j := 0;
    while j < |nodeIds|
      invariant 0 <= j <= |nodeIds|
      invariant all == seen + (set n | n in nodeIds[..j])
      invariant forall k :: 0 <= k < j ==> nodeIds[k] !in seen
    {
      assert nodeIds[..j + 1] == nodeIds[..j] + [nodeIds[j]];
      IdsAreDistinct(fusion, nodeIds, j);
      if nodeIds[j] in all {
        assert nodeIds[j] in NodesOf(fusion);
        return false;
      }
      all := all + {nodeIds[j]};
      j := j + 1;
    }
    clear := true;
  }

  /** What one finder contributed, given the nodes taken before it. */
  ghost predicate Contributed(f: Finder, taken: set<NodeId>, m: FusionMatch) {
    m.finder == f.name && exists at, refused :: ContributedAt(f, taken, m, at, refused)
  }

  ghost predicate ContributedAt(f: Finder, taken: set<NodeId>, m: FusionMatch, at: seq<nat>, refused: seq<nat>) {
    && Greedy(f.find(taken), f.legal, taken, at, m.fusions)
    && Recorded(f.find(taken), f.legal, taken, at, m.fusions, refused, m.rejections)
  }

  /** Whatever was accepted is a candidate of the finder and legal for it; whatever was rejected is illegal. */
  ghost predicate Lawful(f: Finder, taken: set<NodeId>, m: FusionMatch) {
    && m.finder == f.name
    && (forall k :: 0 <= k < |m.fusions| ==> m.fusions[k] in f.find(taken) && f.legal(m.fusions[k]))
    && (forall k :: 0 <= k < |m.rejections| ==> m.rejections[k] in f.find(taken) && !f.legal(m.rejections[k]))
  }

  lemma ContributedIsLawful(f: Finder, taken: set<NodeId>, m: FusionMatch)
    requires Contributed(f, taken, m)
    ensures Lawful(f, taken, m)
  {
    hide ClaimedBy, WellFormed, NodesOf;
    var at, refused :| ContributedAt(f, taken, m, at, refused);
    var candidates := f.find(taken);
    forall k | 0 <= k < |m.fusions|
      ensures m.fusions[k] in candidates && f.legal(m.fusions[k])
    {
      assert AcceptableInTurn(f.legal, taken, m.fusions, k);
      assert m.fusions[k] == candidates[at[k]];
    }
    forall k | 0 <= k < |m.rejections|
      ensures m.rejections[k] in candidates && !f.legal(m.rejections[k])
    {
      var i := refused[k];
      assert m.rejections[k] == candidates[i] && i !in at;
      var g := GapOf(at, i);
      assert InGap(at, g, i);
    }
  }

  /** A place that was not chosen lies between two that were. */
  lemma GapOf(at: seq<nat>, i: nat) returns (k: nat)
    requires i !in at && forall k, l :: 0 <= k < l < |at| ==> at[k] < at[l]
    ensures k <= |at| && InGap(at, k, i)
  {
    k := 0;
    while k < |at| && at[k] < i
      invariant 0 <= k <= |at|
      invariant forall l :: 0 <= l < k ==> at[l] < i
    {
      k := k + 1;
    }
    assert k < |at| ==> at[k] != i;
  }

  lemma {:induction false} FlatPlace(matches: seq<FusionMatch>, j: nat) returns (m: nat, k: nat)
    requires j < |Flatten(matches)|
    ensures m < |matches| && k < |matches[m].fusions| && matches[m].fusions[k] == Flatten(matches)[j]
  {
    var n := |matches| - 1;
    if j < |Flatten(matches[..n])| {
      m, k := FlatPlace(matches[..n], j);
    } else {
      m, k := n, j - |Flatten(matches[..n])|;
    }
  }

  /**
   * Over all finders: a well-formed candidate that is legal for its finder and was left out overlaps
   * a fusion accepted no later, by an earlier finder or from an earlier place of the same list.
   */
  lemma LeftOutOverlapsEarlier(finders: seq<Finder>, matches: seq<FusionMatch>, f: nat, i: nat)
    returns (m: nat, k: nat, at: seq<nat>)
    requires |matches| == |finders| && f < |finders|
    requires Contributed(finders[f], ClaimedBy(Flatten(matches[..f])), matches[f])
    requires
      var candidates := finders[f].find(ClaimedBy(Flatten(matches[..f])));
      i < |candidates| && WellFormed(candidates[i]) && finders[f].legal(candidates[i])
      && candidates[i] !in matches[f].fusions
    ensures m <= f && k < |matches[m].fusions|
    ensures
      var taken := ClaimedBy(Flatten(matches[..f]));
      var candidates := finders[f].find(taken);
      && !(NodesOf(candidates[i]) !! NodesOf(matches[m].fusions[k]))
      && (m == f ==> Greedy(candidates, finders[f].legal, taken, at, matches[f].fusions) && k < |at| && at[k] < i)
  {
    hide Flatten, NodesOf, WellFormed, ClaimedBy;
    var taken := ClaimedBy(Flatten(matches[..f]));
    var candidates := finders[f].find(taken);
    var refused;
    at, refused :| ContributedAt(finders[f], taken, matches[f], at, refused);
    LeftOutOverlaps(candidates, finders[f].legal, taken, at, matches[f].fusions, i);
    if NodesOf(candidates[i]) !! taken {
      m := f;
      k :| 0 <= k < |at| && at[k] < i && !(NodesOf(candidates[i]) !! NodesOf(matches[f].fusions[k]));
    } else {
      var n :| n in NodesOf(candidates[i]) && n in taken;
      var j := ClaimedByElement(Flatten(matches[..f]), n);
      m, k := FlatPlace(matches[..f], j);
    }
  }

  /**
   * All finders in order. What they add is separate and legal for its finder, the nodes taken are
   * exactly the nodes of the accepted fusions, and the closing assertion holds.
   */
  method FindFusionMatches(finders: seq<Finder>) returns (matches: seq<FusionMatch>, taken: set<NodeId>)
    ensures |matches| == |finders| && Separate(Flatten(matches)) && taken == ClaimedBy(Flatten(matches))
    ensures forall m :: 0 <= m < |finders| ==> Contributed(finders[m], ClaimedBy(Flatten(matches[..m])), matches[m])
    ensures forall m :: 0 <= m < |finders| ==> Lawful(finders[m], ClaimedBy(Flatten(matches[..m])), matches[m])
  {
    hide Separate, ClaimedBy, Flatten, Greedy, NodesOf, WellFormed, Contributed, Lawful;
    matches, taken := [], {};
    NothingFlat();
    var i := 0;
    while i < |finders|
      invariant 0 <= i <= |finders| && |matches| == i
      invariant Separate(Flatten(matches)) && taken == ClaimedBy(Flatten(matches))
      invariant forall m :: 0 <= m < i ==> Contributed(finders[m], ClaimedBy(Flatten(matches[..m])), matches[m])
    {
      var candidates := finders[i].find(taken);
      ghost var was, flat := matches, Flatten(matches);
      matches, taken := AddFusionMatch(matches, finders[i], candidates, taken);
      assert matches[..i] == was;
      forall m | 0 <= m < i
        ensures Contributed(finders[m], ClaimedBy(Flatten(matches[..m])), matches[m])
      {
        assert matches[..m] == was[..m];
      }
      i := i + 1;
    }
    var noOverlap := FusionMatchesHaveNoOverlap(matches);
    assert noOverlap;
    forall m | 0 <= m < |finders|
      ensures Lawful(finders[m], ClaimedBy(Flatten(matches[..m])), matches[m])
    {
      ContributedIsLawful(finders[m], ClaimedBy(Flatten(matches[..m])), matches[m]);
    }
  }

  method AddFusionMatch(matches: seq<FusionMatch>, finder: Finder, candidates: seq<Candidate>, taken: set<NodeId>)
    returns (matches': seq<FusionMatch>, taken': set<NodeId>)
    requires Separate(Flatten(matches)) && taken == ClaimedBy(Flatten(matches)) && candidates == finder.find(taken)
    ensures |matches'| == |matches| + 1 && matches'[..|matches|] == matches
    ensures Separate(Flatten(matches')) && taken' == ClaimedBy(Flatten(matches'))
    ensures Contributed(finder, taken, matches'[|matches|])
  {
    hide Separate, ClaimedBy, Flatten, Greedy, Recorded, NodesOf, WellFormed;
    var accepted, rejections;
    ghost var at, refused;
    accepted, rejections, taken', at, refused := AcceptFusionCandidates(candidates, finder.legal, taken);
    var added := FusionMatch(finder.name, accepted, rejections);
    assert ContributedAt(finder, taken, added, at, refused);
    matches' := matches + [added];
    GreedyIsSeparate(candidates, finder.legal, taken, at, accepted, Flatten(matches), |accepted|);
    assert accepted[..|accepted|] == accepted;
    FlattenPush(matches, added);
    ClaimedByAppend(Flatten(matches), accepted);
  }
}
