// Cycle detection by depth-first colouring, with the cycles rebuilt from the
// parent links.
module Cycles {
  import opened Wrappers
  import opened Text
  import opened Graph

  datatype Color = White | Gray | Black

  ghost predicate IsClosedWalk(g: DependencyGraph, w: seq<string>) {
    |w| >= 2 && IsWalk(g, w) && w[0] == w[|w| - 1]
  }

  // A closed walk that repeats only its first node.
  ghost predicate IsCycle(g: DependencyGraph, c: seq<string>) {
    IsClosedWalk(g, c) && Distinct(c[..|c| - 1])
  }

  ghost predicate Acyclic(g: DependencyGraph) {
    forall w :: !IsClosedWalk(g, w)
  }

  // u -> v is the last edge of a reported cycle.
  ghost predicate Closes(cycles: seq<seq<string>>, u: string, v: string) {
    exists c :: c in cycles && |c| >= 2 && c[|c| - 2] == u && c[|c| - 1] == v
  }

  // Removing the last edge of every reported cycle leaves no closed walk.
  ghost predicate CutsAllCycles(g: DependencyGraph, cycles: seq<seq<string>>) {
    forall w :: IsClosedWalk(g, w) ==> exists i :: 0 <= i < |w| - 1 && Closes(cycles, w[i], w[i + 1])
  }

  function Reverse<T>(xs: seq<T>): (r: seq<T>)
    ensures |r| == |xs| && forall i :: 0 <= i < |xs| ==> r[i] == xs[|xs| - 1 - i]
  {
    if xs == [] then [] else Reverse(xs[1..]) + [xs[0]]
  }

  function Targets(edges: seq<Edge>): (r: seq<string>)
    ensures forall v :: v in r <==> exists e :: e in edges && e.target == v
  {
    if edges == [] then [] else [edges[0].target] + Targets(edges[1..])
  }

  // sorted(adjacency.get(u, []))
  function Neighbors(g: DependencyGraph, u: string): (r: seq<string>)
    ensures forall v :: v in r <==> HasEdge(g, u, v)
  {
    Sort(Targets(Outgoing(g.edges, u)), (v: string) => v)
  }

  lemma ReverseTail(s: seq<string>, j: nat)
    requires j < |s|
    ensures Reverse(s[j..]) == Reverse(s[j + 1..]) + [s[j]]
  {
    assert s[j..][1..] == s[j + 1..];
  }

  lemma ReverseCycle(s: seq<string>, k: nat)
    requires k < |s|
    ensures Reverse([s[k]] + Reverse(s[k + 1..]) + [s[k]]) == s[k..] + [s[k]]
  {
    hide Reverse;
  }

  // Every edge out of a finished node goes to a node finished earlier, unless it
  // closes a reported cycle.
  ghost predicate Ranked(g: DependencyGraph, cycles: seq<seq<string>>, rank: map<string, nat>) {
    forall u, v :: u in rank && HasEdge(g, u, v) ==> Closes(cycles, u, v) || (v in rank && rank[v] < rank[u])
  }

  lemma {:induction false} RanksFall(g: DependencyGraph, cycles: seq<seq<string>>, rank: map<string, nat>, w: seq<string>)
    requires Ranked(g, cycles, rank) && IsWalk(g, w) && w[0] in rank
    requires forall i :: 0 <= i < |w| - 1 ==> !Closes(cycles, w[i], w[i + 1])
    ensures w[|w| - 1] in rank && (|w| > 1 ==> rank[w[|w| - 1]] < rank[w[0]])
  {
    if |w| > 1 {
      hide HasEdge, Closes;
      assert HasEdge(g, w[0], w[1]) && !Closes(cycles, w[0], w[1]);
      var rest := w[1..];
      forall i | 0 <= i < |rest| - 1 ensures HasEdge(g, rest[i], rest[i + 1]) && !Closes(cycles, rest[i], rest[i + 1]) {
        assert HasEdge(g, w[i + 1], w[i + 2]) && !Closes(cycles, w[i + 1], w[i + 2]);
      }
      RanksFall(g, cycles, rank, rest);
    }
  }

  lemma RankedCuts(g: DependencyGraph, cycles: seq<seq<string>>, rank: map<string, nat>)
    requires Valid(g) && Ranked(g, cycles, rank) && rank.Keys == Ids(g)
    ensures CutsAllCycles(g, cycles)
  {
    forall w | IsClosedWalk(g, w) ensures exists i :: 0 <= i < |w| - 1 && Closes(cycles, w[i], w[i + 1]) {
      assert HasEdge(g, w[0], w[1]);
      if !exists i :: 0 <= i < |w| - 1 && Closes(cycles, w[i], w[i + 1]) { RanksFall(g, cycles, rank, w); }
    }
  }

  // A set of cycles that cuts every closed walk is empty exactly on acyclic graphs.
  lemma EmptyIffAcyclic(g: DependencyGraph, cycles: seq<seq<string>>)
    requires CutsAllCycles(g, cycles) && forall c :: c in cycles ==> IsCycle(g, c)
    ensures cycles == [] <==> Acyclic(g)
  {
    if cycles == [] {
      assert forall u, v :: !Closes(cycles, u, v);
    } else {
      assert cycles[0] in cycles;
      assert IsClosedWalk(g, cycles[0]);
    }
  }

  // The gray nodes are the chain of parents of the running call.
  ghost predicate GrayChain(g: DependencyGraph, color: map<string, Color>, parent: map<string, Option<string>>, stack: seq<string>) {
    && color.Keys == parent.Keys == Ids(g) && Distinct(stack)
    && (forall v :: v in stack <==> v in color && color[v] == Gray)
    && (forall i :: 0 <= i < |stack| - 1 ==> HasEdge(g, stack[i], stack[i + 1]) && parent[stack[i + 1]] == Some(stack[i]))
  }

  // The black nodes are ranked in the order they finished.
  ghost predicate Finished(g: DependencyGraph, color: map<string, Color>, cycles: seq<seq<string>>, rank: map<string, nat>) {
    && Ranked(g, cycles, rank)
    && (forall v :: v in rank <==> v in color && color[v] == Black)
    && (forall v :: v in rank ==> rank[v] < |rank|)
  }

  ghost predicate AllCycles(g: DependencyGraph, cycles: seq<seq<string>>) {
    forall c :: c in cycles ==> IsCycle(g, c)
  }

  ghost predicate ExtendsChain(g: DependencyGraph, parent: map<string, Option<string>>, stack: seq<string>, node: string) {
    node in parent && (stack != [] ==> HasEdge(g, stack[|stack| - 1], node) && parent[node] == Some(stack[|stack| - 1]))
  }

  ghost function Whites(color: map<string, Color>): set<string> {
    set v | v in color && color[v] == White
  }

  lemma WhitesAfter(color: map<string, Color>, node: string, c: Color)
    requires node in color && c != White
    ensures Whites(color[node := c]) == Whites(color) - {node}
    ensures color[node] == White <==> node in Whites(color)
  {
  }

  lemma EnterChain(g: DependencyGraph, color: map<string, Color>, parent: map<string, Option<string>>, stack: seq<string>, node: string)
    requires GrayChain(g, color, parent, stack) && node in color && color[node] == White
    requires ExtendsChain(g, parent, stack, node)
    ensures GrayChain(g, color[node := Gray], parent, stack + [node])
  {
    hide HasEdge, Ids;
  }

  lemma LeaveChain(g: DependencyGraph, color: map<string, Color>, parent: map<string, Option<string>>, stack: seq<string>, node: string)
    requires GrayChain(g, color, parent, stack + [node])
    ensures GrayChain(g, color[node := Black], parent, stack)
    ensures node in color && color[node] == Gray
  {
    hide HasEdge, Ids;
    var old' := stack + [node];
    assert old'[|stack|] == node;
    assert forall i :: 0 <= i < |stack| ==> old'[i] != old'[|stack|];
    assert node in old';
    assert Distinct(stack) by { assert forall i :: 0 <= i < |stack| ==> old'[i] == stack[i]; }
    forall v ensures v in stack <==> v in color && v != node && color[v] == Gray {
      assert v in old' <==> v in stack || v == node;
      if v in stack { var i :| 0 <= i < |stack| && stack[i] == v; assert old'[i] == v; }
    }
    forall i | 0 <= i < |stack| - 1 ensures HasEdge(g, stack[i], stack[i + 1]) && parent[stack[i + 1]] == Some(stack[i]) {
      assert HasEdge(g, old'[i], old'[i + 1]);
    }
    assert forall i, j :: 0 <= i < j < |stack| ==> old'[i] != old'[j];
  }

  // Every listed neighbour is finished or closes a reported cycle.
  ghost predicate Handled(node: string, neighbors: seq<string>, cycles: seq<seq<string>>, rank: map<string, nat>) {
    forall v :: v in neighbors ==> v in rank || Closes(cycles, node, v)
  }

  lemma EnterFinished(g: DependencyGraph, color: map<string, Color>, cycles: seq<seq<string>>, rank: map<string, nat>, node: string)
    requires Finished(g, color, cycles, rank) && node in color && color[node] == White
    ensures Finished(g, color[node := Gray], cycles, rank)
  {
    hide Ranked;
  }

  lemma IsFinished(g: DependencyGraph, color: map<string, Color>, cycles: seq<seq<string>>, rank: map<string, nat>, v: string)
    requires Finished(g, color, cycles, rank) && v in color
    ensures color[v] == Black <==> v in rank
  {
    hide Ranked;
  }

  lemma FinishNode(g: DependencyGraph, color: map<string, Color>, cycles: seq<seq<string>>, rank: map<string, nat>,
                   node: string, neighbors: seq<string>)
    requires Finished(g, color, cycles, rank) && node in color && color[node] != Black
    requires Handled(node, neighbors, cycles, rank) && forall v :: v in neighbors <==> HasEdge(g, node, v)
    ensures Finished(g, color[node := Black], cycles, rank[node := |rank|])
  {
    hide HasEdge, Closes;
    assert |rank[node := |rank|]| == |rank| + 1;
  }

  lemma MoreCycles(g: DependencyGraph, color: map<string, Color>, cycles: seq<seq<string>>, rank: map<string, nat>, cycle: seq<string>)
    requires Finished(g, color, cycles, rank) && AllCycles(g, cycles) && IsCycle(g, cycle)
    ensures Finished(g, color, cycles + [cycle], rank) && AllCycles(g, cycles + [cycle])
    ensures Closes(cycles + [cycle], cycle[|cycle| - 2], cycle[|cycle| - 1])
  {
    hide HasEdge;
    assert cycle in cycles + [cycle];
    forall u, v | Closes(cycles, u, v) ensures Closes(cycles + [cycle], u, v) {
      var c :| c in cycles && |c| >= 2 && c[|c| - 2] == u && c[|c| - 1] == v;
      assert c in cycles + [cycle];
    }
  }

  lemma HandledGrows(node: string, neighbors: seq<string>, before: seq<seq<string>>, done: map<string, nat>,
                     after: seq<seq<string>>, rank: map<string, nat>)
    requires Handled(node, neighbors, before, done) && before <= after && done.Keys <= rank.Keys
    ensures Handled(node, neighbors, after, rank)
  {
    forall v | v in neighbors ensures v in rank || Closes(after, node, v) {
      if v !in done { ClosesGrows(before, after, node, v); }
    }
  }

  lemma HandledOne(node: string, neighbors: seq<string>, v: string, cycles: seq<seq<string>>, rank: map<string, nat>)
    requires Handled(node, neighbors, cycles, rank) && (v in rank || Closes(cycles, node, v))
    ensures Handled(node, neighbors + [v], cycles, rank)
  {
    hide Closes;
  }

  lemma HandledNone(node: string, cycles: seq<seq<string>>, rank: map<string, nat>)
    ensures Handled(node, [], cycles, rank)
  {
  }

  lemma GrayIsStacked(g: DependencyGraph, color: map<string, Color>, parent: map<string, Option<string>>, stack: seq<string>, v: string)
    requires GrayChain(g, color, parent, stack) && v in color
    ensures color[v] == Gray <==> v in stack
  {
  }

  lemma ChainKeys(g: DependencyGraph, color: map<string, Color>, parent: map<string, Option<string>>, stack: seq<string>)
    requires GrayChain(g, color, parent, stack)
    ensures color.Keys == parent.Keys == Ids(g)
    ensures forall v :: v in stack ==> v in parent
  {
  }

  // A white node may get a parent: it is on no chain yet.
  lemma DiscoverChain(g: DependencyGraph, color: map<string, Color>, parent: map<string, Option<string>>, stack: seq<string>,
                      node: string, neighbor: string)
    requires GrayChain(g, color, parent, stack) && neighbor in color && color[neighbor] == White
    requires stack != [] && stack[|stack| - 1] == node && HasEdge(g, node, neighbor)
    ensures GrayChain(g, color, parent[neighbor := Some(node)], stack)
    ensures ExtendsChain(g, parent[neighbor := Some(node)], stack, neighbor)
    ensures neighbor !in stack
  {
    hide HasEdge, Ids;
  }

  lemma NeighborOnGraph(g: DependencyGraph, u: string, v: string)
    requires Valid(g) && HasEdge(g, u, v)
    ensures v in Ids(g)
  {
  }

  lemma ClosesGrows(before: seq<seq<string>>, after: seq<seq<string>>, u: string, v: string)
    requires before <= after && Closes(before, u, v)
    ensures Closes(after, u, v)
  {
    var c :| c in before && |c| >= 2 && c[|c| - 2] == u && c[|c| - 1] == v;
    var k :| 0 <= k < |before| && before[k] == c;
    assert after[k] == c;
  }

  lemma RootChain(g: DependencyGraph, parent: map<string, Option<string>>, node: string)
    requires node in parent
    ensures ExtendsChain(g, parent, [], node)
  {
  }

  lemma AllFinished(g: DependencyGraph, color: map<string, Color>, cycles: seq<seq<string>>, rank: map<string, nat>, ids: seq<string>)
    requires Finished(g, color, cycles, rank)
    requires forall v :: v in ids <==> v in color
    requires forall k :: 0 <= k < |ids| ==> ids[k] in rank
    ensures rank.Keys == color.Keys
  {
    hide Ranked;
    forall v | v in color ensures v in rank {
      var k :| 0 <= k < |ids| && ids[k] == v;
    }
  }

  lemma ParentOnStack(g: DependencyGraph, color: map<string, Color>, parent: map<string, Option<string>>, stack: seq<string>, j: nat)
    requires GrayChain(g, color, parent, stack) && 0 < j < |stack|
    ensures stack[j] in parent && parent[stack[j]] == Some(stack[j - 1])
  {
    hide HasEdge, Distinct;
    assert parent[stack[j - 1 + 1]] == Some(stack[j - 1]);
  }

  lemma OnePosition(g: DependencyGraph, color: map<string, Color>, parent: map<string, Option<string>>, stack: seq<string>, i: nat, j: nat)
    requires GrayChain(g, color, parent, stack) && i < |stack| && j < |stack| && stack[i] == stack[j]
    ensures i == j
  {
    hide HasEdge;
  }

  // The parent links from the top of the chain back to its k-th node.
  method WalkBack(parent: map<string, Option<string>>, node: string, neighbor: string,
                  ghost g: DependencyGraph, ghost color: map<string, Color>, ghost stack: seq<string>, ghost k: nat)
    returns (cycle: seq<string>)
    requires GrayChain(g, color, parent, stack) && k < |stack| && stack[k] == neighbor && stack[|stack| - 1] == node
    ensures cycle == [neighbor] + Reverse(stack[k + 1..])
  {
    hide HasEdge, Reverse, GrayChain;
    ghost var j := |stack| - 1;
    cycle := [neighbor];
    assert Reverse(stack[j + 1..]) == [];
    var current := node;
    while current != neighbor
      invariant k <= j < |stack| && stack[j] == current
      invariant cycle == [neighbor] + Reverse(stack[j + 1..])
      decreases j
    {
      cycle := cycle + [current];
      ReverseTail(stack, j);
      ParentOnStack(g, color, parent, stack, j);
      var p := parent[current];
      if p.None? {
        assert false;
        break;
      }
      current := p.value;
      j := j - 1;
    }
    OnePosition(g, color, parent, stack, j, k);
  }

  class Detector {
    const g: DependencyGraph
    var color: map<string, Color>
    var parent: map<string, Option<string>>
    var cycles: seq<seq<string>>
    // The gray nodes, outermost call first.
    ghost var stack: seq<string>
    // The finishing order of the black nodes.
    ghost var rank: map<string, nat>

    ghost predicate Inv()
      reads this
    {
      && Valid(g) && GrayChain(g, color, parent, stack)
      && Finished(g, color, cycles, rank) && AllCycles(g, cycles)
    }

    constructor (graph: DependencyGraph)
      requires Valid(graph)
      ensures g == graph && Inv() && stack == [] && cycles == []
      ensures forall v :: v in color ==> color[v] == White
    {
      g := graph;
      color := map v | v in Ids(graph) :: White;
      parent := map v | v in Ids(graph) :: None;
      cycles := [];
      stack := [];
      rank := map[];
    }

    // Walks the parent links from the running node back to a gray neighbour.
    method Reconstruct(node: string, neighbor: string) returns (cycle: seq<string>)
      requires Valid(g) && GrayChain(g, color, parent, stack) && stack != [] && stack[|stack| - 1] == node
      requires neighbor in stack && HasEdge(g, node, neighbor)
      ensures IsCycle(g, cycle) && cycle[|cycle| - 2] == node && cycle[|cycle| - 1] == neighbor
    {
      ghost var k :| 0 <= k < |stack| && stack[k] == neighbor;
      cycle := WalkBack(parent, node, neighbor, g, color, stack, k);
      hide HasEdge, Valid, Reverse, IsCycle;
      cycle := Reverse(cycle + [neighbor]);
      ReverseCycle(stack, k);
      ChainIsCycle(stack, k, neighbor);
    }

    lemma ChainIsCycle(chain: seq<string>, k: nat, neighbor: string)
      requires Distinct(chain) && k < |chain| && chain[k] == neighbor
      requires HasEdge(g, chain[|chain| - 1], neighbor)
      requires forall i :: 0 <= i < |chain| - 1 ==> HasEdge(g, chain[i], chain[i + 1])
      ensures var c := chain[k..] + [neighbor];
              IsCycle(g, c) && c[|c| - 2] == chain[|chain| - 1]
    {
      hide HasEdge;
      var c := chain[k..] + [neighbor];
      forall i | 0 <= i < |c| - 1 ensures HasEdge(g, c[i], c[i + 1]) {
        if i < |c| - 2 { assert HasEdge(g, chain[k + i], chain[k + i + 1]); }
      }
      assert c[..|c| - 1] == chain[k..];
    }

    // One edge out of the running node: report it, follow it, or pass over it.
    method Visit(node: string, neighbor: string)
      requires Inv() && stack != [] && stack[|stack| - 1] == node && HasEdge(g, node, neighbor)
      modifies this
      ensures Inv() && stack == old(stack) && color.Keys == old(color.Keys)
      ensures old(cycles) <= cycles && Whites(color) <= old(Whites(color)) && old(rank.Keys) <= rank.Keys
      ensures forall v :: v in stack ==> v in parent && v in old(parent) && parent[v] == old(parent[v])
      ensures neighbor in rank || Closes(cycles, node, neighbor)
      decreases Whites(color), 1
    {
      hide Valid, GrayChain, Finished, AllCycles, Whites, ExtendsChain, IsCycle, Ids, HasEdge, Closes, IsWalk, Distinct;
      NeighborOnGraph(g, node, neighbor);
      ChainKeys(g, color, parent, stack);
      IsFinished(g, color, cycles, rank, neighbor);
      if color[neighbor] == Gray {
        GrayIsStacked(g, color, parent, stack, neighbor);
        var cycle := Reconstruct(node, neighbor);
        MoreCycles(g, color, cycles, rank, cycle);
        cycles := cycles + [cycle];
      } else if color[neighbor] == White {
        DiscoverChain(g, color, parent, stack, node, neighbor);
        parent := parent[neighbor := Some(node)];
        Dfs(neighbor);
        IsFinished(g, color, cycles, rank, neighbor);
      }
    }

    // Searches from every node in sorted order that is still white.
    method Search()
      requires Inv() && stack == []
      modifies this
      ensures Inv() && stack == [] && rank.Keys == color.Keys
    {
      hide Valid, GrayChain, Finished, AllCycles, Whites, ExtendsChain, IsCycle, Ids, HasEdge, SortedSet, SortedBy, Distinct, Leq, IsWalk, Closes;
      var ids := SortedSet(color.Keys);
      ghost var all := color.Keys;
      for i := 0 to |ids|
        invariant Inv() && stack == [] && color.Keys == all
        invariant forall k :: 0 <= k < i ==> ids[k] in rank
      {
        ChainKeys(g, color, parent, stack);
        RootChain(g, parent, ids[i]);
        GrayIsStacked(g, color, parent, stack, ids[i]);
        if color[ids[i]] == White {
          Dfs(ids[i]);
        }
        IsFinished(g, color, cycles, rank, ids[i]);
      }
      AllFinished(g, color, cycles, rank, ids);
    }

    // The recursive search from a white node. The gray chain, the parents on it
    // and everything already finished are left as they were.
    method Dfs(node: string)
      requires Inv() && node in color && color[node] == White && ExtendsChain(g, parent, stack, node)
      modifies this
      ensures Inv() && stack == old(stack) && color.Keys == old(color.Keys) && color[node] == Black
      ensures old(cycles) <= cycles && Whites(color) < old(Whites(color))
      ensures old(rank.Keys) <= rank.Keys
      ensures forall v :: v in stack ==> v in parent && v in old(parent) && parent[v] == old(parent[v])
      decreases Whites(color), 0
    {
      hide Valid, GrayChain, Finished, AllCycles, Handled, Whites, ExtendsChain, Ids, HasEdge, Neighbors, Closes;
      ChainKeys(g, color, parent, stack);
      EnterChain(g, color, parent, stack, node);
      EnterFinished(g, color, cycles, rank, node);
      WhitesAfter(color, node, Gray);
      color := color[node := Gray];
      stack := stack + [node];
      var neighbors := Neighbors(g, node);
      HandledNone(node, cycles, rank);
      assert neighbors[..0] == [];
      for i := 0 to |neighbors|
        invariant Inv() && stack == old(stack) + [node] && color.Keys == old(color.Keys)
        invariant old(cycles) <= cycles && Whites(color) < old(Whites(color)) && old(rank.Keys) <= rank.Keys
        invariant forall v :: v in old(stack) ==> v in parent && v in old(parent) && parent[v] == old(parent[v])
        invariant Handled(node, neighbors[..i], cycles, rank)
      {
        ghost var seen, done := cycles, rank;
        Visit(node, neighbors[i]);
        HandledGrows(node, neighbors[..i], seen, done, cycles, rank);
        HandledOne(node, neighbors[..i], neighbors[i], cycles, rank);
        assert neighbors[..i + 1] == neighbors[..i] + [neighbors[i]];
      }
      assert neighbors[..|neighbors|] == neighbors;
      LeaveChain(g, color, parent, old(stack), node);
      WhitesAfter(color, node, Black);
      FinishNode(g, color, cycles, rank, node, neighbors);
      color := color[node := Black];
      stack := old(stack);
      rank := rank[node := |rank|];
    }
  }

  // The reported cycles are real simple cycles; cutting the last edge of each
  // leaves an acyclic graph; so none is reported exactly when there is none.
  method DetectCycles(g: DependencyGraph) returns (cycles: seq<seq<string>>)
    requires Valid(g)
    ensures forall c :: c in cycles ==> IsCycle(g, c)
    ensures CutsAllCycles(g, cycles)
    ensures cycles == [] <==> Acyclic(g)
  {
    hide Valid, GrayChain, Finished, IsCycle, Acyclic, CutsAllCycles, Ids;
    var d := new Detector(g);
    d.Search();
    cycles := d.cycles;
    ChainKeys(g, d.color, d.parent, d.stack);
    FinishedCuts(g, d.color, cycles, d.rank);
    EmptyIffAcyclic(g, cycles);
  }

  lemma FinishedCuts(g: DependencyGraph, color: map<string, Color>, cycles: seq<seq<string>>, rank: map<string, nat>)
    requires Valid(g) && Finished(g, color, cycles, rank) && rank.Keys == Ids(g)
    ensures CutsAllCycles(g, cycles)
  {
    RankedCuts(g, cycles, rank);
  }
}
