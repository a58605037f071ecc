// The upstream dependencies of a provider: a recursive walk against the edges
// with one visited set shared by all calls.
module Upstream {
  import opened Graph

  // v is named by an edge into u from another node.
  ghost predicate Feeds(g: DependencyGraph, v: string, u: string) {
    exists e :: e in g.edges && e.target == u && e.source == v && v != u
  }

  // A walk of such edges, last node first.
  ghost predicate IsFeedWalk(g: DependencyGraph, w: seq<string>) {
    w != [] && forall i :: 0 <= i < |w| - 1 ==> Feeds(g, w[i], w[i + 1])
  }

  // v reaches u by at least one edge that is not a self-loop.
  ghost predicate IsUpstream(g: DependencyGraph, v: string, u: string) {
    exists w :: IsFeedWalk(g, w) && |w| >= 2 && w[0] == v && w[|w| - 1] == u
  }

  // v is u itself or upstream of it.
  ghost predicate Reaches(g: DependencyGraph, v: string, u: string) { v == u || IsUpstream(g, v, u) }

  // The sources of the edges into any of the nodes.
  ghost function SourcesInto(g: DependencyGraph, nodes: set<string>): set<string> {
    set e | e in g.edges && e.target in nodes && e.source != e.target :: e.source
  }

  function Endpoints(g: DependencyGraph): set<string> { set e | e in g.edges :: e.source }

  lemma FeedsExtends(g: DependencyGraph, v: string, m: string, u: string)
    requires Feeds(g, v, m) && Reaches(g, m, u)
    ensures IsUpstream(g, v, u)
  {
    hide Feeds;
    if m == u {
      assert IsFeedWalk(g, [v, u]);
    } else {
      var w :| IsFeedWalk(g, w) && |w| >= 2 && w[0] == m && w[|w| - 1] == u;
      var x := [v] + w;
      forall i | 0 <= i < |x| - 1 ensures Feeds(g, x[i], x[i + 1]) {
        if i > 0 { assert Feeds(g, w[i - 1], w[i]); }
      }
      assert IsFeedWalk(g, x);
    }
  }

  lemma FeedsFollows(g: DependencyGraph, v: string, m: string, u: string)
    requires Reaches(g, v, m) && Feeds(g, m, u)
    ensures IsUpstream(g, v, u)
  {
    hide Feeds;
    if v == m {
      assert IsFeedWalk(g, [v, u]);
    } else {
      var w :| IsFeedWalk(g, w) && |w| >= 2 && w[0] == v && w[|w| - 1] == m;
      var x := w + [u];
      forall i | 0 <= i < |x| - 1 ensures Feeds(g, x[i], x[i + 1]) {
        if i < |w| - 1 { assert Feeds(g, w[i], w[i + 1]); }
      }
      assert IsFeedWalk(g, x);
    }
  }

  lemma SourcesUnion(g: DependencyGraph, a: set<string>, b: set<string>)
    ensures SourcesInto(g, a + b) == SourcesInto(g, a) + SourcesInto(g, b)
  {
  }

  // A set that holds u and is closed under feeding holds everything upstream.
  lemma {:induction false} ClosedHolds(g: DependencyGraph, nodes: set<string>, w: seq<string>)
    requires IsFeedWalk(g, w) && w[|w| - 1] in nodes && SourcesInto(g, nodes) <= nodes
    ensures w[0] in nodes && (|w| >= 2 ==> w[0] in SourcesInto(g, nodes))
  {
    if |w| >= 2 {
      var rest := w[1..];
      forall i | 0 <= i < |rest| - 1 ensures Feeds(g, rest[i], rest[i + 1]) { assert Feeds(g, w[i + 1], w[i + 2]); }
      ClosedHolds(g, nodes, rest);
      assert Feeds(g, w[0], w[1]);
    }
  }

  // The sources of the listed edges into one node.
  ghost function DirectSources(edges: seq<Edge>, node: string): set<string> {
    set e | e in edges && e.target == node && e.source != node :: e.source
  }

  lemma DirectStep(g: DependencyGraph, i: nat, node: string)
    requires i < |g.edges|
    ensures var e := g.edges[i];
            DirectSources(g.edges[..i + 1], node) ==
            DirectSources(g.edges[..i], node) + (if e.target == node && e.source != node then {e.source} else {})
  {
    assert g.edges[..i + 1] == g.edges[..i] + [g.edges[i]];
  }

  lemma DirectAll(g: DependencyGraph, node: string)
    ensures DirectSources(g.edges[..|g.edges|], node) == SourcesInto(g, {node})
  {
    assert g.edges[..|g.edges|] == g.edges;
  }

  class Search {
    const g: DependencyGraph
    var visited: set<string>
    // Every node a call can be made for.
    ghost const all: set<string>

    constructor (graph: DependencyGraph, root: string)
      ensures g == graph && visited == {} && all == Endpoints(graph) + {root}
    {
      g := graph;
      visited := {};
      all := Endpoints(graph) + {root};
    }

    // Returns the sources of the edges into the nodes this call is first to visit,
    // and sees to it that those sources are visited too.
    method Collect(node: string) returns (upstream: set<string>)
      requires visited <= all && node in all && Endpoints(g) <= all
      modifies this
      ensures old(visited) <= visited <= all && node in visited
      ensures upstream == SourcesInto(g, visited - old(visited)) && upstream <= visited
      ensures forall v :: v in visited - old(visited) ==> Reaches(g, v, node)
      decreases all - visited
    {
      hide SourcesInto, Reaches, DirectSources, Endpoints;
      upstream := {};
      SourcesNone(g);
      if node in visited {
        assert visited - old(visited) == {};
        return;
      }
      visited := visited + {node};
      ghost var entered := visited;
      assert visited - entered == {};
      ReachesSelf(g, node);
      DirectNone(g, node);
      for i := 0 to |g.edges|
        invariant entered <= visited <= all
        invariant upstream == DirectSources(g.edges[..i], node) + SourcesInto(g, visited - entered)
        invariant upstream <= visited
        invariant forall v :: v in visited - entered ==> Reaches(g, v, node)
      {
        var edge := g.edges[i];
        DirectStep(g, i, node);
        if edge.target == node && edge.source != node {
          ghost var before := visited;
          SourceIsEndpoint(g, edge);
          var more := Collect(edge.source);
          upstream := upstream + {edge.source} + more;
          SourcesUnion(g, before - entered, visited - before);
          assert visited - entered == (before - entered) + (visited - before);
          forall v | v in visited - before ensures Reaches(g, v, node) { ThroughEdge(g, v, edge); }
        }
      }
      DirectAll(g, node);
      SourcesUnion(g, {node}, visited - entered);
      assert visited - old(visited) == {node} + (visited - entered);
    }
  }

  lemma SourcesNone(g: DependencyGraph)
    ensures SourcesInto(g, {}) == {}
  {
  }

  lemma DirectNone(g: DependencyGraph, node: string)
    ensures DirectSources(g.edges[..0], node) == {}
  {
  }

  lemma ReachesSelf(g: DependencyGraph, node: string)
    ensures Reaches(g, node, node)
  {
  }

  lemma SourceIsEndpoint(g: DependencyGraph, e: Edge)
    requires e in g.edges
    ensures e.source in Endpoints(g)
  {
  }

  lemma ThroughEdge(g: DependencyGraph, v: string, e: Edge)
    requires e in g.edges && e.source != e.target && Reaches(g, v, e.source)
    ensures Reaches(g, v, e.target)
  {
    hide Reaches;
    assert Feeds(g, e.source, e.target);
    FeedsFollows(g, v, e.source, e.target);
    UpstreamReaches(g, v, e.target);
  }

  lemma UpstreamReaches(g: DependencyGraph, v: string, u: string)
    requires IsUpstream(g, v, u)
    ensures Reaches(g, v, u)
  {
  }

  // The shared visited set loses nothing: the answer is everything upstream.
  method GetUpstreamDependencies(g: DependencyGraph, node: string) returns (upstream: set<string>)
    ensures forall v :: v in upstream <==> IsUpstream(g, v, node)
  {
    hide SourcesInto, Reaches, IsUpstream, Endpoints;
    var search := new Search(g, node);
    upstream := search.Collect(node);
    assert search.visited - {} == search.visited;
    UpstreamExact(g, search.visited, node);
  }

  lemma UpstreamExact(g: DependencyGraph, visited: set<string>, node: string)
    requires node in visited && SourcesInto(g, visited) <= visited
    requires forall v :: v in visited ==> Reaches(g, v, node)
    ensures forall v :: v in SourcesInto(g, visited) <==> IsUpstream(g, v, node)
  {
    forall v ensures v in SourcesInto(g, visited) <==> IsUpstream(g, v, node) {
      hide Reaches;
      if v in SourcesInto(g, visited) {
        var e :| e in g.edges && e.target in visited && e.source != e.target && e.source == v;
        assert Feeds(g, v, e.target);
        FeedsExtends(g, v, e.target, node);
      }
      if IsUpstream(g, v, node) {
        var w :| IsFeedWalk(g, w) && |w| >= 2 && w[0] == v && w[|w| - 1] == node;
        ClosedHolds(g, visited, w);
      }
    }
  }
}
