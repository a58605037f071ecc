// The dependency graph. An edge runs from a dependency to the system that
// depends on it, so an outage travels from source to target.
module Graph {
  import opened Reals
  import opened Wrappers

  datatype Node = Node(id: string, criticality: real, attributes: map<string, string>)

  datatype Edge = Edge(source: string, target: string, strength: real, substitutable: bool, group: Option<string>) {
    // A missing group and the empty string both count as no group.
    predicate HasGroup() { group.Some? && group.value != "" }
  }

  datatype DependencyGraph = DependencyGraph(nodes: seq<Node>, edges: seq<Edge>)

  function Ids(g: DependencyGraph): set<string> { set n | n in g.nodes :: n.id }

  // What the graph's validator and field bounds enforce.
  ghost predicate Valid(g: DependencyGraph) {
    && (forall i, j :: 0 <= i < j < |g.nodes| ==> g.nodes[i].id != g.nodes[j].id)
    && (forall n :: n in g.nodes ==> IsScore(n.criticality))
    && (forall e :: e in g.edges ==> e.source in Ids(g) && e.target in Ids(g) && IsScore(e.strength))
  }

  // The edges that leave u, in list order.
  function Outgoing(edges: seq<Edge>, u: string): (r: seq<Edge>)
    ensures forall e :: e in r <==> e in edges && e.source == u
  {
    if edges == [] then []
    else if edges[0].source == u then [edges[0]] + Outgoing(edges[1..], u)
    else Outgoing(edges[1..], u)
  }

  predicate HasEdge(g: DependencyGraph, u: string, v: string) {
    exists e :: e in g.edges && e.source == u && e.target == v
  }

  // Every two consecutive nodes are joined by an edge.
  ghost predicate IsWalk(g: DependencyGraph, w: seq<string>) {
    w != [] && forall i :: 0 <= i < |w| - 1 ==> HasEdge(g, w[i], w[i + 1])
  }
}
