// When providers count as sharing something: the exact condition for a recorded link,
// and a clash of ids that costs one.
module SharedLinks {
  import opened Wrappers
  import opened Graph
  import opened Sets
  import opened Upstream
  import opened Independence

  // Two providers have an upstream node or an attribute value in common.
  ghost predicate ShareSomething(g: DependencyGraph, pids: seq<string>, p: string, q: string) {
    exists id :: ShareUpstream(g, pids, p, q, id) || ShareAttribute(g, pids, p, q, id)
  }

  ghost predicate ShareUpstream(g: DependencyGraph, pids: seq<string>, p: string, q: string, id: string) {
    p in UpstreamUsers(g, pids, id) && q in UpstreamUsers(g, pids, id)
  }

  ghost predicate ShareAttribute(g: DependencyGraph, pids: seq<string>, p: string, q: string, id: string) {
    p in AttributeUsers(g, pids, id) && q in AttributeUsers(g, pids, id)
  }

  // No shared upstream node has the attribute's id.
  ghost predicate ShareFreeAttribute(g: DependencyGraph, pids: seq<string>, p: string, q: string, id: string) {
    ShareAttribute(g, pids, p, q, id) && |UpstreamUsers(g, pids, id)| <= 1
  }

  // A shared attribute is recorded with its providers unless a shared upstream
  // node of the same name has other users.
  lemma AttributeRecordedIff(g: DependencyGraph, pids: seq<string>, deps: Shared, id: string)
    requires IsShared(g, pids, deps) && |AttributeUsers(g, pids, id)| > 1
    ensures (id in deps && deps[id] == AttributeUsers(g, pids, id))
            <==> |UpstreamUsers(g, pids, id)| <= 1 || UpstreamUsers(g, pids, id) == AttributeUsers(g, pids, id)
  {
    hide UpstreamUsers, AttributeUsers;
  }

  // Two providers are linked exactly when they share an upstream node, or an attribute
  // whose id is not also an upstream node with several users.
  lemma LinkedIff(g: DependencyGraph, pids: seq<string>, deps: Shared, p: string, q: string)
    requires IsShared(g, pids, deps) && p != q
    ensures Linked(deps, p, q) <==> exists id :: ShareUpstream(g, pids, p, q, id) || ShareFreeAttribute(g, pids, p, q, id)
  {
    hide UpstreamUsers, AttributeUsers;
    if id :| ShareUpstream(g, pids, p, q, id) || ShareFreeAttribute(g, pids, p, q, id) {
      if ShareUpstream(g, pids, p, q, id) { TwoMembers(UpstreamUsers(g, pids, id), p, q); }
      TwoMembers(Users(g, pids, id), p, q);
      assert id in deps;
    }
    if Linked(deps, p, q) {
      var id :| id in deps && p in deps[id] && q in deps[id];
      assert ShareUpstream(g, pids, p, q, id) || ShareFreeAttribute(g, pids, p, q, id);
    }
  }

  // Hence providers that share something lose their link exactly when they share no upstream
  // node and every attribute they share has an id that is taken.
  lemma LinkLostIff(g: DependencyGraph, pids: seq<string>, deps: Shared, p: string, q: string)
    requires IsShared(g, pids, deps) && p != q && ShareSomething(g, pids, p, q)
    ensures !Linked(deps, p, q) <==>
            forall id :: !ShareUpstream(g, pids, p, q, id) && (ShareAttribute(g, pids, p, q, id) ==> |UpstreamUsers(g, pids, id)| > 1)
  {
    LinkedIff(g, pids, deps, p, q);
    hide UpstreamUsers, AttributeUsers, IsShared, Linked;
    assert forall id :: ShareFreeAttribute(g, pids, p, q, id) <==> ShareAttribute(g, pids, p, q, id) && |UpstreamUsers(g, pids, id)| <= 1;
  }

  // As long as no name is both a shared upstream node and a shared attribute, two
  // providers are linked exactly when they share something.
  lemma LinkedIffShareSomething(g: DependencyGraph, pids: seq<string>, deps: Shared, p: string, q: string)
    requires IsShared(g, pids, deps) && p != q
    requires forall id :: |UpstreamUsers(g, pids, id)| <= 1 || |AttributeUsers(g, pids, id)| <= 1
    ensures Linked(deps, p, q) <==> ShareSomething(g, pids, p, q)
  {
    LinkedIff(g, pids, deps, p, q);
    hide UpstreamUsers, AttributeUsers, IsShared, Linked;
    forall id | ShareAttribute(g, pids, p, q, id) ensures ShareFreeAttribute(g, pids, p, q, id) {
      TwoMembers(AttributeUsers(g, pids, id), p, q);
    }
  }

  // ---------- A clash that costs a link ----------

  lemma IsolatedConnected(deps: Shared, p: string, q: string)
    requires (forall r :: !Linked(deps, p, r)) && Connected(deps, p, q)
    ensures p == q
  {
    var w :| IsLinkWalk(deps, w) && w[0] == p && w[|w| - 1] == q;
    hide Linked, IsLinkWalk;
    if |w| > 1 { FirstLink(deps, w); }
  }

  lemma FirstLink(deps: Shared, w: seq<string>)
    requires IsLinkWalk(deps, w) && |w| > 1
    ensures Linked(deps, w[0], w[1])
  {
    hide Linked;
  }

  // Here c and d share the gateway x, but the id is taken by an upstream node of a and b:
  // neither is connected to anything, and three independent providers are counted.
  lemma ClashLosesLink(deps: Shared)
    requires IsShared(ClashGraph(), Providers(), deps)
    ensures ShareSomething(ClashGraph(), Providers(), "c", "d") && !Connected(deps, "c", "d")
    ensures Components(deps, Providers()) == {{"a", "b"}, {"c"}, {"d"}} && |Components(deps, Providers())| == 3
  {
    ClashUsers();
    ClashLinks(deps);
    assert ShareAttribute(ClashGraph(), Providers(), "c", "d", "gateway/x");
    hide UpstreamUsers, AttributeUsers, ClashGraph, IsShared, ShareAttribute, ShareUpstream, Linked;
    forall p, q | p in {"c", "d"} && Connected(deps, p, q) ensures p == q { IsolatedConnected(deps, p, q); }
    ClashComponents(deps);
  }

  // c and d have no recorded dependency, a and b have the gateway.
  lemma ClashLinks(deps: Shared)
    requires IsShared(ClashGraph(), Providers(), deps)
    ensures (forall r :: !Linked(deps, "c", r)) && (forall r :: !Linked(deps, "d", r)) && Linked(deps, "a", "b")
  {
    var g, pids := ClashGraph(), Providers();
    ClashUsers();
    hide UpstreamUsers, AttributeUsers, ClashGraph, Providers;
    TwoMembers(UpstreamUsers(g, pids, "gateway/x"), "a", "b");
    assert "gateway/x" in deps;
    forall id | id in deps ensures "c" !in deps[id] && "d" !in deps[id] {
      if id != "gateway/x" { assert "c" !in AttributeUsers(g, pids, id) && "d" !in AttributeUsers(g, pids, id); }
    }
  }

  lemma ClashComponents(deps: Shared)
    requires Linked(deps, "a", "b")
    requires forall p, q :: p in {"c", "d"} && Connected(deps, p, q) ==> p == q
    ensures Components(deps, Providers()) == {{"a", "b"}, {"c"}, {"d"}} && |Components(deps, Providers())| == 3
  {
    hide Connected, Linked;
    assert Providers()[0] == "a" && Providers()[1] == "b" && Providers()[2] == "c" && Providers()[3] == "d";
    LinkedConnects(deps, "a", "b");
    ConnectedSymmetric(deps, "a", "b");
    forall p ensures Connected(deps, p, p) { ConnectedSelf(deps, p); }
    forall p, q | Connected(deps, p, q) ensures Connected(deps, q, p) { ConnectedSymmetric(deps, p, q); }
    assert Component(deps, Providers(), "a") == {"a", "b"};
    assert Component(deps, Providers(), "b") == {"a", "b"};
    assert Component(deps, Providers(), "c") == {"c"};
    assert Component(deps, Providers(), "d") == {"d"};
    hide Component;
    ThreeComponents(deps);
  }

  lemma ThreeComponents(deps: Shared)
    requires Component(deps, Providers(), "a") == Component(deps, Providers(), "b") == {"a", "b"}
    requires Component(deps, Providers(), "c") == {"c"} && Component(deps, Providers(), "d") == {"d"}
    ensures Components(deps, Providers()) == {{"a", "b"}, {"c"}, {"d"}} && |Components(deps, Providers())| == 3
  {
    hide Component;
    var all := Components(deps, Providers());
    assert "a" in Providers() && "c" in Providers() && "d" in Providers() by {
      assert Providers()[0] == "a" && Providers()[2] == "c" && Providers()[3] == "d";
    }
    forall s | s in all ensures s in {{"a", "b"}, {"c"}, {"d"}} {
      var p :| p in Providers() && s == Component(deps, Providers(), p);
    }
    assert all == {{"a", "b"}, {"c"}, {"d"}};
    assert "a" !in {"c"} && "a" !in {"d"} && "c" !in {"d"};
  }

  function Providers(): seq<string> { ["a", "b", "c", "d"] }

  function ClashGraph(): DependencyGraph {
    DependencyGraph(
      [Node("a", 0.5, map[]), Node("b", 0.5, map[]), Node("c", 0.5, map["gateway" := "x"]), Node("d", 0.5, map["gateway" := "x"]),
       Node("gateway/x", 0.5, map[])],
      [Edge("gateway/x", "a", 1.0, false, None), Edge("gateway/x", "b", 1.0, false, None)])
  }

  lemma NothingFeeds(g: DependencyGraph, u: string, p: string)
    requires forall e :: e in g.edges ==> e.target != p
    ensures !IsUpstream(g, u, p)
  {
    forall w | IsFeedWalk(g, w) && |w| >= 2 ensures w[|w| - 1] != p {
      var i := |w| - 2;
      assert Feeds(g, w[i], w[i + 1]);
    }
  }

  lemma EdgeIsUpstream(g: DependencyGraph, e: Edge)
    requires e in g.edges && e.source != e.target
    ensures IsUpstream(g, e.source, e.target)
  {
    assert Feeds(g, e.source, e.target);
    FeedsExtends(g, e.source, e.target, e.target);
  }

  // A provider whose only node has the one attribute gateway = x.
  lemma GatewayOnly(g: DependencyGraph, p: string, n: Node)
    requires n in g.nodes && n.id == p && n.attributes == map["gateway" := "x"]
    requires forall m :: m in g.nodes && m.id == p ==> m == n
    ensures AttributeIds(g, p) == {"gateway/x"}
  {
    assert "gateway" in AttributeKeys() by { assert AttributeKeys()[0] == "gateway"; }
    assert AttributeId("gateway", "x") == "gateway/x";
    hide AttributeKeys, AttributeId;
    assert NodeAttributeIds(n) == {"gateway/x"};
    hide NodeAttributeIds;
  }

  lemma ClashUsers()
    ensures var g, pids := ClashGraph(), Providers();
            && "a" in UpstreamUsers(g, pids, "gateway/x") && "b" in UpstreamUsers(g, pids, "gateway/x")
            && (forall id :: "c" !in UpstreamUsers(g, pids, id) && "d" !in UpstreamUsers(g, pids, id))
            && (forall id :: "c" in AttributeUsers(g, pids, id) <==> id == "gateway/x")
            && (forall id :: "d" in AttributeUsers(g, pids, id) <==> id == "gateway/x")
  {
    var g, pids := ClashGraph(), Providers();
    hide AttributeIds, IsUpstream;
    assert pids[0] == "a" && pids[1] == "b" && pids[2] == "c" && pids[3] == "d";
    EdgeIsUpstream(g, g.edges[0]);
    EdgeIsUpstream(g, g.edges[1]);
    forall id ensures !IsUpstream(g, id, "c") { NothingFeeds(g, id, "c"); }
    forall id ensures !IsUpstream(g, id, "d") { NothingFeeds(g, id, "d"); }
    GatewayOnly(g, "c", g.nodes[2]);
    GatewayOnly(g, "d", g.nodes[3]);
  }
}
