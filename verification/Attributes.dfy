// Which attributes count as shared: the ten that betray a common backhaul, gateway, supply or
// jurisdiction, and no other.
module Attributes {
  import opened Graph
  import opened Sets
  import opened Upstream
  import opened Independence
  import opened SharedLinks

  // The id under which an attribute of n is recorded.
  predicate Betrays(n: Node, key: string, id: string) {
    && (key == "gateway" || key == "ground_station" || key == "backhaul_provider" || key == "transit_provider"
        || key == "power_source" || key == "power_grid" || key == "jurisdiction" || key == "satellite_provider"
        || key == "upstream_supplier" || key == "port_terminal")
    && key in n.attributes && id == key + "/" + n.attributes[key]
  }

  lemma KeysListed(key: string)
    ensures key in AttributeKeys() <==>
      key == "gateway" || key == "ground_station" || key == "backhaul_provider" || key == "transit_provider"
      || key == "power_source" || key == "power_grid" || key == "jurisdiction" || key == "satellite_provider"
      || key == "upstream_supplier" || key == "port_terminal"
  {
    var ks := AttributeKeys();
    assert ks[0] == "gateway" && ks[1] == "ground_station" && ks[2] == "backhaul_provider" && ks[3] == "transit_provider";
    assert ks[4] == "power_source" && ks[5] == "power_grid" && ks[6] == "jurisdiction" && ks[7] == "satellite_provider";
    assert ks[8] == "upstream_supplier" && ks[9] == "port_terminal" && |ks| == 10;
    if key in ks { var i :| 0 <= i < 10 && ks[i] == key; }
  }

  lemma NodeIdMeans(n: Node, id: string)
    ensures id in NodeAttributeIds(n) <==> exists key :: Betrays(n, key, id)
  {
    forall key ensures key in AttributeKeys() && key in n.attributes && id == AttributeId(key, n.attributes[key]) <==> Betrays(n, key, id) {
      KeysListed(key);
      hide AttributeKeys;
    }
    hide AttributeKeys, Betrays;
  }

  // A provider has exactly the ids of the ten attributes of its nodes.
  lemma AttributeIdMeans(g: DependencyGraph, p: string, id: string)
    ensures id in AttributeIds(g, p) <==> exists n, key :: n in g.nodes && n.id == p && Betrays(n, key, id)
  {
    hide NodeAttributeIds, Betrays;
    if id in AttributeIds(g, p) {
      var n :| n in g.nodes && n.id == p && id in NodeAttributeIds(n);
      NodeIdMeans(n, id);
      var key :| Betrays(n, key, id);
    }
    if n, key :| n in g.nodes && n.id == p && Betrays(n, key, id) { NodeIdMeans(n, id); }
  }

  // Providers whose nodes agree on one of the ten attributes use its id.
  lemma AgreeingProviders(g: DependencyGraph, pids: seq<string>, n: Node, m: Node, key: string, id: string)
    requires n in g.nodes && m in g.nodes && n.id in pids && m.id in pids && n.id != m.id
    requires Betrays(n, key, id) && Betrays(m, key, id)
    ensures n.id in AttributeUsers(g, pids, id) && m.id in AttributeUsers(g, pids, id) && |AttributeUsers(g, pids, id)| > 1
  {
    hide AttributeIds, Betrays;
    AttributeIdMeans(g, n.id, id);
    AttributeIdMeans(g, m.id, id);
    TwoMembers(AttributeUsers(g, pids, id), n.id, m.id);
  }

  // They are linked unless that id is an upstream node of several providers.
  lemma AgreeingLinked(g: DependencyGraph, pids: seq<string>, deps: Shared, n: Node, m: Node, key: string, id: string)
    requires IsShared(g, pids, deps)
    requires n in g.nodes && m in g.nodes && n.id in pids && m.id in pids && n.id != m.id
    requires Betrays(n, key, id) && Betrays(m, key, id)
    ensures |UpstreamUsers(g, pids, id)| <= 1 ==> Linked(deps, n.id, m.id)
  {
    hide AttributeUsers, UpstreamUsers, Betrays, IsShared, Linked;
    AgreeingProviders(g, pids, n, m, key, id);
    LinkedIff(g, pids, deps, n.id, m.id);
    if |UpstreamUsers(g, pids, id)| <= 1 { assert ShareFreeAttribute(g, pids, n.id, m.id, id); }
  }

  // Two providers without edges that agree on one of the ten attributes count as one.
  lemma AgreeingPairIsOne(g: DependencyGraph, deps: Shared, n: Node, m: Node, key: string, id: string)
    requires IsShared(g, [n.id, m.id], deps) && g.edges == []
    requires n in g.nodes && m in g.nodes && n.id != m.id && Betrays(n, key, id) && Betrays(m, key, id)
    ensures |Components(deps, [n.id, m.id])| == 1
  {
    var pids := [n.id, m.id];
    NoEdgesNoUsers(g, pids, id);
    hide UpstreamUsers, Betrays, IsShared, Linked, Connected, Components;
    assert n.id in pids && m.id in pids;
    AgreeingLinked(g, pids, deps, n, m, key, id);
    LinkedConnects(deps, n.id, m.id);
    OneComponent(deps, n.id, m.id);
  }

  lemma OneComponent(deps: Shared, p: string, q: string)
    requires Connected(deps, p, q)
    ensures |Components(deps, [p, q])| == 1
  {
    hide Connected, Component;
    assert p in [p, q] && q in [p, q];
    ConnectedIffSameComponent(deps, [p, q], p, q);
    assert Components(deps, [p, q]) == {Component(deps, [p, q], p)};
  }

  lemma NoEdgesNoUsers(g: DependencyGraph, pids: seq<string>, id: string)
    requires g.edges == []
    ensures UpstreamUsers(g, pids, id) == {}
  {
    forall p ensures !IsUpstream(g, id, p) { NothingFeeds(g, id, p); }
    hide IsUpstream;
  }
}
