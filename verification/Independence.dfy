// How many declared providers are really independent: providers that share an
// upstream node or an attribute value collapse into one cluster.
module Independence {
  import opened Text
  import opened Graph
  import opened Upstream
  import opened Clusters

  // Attributes that betray a common backhaul, gateway, supply or jurisdiction.
  function AttributeKeys(): seq<string> {
    ["gateway", "ground_station", "backhaul_provider", "transit_provider", "power_source",
     "power_grid", "jurisdiction", "satellite_provider", "upstream_supplier", "port_terminal"]
  }

  function AttributeId(key: string, val: string): string { key + "/" + val }

  // The attribute ids of one node.
  function NodeAttributeIds(n: Node): set<string> {
    set key | key in AttributeKeys() && key in n.attributes :: AttributeId(key, n.attributes[key])
  }

  function AttributeIds(g: DependencyGraph, p: string): set<string> {
    set n, id | n in g.nodes && n.id == p && id in NodeAttributeIds(n) :: id
  }

  // Recorded dependencies: an id and the providers that share it.
  type Shared = map<string, set<string>>

  ghost function UpstreamUsers(g: DependencyGraph, pids: seq<string>, u: string): set<string> {
    set p | p in pids && IsUpstream(g, u, p)
  }

  function AttributeUsers(g: DependencyGraph, pids: seq<string>, id: string): set<string> {
    set p | p in pids && id in AttributeIds(g, p)
  }

  // The providers recorded under an id: an upstream node shared by several hides an
  // attribute of the same name.
  ghost function Users(g: DependencyGraph, pids: seq<string>, id: string): set<string> {
    if |UpstreamUsers(g, pids, id)| > 1 then UpstreamUsers(g, pids, id) else AttributeUsers(g, pids, id)
  }

  ghost predicate IsShared(g: DependencyGraph, pids: seq<string>, deps: Shared) {
    forall id :: (id in deps <==> |Users(g, pids, id)| > 1) && (id in deps ==> deps[id] == Users(g, pids, id))
  }

  method UpstreamSets(g: DependencyGraph, pids: seq<string>) returns (ups: map<string, set<string>>)
    ensures forall p :: p in ups <==> p in pids
    ensures forall p, u :: p in ups ==> (u in ups[p] <==> IsUpstream(g, u, p))
  {
    hide IsUpstream;
    ups := map[];
    for i := 0 to |pids|
      invariant forall p :: p in ups <==> p in pids[..i]
      invariant forall p, u :: p in ups ==> (u in ups[p] <==> IsUpstream(g, u, p))
    {
      var up := GetUpstreamDependencies(g, pids[i]);
      ups := ups[pids[i] := up];
      assert pids[..i + 1] == pids[..i] + [pids[i]];
    }
    assert pids[..|pids|] == pids;
  }

  // Upstream nodes that more than one provider depends on.
  method GraphShared(g: DependencyGraph, pids: seq<string>) returns (deps: Shared)
    ensures forall u :: u in deps <==> |UpstreamUsers(g, pids, u)| > 1
    ensures forall u :: u in deps ==> deps[u] == UpstreamUsers(g, pids, u)
  {
    hide IsUpstream;
    var ups := UpstreamSets(g, pids);
    var upstream := set p, u | p in ups && u in ups[p] :: u;
    deps := map u | u in upstream && |UsersIn(ups, u)| > 1 :: UsersIn(ups, u);
    forall u ensures UsersIn(ups, u) == UpstreamUsers(g, pids, u) {}
    forall u ensures u in deps <==> |UpstreamUsers(g, pids, u)| > 1 {
      if u !in upstream { assert UsersIn(ups, u) == {}; }
    }
  }

  function UsersIn(ups: map<string, set<string>>, u: string): set<string> {
    set p | p in ups && u in ups[p]
  }

  // Upstream nodes first, then attribute values whose id is not taken.
  method SharedDependencies(g: DependencyGraph, pids: seq<string>) returns (deps: Shared)
    ensures IsShared(g, pids, deps)
  {
    hide IsUpstream, AttributeIds, UpstreamUsers;
    deps := GraphShared(g, pids);
    var ids := set p, id | p in pids && id in AttributeIds(g, p) :: id;
    deps := deps + map id | id in ids && id !in deps && |AttributeUsers(g, pids, id)| > 1 :: AttributeUsers(g, pids, id);
    forall id ensures id !in ids ==> AttributeUsers(g, pids, id) == {} {}
  }

  // ---------- Components under shared dependencies ----------

  ghost predicate Linked(deps: Shared, p: string, q: string) {
    exists id :: id in deps && p in deps[id] && q in deps[id]
  }

  // Consecutive providers share a dependency.
  ghost predicate IsLinkWalk(deps: Shared, w: seq<string>) {
    w != [] && forall i :: 0 <= i < |w| - 1 ==> Linked(deps, w[i], w[i + 1])
  }

  ghost predicate Connected(deps: Shared, p: string, q: string) {
    exists w :: IsLinkWalk(deps, w) && w[0] == p && w[|w| - 1] == q
  }

  ghost function Component(deps: Shared, pids: seq<string>, p: string): set<string> {
    set q | q in pids && Connected(deps, p, q)
  }

  ghost function Components(deps: Shared, pids: seq<string>): set<set<string>> {
    set p | p in pids :: Component(deps, pids, p)
  }

  lemma ConnectedSelf(deps: Shared, p: string)
    ensures Connected(deps, p, p)
  {
    assert IsLinkWalk(deps, [p]);
  }

  lemma ConnectedTransitive(deps: Shared, p: string, q: string, r: string)
    requires Connected(deps, p, q) && Connected(deps, q, r)
    ensures Connected(deps, p, r)
  {
    hide Linked;
    var v :| IsLinkWalk(deps, v) && v[0] == p && v[|v| - 1] == q;
    var w :| IsLinkWalk(deps, w) && w[0] == q && w[|w| - 1] == r;
    var x := v + w[1..];
    forall i | 0 <= i < |x| - 1 ensures Linked(deps, x[i], x[i + 1]) {
      if i < |v| - 1 {
        assert Linked(deps, v[i], v[i + 1]);
      } else {
        assert Linked(deps, w[i - |v| + 1], w[i - |v| + 2]);
      }
    }
    assert IsLinkWalk(deps, x);
  }

  lemma ConnectedSymmetric(deps: Shared, p: string, q: string)
    requires Connected(deps, p, q)
    ensures Connected(deps, q, p)
  {
    hide Linked;
    var w :| IsLinkWalk(deps, w) && w[0] == p && w[|w| - 1] == q;
    var x := seq(|w|, i requires 0 <= i < |w| => w[|w| - 1 - i]);
    forall i | 0 <= i < |x| - 1 ensures Linked(deps, x[i], x[i + 1]) {
      assert Linked(deps, w[|w| - 2 - i], w[|w| - 2 - i + 1]);
      LinkedSymmetric(deps, x[i + 1], x[i]);
    }
    assert IsLinkWalk(deps, x);
  }

  lemma LinkedSymmetric(deps: Shared, p: string, q: string)
    requires Linked(deps, p, q)
    ensures Linked(deps, q, p)
  {
  }

  lemma LinkedConnects(deps: Shared, p: string, q: string)
    requires Linked(deps, p, q)
    ensures Connected(deps, p, q)
  {
    hide Linked;
    assert IsLinkWalk(deps, [p, q]);
  }

  // Names with one root are connected.
  ghost predicate RootsConnect(deps: Shared, root: map<string, string>) {
    forall p, q :: p in root && q in root && root[p] == root[q] ==> Connected(deps, p, q)
  }

  // All providers under one id have one root.
  ghost predicate OneRoot(root: map<string, string>, providers: set<string>) {
    forall p, q :: p in providers && q in providers ==> p in root && q in root && root[p] == root[q]
  }

  lemma MergeConnects(deps: Shared, root: map<string, string>, i: string, j: string)
    requires RootsConnect(deps, root) && i in root && j in root && Linked(deps, i, j)
    ensures RootsConnect(deps, Merged(root, root[i], root[j]))
  {
    hide Linked, Connected;
    var m := Merged(root, root[i], root[j]);
    LinkedConnects(deps, i, j);
    ConnectedSymmetric(deps, i, j);
    forall p, q | p in m && q in m && m[p] == m[q] ensures Connected(deps, p, q) {
      if root[p] != root[q] {
        if root[p] == root[i] {
          ConnectedTransitive(deps, p, i, j);
          ConnectedTransitive(deps, p, j, q);
        } else {
          ConnectedTransitive(deps, p, j, i);
          ConnectedTransitive(deps, p, i, q);
        }
      }
    }
  }

  // With all ids processed, one root is the same as being connected.
  lemma RootIffConnected(deps: Shared, root: map<string, string>, p: string, q: string)
    requires RootsConnect(deps, root) && forall id :: id in deps ==> OneRoot(root, deps[id])
    requires p in root && q in root
    ensures root[p] == root[q] <==> Connected(deps, p, q)
  {
    if Connected(deps, p, q) {
      var w :| IsLinkWalk(deps, w) && w[0] == p && w[|w| - 1] == q;
      WalkOneRoot(deps, root, w);
    }
  }

  lemma {:induction false} WalkOneRoot(deps: Shared, root: map<string, string>, w: seq<string>)
    requires IsLinkWalk(deps, w) && forall id :: id in deps ==> OneRoot(root, deps[id])
    requires w[0] in root && w[|w| - 1] in root
    ensures root[w[0]] == root[w[|w| - 1]]
    decreases |w|
  {
    if |w| > 1 {
      assert Linked(deps, w[0], w[1]);
      var id :| id in deps && w[0] in deps[id] && w[1] in deps[id];
      assert OneRoot(root, deps[id]);
      var rest := w[1..];
      forall i | 0 <= i < |rest| - 1 ensures Linked(deps, rest[i], rest[i + 1]) { assert Linked(deps, w[i + 1], w[i + 2]); }
      WalkOneRoot(deps, root, rest);
    }
  }

  ghost function Image<A, B>(names: set<A>, f: map<A, B>): set<B>
    requires names <= f.Keys
  {
    set p | p in names :: f[p]
  }

  lemma ImageSplit<A, B>(names: set<A>, rest: set<A>, f: map<A, B>, x: A)
    requires names <= f.Keys && x in names && rest <= names
    requires forall p :: p in names ==> (p in rest <==> f[p] != f[x])
    ensures |Image(names, f)| == |Image(rest, f)| + 1
  {
    assert Image(names, f) == Image(rest, f) + {f[x]} && f[x] !in Image(rest, f);
  }

  // Two labellings that tell the same names apart have equally many labels.
  lemma {:induction false} SameClasses<N, A, B>(names: set<N>, f: map<N, A>, h: map<N, B>)
    requires names <= f.Keys && names <= h.Keys
    requires forall p, q :: p in names && q in names ==> (f[p] == f[q] <==> h[p] == h[q])
    ensures |Image(names, f)| == |Image(names, h)|
  {
    if names == {} {
      assert Image(names, f) == {} && Image(names, h) == {};
    } else {
      hide Image;
      var x :| x in names;
      var rest := set p | p in names && f[p] != f[x];
      ImageSplit(names, rest, f, x);
      ImageSplit(names, rest, h, x);
      SameClasses(rest, f, h);
    }
  }

  // ---------- Counting ----------

  // Names with one root before have one root after.
  ghost predicate Coarser(before: map<string, string>, after: map<string, string>) {
    before.Keys == after.Keys && forall p, q :: p in before && q in before && before[p] == before[q] ==> after[p] == after[q]
  }

  lemma CoarserKeepsOneRoot(before: map<string, string>, after: map<string, string>, providers: set<string>)
    requires Coarser(before, after) && OneRoot(before, providers)
    ensures OneRoot(after, providers)
  {
  }

  lemma MergedCoarser(first: map<string, string>, root: map<string, string>, a: string, b: string)
    requires Coarser(first, root)
    ensures Coarser(first, Merged(root, a, b))
  {
  }

  lemma CoarserSelf(root: map<string, string>)
    ensures Coarser(root, root)
  {
  }

  // The providers listed so far have one root.
  ghost predicate PrefixOneRoot(root: map<string, string>, providers: seq<string>, n: nat) {
    forall k :: 0 <= k < n && k < |providers| ==> providers[k] in root && providers[0] in root && root[providers[k]] == root[providers[0]]
  }

  lemma PrefixGrows(root: map<string, string>, providers: seq<string>, i: nat, after: map<string, string>)
    requires PrefixOneRoot(root, providers, i + 1) && i + 1 < |providers|
    requires providers[i] in root && providers[i + 1] in root
    requires after == Merged(root, root[providers[i]], root[providers[i + 1]])
    ensures PrefixOneRoot(after, providers, i + 2)
  {
    assert root[providers[i]] == root[providers[0]];
  }

  lemma PrefixIsOneRoot(root: map<string, string>, providers: seq<string>, names: set<string>)
    requires PrefixOneRoot(root, providers, |providers|) && forall p :: p in providers <==> p in names
    ensures OneRoot(root, names)
  {
    forall p, q | p in names && q in names ensures p in root && q in root && root[p] == root[q] {
      var a :| 0 <= a < |providers| && providers[a] == p;
      var b :| 0 <= b < |providers| && providers[b] == q;
    }
  }

  // Unions the providers of one dependency in sorted order, pair by pair.
  method UnionAll(uf: UnionFind, ghost deps: Shared, ghost id: string, providers: seq<string>)
    requires uf.Inv() && id in deps && deps[id] <= uf.parent.Keys
    requires forall p :: p in providers <==> p in deps[id]
    requires RootsConnect(deps, uf.root)
    modifies uf
    ensures uf.Inv() && uf.parent.Keys == old(uf.parent.Keys) && RootsConnect(deps, uf.root)
    ensures OneRoot(uf.root, deps[id]) && Coarser(old(uf.root), uf.root)
  {
    hide Forest, RootsConnect, Linked, OneRoot, Coarser, Merged, PrefixOneRoot;
    KeysAgree(uf.parent, uf.root, uf.rank, uf.bound);
    CoarserSelf(uf.root);
    PrefixStart(uf.root, providers);
    var i := 0;
    while i + 1 < |providers|
      invariant 0 <= i && (i < |providers| || i == 0)
      invariant uf.Inv() && uf.parent.Keys == uf.root.Keys == old(uf.parent.Keys) && RootsConnect(deps, uf.root)
      invariant PrefixOneRoot(uf.root, providers, i + 1)
      invariant Coarser(old(uf.root), uf.root)
    {
      ghost var before := uf.root;
      SharersLinked(deps, id, providers[i], providers[i + 1]);
      MergeConnects(deps, before, providers[i], providers[i + 1]);
      MergedCoarser(old(uf.root), before, before[providers[i]], before[providers[i + 1]]);
      uf.Union(providers[i], providers[i + 1]);
      PrefixGrows(before, providers, i, uf.root);
      i := i + 1;
    }
    PrefixEnd(uf.root, providers, i + 1);
    PrefixIsOneRoot(uf.root, providers, deps[id]);
  }

  lemma PrefixStart(root: map<string, string>, providers: seq<string>)
    requires forall p :: p in providers ==> p in root
    ensures PrefixOneRoot(root, providers, 1)
  {
  }

  lemma PrefixEnd(root: map<string, string>, providers: seq<string>, n: nat)
    requires PrefixOneRoot(root, providers, n) && n >= |providers|
    ensures PrefixOneRoot(root, providers, |providers|)
  {
  }

  lemma KeysAgree(parent: map<string, string>, root: map<string, string>, rank: map<string, nat>, bound: nat)
    requires Forest(parent, root, rank, bound)
    ensures parent.Keys == root.Keys
  {
  }

  lemma SharersLinked(deps: Shared, id: string, p: string, q: string)
    requires id in deps && p in deps[id] && q in deps[id]
    ensures Linked(deps, p, q)
  {
  }

  // Unions along every recorded dependency, in the order of their ids.
  method BuildClusters(names: set<string>, deps: Shared) returns (uf: UnionFind)
    requires forall id :: id in deps ==> deps[id] <= names
    ensures fresh(uf) && uf.Inv() && uf.parent.Keys == names
    ensures RootsConnect(deps, uf.root) && forall id :: id in deps ==> OneRoot(uf.root, deps[id])
  {
    hide Forest, RootsConnect, Linked, Connected, Merged, OneRoot, SortedBy, Distinct, Coarser;
    uf := new UnionFind(names);
    AloneConnects(deps, uf.root);
    var ids := SortedSet(deps.Keys);
    for i := 0 to |ids|
      invariant uf.Inv() && uf.parent.Keys == names && RootsConnect(deps, uf.root)
      invariant forall k :: 0 <= k < i ==> OneRoot(uf.root, deps[ids[k]])
    {
      ghost var before := uf.root;
      var providers := SortedSet(deps[ids[i]]);
      UnionAll(uf, deps, ids[i], providers);
      forall k | 0 <= k < i ensures OneRoot(uf.root, deps[ids[k]]) { CoarserKeepsOneRoot(before, uf.root, deps[ids[k]]); }
    }
    forall id | id in deps ensures OneRoot(uf.root, deps[id]) {
      assert id in ids;
      var k :| 0 <= k < |ids| && ids[k] == id;
    }
  }

  // The number of roots is the number of connected components.
  method CountIndependent(pids: seq<string>, deps: Shared) returns (count: nat)
    requires forall id, p :: id in deps && p in deps[id] ==> p in pids
    ensures count == |Components(deps, pids)|
  {
    hide Forest, RootsConnect, Linked, Connected, OneRoot, Components;
    var names := set p | p in pids;
    var uf := BuildClusters(names, deps);
    ghost var root := uf.root;
    KeysAgree(uf.parent, uf.root, uf.rank, uf.bound);
    var roots := {};
    for i := 0 to |pids|
      invariant uf.Inv() && uf.parent.Keys == names && uf.root == root
      invariant roots == set k | 0 <= k < i :: root[pids[k]]
    {
      var r := uf.Find(pids[i]);
      roots := roots + {r};
    }
    count := |roots|;
    RootsCountComponents(deps, pids, root);
  }

  lemma AloneConnects(deps: Shared, root: map<string, string>)
    requires forall k :: k in root ==> root[k] == k
    ensures RootsConnect(deps, root)
  {
    forall p, q | p in root && q in root && root[p] == root[q] ensures Connected(deps, p, q) { ConnectedSelf(deps, p); }
  }

  lemma RootsCountComponents(deps: Shared, pids: seq<string>, root: map<string, string>)
    requires RootsConnect(deps, root) && forall id :: id in deps ==> OneRoot(root, deps[id])
    requires root.Keys == set p | p in pids
    ensures |set k | 0 <= k < |pids| :: root[pids[k]]| == |Components(deps, pids)|
  {
    hide RootsConnect, Connected, OneRoot, Component;
    var component := map p | p in root :: Component(deps, pids, p);
    forall p, q | p in root && q in root ensures root[p] == root[q] <==> component[p] == component[q] {
      RootIffConnected(deps, root, p, q);
      ConnectedIffSameComponent(deps, pids, p, q);
    }
    SameClasses(root.Keys, root, component);
    var roots, classes := Image(root.Keys, root), Image(root.Keys, component);
    assert forall p :: p in pids ==> p in root.Keys;
    assert (set k | 0 <= k < |pids| :: root[pids[k]]) == roots;
    forall c ensures c in classes <==> c in Components(deps, pids) {
      if c in classes { var p :| p in root.Keys && component[p] == c; assert p in pids; }
      if c in Components(deps, pids) { var p :| p in pids && Component(deps, pids, p) == c; assert component[p] in classes; }
    }
    assert classes == Components(deps, pids);
  }

  lemma ConnectedIffSameComponent(deps: Shared, pids: seq<string>, p: string, q: string)
    requires p in pids && q in pids
    ensures Connected(deps, p, q) <==> Component(deps, pids, p) == Component(deps, pids, q)
  {
    hide Connected;
    ConnectedSelf(deps, q);
    assert q in Component(deps, pids, q);
    if Connected(deps, p, q) {
      ConnectedSymmetric(deps, p, q);
      forall r | r in pids ensures Connected(deps, p, r) <==> Connected(deps, q, r) {
        if Connected(deps, p, r) { ConnectedTransitive(deps, q, p, r); }
        if Connected(deps, q, r) { ConnectedTransitive(deps, p, q, r); }
      }
    }
  }

  // ---------- The category report ----------

  datatype CategoryReport = CategoryReport(declared: nat, independent: nat, shared: Shared, valid: bool)

  method AnalyzeCategory(g: DependencyGraph, pids: seq<string>, minimum: int) returns (r: CategoryReport)
    ensures pids == [] ==> r == CategoryReport(0, 0, map[], false)
    ensures pids != [] ==>
      && IsShared(g, pids, r.shared) && r.declared == |pids|
      && r.independent == |Components(r.shared, pids)|
      && (r.valid <==> if |pids| >= minimum then r.independent >= minimum else r.independent == |pids|)
  {
    hide IsShared, Components;
    if pids == [] { return CategoryReport(0, 0, map[], false); }
    var shared := SharedDependencies(g, pids);
    SharersDeclared(g, pids, shared);
    var independent := CountIndependent(pids, shared);
    var valid := if |pids| >= minimum then independent >= minimum else independent == |pids|;
    return CategoryReport(|pids|, independent, shared, valid);
  }

  lemma SharersDeclared(g: DependencyGraph, pids: seq<string>, deps: Shared)
    requires IsShared(g, pids, deps)
    ensures forall id, p :: id in deps && p in deps[id] ==> p in pids
  {
  }
}
