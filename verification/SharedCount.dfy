// The count of independent providers in a report, against the count under everything that
// providers share: it is never too low, and right exactly when no pair of sharers is kept apart.
module SharedCount {
  import opened Graph
  import opened Upstream
  import opened Independence
  import opened SharedLinks
  import Sets

  // A name for every upstream node and every attribute value, so that the two never clash.
  ghost function Names(g: DependencyGraph, pids: seq<string>): set<string> {
    (set e | e in g.edges :: "u" + e.source) + (set p, id | p in pids && id in AttributeIds(g, p) :: "a" + id)
  }

  ghost function UsersOf(g: DependencyGraph, pids: seq<string>, name: string): set<string> {
    if name == "" then {}
    else if name[0] == 'u' then UpstreamUsers(g, pids, name[1..])
    else AttributeUsers(g, pids, name[1..])
  }

  // All that providers share, with nothing hidden by anything else.
  ghost function Everything(g: DependencyGraph, pids: seq<string>): Shared {
    map name | name in Names(g, pids) :: UsersOf(g, pids, name)
  }

  // The components under chains of sharing something.
  ghost function ShareComponents(g: DependencyGraph, pids: seq<string>): set<set<string>> {
    Components(Everything(g, pids), pids)
  }

  // ---------- Links under everything ----------

  lemma UpstreamNamed(g: DependencyGraph, pids: seq<string>, id: string, p: string)
    requires p in UpstreamUsers(g, pids, id)
    ensures "u" + id in Names(g, pids)
  {
    assert IsUpstream(g, id, p);
    var w :| IsFeedWalk(g, w) && |w| >= 2 && w[0] == id && w[|w| - 1] == p;
    assert Feeds(g, w[0], w[1]);
    var e :| e in g.edges && e.source == id;
    hide AttributeIds;
  }

  lemma AttributeNamed(g: DependencyGraph, pids: seq<string>, id: string, p: string)
    requires p in AttributeUsers(g, pids, id)
    ensures "a" + id in Names(g, pids)
  {
    hide AttributeIds;
  }

  lemma NameParts(id: string)
    ensures ("u" + id)[0] == 'u' && ("u" + id)[1..] == id && ("a" + id)[0] == 'a' && ("a" + id)[1..] == id
  {
  }

  lemma EverythingLinks(g: DependencyGraph, pids: seq<string>, p: string, q: string)
    ensures Linked(Everything(g, pids), p, q) <==> ShareSomething(g, pids, p, q)
  {
    hide UpstreamUsers, AttributeUsers, Names;
    var all := Everything(g, pids);
    if Linked(all, p, q) {
      var name :| name in all && p in all[name] && q in all[name];
      var id := name[1..];
      assert ShareUpstream(g, pids, p, q, id) || ShareAttribute(g, pids, p, q, id);
    }
    if ShareSomething(g, pids, p, q) {
      var id :| ShareUpstream(g, pids, p, q, id) || ShareAttribute(g, pids, p, q, id);
      NameParts(id);
      if ShareUpstream(g, pids, p, q, id) {
        UpstreamNamed(g, pids, id, p);
        assert all["u" + id] == UpstreamUsers(g, pids, id);
      } else {
        AttributeNamed(g, pids, id, p);
        assert all["a" + id] == AttributeUsers(g, pids, id);
      }
    }
  }

  lemma RecordedShares(g: DependencyGraph, pids: seq<string>, deps: Shared, p: string, q: string)
    requires IsShared(g, pids, deps) && Linked(deps, p, q)
    ensures ShareSomething(g, pids, p, q)
  {
    hide UpstreamUsers, AttributeUsers;
    var id :| id in deps && p in deps[id] && q in deps[id];
    assert ShareUpstream(g, pids, p, q, id) || ShareAttribute(g, pids, p, q, id);
  }

  ghost predicate LinksWithin(deps: Shared, all: Shared) {
    forall p, q :: Linked(deps, p, q) ==> Connected(all, p, q)
  }

  // Chains of links are chains in any map whose links connect at least as much.
  lemma {:induction false} WalkConnects(deps: Shared, all: Shared, w: seq<string>)
    requires IsLinkWalk(deps, w) && LinksWithin(deps, all)
    ensures Connected(all, w[0], w[|w| - 1])
  {
    hide Linked, Connected;
    ConnectedSelf(all, w[0]);
    if |w| > 1 {
      var front := w[..|w| - 1];
      forall i | 0 <= i < |front| - 1 ensures Linked(deps, front[i], front[i + 1]) { assert Linked(deps, w[i], w[i + 1]); }
      WalkConnects(deps, all, front);
      assert Linked(deps, w[|w| - 2], w[|w| - 2 + 1]);
      ConnectedTransitive(all, w[0], w[|w| - 2], w[|w| - 1]);
    }
  }

  lemma ConnectsMore(deps: Shared, all: Shared, p: string, q: string)
    requires Connected(deps, p, q) && LinksWithin(deps, all)
    ensures Connected(all, p, q)
  {
    var w :| IsLinkWalk(deps, w) && w[0] == p && w[|w| - 1] == q;
    WalkConnects(deps, all, w);
  }

  // ---------- Counting labels ----------

  // Names that f tells apart may have one label under h, but never the other way round.
  ghost predicate Blurs<N, A, B>(names: set<N>, f: map<N, A>, h: map<N, B>) {
    && names <= f.Keys && names <= h.Keys
    && forall p, q :: p in names && q in names && f[p] == f[q] ==> h[p] == h[q]
  }

  // One class of h, with the classes of f in it.
  lemma OneClass<N, A, B>(names: set<N>, rest: set<N>, f: map<N, A>, h: map<N, B>, x: N)
    requires Blurs(names, f, h) && x in names && rest == set p | p in names && h[p] != h[x]
    ensures Blurs(rest, f, h) && |Image(names, h)| == |Image(rest, h)| + 1
    ensures forall p :: p in names && h[p] == h[x] ==> f[p] !in Image(rest, f)
    ensures Image(rest, f) <= Image(names, f)
  {
    ImageSplit(names, rest, h, x);
  }

  lemma {:induction false} FewerLabels<N, A, B>(names: set<N>, f: map<N, A>, h: map<N, B>)
    requires Blurs(names, f, h)
    ensures |Image(names, h)| <= |Image(names, f)|
  {
    if names == {} {
      assert Image(names, f) == {} && Image(names, h) == {};
    } else {
      var x :| x in names;
      var rest := set p | p in names && h[p] != h[x];
      OneClass(names, rest, f, h, x);
      FewerLabels(rest, f, h);
      assert Image(rest, f) + {f[x]} <= Image(names, f);
      Sets.SubsetSize(Image(rest, f) + {f[x]}, Image(names, f));
    }
  }

  lemma StrictlyFewerLabels<N, A, B>(names: set<N>, f: map<N, A>, h: map<N, B>, x: N, y: N)
    requires Blurs(names, f, h) && x in names && y in names && h[x] == h[y] && f[x] != f[y]
    ensures |Image(names, h)| < |Image(names, f)|
  {
    var rest := set p | p in names && h[p] != h[x];
    OneClass(names, rest, f, h, x);
    FewerLabels(rest, f, h);
    var both := Image(rest, f) + {f[x]};
    assert |both + {f[y]}| == |Image(rest, f)| + 2;
    assert both + {f[y]} <= Image(names, f);
    Sets.SubsetSize(both + {f[y]}, Image(names, f));
  }

  // ---------- The count ----------

  ghost function Labels(deps: Shared, pids: seq<string>): (r: map<string, set<string>>)
    ensures r.Keys == set p | p in pids
  {
    map p | p in pids :: Component(deps, pids, p)
  }

  lemma LabelsCount(deps: Shared, pids: seq<string>)
    ensures Image(Labels(deps, pids).Keys, Labels(deps, pids)) == Components(deps, pids)
  {
    hide Component;
    var labels := Labels(deps, pids);
    forall c ensures c in Image(labels.Keys, labels) <==> c in Components(deps, pids) {
      if c in Components(deps, pids) {
        var p :| p in pids && Component(deps, pids, p) == c;
        assert p in labels.Keys && labels[p] == c;
      }
    }
  }

  lemma LabelsBlur(deps: Shared, all: Shared, pids: seq<string>)
    requires LinksWithin(deps, all)
    ensures Blurs(Labels(deps, pids).Keys, Labels(deps, pids), Labels(all, pids))
  {
    hide Linked, Connected, Component;
    forall p, q | p in pids && q in pids && Component(deps, pids, p) == Component(deps, pids, q)
      ensures Component(all, pids, p) == Component(all, pids, q)
    {
      ConnectedIffSameComponent(deps, pids, p, q);
      ConnectsMore(deps, all, p, q);
      ConnectedIffSameComponent(all, pids, p, q);
    }
  }

  // Where one map links at least as much as another, it has at most as many components.
  lemma FewerComponents(deps: Shared, all: Shared, pids: seq<string>)
    requires LinksWithin(deps, all)
    ensures |Components(all, pids)| <= |Components(deps, pids)|
  {
    hide Linked, Connected, Components;
    LabelsBlur(deps, all, pids);
    LabelsCount(deps, pids);
    LabelsCount(all, pids);
    FewerLabels(Labels(deps, pids).Keys, Labels(deps, pids), Labels(all, pids));
  }

  // And strictly fewer as soon as it connects a pair that the other keeps apart.
  lemma StrictlyFewerComponents(deps: Shared, all: Shared, pids: seq<string>, x: string, y: string)
    requires LinksWithin(deps, all)
    requires x in pids && y in pids && Connected(all, x, y) && !Connected(deps, x, y)
    ensures |Components(all, pids)| < |Components(deps, pids)|
  {
    hide Linked, Connected, Components, Component;
    LabelsBlur(deps, all, pids);
    LabelsCount(deps, pids);
    LabelsCount(all, pids);
    ConnectedIffSameComponent(deps, pids, x, y);
    ConnectedIffSameComponent(all, pids, x, y);
    StrictlyFewerLabels(Labels(deps, pids).Keys, Labels(deps, pids), Labels(all, pids), x, y);
  }

  ghost predicate SharersConnected(g: DependencyGraph, pids: seq<string>, deps: Shared) {
    forall p, q :: ShareSomething(g, pids, p, q) ==> Connected(deps, p, q)
  }

  lemma SharersDeclared(g: DependencyGraph, pids: seq<string>, p: string, q: string)
    requires ShareSomething(g, pids, p, q)
    ensures p in pids && q in pids
  {
  }

  // On every graph the count in the report is at least the number of components under
  // everything shared, and equal exactly when all who share something are connected.
  lemma CountNeverTooLow(g: DependencyGraph, pids: seq<string>, deps: Shared)
    requires IsShared(g, pids, deps)
    ensures |ShareComponents(g, pids)| <= |Components(deps, pids)|
    ensures |ShareComponents(g, pids)| == |Components(deps, pids)| <==> SharersConnected(g, pids, deps)
  {
    hide IsShared, ShareSomething, Linked, Connected, Components, Everything;
    var all := Everything(g, pids);
    forall p, q ensures Linked(all, p, q) <==> ShareSomething(g, pids, p, q) { EverythingLinks(g, pids, p, q); }
    forall p, q | Linked(deps, p, q) ensures Connected(all, p, q) {
      RecordedShares(g, pids, deps, p, q);
      LinkedConnects(all, p, q);
    }
    FewerComponents(deps, all, pids);
    if SharersConnected(g, pids, deps) {
      FewerComponents(all, deps, pids);
    } else {
      var p, q :| ShareSomething(g, pids, p, q) && !Connected(deps, p, q);
      SharersDeclared(g, pids, p, q);
      LinkedConnects(all, p, q);
      StrictlyFewerComponents(deps, all, pids, p, q);
    }
  }

  // In the graph with the clash the report counts three where there are fewer.
  lemma ClashCountsTooMany(deps: Shared)
    requires IsShared(ClashGraph(), Providers(), deps)
    ensures |Components(deps, Providers())| == 3 && |ShareComponents(ClashGraph(), Providers())| < 3
  {
    ClashLosesLink(deps);
    CountNeverTooLow(ClashGraph(), Providers(), deps);
    hide IsShared, ShareSomething, Connected, Components, ShareComponents, ClashGraph;
    assert !SharersConnected(ClashGraph(), Providers(), deps);
  }
}
