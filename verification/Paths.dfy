// Stack enumeration of alternative paths. Parallel edges make the same path
// appear several times; the result is characterised path by path, with
// multiplicity.
module Paths {
  import opened Sets
  import opened Text
  import opened Graph

  datatype Item = Item(current: string, path: seq<string>, visited: set<string>)

  // ---------- Reference definition: which paths, and how often ----------

  // How many edges run from u to v.
  function Parallel(edges: seq<Edge>, u: string, v: string): nat {
    if edges == [] then 0
    else (if edges[0].source == u && edges[0].target == v then 1 else 0) + Parallel(edges[1..], u, v)
  }

  // The number of ways to pick an edge for every hop of p.
  function Ways(edges: seq<Edge>, p: seq<string>): nat {
    if |p| <= 1 then 1 else Parallel(edges, p[0], p[1]) * Ways(edges, p[1..])
  }

  // A simple path from source to target whose later nodes avoid `failed`.
  ghost predicate IsAlternative(source: string, target: string, failed: set<string>, p: seq<string>) {
    && p != [] && p[0] == source && p[|p| - 1] == target && Distinct(p)
    && forall i :: 1 <= i < |p| ==> p[i] !in failed
  }

  ghost function Occurrences(g: DependencyGraph, source: string, target: string, failed: set<string>, p: seq<string>): nat {
    if IsAlternative(source, target, failed, p) then Ways(g.edges, p) else 0
  }

  ghost predicate NoParallelEdges(edges: seq<Edge>) {
    forall i, j :: 0 <= i < j < |edges| ==> edges[i].source != edges[j].source || edges[i].target != edges[j].target
  }

  lemma {:induction false} ParallelPositive(edges: seq<Edge>, u: string, v: string)
    ensures Parallel(edges, u, v) > 0 <==> exists e :: e in edges && e.source == u && e.target == v
    ensures NoParallelEdges(edges) ==> Parallel(edges, u, v) <= 1
  {
    if edges != [] {
      ParallelPositive(edges[1..], u, v);
      if exists e :: e in edges[1..] && e.source == u && e.target == v {
        var e :| e in edges[1..] && e.source == u && e.target == v;
        var k :| 0 <= k < |edges| - 1 && edges[1..][k] == e;
        assert edges[k + 1] == e && e in edges;
      }
      if exists e :: e in edges && e.source == u && e.target == v {
        var e :| e in edges && e.source == u && e.target == v;
        assert e == edges[0] || e in edges[1..];
      }
    }
  }

  lemma {:induction false} WaysIsWalk(g: DependencyGraph, p: seq<string>)
    requires p != []
    ensures Ways(g.edges, p) > 0 <==> IsWalk(g, p)
    ensures NoParallelEdges(g.edges) ==> Ways(g.edges, p) <= 1
  {
    if |p| > 1 {
      hide HasEdge;
      WaysIsWalk(g, p[1..]);
      assert HasEdge(g, p[0], p[1]) <==> Parallel(g.edges, p[0], p[1]) > 0 by { EdgeIsParallel(g, p[0], p[1]); }
      ParallelPositive(g.edges, p[0], p[1]);
      ProductSign(Parallel(g.edges, p[0], p[1]), Ways(g.edges, p[1..]));
      if IsWalk(g, p[1..]) && HasEdge(g, p[0], p[1]) {
        forall i | 0 <= i < |p| - 1 ensures HasEdge(g, p[i], p[i + 1]) {
          if i > 0 { assert HasEdge(g, p[1..][i - 1], p[1..][i]); }
        }
      }
      if IsWalk(g, p) {
        forall i | 0 <= i < |p| - 2 ensures HasEdge(g, p[1..][i], p[1..][i + 1]) {
          assert HasEdge(g, p[i + 1], p[i + 2]);
        }
      }
    }
  }

  lemma EdgeIsParallel(g: DependencyGraph, u: string, v: string)
    ensures HasEdge(g, u, v) <==> Parallel(g.edges, u, v) > 0
  {
    ParallelPositive(g.edges, u, v);
  }

  lemma ProductSign(a: nat, b: nat)
    ensures a * b > 0 <==> a > 0 && b > 0
    ensures a <= 1 && b <= 1 ==> a * b <= 1
  {
    if a > 0 && b > 0 { MulPositive(a, b); }
    if a == 0 || b == 0 { assert a * b == 0; }
    if a == 1 { assert a * b == b; }
  }

  // Without parallel edges every alternative walk occurs once and nothing else does.
  lemma SimpleGraphOnce(g: DependencyGraph, source: string, target: string, failed: set<string>, p: seq<string>)
    requires NoParallelEdges(g.edges)
    ensures Occurrences(g, source, target, failed, p)
            == if IsAlternative(source, target, failed, p) && IsWalk(g, p) then 1 else 0
  {
    if IsAlternative(source, target, failed, p) { WaysIsWalk(g, p); }
  }

  // ---------- What one stack item will still contribute ----------

  // How often the search below `path` yields path + rest.
  ghost function Completions(edges: seq<Edge>, target: string, failed: set<string>, path: seq<string>, rest: seq<string>): nat
    requires path != []
    decreases |rest|
  {
    var last := path[|path| - 1];
    if last == target then (if rest == [] then 1 else 0)
    else if rest == [] || rest[0] in path || rest[0] in failed then 0
    else Parallel(edges, last, rest[0]) * Completions(edges, target, failed, path + [rest[0]], rest[1..])
  }

  ghost function Yield(edges: seq<Edge>, target: string, failed: set<string>, path: seq<string>, p: seq<string>): nat
    requires path != []
  {
    if path <= p then Completions(edges, target, failed, path, p[|path|..]) else 0
  }

  // p continues `path` by nodes that are new and not failed, up to the target,
  // which it meets only at its end.
  ghost predicate Continues(target: string, failed: set<string>, path: seq<string>, rest: seq<string>)
    requires path != []
  {
    && Distinct(path + rest) && (path + rest)[|path + rest| - 1] == target
    && (forall i :: |path| - 1 <= i < |path + rest| - 1 ==> (path + rest)[i] != target)
    && (forall i :: 0 <= i < |rest| ==> rest[i] !in failed)
  }

  lemma {:induction false} CompletionsExact(edges: seq<Edge>, target: string, failed: set<string>, path: seq<string>, rest: seq<string>)
    requires path != [] && Distinct(path)
    ensures Completions(edges, target, failed, path, rest) ==
            if Continues(target, failed, path, rest) then Ways(edges, [path[|path| - 1]] + rest) else 0
    decreases |rest|
  {
    var last := path[|path| - 1];
    if rest == [] {
      assert path + rest == path;
    } else if last == target {
      assert (path + rest)[|path| - 1] == target;
    } else if rest[0] in path {
      var i :| 0 <= i < |path| && path[i] == rest[0];
      assert (path + rest)[i] == (path + rest)[|path|];
    } else {
      var next := path + [rest[0]];
      assert next + rest[1..] == path + rest;
      CompletionsExact(edges, target, failed, next, rest[1..]);
      assert [rest[0]] + rest[1..] == rest;
      assert ([last] + rest)[1..] == rest;
      assert (path + rest)[|path| - 1] == last;
    }
  }

  // The contribution of the first item is the reference count.
  lemma StartYields(g: DependencyGraph, source: string, target: string, failed: set<string>, p: seq<string>)
    ensures Yield(g.edges, target, failed, [source], p) == Occurrences(g, source, target, failed, p)
  {
    if [source] <= p {
      var rest := p[1..];
      assert p == [source] + rest;
      CompletionsExact(g.edges, target, failed, [source], rest);
      if IsAlternative(source, target, failed, p) {
        forall i | 0 <= i < |rest| ensures rest[i] !in failed { assert p[i + 1] !in failed; }
      }
      if Continues(target, failed, [source], rest) {
        forall i | 1 <= i < |p| ensures p[i] !in failed { assert rest[i - 1] !in failed; }
      }
    }
  }

  // ---------- The children of an item share out its contribution ----------

  function Children(edges: seq<Edge>, item: Item, failed: set<string>): seq<Item> {
    if edges == [] then []
    else if edges[0].source == item.current && edges[0].target !in item.visited && edges[0].target !in failed then
      [Item(edges[0].target, item.path + [edges[0].target], item.visited + {edges[0].target})]
      + Children(edges[1..], item, failed)
    else Children(edges[1..], item, failed)
  }

  ghost predicate Good(item: Item) {
    && item.path != [] && item.path[|item.path| - 1] == item.current && Distinct(item.path)
    && forall v :: v in item.visited <==> v in item.path
  }

  ghost function Total(edges: seq<Edge>, target: string, failed: set<string>, items: seq<Item>, p: seq<string>): nat
    requires forall it :: it in items ==> it.path != []
  {
    if items == [] then 0
    else Yield(edges, target, failed, items[0].path, p) + Total(edges, target, failed, items[1..], p)
  }

  // A child extends its parent by the target of one edge.
  ghost predicate ChildOf(edges: seq<Edge>, parent: Item, it: Item) {
    Good(it) && exists e :: e in edges && e.target !in parent.visited && it.visited == parent.visited + {e.target}
  }

  lemma {:induction false} ChildrenGood(edges: seq<Edge>, item: Item, failed: set<string>)
    requires Good(item)
    ensures forall it :: it in Children(edges, item, failed) ==> ChildOf(edges, item, it)
    ensures |Children(edges, item, failed)| <= |edges|
  {
    if edges != [] {
      ChildrenGood(edges[1..], item, failed);
      forall it | it in Children(edges, item, failed) ensures ChildOf(edges, item, it) {
        if it in Children(edges[1..], item, failed) {
          assert ChildOf(edges[1..], item, it);
        } else {
          assert edges[0] in edges;
        }
      }
    }
  }

  // What the node after `path` contributes to p, whichever edge led there.
  ghost function Hop(all: seq<Edge>, target: string, failed: set<string>, path: seq<string>, p: seq<string>): nat {
    if path < p && p[|path|] !in path && p[|path|] !in failed
    then Completions(all, target, failed, path + [p[|path|]], p[|path| + 1..]) else 0
  }

  // How many of the edges lead from u to the node that follows `path` in p.
  function HopEdges(edges: seq<Edge>, u: string, path: seq<string>, p: seq<string>): nat {
    if path < p then Parallel(edges, u, p[|path|]) else 0
  }

  lemma HopEdgesCons(edges: seq<Edge>, u: string, path: seq<string>, p: seq<string>)
    requires edges != []
    ensures HopEdges(edges, u, path, p) == HopEdges(edges[1..], u, path, p)
            + (if path < p && edges[0].source == u && edges[0].target == p[|path|] then 1 else 0)
  {
  }

  lemma {:induction false} ChildrenTotal(all: seq<Edge>, edges: seq<Edge>, target: string, failed: set<string>, item: Item, p: seq<string>)
    requires Good(item)
    requires forall it :: it in Children(edges, item, failed) ==> it.path != []
    ensures Total(all, target, failed, Children(edges, item, failed), p)
            == HopEdges(edges, item.current, item.path, p) * Hop(all, target, failed, item.path, p)
  {
    if edges != [] {
      hide Completions, Yield, Hop, HopEdges, Parallel;
      HopEdgesCons(edges, item.current, item.path, p);
      var e, rest := edges[0], Children(edges[1..], item, failed);
      var hop, n := Hop(all, target, failed, item.path, p), HopEdges(edges[1..], item.current, item.path, p);
      if e.source == item.current && e.target !in item.visited && e.target !in failed {
        var child := Item(e.target, item.path + [e.target], item.visited + {e.target});
        assert Children(edges, item, failed) == [child] + rest;
        assert ([child] + rest)[1..] == rest;
        assert forall it :: it in rest ==> it in Children(edges, item, failed);
        ChildrenTotal(all, edges[1..], target, failed, item, p);
        ChildYield(all, target, failed, item.path, e.target, p);
        Distribute(n, hop);
      } else {
        ChildrenTotal(all, edges[1..], target, failed, item, p);
        if e.source == item.current { BlockedHop(all, target, failed, item, e, p); }
      }
    }
  }

  lemma BlockedHop(all: seq<Edge>, target: string, failed: set<string>, item: Item, e: Edge, p: seq<string>)
    requires Good(item) && (e.target in item.visited || e.target in failed)
    ensures item.path < p && p[|item.path|] == e.target ==> Hop(all, target, failed, item.path, p) == 0
  {
  }

  lemma Distribute(n: nat, c: nat)
    ensures (1 + n) * c == c + n * c
  {
  }

  lemma ChildYield(all: seq<Edge>, target: string, failed: set<string>, path: seq<string>, next: string, p: seq<string>)
    requires path != [] && next !in path && next !in failed
    ensures Yield(all, target, failed, path + [next], p) ==
            if path < p && p[|path|] == next then Hop(all, target, failed, path, p) else 0
  {
    if path < p && p[|path|] == next { assert p[..|path| + 1] == path + [next]; }
  }

  // An item that has not arrived yields exactly what its children yield.
  lemma ExpandKeepsTotal(g: DependencyGraph, target: string, failed: set<string>, item: Item, p: seq<string>)
    requires Good(item) && item.current != target
    requires forall it :: it in Children(g.edges, item, failed) ==> it.path != []
    ensures Total(g.edges, target, failed, Children(g.edges, item, failed), p) == Yield(g.edges, target, failed, item.path, p)
  {
    hide Total, Parallel;
    ChildrenTotal(g.edges, g.edges, target, failed, item, p);
    if item.path < p {
      assert p[|item.path|..][0] == p[|item.path|] && p[|item.path|..][1..] == p[|item.path| + 1..];
    }
  }

  lemma ArrivedYield(g: DependencyGraph, target: string, failed: set<string>, item: Item, p: seq<string>)
    requires Good(item) && item.current == target
    ensures Yield(g.edges, target, failed, item.path, p) == if p == item.path then 1 else 0
  {
    if item.path <= p && p[|item.path|..] == [] { assert p == item.path; }
  }

  lemma {:induction false} TotalAppend(edges: seq<Edge>, target: string, failed: set<string>, a: seq<Item>, b: seq<Item>, p: seq<string>)
    requires forall it :: it in a + b ==> it.path != []
    ensures (forall it :: it in a ==> it.path != []) && (forall it :: it in b ==> it.path != [])
    ensures Total(edges, target, failed, a + b, p) == Total(edges, target, failed, a, p) + Total(edges, target, failed, b, p)
  {
    assert forall it :: it in a ==> it in a + b;
    assert forall it :: it in b ==> it in a + b;
    if a == [] {
      assert a + b == b;
    } else {
      assert (a + b)[1..] == a[1..] + b;
      assert forall it :: it in a[1..] + b ==> it in a + b;
      TotalAppend(edges, target, failed, a[1..], b, p);
    }
  }

  // ---------- Termination: a heavier base for shorter paths ----------

  function Power(base: nat, exponent: nat): nat {
    if exponent == 0 then 1 else base * Power(base, exponent - 1)
  }

  // A node set of size n bounds every path, so an item weighs base^(n - visited).
  ghost function Mass(base: nat, n: nat, items: seq<Item>): nat
    requires forall it :: it in items ==> |it.visited| <= n
  {
    if items == [] then 0 else Power(base, n - |items[0].visited|) + Mass(base, n, items[1..])
  }

  lemma {:induction false} MassAppend(base: nat, n: nat, a: seq<Item>, b: seq<Item>)
    requires forall it :: it in a + b ==> |it.visited| <= n
    ensures (forall it :: it in a ==> |it.visited| <= n) && (forall it :: it in b ==> |it.visited| <= n)
    ensures Mass(base, n, a + b) == Mass(base, n, a) + Mass(base, n, b)
  {
    assert forall it :: it in a ==> it in a + b;
    assert forall it :: it in b ==> it in a + b;
    if a == [] {
      assert a + b == b;
    } else {
      assert (a + b)[1..] == a[1..] + b;
      assert forall it :: it in a[1..] + b ==> it in a + b;
      MassAppend(base, n, a[1..], b);
    }
  }

  lemma {:induction false} MassUniform(base: nat, n: nat, k: nat, items: seq<Item>)
    requires k <= n && forall it :: it in items ==> |it.visited| == k
    ensures Mass(base, n, items) == |items| * Power(base, n - k)
  {
    if items != [] {
      assert forall it :: it in items[1..] ==> it in items;
      MassUniform(base, n, k, items[1..]);
      Distribute(|items| - 1, Power(base, n - k));
    }
  }

  lemma PowerPositive(base: nat, exponent: nat)
    requires base > 0
    ensures Power(base, exponent) > 0
  {
    if exponent > 0 {
      PowerPositive(base, exponent - 1);
      MulPositive(base, Power(base, exponent - 1));
    }
  }

  lemma MulPositive(a: nat, b: nat)
    requires a > 0 && b > 0
    ensures a * b > 0
  {
  }

  lemma MulLess(m: nat, base: nat, c: nat)
    requires m < base && c > 0
    ensures m * c < base * c
  {
  }

  // Every node that can stand on a path.
  function Universe(g: DependencyGraph, source: string): set<string> {
    {source} + set e | e in g.edges :: e.target
  }

  ghost predicate Fits(g: DependencyGraph, source: string, it: Item) {
    Good(it) && it.visited <= Universe(g, source)
  }

  lemma ChildFits(g: DependencyGraph, source: string, item: Item, it: Item)
    requires Fits(g, source, item) && ChildOf(g.edges, item, it)
    ensures Fits(g, source, it) && |it.visited| == |item.visited| + 1
  {
  }

  lemma ChildrenFit(g: DependencyGraph, source: string, failed: set<string>, item: Item)
    requires Fits(g, source, item)
    ensures var n := |Universe(g, source)|;
            && |item.visited| <= n && |Children(g.edges, item, failed)| <= |g.edges|
            && forall it :: it in Children(g.edges, item, failed) ==>
                 Fits(g, source, it) && |it.visited| == |item.visited| + 1 <= n
  {
    hide Universe, Good;
    SubsetSize(item.visited, Universe(g, source));
    ChildrenGood(g.edges, item, failed);
    forall it | it in Children(g.edges, item, failed)
      ensures Fits(g, source, it) && |it.visited| == |item.visited| + 1 <= |Universe(g, source)|
    {
      ChildFits(g, source, item, it);
      SubsetSize(it.visited, Universe(g, source));
    }
  }

  // Replacing an item by its children makes the stack lighter.
  lemma ExpandIsLighter(g: DependencyGraph, source: string, failed: set<string>, item: Item)
    requires Fits(g, source, item)
    ensures var n := |Universe(g, source)|;
            var children := Children(g.edges, item, failed);
            && (forall it :: it in children ==> Fits(g, source, it) && |it.visited| <= n)
            && |item.visited| <= n
            && Mass(|g.edges| + 1, n, children) < Power(|g.edges| + 1, n - |item.visited|)
  {
    hide Universe, Fits, Children;
    var n, base := |Universe(g, source)|, |g.edges| + 1;
    var children := Children(g.edges, item, failed);
    ChildrenFit(g, source, failed, item);
    if children == [] {
      PowerPositive(base, n - |item.visited|);
    } else {
      assert children[0] in children;
      var k := |item.visited| + 1;
      MassUniform(base, n, k, children);
      PowerPositive(base, n - k);
      MulLess(|children|, base, Power(base, n - k));
    }
  }

  // ---------- The search ----------

  // sorted(paths, key=len): shorter paths first, equal lengths in order.
  function InsertByLength(x: seq<string>, xs: seq<seq<string>>): seq<seq<string>> {
    if xs == [] then [x]
    else if |x| <= |xs[0]| then [x] + xs
    else [xs[0]] + InsertByLength(x, xs[1..])
  }

  lemma {:induction false} InsertByLengthElements(x: seq<string>, xs: seq<seq<string>>)
    ensures multiset(InsertByLength(x, xs)) == multiset{x} + multiset(xs)
  {
    if xs != [] {
      assert xs == [xs[0]] + xs[1..];
      InsertByLengthElements(x, xs[1..]);
    }
  }

  lemma {:induction false} InsertByLengthSorts(x: seq<string>, xs: seq<seq<string>>)
    requires ByLength(xs)
    ensures ByLength(InsertByLength(x, xs))
  {
    if xs != [] && |x| > |xs[0]| {
      InsertByLengthSorts(x, xs[1..]);
      var rest := InsertByLength(x, xs[1..]);
      InsertByLengthElements(x, xs[1..]);
      forall k | 0 <= k < |rest| ensures |rest[k]| >= |xs[0]| {
        assert rest[k] in multiset(rest);
        assert rest[k] == x || rest[k] in xs[1..];
      }
    }
  }

  ghost predicate ByLength(xs: seq<seq<string>>) {
    forall i, j :: 0 <= i < j < |xs| ==> |xs[i]| <= |xs[j]|
  }

  function SortByLength(xs: seq<seq<string>>): (r: seq<seq<string>>)
    ensures multiset(r) == multiset(xs) && ByLength(r)
  {
    if xs == [] then [] else
      assert xs == [xs[0]] + xs[1..];
      InsertByLengthElements(xs[0], SortByLength(xs[1..]));
      InsertByLengthSorts(xs[0], SortByLength(xs[1..]));
      InsertByLength(xs[0], SortByLength(xs[1..]))
  }

  // Pushes the items for the edges that leave the popped one, in list order.
  method PushChildren(g: DependencyGraph, item: Item, failed: set<string>, stack0: seq<Item>) returns (stack: seq<Item>)
    ensures stack == stack0 + Children(g.edges, item, failed)
  {
    stack := stack0;
    for i := 0 to |g.edges|
      invariant stack + Children(g.edges[i..], item, failed) == stack0 + Children(g.edges, item, failed)
    {
      var e := g.edges[i];
      assert g.edges[i..][0] == e && g.edges[i..][1..] == g.edges[i + 1..];
      if e.source == item.current && e.target !in item.visited && e.target !in failed {
        stack := stack + [Item(e.target, item.path + [e.target], item.visited + {e.target})];
      }
    }
  }

  // The result holds every alternative path exactly as often as there are ways
  // to pick its edges, nothing else, and in order of length.
  method FindAlternativePaths(g: DependencyGraph, source: string, target: string, failed: set<string>)
    returns (paths: seq<seq<string>>)
    ensures forall p :: multiset(paths)[p] == Occurrences(g, source, target, failed, p)
    ensures ByLength(paths)
  {
    hide Yield, Occurrences, Total, Children, Mass, Power;
    var found: seq<seq<string>> := [];
    var stack := [Item(source, [source], {source})];
    ghost var n, base := |Universe(g, source)|, |g.edges| + 1;
    StartState(g, source, target, failed);
    while stack != []
      invariant forall it :: it in stack ==> Fits(g, source, it) && |it.visited| <= n
      invariant forall it :: it in stack ==> it.path != []
      invariant forall p :: multiset(found)[p] + Total(g.edges, target, failed, stack, p) == Occurrences(g, source, target, failed, p)
      decreases Mass(base, n, stack)
    {
      var item := stack[|stack| - 1];
      ghost var rest := stack[..|stack| - 1];
      assert stack == rest + [item];
      PopState(g, source, target, failed, rest, item);
      stack := stack[..|stack| - 1];
      if item.current == target {
        ghost var was := found;
        found := found + [item.path];
        forall p ensures multiset(found)[p] + Total(g.edges, target, failed, stack, p) == Occurrences(g, source, target, failed, p) {
          ArrivedYield(g, target, failed, item, p);
        }
      } else {
        stack := PushChildren(g, item, failed, stack);
        PushState(g, source, target, failed, rest, item);
      }
    }
    EmptyTotal(g, target, failed);
    paths := SortByLength(found);
  }

  lemma EmptyTotal(g: DependencyGraph, target: string, failed: set<string>)
    ensures forall p :: Total(g.edges, target, failed, [], p) == 0
  {
  }

  lemma StartState(g: DependencyGraph, source: string, target: string, failed: set<string>)
    ensures var item := Item(source, [source], {source});
            && Fits(g, source, item) && |item.visited| <= |Universe(g, source)|
            && forall p :: Total(g.edges, target, failed, [item], p) == Occurrences(g, source, target, failed, p)
  {
    var item := Item(source, [source], {source});
    SubsetSize(item.visited, Universe(g, source));
    forall p ensures Total(g.edges, target, failed, [item], p) == Occurrences(g, source, target, failed, p) {
      StartYields(g, source, target, failed, p);
      assert Total(g.edges, target, failed, [item][1..], p) == 0;
    }
  }

  lemma PopState(g: DependencyGraph, source: string, target: string, failed: set<string>, rest: seq<Item>, item: Item)
    requires forall it :: it in rest + [item] ==> Fits(g, source, it) && |it.visited| <= |Universe(g, source)|
    requires forall it :: it in rest + [item] ==> it.path != []
    ensures Fits(g, source, item) && |item.visited| <= |Universe(g, source)|
    ensures forall it :: it in rest ==> Fits(g, source, it) && |it.visited| <= |Universe(g, source)| && it.path != []
    ensures forall p :: Total(g.edges, target, failed, rest + [item], p)
                        == Total(g.edges, target, failed, rest, p) + Yield(g.edges, target, failed, item.path, p)
    ensures Mass(|g.edges| + 1, |Universe(g, source)|, rest + [item])
            == Mass(|g.edges| + 1, |Universe(g, source)|, rest) + Power(|g.edges| + 1, |Universe(g, source)| - |item.visited|)
    ensures Power(|g.edges| + 1, |Universe(g, source)| - |item.visited|) > 0
  {
    hide Fits, Yield, Universe;
    assert item in rest + [item];
    assert forall it :: it in rest ==> it in rest + [item];
    var base, n := |g.edges| + 1, |Universe(g, source)|;
    MassAppend(base, n, rest, [item]);
    assert Mass(base, n, [item][1..]) == 0;
    PowerPositive(base, n - |item.visited|);
    forall p ensures Total(g.edges, target, failed, rest + [item], p)
                     == Total(g.edges, target, failed, rest, p) + Yield(g.edges, target, failed, item.path, p)
    {
      TotalAppend(g.edges, target, failed, rest, [item], p);
      assert Total(g.edges, target, failed, [item][1..], p) == 0;
    }
  }

  lemma PushState(g: DependencyGraph, source: string, target: string, failed: set<string>, rest: seq<Item>, item: Item)
    requires Fits(g, source, item) && |item.visited| <= |Universe(g, source)| && item.current != target
    requires forall it :: it in rest ==> Fits(g, source, it) && |it.visited| <= |Universe(g, source)| && it.path != []
    ensures var children := Children(g.edges, item, failed);
            var n := |Universe(g, source)|;
            && (forall it :: it in rest + children ==> Fits(g, source, it) && |it.visited| <= n && it.path != [])
            && (forall p :: Total(g.edges, target, failed, rest + children, p)
                            == Total(g.edges, target, failed, rest, p) + Yield(g.edges, target, failed, item.path, p))
            && Mass(|g.edges| + 1, n, rest + children)
               < Mass(|g.edges| + 1, n, rest) + Power(|g.edges| + 1, n - |item.visited|)
  {
    hide Yield, Universe, Mass, Power, Total, Children;
    var children := Children(g.edges, item, failed);
    ExpandIsLighter(g, source, failed, item);
    forall it | it in rest + children ensures Fits(g, source, it) && |it.visited| <= |Universe(g, source)| && it.path != [] {
      if it in children { assert Fits(g, source, it); }
    }
    MassAppend(|g.edges| + 1, |Universe(g, source)|, rest, children);
    forall p ensures Total(g.edges, target, failed, rest + children, p)
                     == Total(g.edges, target, failed, rest, p) + Yield(g.edges, target, failed, item.path, p)
    {
      TotalAppend(g.edges, target, failed, rest, children, p);
      ExpandKeepsTotal(g, target, failed, item, p);
    }
  }
}
