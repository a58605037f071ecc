// How several causes of one failure combine. For a node that only failed nodes feed the impact
// is one less the product of what each edge spares, up to one epsilon for every edge.
module Causes {
  import opened Reals
  import opened Text
  import opened Graph
  import opened Propagation

  // Another member of the edge's group is healthy.
  ghost predicate Spare(g: DependencyGraph, failed: set<string>, e: Edge) {
    exists other :: other in g.edges && other.group == e.group && other.source != e.source && other.source !in failed
  }

  // The strength, a quarter of it for a substitutable edge of a named group with a spare.
  ghost function Carried(g: DependencyGraph, failed: set<string>, e: Edge): real {
    if e.substitutable && e.group.Some? && e.group.value != "" && Spare(g, failed, e) then e.strength * 0.25 else e.strength
  }

  // What v is spared by one edge.
  ghost function Kept(g: DependencyGraph, failed: set<string>, e: Edge, v: string): real {
    if e.target == v then 1.0 - Carried(g, failed, e) else 1.0
  }

  // The chance that no listed edge into v carries a failure of its source.
  ghost function SparedBy(g: DependencyGraph, failed: set<string>, es: seq<Edge>, v: string): real {
    if es == [] then 1.0 else Times(Kept(g, failed, es[0], v), SparedBy(g, failed, es[1..], v))
  }

  function One(e: Edge, v: string): nat { if e.target == v then 1 else 0 }

  // How many listed edges lead into v.
  function Into(es: seq<Edge>, v: string): nat { if es == [] then 0 else One(es[0], v) + Into(es[1..], v) }

  lemma WeightIsCarried(g: DependencyGraph, failed: set<string>, e: Edge)
    requires e in g.edges
    ensures Weight(g, failed, e) == Carried(g, failed, e)
  {
    if e.HasGroup() {
      var others := SubstituteMembers(g, e.group.value) - failed - {e.source};
      if Spare(g, failed, e) {
        var other :| other in g.edges && other.group == e.group && other.source != e.source && other.source !in failed;
        assert other.source in others;
      }
      if others != {} {
        var s :| s in others;
        var other :| other in g.edges && other.HasGroup() && other.group.value == e.group.value && other.source == s;
        assert other.group == e.group;
      }
    }
  }

  lemma CarriedIsScore(g: DependencyGraph, failed: set<string>, e: Edge)
    requires IsScore(e.strength)
    ensures IsScore(Carried(g, failed, e)) && forall v :: IsScore(Kept(g, failed, e, v))
  {
  }

  lemma ScoresMultiply(a: real, b: real)
    requires IsScore(a) && IsScore(b)
    ensures IsScore(Times(a, b))
  {
    UnitProduct(a, b, Times(a, b));
  }

  lemma {:induction false} SparedIsScore(g: DependencyGraph, failed: set<string>, es: seq<Edge>, v: string)
    requires forall e :: e in es ==> IsScore(e.strength)
    ensures IsScore(SparedBy(g, failed, es, v))
  {
    hide Kept, Times;
    if es != [] {
      SparedIsScore(g, failed, es[1..], v);
      CarriedIsScore(g, failed, es[0]);
      ScoresMultiply(Kept(g, failed, es[0], v), SparedBy(g, failed, es[1..], v));
    }
  }

  // ---------- One relaxation ----------

  function Missed(st: State, v: string): real { 1.0 - Prob(st.prob, v) }

  // x is y up to n epsilons from below.
  predicate Near(x: real, y: real, n: nat) { y <= x <= y + n as real * 0.000000001 }

  lemma CombineMisses(existing: real, propagated: real)
    ensures 1.0 - Combine(existing, propagated) == Times(1.0 - existing, 1.0 - propagated)
  {
  }

  lemma MissBounds(x: real, w: real, both: real)
    requires IsScore(x) && IsScore(w) && both == Times(1.0 - x, 1.0 - w)
    ensures 0.0 <= both <= 1.0 - x
  {
    UnitProduct(1.0 - x, 1.0 - w, both);
  }

  // An edge out of a failed node into v.
  lemma RelaxInto(g: DependencyGraph, failed: set<string>, e: Edge, st: State)
    requires e in g.edges && IsScore(e.strength) && e.source in st.path && IsScore(Prob(st.prob, e.target))
    ensures var s := Relax(g, failed, 1.0, e, st);
            Near(Missed(s, e.target), Times(Missed(st, e.target), 1.0 - Carried(g, failed, e)), 1)
  {
    WeightIsCarried(g, failed, e);
    CarriedIsScore(g, failed, e);
    var x, w := Prob(st.prob, e.target), Carried(g, failed, e);
    assert Propagated(g, failed, 1.0, e) == w;
    hide Carried, Weight, Propagated, Attenuation;
    CombineMisses(x, w);
    MissBounds(x, w, Times(1.0 - x, 1.0 - w));
    hide Combine, Times;
  }

  lemma RelaxElsewhere(g: DependencyGraph, failed: set<string>, p: real, e: Edge, st: State, v: string)
    requires e.source in st.path && e.target != v
    ensures Missed(Relax(g, failed, p, e, st), v) == Missed(st, v)
  {
    hide Combine, Propagated;
  }

  lemma NearJoin(miss: real, left: real, rest: real, miss1: real, last: real, m: nat, n: nat)
    requires IsScore(rest) && Near(miss1, Times(miss, left), m) && Near(last, Times(miss1, rest), n)
    ensures Near(last, Times(miss, Times(left, rest)), m + n)
  {
    var near, slack := Times(miss, left), m as real * 0.000000001;
    MonotoneProduct(rest, near, miss1, rest * near, rest * miss1);
    MonotoneProduct(rest, miss1, near + slack, rest * miss1, rest * (near + slack));
    assert slack >= 0.0;
    MonotoneProduct(slack, rest, 1.0, slack * rest, slack * 1.0);
    assert rest * (near + slack) == rest * near + slack * rest;
    assert Times(miss, Times(left, rest)) == rest * near;
    assert (m + n) as real * 0.000000001 == m as real * 0.000000001 + n as real * 0.000000001;
  }

  lemma NearSelf(miss: real)
    ensures Near(miss, Times(miss, 1.0), 0)
  {
  }

  // ---------- One turn ----------

  // The failed nodes still on the queue.
  function Waiting(failed: set<string>, queue: seq<string>): seq<string> {
    if queue == [] then []
    else (if queue[0] in failed then [queue[0]] else []) + Waiting(failed, queue[1..])
  }

  lemma {:induction false} WaitingLast(failed: set<string>, queue: seq<string>, u: string)
    requires u !in failed
    ensures Waiting(failed, queue + [u]) == Waiting(failed, queue)
  {
    if queue != [] {
      assert (queue + [u])[1..] == queue[1..] + [u];
      WaitingLast(failed, queue[1..], u);
    }
  }

  // A failed node never goes back on the queue.
  lemma RaiseWaits(g: DependencyGraph, failed: set<string>, reach: real, e: Edge, st: State, s: State)
    requires Inv(g, failed, st) && e.source in st.path && Raises(e, reach, st, s)
    ensures Waiting(failed, s.queue) == Waiting(failed, st.queue)
  {
    if s != st {
      assert e.target !in failed;
      WaitingLast(failed, st.queue, e.target);
    }
  }

  lemma EdgeFacts(g: DependencyGraph, failed: set<string>, st: State, e: Edge)
    requires Inv(g, failed, st) && e in g.edges
    ensures IsScore(e.strength) && IsScore(Prob(st.prob, e.target))
  {
  }

  lemma SparedCons(g: DependencyGraph, failed: set<string>, e: Edge, es: seq<Edge>, v: string)
    ensures SparedBy(g, failed, [e] + es, v) == Times(Kept(g, failed, e, v), SparedBy(g, failed, es, v))
    ensures Into([e] + es, v) == One(e, v) + Into(es, v)
  {
    hide Kept, Times, One;
    assert ([e] + es)[1..] == es;
  }

  // One edge of a failed node, whether it leads into v or not.
  lemma RelaxOne(g: DependencyGraph, failed: set<string>, e: Edge, st: State, v: string)
    requires e in g.edges && IsScore(e.strength) && e.source in st.path && IsScore(Prob(st.prob, e.target))
    ensures Near(Missed(Relax(g, failed, 1.0, e, st), v), Times(Missed(st, v), Kept(g, failed, e, v)), One(e, v))
  {
    hide Near, Times, Missed, Relax, Carried;
    if e.target == v {
      RelaxInto(g, failed, e, st);
    } else {
      RelaxElsewhere(g, failed, 1.0, e, st, v);
      NearSelf(Missed(st, v));
    }
  }

  lemma LeavesScores(g: DependencyGraph, failed: set<string>, st: State, cur: string, es: seq<Edge>)
    requires Inv(g, failed, st) && Leaves(g, cur, es)
    ensures forall e :: e in es ==> IsScore(e.strength)
  {
  }

  lemma JoinFirst(g: DependencyGraph, failed: set<string>, es: seq<Edge>, v: string, miss: real, miss1: real, last: real)
    requires es != [] && forall e :: e in es ==> IsScore(e.strength)
    requires Near(miss1, Times(miss, Kept(g, failed, es[0], v)), One(es[0], v))
    requires Near(last, Times(miss1, SparedBy(g, failed, es[1..], v)), Into(es[1..], v))
    ensures Near(last, Times(miss, SparedBy(g, failed, es, v)), Into(es, v))
  {
    hide Near, Kept, SparedBy, Into, Times, One;
    var e, rest := es[0], es[1..];
    SparedIsScore(g, failed, rest, v);
    SparedCons(g, failed, e, rest, v);
    assert es == [e] + rest;
    NearJoin(miss, Kept(g, failed, e, v), SparedBy(g, failed, rest, v), miss1, last, One(e, v), Into(rest, v));
  }

  // The edges of a failed node multiply what v is spared.
  lemma {:induction false} RelaxAllInto(g: DependencyGraph, failed: set<string>, sweep: Sweep, cur: string, es: seq<Edge>, st: State, v: string)
    requires Inv(g, failed, st) && cur in failed && cur in st.prob && Leaves(g, cur, es)
    ensures Near(Missed(RelaxAll(g, failed, sweep, 1.0, cur, es, st), v),
                 Times(Missed(st, v), SparedBy(g, failed, es, v)), Into(es, v))
    decreases |es|
  {
    if es == [] {
      NearSelf(Missed(st, v));
      hide Near, Missed, Times;
    } else {
      InvFacts(g, failed, st, cur);
      EdgeFacts(g, failed, st, es[0]);
      FailedIsOne(g, failed, st, cur);
      LeavesScores(g, failed, st, cur, es);
      assert es[0].source == cur;
      hide Inv, Near, Relax, RelaxAll, Missed, Kept, SparedBy, Into, Times, One, Prob, Potential, Grows, Leaves;
      var s := Relax(g, failed, 1.0, es[0], st);
      RelaxOne(g, failed, es[0], st, v);
      RelaxAllUnfolds(g, failed, sweep, 1.0, cur, es, st);
      RelaxAllInto(g, failed, sweep, cur, es[1..], s, v);
      JoinFirst(g, failed, es, v, Missed(st, v), Missed(s, v), Missed(RelaxAll(g, failed, sweep, 1.0, cur, es[1..], s), v));
    }
  }

  lemma {:induction false} RelaxAllElsewhere(g: DependencyGraph, failed: set<string>, sweep: Sweep, p: real, cur: string,
                                             es: seq<Edge>, st: State, v: string)
    requires Inv(g, failed, st) && cur in st.prob && IsScore(p) && Leaves(g, cur, es)
    requires forall e :: e in es ==> e.target != v
    ensures Missed(RelaxAll(g, failed, sweep, p, cur, es, st), v) == Missed(st, v)
    decreases |es|
  {
    if es != [] {
      InvFacts(g, failed, st, cur);
      assert es[0].source == cur && es[0].target != v;
      hide Inv, Relax, RelaxAll, Missed, Potential, Grows, Prob, Leaves;
      var q := if sweep.ByTarget? then p else st.prob[cur];
      RelaxElsewhere(g, failed, q, es[0], st, v);
      RelaxAllUnfolds(g, failed, sweep, p, cur, es, st);
      RelaxAllElsewhere(g, failed, sweep, p, cur, es[1..], Relax(g, failed, q, es[0], st), v);
    }
  }

  lemma {:induction false} RelaxAllWaits(g: DependencyGraph, failed: set<string>, sweep: Sweep, p: real, cur: string,
                                         es: seq<Edge>, st: State)
    requires Inv(g, failed, st) && cur in st.prob && IsScore(p) && Leaves(g, cur, es)
    ensures Waiting(failed, RelaxAll(g, failed, sweep, p, cur, es, st).queue) == Waiting(failed, st.queue)
    decreases |es|
  {
    if es != [] {
      InvFacts(g, failed, st, cur);
      hide Inv, Relax, RelaxAll, Raises, Waiting, Potential, Grows, Reach;
      var q := if sweep.ByTarget? then p else st.prob[cur];
      RelaxAllUnfolds(g, failed, sweep, p, cur, es, st);
      RelaxStep(g, failed, q, es[0], st);
      RaiseWaits(g, failed, Reach(g, failed, q, es[0]), es[0], st, Relax(g, failed, q, es[0], st));
      RelaxAllWaits(g, failed, sweep, p, cur, es[1..], Relax(g, failed, q, es[0], st));
    }
  }

  // ---------- The order of the edges does not matter ----------

  lemma Swap(a: real, b: real, c: real)
    ensures Times(a, Times(b, c)) == Times(b, Times(a, c))
  {
  }

  lemma {:induction false} SparedInsert(g: DependencyGraph, failed: set<string>, x: Edge, es: seq<Edge>, key: Edge -> string, v: string)
    ensures SparedBy(g, failed, Insert(x, es, key), v) == Times(Kept(g, failed, x, v), SparedBy(g, failed, es, v))
    ensures Into(Insert(x, es, key), v) == One(x, v) + Into(es, v)
  {
    hide SparedBy, Into, Kept, One, Leq, Times;
    if es == [] || Leq(key(x), key(es[0])) {
      assert Insert(x, es, key) == [x] + es;
      SparedCons(g, failed, x, es, v);
    } else {
      var y, rest := es[0], es[1..];
      assert Insert(x, es, key) == [y] + Insert(x, rest, key) && es == [y] + rest;
      SparedInsert(g, failed, x, rest, key, v);
      hide Insert;
      SparedCons(g, failed, y, Insert(x, rest, key), v);
      SparedCons(g, failed, y, rest, v);
      Swap(Kept(g, failed, x, v), Kept(g, failed, y, v), SparedBy(g, failed, rest, v));
    }
  }

  lemma {:induction false} SparedSort(g: DependencyGraph, failed: set<string>, es: seq<Edge>, key: Edge -> string, v: string)
    ensures SparedBy(g, failed, Sort(es, key), v) == SparedBy(g, failed, es, v) && Into(Sort(es, key), v) == Into(es, v)
  {
    hide SparedBy, Into, Kept, One, Times, Insert;
    if es == [] {
      assert Sort(es, key) == es;
    } else {
      var sorted := Sort(es[1..], key);
      assert Sort(es, key) == Insert(es[0], sorted, key) && es == [es[0]] + es[1..];
      hide Sort;
      SparedSort(g, failed, es[1..], key, v);
      SparedInsert(g, failed, es[0], sorted, key, v);
      SparedCons(g, failed, es[0], es[1..], v);
    }
  }

  lemma SparedFrom(g: DependencyGraph, failed: set<string>, sweep: Sweep, u: string, v: string)
    ensures SparedBy(g, failed, EdgesFrom(g, sweep, u), v) == SparedBy(g, failed, Outgoing(g.edges, u), v)
    ensures Into(EdgesFrom(g, sweep, u), v) == Into(Outgoing(g.edges, u), v)
  {
    hide SparedBy, Into, Sort, Outgoing;
    if sweep.ByTarget? { SparedSort(g, failed, Outgoing(g.edges, u), (e: Edge) => e.target, v); }
  }

  // ---------- The whole run ----------

  ghost function SparedByAll(g: DependencyGraph, failed: set<string>, edges: seq<Edge>, ns: seq<string>, v: string): real {
    if ns == [] then 1.0
    else Times(SparedBy(g, failed, Outgoing(edges, ns[0]), v), SparedByAll(g, failed, edges, ns[1..], v))
  }

  function IntoAll(edges: seq<Edge>, ns: seq<string>, v: string): nat {
    if ns == [] then 0 else Into(Outgoing(edges, ns[0]), v) + IntoAll(edges, ns[1..], v)
  }

  // Every edge into v leaves a failed node.
  ghost predicate FedByFailed(g: DependencyGraph, failed: set<string>, v: string) {
    forall e :: e in g.edges && e.target == v ==> e.source in failed
  }

  lemma {:induction false} SparedAllIsScore(g: DependencyGraph, failed: set<string>, ns: seq<string>, v: string)
    requires forall e :: e in g.edges ==> IsScore(e.strength)
    ensures IsScore(SparedByAll(g, failed, g.edges, ns, v))
  {
    hide SparedBy, Times, Outgoing;
    if ns != [] {
      SparedIsScore(g, failed, Outgoing(g.edges, ns[0]), v);
      SparedAllIsScore(g, failed, ns[1..], v);
      ScoresMultiply(SparedBy(g, failed, Outgoing(g.edges, ns[0]), v), SparedByAll(g, failed, g.edges, ns[1..], v));
    }
  }

  // What is left of the product after a turn.
  lemma TurnWaits(g: DependencyGraph, failed: set<string>, sweep: Sweep, st: State)
    requires Inv(g, failed, st) && st.queue != []
    ensures Waiting(failed, st.queue) ==
            (if st.queue[0] in failed then [st.queue[0]] else []) + Waiting(failed, Turn(g, failed, sweep, st).queue)
  {
    hide IsImpactPath, RelaxAll, Potential, Inv, Grows;
    PopKeepsInv(g, failed, st);
    RelaxAllWaits(g, failed, sweep, st.prob[st.queue[0]], st.queue[0], EdgesFrom(g, sweep, st.queue[0]), st.(queue := st.queue[1..]));
  }

  lemma FailedIsOne(g: DependencyGraph, failed: set<string>, st: State, f: string)
    requires Inv(g, failed, st) && f in failed
    ensures f in st.prob && st.prob[f] == 1.0
  {
  }

  // The turn of a failed node.
  lemma TurnInto(g: DependencyGraph, failed: set<string>, sweep: Sweep, st: State, v: string)
    requires Inv(g, failed, st) && st.queue != [] && st.queue[0] in failed
    ensures var out := Outgoing(g.edges, st.queue[0]);
            Near(Missed(Turn(g, failed, sweep, st), v), Times(Missed(st, v), SparedBy(g, failed, out, v)), Into(out, v))
  {
    hide IsImpactPath, RelaxAll, Potential, Inv, Near, SparedBy, Into, Outgoing, Times, Grows, EdgesFrom;
    var cur, popped := st.queue[0], st.(queue := st.queue[1..]);
    PopKeepsInv(g, failed, st);
    FailedIsOne(g, failed, st, cur);
    assert Missed(popped, v) == Missed(st, v);
    RelaxAllInto(g, failed, sweep, cur, EdgesFrom(g, sweep, cur), popped, v);
    SparedFrom(g, failed, sweep, cur, v);
  }

  // The turn of a node that does not feed v.
  lemma TurnElsewhere(g: DependencyGraph, failed: set<string>, sweep: Sweep, st: State, v: string)
    requires Inv(g, failed, st) && st.queue != [] && st.queue[0] !in failed && FedByFailed(g, failed, v)
    ensures Missed(Turn(g, failed, sweep, st), v) == Missed(st, v)
  {
    hide IsImpactPath, RelaxAll, Potential, Inv, Grows;
    var cur, popped := st.queue[0], st.(queue := st.queue[1..]);
    PopKeepsInv(g, failed, st);
    assert Missed(popped, v) == Missed(st, v);
    RelaxAllElsewhere(g, failed, sweep, st.prob[cur], cur, EdgesFrom(g, sweep, cur), popped, v);
  }

  lemma RunStep(g: DependencyGraph, failed: set<string>, sweep: Sweep, st: State)
    requires Inv(g, failed, st)
    ensures st.queue == [] ==> Run(g, failed, sweep, st) == st
    ensures st.queue != [] ==> Run(g, failed, sweep, st) == Run(g, failed, sweep, Turn(g, failed, sweep, st))
    ensures st.queue != [] ==> Potential(g, st) >= 0.0 && Potential(g, Turn(g, failed, sweep, st)) <= Potential(g, st) - 1.0
    ensures forall e :: e in g.edges ==> IsScore(e.strength)
  {
    HeadroomNonNegative(g.nodes, st.prob);
    hide Turn, IsImpactPath;
  }

  lemma {:induction false} RunInto(g: DependencyGraph, failed: set<string>, sweep: Sweep, st: State, v: string)
    requires Inv(g, failed, st) && FedByFailed(g, failed, v)
    ensures Near(Missed(Run(g, failed, sweep, st), v),
                 Times(Missed(st, v), SparedByAll(g, failed, g.edges, Waiting(failed, st.queue), v)),
                 IntoAll(g.edges, Waiting(failed, st.queue), v))
    decreases Potential(g, st)
  {
    hide Run, Turn, Inv, Near, Missed, Times, SparedBy, Into, Outgoing, FedByFailed, Potential, Grows;
    RunStep(g, failed, sweep, st);
    if st.queue == [] {
      NearSelf(Missed(st, v));
    } else {
      var s, cur := Turn(g, failed, sweep, st), st.queue[0];
      var rest := Waiting(failed, s.queue);
      RunInto(g, failed, sweep, s, v);
      TurnWaits(g, failed, sweep, st);
      hide Waiting;
      if cur in failed {
        assert ([cur] + rest)[1..] == rest;
        TurnInto(g, failed, sweep, st, v);
        SparedAllIsScore(g, failed, rest, v);
        NearJoin(Missed(st, v), SparedBy(g, failed, Outgoing(g.edges, cur), v), SparedByAll(g, failed, g.edges, rest, v),
                 Missed(s, v), Missed(Run(g, failed, sweep, s), v), Into(Outgoing(g.edges, cur), v), IntoAll(g.edges, rest, v));
      } else {
        assert [] + rest == rest;
        TurnElsewhere(g, failed, sweep, st, v);
      }
    }
  }

  // ---------- From the nodes back to the list of edges ----------

  lemma {:induction false} NothingSpared(g: DependencyGraph, failed: set<string>, ns: seq<string>, v: string)
    ensures SparedByAll(g, failed, [], ns, v) == 1.0 && IntoAll([], ns, v) == 0
  {
    if ns != [] { NothingSpared(g, failed, ns[1..], v); }
  }

  // The edges out of n in a list with one more edge at the front.
  lemma SparedOut(g: DependencyGraph, failed: set<string>, edges: seq<Edge>, n: string, v: string)
    requires edges != []
    ensures var e, all, rest := edges[0], Outgoing(edges, n), Outgoing(edges[1..], n);
            if e.source == n then SparedBy(g, failed, all, v) == Times(Kept(g, failed, e, v), SparedBy(g, failed, rest, v))
                                  && Into(all, v) == One(e, v) + Into(rest, v)
            else all == rest
  {
    SparedCons(g, failed, edges[0], Outgoing(edges[1..], n), v);
    hide SparedBy, Into, Kept, Times, One;
  }

  lemma TimesOne(a: real)
    ensures Times(1.0, a) == a
  {
  }

  // One more edge at the front of the list that does not lead from the nodes to v.
  lemma {:induction false} SparedOutside(g: DependencyGraph, failed: set<string>, edges: seq<Edge>, ns: seq<string>, v: string)
    requires edges != [] && (edges[0].source !in ns || edges[0].target != v)
    ensures SparedByAll(g, failed, edges, ns, v) == SparedByAll(g, failed, edges[1..], ns, v)
    ensures IntoAll(edges, ns, v) == IntoAll(edges[1..], ns, v)
  {
    hide SparedBy, Into, Times, Outgoing, Carried;
    if ns != [] {
      SparedOutside(g, failed, edges, ns[1..], v);
      SparedOut(g, failed, edges, ns[0], v);
      TimesOne(SparedBy(g, failed, Outgoing(edges[1..], ns[0]), v));
    }
  }

  lemma Regroup(a: real, b: real, c: real)
    ensures Times(Times(a, b), c) == Times(a, Times(b, c))
  {
  }

  lemma {:induction false} SparedInside(g: DependencyGraph, failed: set<string>, edges: seq<Edge>, ns: seq<string>, v: string)
    requires edges != [] && edges[0].source in ns && edges[0].target == v && Distinct(ns)
    ensures SparedByAll(g, failed, edges, ns, v) == Times(Kept(g, failed, edges[0], v), SparedByAll(g, failed, edges[1..], ns, v))
    ensures IntoAll(edges, ns, v) == 1 + IntoAll(edges[1..], ns, v)
  {
    var e, n, rest := edges[0], ns[0], ns[1..];
    assert Distinct(rest) && (e.source == n ==> e.source !in rest);
    hide SparedBy, Into, Times, Outgoing, Kept, Distinct;
    SparedOut(g, failed, edges, n, v);
    var there := SparedBy(g, failed, Outgoing(edges[1..], n), v);
    if e.source == n {
      SparedOutside(g, failed, edges, rest, v);
      Regroup(Kept(g, failed, e, v), there, SparedByAll(g, failed, edges[1..], rest, v));
    } else {
      SparedInside(g, failed, edges, rest, v);
      Swap(there, Kept(g, failed, e, v), SparedByAll(g, failed, edges[1..], rest, v));
    }
  }

  lemma {:induction false} SparedByNodes(g: DependencyGraph, failed: set<string>, edges: seq<Edge>, ns: seq<string>, v: string)
    requires Distinct(ns) && forall e :: e in edges && e.target == v ==> e.source in ns
    ensures SparedByAll(g, failed, edges, ns, v) == SparedBy(g, failed, edges, v)
    ensures IntoAll(edges, ns, v) == Into(edges, v)
  {
    if edges == [] {
      NothingSpared(g, failed, ns, v);
    } else {
      hide Distinct, Carried, SparedByAll, IntoAll, Times;
      SparedByNodes(g, failed, edges[1..], ns, v);
      if edges[0].target == v {
        assert edges[0] in edges;
        SparedInside(g, failed, edges, ns, v);
      } else {
        SparedOutside(g, failed, edges, ns, v);
        TimesOne(SparedBy(g, failed, edges[1..], v));
      }
    }
  }

  lemma {:induction false} AllWaiting(failed: set<string>, queue: seq<string>)
    requires forall f :: f in queue ==> f in failed
    ensures Waiting(failed, queue) == queue
  {
    if queue != [] { AllWaiting(failed, queue[1..]); }
  }

  // An unfailed node that only failed nodes feed: what it is spared is the product over its edges
  // of one less what each carries, up to one epsilon for every edge.
  lemma DirectImpact(g: DependencyGraph, failed: set<string>, sweep: Sweep, v: string)
    requires Valid(g) && failed <= Ids(g) && v !in failed
    requires forall e :: e in g.edges && e.target == v ==> e.source in failed
    ensures var spared, k := SparedBy(g, failed, g.edges, v), Into(g.edges, v);
            spared <= 1.0 - Prob(Impact(g, failed, sweep).prob, v) <= spared + k as real * 0.000000001
  {
    var ns := SortedSet(failed);
    StartInv(g, failed);
    assert Missed(Start(failed), v) == 1.0;
    hide Run, Valid, SparedBy, Into, SparedByAll, IntoAll, Inv, Ids, SortedSet, Times, Distinct;
    RunInto(g, failed, sweep, Start(failed), v);
    AllWaiting(failed, ns);
    hide Waiting;
    SparedByNodes(g, failed, g.edges, ns, v);
    TimesOne(SparedBy(g, failed, g.edges, v));
  }
}
