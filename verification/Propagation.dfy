// Worklist propagation of failure probability over a graph that may be cyclic,
// and the search for single points of failure that runs it with an early exit.
module Propagation {
  import opened Reals
  import opened Text
  import opened Graph

  const EPSILON := 0.000000001
  const PER_EPSILON := 1_000_000_000.0

  // The reporting analysis visits the edges of a node sorted by target and keeps
  // the probability read when the node left the queue; the internal one visits
  // them as listed and reads the probability afresh for every edge.
  datatype Sweep = ByTarget | AsListed

  datatype State = State(prob: map<string, real>, path: map<string, seq<string>>, queue: seq<string>)

  function Prob(p: map<string, real>, v: string): real { if v in p then p[v] else 0.0 }

  function SubstituteMembers(g: DependencyGraph, group: string): set<string> {
    set e | e in g.edges && e.HasGroup() && e.group.value == group :: e.source
  }

  // A substitutable edge is attenuated while another member of its group is healthy.
  function Attenuation(g: DependencyGraph, failed: set<string>, e: Edge): real {
    if e.substitutable && e.HasGroup() && SubstituteMembers(g, e.group.value) - failed - {e.source} != {}
    then 0.25 else 1.0
  }

  function Weight(g: DependencyGraph, failed: set<string>, e: Edge): real {
    e.strength * Attenuation(g, failed, e)
  }

  function Propagated(g: DependencyGraph, failed: set<string>, p: real, e: Edge): real {
    p * e.strength * Attenuation(g, failed, e)
  }

  // What a node of probability p promises the target of e.
  function Reach(g: DependencyGraph, failed: set<string>, p: real, e: Edge): real {
    p * Weight(g, failed, e)
  }

  function Combine(existing: real, propagated: real): real {
    1.0 - (1.0 - existing) * (1.0 - propagated)
  }

  // One pass of the inner loop.
  function Relax(g: DependencyGraph, failed: set<string>, p: real, e: Edge, st: State): State
    requires e.source in st.path
  {
    var propagated := Propagated(g, failed, p, e);
    var existing := Prob(st.prob, e.target);
    var combined := Combine(existing, propagated);
    if combined > existing + EPSILON then
      State(st.prob[e.target := Min(1.0, combined)],
            st.path[e.target := st.path[e.source] + [e.target]],
            st.queue + [e.target])
    else st
  }

  function EdgesFrom(g: DependencyGraph, sweep: Sweep, u: string): (r: seq<Edge>)
    ensures forall e :: e in r <==> e in g.edges && e.source == u
  {
    var out := Outgoing(g.edges, u);
    if sweep.ByTarget? then Sort(out, (e: Edge) => e.target) else out
  }

  // ---------- What holds between any two passes ----------

  ghost predicate IsImpactPath(g: DependencyGraph, failed: set<string>, w: seq<string>, v: string) {
    IsWalk(g, w) && w[0] in failed && w[|w| - 1] == v
  }

  ghost predicate Inv(g: DependencyGraph, failed: set<string>, st: State) {
    && Valid(g) && failed <= Ids(g)
    && st.prob.Keys <= Ids(g) && st.path.Keys == st.prob.Keys
    && (forall v :: v in st.prob ==> IsScore(st.prob[v]) && IsImpactPath(g, failed, st.path[v], v))
    && (forall f :: f in failed ==> f in st.prob && st.prob[f] == 1.0 && st.path[f] == [f])
    && (forall v :: v in st.queue ==> v in st.prob)
  }

  // Nothing already impacted is lost and no probability falls.
  ghost predicate Grows(p: map<string, real>, q: map<string, real>) {
    p.Keys <= q.Keys && forall v :: v in p ==> p[v] <= q[v]
  }

  lemma PropagatedIsScore(g: DependencyGraph, failed: set<string>, p: real, e: Edge)
    requires IsScore(p) && IsScore(e.strength)
    ensures IsScore(Propagated(g, failed, p, e)) && IsScore(Weight(g, failed, e))
    ensures Propagated(g, failed, p, e) == Reach(g, failed, p, e)
  {
    var a := Attenuation(g, failed, e);
    UnitProduct(p, e.strength, p * e.strength);
    UnitProduct(p * e.strength, a, p * e.strength * a);
    UnitProduct(e.strength, a, e.strength * a);
  }

  lemma CombineBounds(existing: real, propagated: real)
    requires IsScore(existing) && IsScore(propagated)
    ensures existing <= Combine(existing, propagated) <= 1.0
    ensures propagated <= Combine(existing, propagated)
    ensures existing == 1.0 ==> Combine(existing, propagated) == 1.0
  {
    var both := (1.0 - existing) * (1.0 - propagated);
    UnitProduct(1.0 - existing, 1.0 - propagated, both);
    assert Combine(existing, propagated) == 1.0 - both;
  }

  // ---------- Headroom: every enqueue uses up more than one unit of it ----------

  function Headroom(nodes: seq<Node>, p: map<string, real>): real {
    if nodes == [] then 0.0
    else (1.0 - Prob(p, nodes[0].id)) * PER_EPSILON + Headroom(nodes[1..], p)
  }

  lemma {:induction false} HeadroomUpdate(nodes: seq<Node>, p: map<string, real>, v: string, x: real)
    requires forall i, j :: 0 <= i < j < |nodes| ==> nodes[i].id != nodes[j].id
    ensures Headroom(nodes, p[v := x]) ==
            Headroom(nodes, p) - (if exists n :: n in nodes && n.id == v then (x - Prob(p, v)) * PER_EPSILON else 0.0)
  {
    if nodes != [] {
      HeadroomUpdate(nodes[1..], p, v, x);
      assert (exists n :: n in nodes && n.id == v) <==> (nodes[0].id == v || exists n :: n in nodes[1..] && n.id == v);
      if nodes[0].id == v { assert !exists n :: n in nodes[1..] && n.id == v; }
    }
  }

  lemma {:induction false} HeadroomNonNegative(nodes: seq<Node>, p: map<string, real>)
    requires forall v :: v in p ==> IsScore(p[v])
    ensures 0.0 <= Headroom(nodes, p) <= |nodes| as real * PER_EPSILON
  {
    if nodes != [] { HeadroomNonNegative(nodes[1..], p); }
  }

  ghost function Potential(g: DependencyGraph, st: State): real {
    |st.queue| as real + Headroom(g.nodes, st.prob)
  }

  // What a relaxation does, without the arithmetic: either nothing, or one more
  // queue entry for a target whose probability rose by more than EPSILON.
  ghost predicate Raises(e: Edge, reach: real, st: State, s: State)
    requires e.source in st.path
  {
    if s == st then
      Prob(st.prob, e.target) + EPSILON >= reach
    else
      && e.target in s.prob && reach <= s.prob[e.target] <= 1.0
      && s.prob[e.target] > Prob(st.prob, e.target) + EPSILON
      && s == State(st.prob[e.target := s.prob[e.target]],
                    st.path[e.target := st.path[e.source] + [e.target]],
                    st.queue + [e.target])
  }

  lemma RelaxRaises(g: DependencyGraph, failed: set<string>, p: real, e: Edge, st: State)
    requires IsScore(p) && IsScore(e.strength) && e.source in st.path && IsScore(Prob(st.prob, e.target))
    ensures Raises(e, Reach(g, failed, p, e), st, Relax(g, failed, p, e, st))
  {
    hide Propagated, Weight;
    PropagatedIsScore(g, failed, p, e);
    var existing, propagated := Prob(st.prob, e.target), Propagated(g, failed, p, e);
    hide Combine;
    CombineBounds(existing, propagated);
    assert |st.queue + [e.target]| == |st.queue| + 1;
  }

  lemma RaiseKeepsInv(g: DependencyGraph, failed: set<string>, reach: real, e: Edge, st: State, s: State)
    requires Inv(g, failed, st) && e in g.edges && e.source in st.prob
    requires Raises(e, reach, st, s)
    ensures Inv(g, failed, s) && Grows(st.prob, s.prob)
  {
    hide IsImpactPath;
    if s != st {
      WalkExtends(g, failed, st.path[e.source], e);
      assert e.target !in failed;
    }
  }

  lemma RaisePays(g: DependencyGraph, failed: set<string>, reach: real, e: Edge, st: State, s: State)
    requires Inv(g, failed, st) && e in g.edges && e.source in st.prob
    requires Raises(e, reach, st, s)
    ensures Potential(g, s) <= Potential(g, st)
  {
    hide IsImpactPath;
    if s != st {
      HeadroomUpdate(g.nodes, st.prob, e.target, s.prob[e.target]);
    }
  }

  // One relaxation keeps the invariant, never lowers a probability, lifts the
  // target to within EPSILON of what is propagated, and pays for what it enqueues.
  lemma RelaxStep(g: DependencyGraph, failed: set<string>, p: real, e: Edge, st: State)
    requires Inv(g, failed, st) && e in g.edges && e.source in st.prob && IsScore(p)
    ensures var s := Relax(g, failed, p, e, st);
            && Inv(g, failed, s) && Grows(st.prob, s.prob)
            && Raises(e, Reach(g, failed, p, e), st, s)
            && Potential(g, s) <= Potential(g, st)
  {
    hide Relax, Raises, Grows, Potential, Reach;
    RelaxRaises(g, failed, p, e, st);
    RaiseKeepsInv(g, failed, Reach(g, failed, p, e), e, st, Relax(g, failed, p, e, st));
    RaisePays(g, failed, Reach(g, failed, p, e), e, st, Relax(g, failed, p, e, st));
  }

  lemma WalkExtends(g: DependencyGraph, failed: set<string>, w: seq<string>, e: Edge)
    requires IsImpactPath(g, failed, w, e.source) && e in g.edges
    ensures IsImpactPath(g, failed, w + [e.target], e.target)
  {
    var x := w + [e.target];
    forall i | 0 <= i < |x| - 1 ensures HasEdge(g, x[i], x[i + 1]) {
      if i < |w| - 1 { assert HasEdge(g, w[i], w[i + 1]); }
    }
  }

  // ---------- The whole run, as a function of the state ----------

  ghost predicate Leaves(g: DependencyGraph, cur: string, es: seq<Edge>) {
    forall e :: e in es ==> e in g.edges && e.source == cur
  }

  // The inner loop over the edges that leave `cur`; p is the probability `cur`
  // had when it left the queue.
  ghost function RelaxAll(g: DependencyGraph, failed: set<string>, sweep: Sweep,
                          p: real, cur: string, es: seq<Edge>, st: State): (s: State)
    requires Inv(g, failed, st) && cur in st.prob && IsScore(p) && Leaves(g, cur, es)
    ensures Inv(g, failed, s) && Grows(st.prob, s.prob) && Potential(g, s) <= Potential(g, st)
    decreases |es|
  {
    if es == [] then st else
      var q := if sweep.ByTarget? then p else st.prob[cur];
      RelaxStep(g, failed, q, es[0], st);
      RelaxAll(g, failed, sweep, p, cur, es[1..], Relax(g, failed, q, es[0], st))
  }

  // One turn of the outer loop.
  ghost function Turn(g: DependencyGraph, failed: set<string>, sweep: Sweep, st: State): (s: State)
    requires Inv(g, failed, st) && st.queue != []
    ensures Inv(g, failed, s) && Grows(st.prob, s.prob) && Potential(g, s) <= Potential(g, st) - 1.0
  {
    var cur := st.queue[0];
    RelaxAll(g, failed, sweep, st.prob[cur], cur, EdgesFrom(g, sweep, cur), st.(queue := st.queue[1..]))
  }

  // The loop empties its queue on every graph, cycles included.
  ghost function Run(g: DependencyGraph, failed: set<string>, sweep: Sweep, st: State): (s: State)
    requires Inv(g, failed, st)
    ensures Inv(g, failed, s) && Grows(st.prob, s.prob) && s.queue == []
    decreases Potential(g, st)
  {
    HeadroomNonNegative(g.nodes, st.prob);
    if st.queue == [] then st else Run(g, failed, sweep, Turn(g, failed, sweep, st))
  }

  // How many nodes the loop takes off its queue.
  ghost function Turns(g: DependencyGraph, failed: set<string>, sweep: Sweep, st: State): (n: nat)
    requires Inv(g, failed, st)
    ensures n as real <= Potential(g, st)
    decreases Potential(g, st)
  {
    HeadroomNonNegative(g.nodes, st.prob);
    if st.queue == [] then 0 else 1 + Turns(g, failed, sweep, Turn(g, failed, sweep, st))
  }

  function Start(failed: set<string>): State {
    State(map f | f in failed :: 1.0, map f | f in failed :: [f], SortedSet(failed))
  }

  lemma StartInv(g: DependencyGraph, failed: set<string>)
    requires Valid(g) && failed <= Ids(g)
    ensures Inv(g, failed, Start(failed))
  {
    hide Valid, Ids, HasEdge, SortedSet;
    forall f | f in failed ensures IsImpactPath(g, failed, [f], f) {}
  }

  ghost function Impact(g: DependencyGraph, failed: set<string>, sweep: Sweep): (s: State)
    requires Valid(g) && failed <= Ids(g)
    ensures Inv(g, failed, s) && s.queue == []
  {
    StartInv(g, failed);
    Run(g, failed, sweep, Start(failed))
  }

  lemma TurnsBounded(g: DependencyGraph, failed: set<string>, sweep: Sweep)
    requires Valid(g) && failed <= Ids(g)
    ensures Inv(g, failed, Start(failed))
    ensures Turns(g, failed, sweep, Start(failed)) as real <= |failed| as real + |g.nodes| as real * PER_EPSILON
  {
    StartInv(g, failed);
    HeadroomNonNegative(g.nodes, Start(failed).prob);
  }

  // ---------- The emptied queue leaves every edge settled ----------

  ghost predicate EdgeSettled(g: DependencyGraph, failed: set<string>, p: map<string, real>, e: Edge) {
    e.source in p ==> Prob(p, e.target) + EPSILON >= Reach(g, failed, p[e.source], e)
  }

  ghost predicate Settled(g: DependencyGraph, failed: set<string>, p: map<string, real>) {
    forall e :: e in g.edges ==> EdgeSettled(g, failed, p, e)
  }

  // Every edge is settled except those that leave a queued node.
  ghost predicate OffQueueSettled(g: DependencyGraph, failed: set<string>, st: State) {
    forall e :: e in g.edges && e.source !in st.queue ==> EdgeSettled(g, failed, st.prob, e)
  }

  // The same, also excepting the edges that leave `cur` and are still to be visited.
  ghost predicate SettledBut(g: DependencyGraph, failed: set<string>, st: State, cur: string, es: seq<Edge>) {
    forall e :: e in g.edges && e.source !in st.queue && (e.source != cur || e !in es) ==> EdgeSettled(g, failed, st.prob, e)
  }

  lemma EdgeStaysSettled(g: DependencyGraph, failed: set<string>, e: Edge, raised: Edge, reach: real, st: State, s: State)
    requires raised.source in st.path && Raises(raised, reach, st, s)
    requires EdgeSettled(g, failed, st.prob, e) && e.source !in s.queue
    ensures EdgeSettled(g, failed, s.prob, e)
  {
    hide Reach;
    if s != st { assert raised.target in s.queue; }
  }

  lemma RaiseKeepsSettled(g: DependencyGraph, failed: set<string>, reach: real, es: seq<Edge>, st: State, s: State)
    requires es != [] && es[0].source in st.prob && es[0].source in st.path
    requires Raises(es[0], reach, st, s)
    requires es[0].source in st.queue || reach == Reach(g, failed, st.prob[es[0].source], es[0])
    requires SettledBut(g, failed, st, es[0].source, es)
    ensures SettledBut(g, failed, s, es[0].source, es[1..])
  {
    var cur := es[0].source;
    hide Reach;
    forall e | e in g.edges && e.source !in s.queue && (e.source != cur || e !in es[1..])
      ensures EdgeSettled(g, failed, s.prob, e)
    {
      if e == es[0] {
        assert s.prob[cur] == st.prob[cur];
      } else {
        assert e !in es[1..] ==> e !in es by { assert es == [es[0]] + es[1..]; }
        assert forall v :: v in st.queue ==> v in s.queue;
        EdgeStaysSettled(g, failed, e, es[0], reach, st, s);
      }
    }
  }

  lemma InvFacts(g: DependencyGraph, failed: set<string>, st: State, cur: string)
    requires Inv(g, failed, st) && cur in st.prob
    ensures IsScore(st.prob[cur]) && cur in st.path
  {
  }

  // A node whose probability a relaxation changes is back on the queue.
  lemma RaiseRequeues(e: Edge, reach: real, st: State, s: State, cur: string)
    requires e.source in st.path && Raises(e, reach, st, s) && cur in st.prob
    ensures cur in s.prob && (s.prob[cur] == st.prob[cur] || cur in s.queue)
    ensures cur in st.queue ==> cur in s.queue
  {
  }

  lemma RelaxAllUnfolds(g: DependencyGraph, failed: set<string>, sweep: Sweep,
                        p: real, cur: string, es: seq<Edge>, st: State)
    requires Inv(g, failed, st) && cur in st.prob && IsScore(p) && Leaves(g, cur, es) && es != []
    ensures var q := if sweep.ByTarget? then p else st.prob[cur];
            var s := Relax(g, failed, q, es[0], st);
            && Inv(g, failed, s) && cur in s.prob && Leaves(g, cur, es[1..])
            && RelaxAll(g, failed, sweep, p, cur, es, st) == RelaxAll(g, failed, sweep, p, cur, es[1..], s)
  {
    hide Relax, Potential, IsImpactPath, Raises, Valid, Ids;
    RelaxStep(g, failed, if sweep.ByTarget? then p else st.prob[cur], es[0], st);
  }

  lemma {:induction false} RelaxAllSettles(g: DependencyGraph, failed: set<string>, sweep: Sweep,
                                           p: real, cur: string, es: seq<Edge>, st: State)
    requires Inv(g, failed, st) && cur in st.prob && IsScore(p) && Leaves(g, cur, es)
    requires SettledBut(g, failed, st, cur, es) && (st.prob[cur] == p || cur in st.queue)
    ensures SettledBut(g, failed, RelaxAll(g, failed, sweep, p, cur, es, st), cur, [])
    decreases |es|
  {
    if es != [] {
      hide RelaxAll, Relax, Reach, SettledBut, Potential, Raises, Grows, Valid, Ids, IsImpactPath;
      InvFacts(g, failed, st, cur);
      hide Inv;
      var q := if sweep.ByTarget? then p else st.prob[cur];
      var s := Relax(g, failed, q, es[0], st);
      RelaxAllUnfolds(g, failed, sweep, p, cur, es, st);
      RelaxStep(g, failed, q, es[0], st);
      RaiseRequeues(es[0], Reach(g, failed, q, es[0]), st, s, cur);
      RaiseKeepsSettled(g, failed, Reach(g, failed, q, es[0]), es, st, s);
      RelaxAllSettles(g, failed, sweep, p, cur, es[1..], s);
    }
  }

  lemma {:induction false} RunSettles(g: DependencyGraph, failed: set<string>, sweep: Sweep, st: State)
    requires Inv(g, failed, st) && OffQueueSettled(g, failed, st)
    ensures Settled(g, failed, Run(g, failed, sweep, st).prob)
    decreases Potential(g, st)
  {
    hide EdgeSettled, IsImpactPath;
    HeadroomNonNegative(g.nodes, st.prob);
    if st.queue != [] {
      TurnSettles(g, failed, sweep, st);
      RunSettles(g, failed, sweep, Turn(g, failed, sweep, st));
    }
  }

  lemma TurnSettles(g: DependencyGraph, failed: set<string>, sweep: Sweep, st: State)
    requires Inv(g, failed, st) && OffQueueSettled(g, failed, st) && st.queue != []
    ensures OffQueueSettled(g, failed, Turn(g, failed, sweep, st))
  {
    hide EdgeSettled, RelaxAll, OffQueueSettled, Potential, Grows, SettledBut, Valid, Ids, IsImpactPath, EdgesFrom;
    hide Inv;
    PopKeepsInv(g, failed, st);
    var cur := st.queue[0];
    var popped := st.(queue := st.queue[1..]);
    var es := EdgesFrom(g, sweep, cur);
    assert st.queue == [cur] + st.queue[1..];
    SameProbSettles(g, failed, st, popped, cur, es);
    RelaxAllSettles(g, failed, sweep, st.prob[cur], cur, es, popped);
    NothingLeft(g, failed, Turn(g, failed, sweep, st), cur);
  }

  lemma PopKeepsInv(g: DependencyGraph, failed: set<string>, st: State)
    requires Inv(g, failed, st) && st.queue != []
    ensures Inv(g, failed, st.(queue := st.queue[1..]))
    ensures st.queue[0] in st.prob && IsScore(st.prob[st.queue[0]])
  {
    hide IsImpactPath;
  }

  lemma NothingLeft(g: DependencyGraph, failed: set<string>, st: State, cur: string)
    requires SettledBut(g, failed, st, cur, [])
    ensures OffQueueSettled(g, failed, st)
  {
    hide EdgeSettled;
  }

  lemma SameProbSettles(g: DependencyGraph, failed: set<string>, st: State, popped: State, cur: string, es: seq<Edge>)
    requires OffQueueSettled(g, failed, st) && popped.prob == st.prob && st.queue == [cur] + popped.queue
    requires forall e :: e in es <==> e in g.edges && e.source == cur
    ensures SettledBut(g, failed, popped, cur, es)
  {
    hide EdgeSettled;
  }

  lemma ImpactSettles(g: DependencyGraph, failed: set<string>, sweep: Sweep)
    requires Valid(g) && failed <= Ids(g)
    ensures Settled(g, failed, Impact(g, failed, sweep).prob)
  {
    StartInv(g, failed);
    RunSettles(g, failed, sweep, Start(failed));
  }

  // ---------- Lower bound along a chain of edges ----------

  ghost predicate IsChain(g: DependencyGraph, from: string, chain: seq<Edge>)
    decreases |chain|
  {
    chain == [] || (chain[0] in g.edges && chain[0].source == from && IsChain(g, chain[0].target, chain[1..]))
  }

  function ChainEnd(from: string, chain: seq<Edge>): string
    decreases |chain|
  {
    if chain == [] then from else ChainEnd(chain[0].target, chain[1..])
  }

  function ChainWeight(g: DependencyGraph, failed: set<string>, chain: seq<Edge>): real {
    if chain == [] then 1.0 else Weight(g, failed, chain[0]) * ChainWeight(g, failed, chain[1..])
  }

  lemma {:induction false} ChainWeightIsScore(g: DependencyGraph, failed: set<string>, from: string, chain: seq<Edge>)
    requires Valid(g) && IsChain(g, from, chain)
    ensures IsScore(ChainWeight(g, failed, chain))
    decreases |chain|
  {
    if chain != [] {
      ChainWeightIsScore(g, failed, chain[0].target, chain[1..]);
      PropagatedIsScore(g, failed, 0.0, chain[0]);
      hide Weight;
      UnitProduct(Weight(g, failed, chain[0]), ChainWeight(g, failed, chain[1..]), ChainWeight(g, failed, chain));
    }
  }

  lemma ChainLink(pu: real, w: real, rest: real, pv: real)
    requires IsScore(w) && IsScore(rest) && pv >= 0.0 && pv + EPSILON >= pu * w
    ensures pv * rest >= pu * (w * rest) - EPSILON
  {
    MonotoneProduct(rest, pu * w, pv + EPSILON, rest * (pu * w), rest * (pv + EPSILON));
    UnitProduct(EPSILON, rest, EPSILON * rest);
    assert rest * (pv + EPSILON) == pv * rest + EPSILON * rest;
    assert rest * (pu * w) == pu * (w * rest);
  }

  lemma ChainStep(g: DependencyGraph, failed: set<string>, p: map<string, real>, from: string, chain: seq<Edge>)
    requires chain != [] && EdgeSettled(g, failed, p, chain[0]) && chain[0].source == from
    requires IsScore(Weight(g, failed, chain[0])) && IsScore(ChainWeight(g, failed, chain[1..]))
    requires forall v :: v in p ==> IsScore(p[v])
    ensures Prob(p, chain[0].target) * ChainWeight(g, failed, chain[1..]) >= Prob(p, from) * ChainWeight(g, failed, chain) - EPSILON
  {
    var w, rest := Weight(g, failed, chain[0]), ChainWeight(g, failed, chain[1..]);
    assert ChainWeight(g, failed, chain) == w * rest;
    hide Weight, ChainWeight;
    if from !in p { assert Prob(p, from) * w == 0.0; }
    ChainLink(Prob(p, from), w, rest, Prob(p, chain[0].target));
  }

  // Along any chain of k edges from an impacted node the impact falls short of
  // the product of the weights by at most k epsilons.
  lemma {:induction false} ImpactLowerBound(g: DependencyGraph, failed: set<string>, p: map<string, real>,
                                            from: string, chain: seq<Edge>)
    requires Valid(g) && IsChain(g, from, chain) && Settled(g, failed, p)
    requires forall v :: v in p ==> IsScore(p[v])
    ensures Prob(p, ChainEnd(from, chain)) >= Prob(p, from) * ChainWeight(g, failed, chain) - |chain| as real * EPSILON
    decreases |chain|
  {
    if chain != [] {
      var e, rest := chain[0], chain[1..];
      ImpactLowerBound(g, failed, p, e.target, rest);
      ChainWeightIsScore(g, failed, e.target, rest);
      PropagatedIsScore(g, failed, 0.0, e);
      assert EdgeSettled(g, failed, p, e);
      ChainStep(g, failed, p, from, chain);
    }
  }
}
