// The impact stays within what the failed nodes reach along edges that carry failure.
module Containment {
  import opened Reals
  import opened Graph
  import opened Propagation

  // Holds the failed nodes and the target of every carrying edge out of it.
  ghost predicate Closed(g: DependencyGraph, failed: set<string>, nodes: set<string>) {
    failed <= nodes && forall e :: e in g.edges && e.source in nodes && Weight(g, failed, e) > 0.0 ==> e.target in nodes
  }

  lemma ZeroPropagates(g: DependencyGraph, failed: set<string>, p: real, e: Edge)
    requires IsScore(p) && IsScore(e.strength) && Weight(g, failed, e) <= 0.0
    ensures Propagated(g, failed, p, e) == 0.0
  {
    assert Attenuation(g, failed, e) > 0.0;
    hide Attenuation;
    if e.strength > 0.0 { SameSignProduct(e.strength, Attenuation(g, failed, e), Weight(g, failed, e)); }
    assert e.strength == 0.0;
  }

  lemma RelaxContained(g: DependencyGraph, failed: set<string>, nodes: set<string>, p: real, e: Edge, st: State)
    requires Valid(g) && Closed(g, failed, nodes) && st.prob.Keys <= nodes && e in g.edges
    requires e.source in st.prob && e.source in st.path && IsScore(p)
    ensures Relax(g, failed, p, e, st).prob.Keys <= nodes
  {
    assert IsScore(e.strength);
    hide Valid, Weight;
    if Weight(g, failed, e) <= 0.0 {
      ZeroPropagates(g, failed, p, e);
    }
    hide Propagated;
  }

  lemma {:induction false} RelaxAllContained(g: DependencyGraph, failed: set<string>, nodes: set<string>, sweep: Sweep,
                                             p: real, cur: string, es: seq<Edge>, st: State)
    requires Inv(g, failed, st) && cur in st.prob && IsScore(p) && Leaves(g, cur, es)
    requires Closed(g, failed, nodes) && st.prob.Keys <= nodes
    ensures RelaxAll(g, failed, sweep, p, cur, es, st).prob.Keys <= nodes
    decreases |es|
  {
    if es != [] {
      InvFacts(g, failed, st, cur);
      assert Valid(g) && es[0] in g.edges && es[0].source == cur;
      hide Inv, Closed, Valid;
      var q := if sweep.ByTarget? then p else st.prob[cur];
      RelaxAllUnfolds(g, failed, sweep, p, cur, es, st);
      RelaxStep(g, failed, q, es[0], st);
      RelaxContained(g, failed, nodes, q, es[0], st);
      hide Relax, RelaxAll;
      RelaxAllContained(g, failed, nodes, sweep, p, cur, es[1..], Relax(g, failed, q, es[0], st));
    }
  }

  lemma TurnContained(g: DependencyGraph, failed: set<string>, nodes: set<string>, sweep: Sweep, st: State)
    requires Inv(g, failed, st) && st.queue != [] && Closed(g, failed, nodes) && st.prob.Keys <= nodes
    ensures Turn(g, failed, sweep, st).prob.Keys <= nodes
  {
    hide IsImpactPath, RelaxAll, Closed, Potential, Inv;
    PopKeepsInv(g, failed, st);
    var cur := st.queue[0];
    RelaxAllContained(g, failed, nodes, sweep, st.prob[cur], cur, EdgesFrom(g, sweep, cur), st.(queue := st.queue[1..]));
  }

  lemma {:induction false} RunContained(g: DependencyGraph, failed: set<string>, nodes: set<string>, sweep: Sweep, st: State)
    requires Inv(g, failed, st) && Closed(g, failed, nodes) && st.prob.Keys <= nodes
    ensures Run(g, failed, sweep, st).prob.Keys <= nodes
    decreases Potential(g, st)
  {
    HeadroomNonNegative(g.nodes, st.prob);
    hide Turn, Closed, Inv;
    if st.queue != [] {
      TurnContained(g, failed, nodes, sweep, st);
      RunContained(g, failed, nodes, sweep, Turn(g, failed, sweep, st));
    }
  }

  // Every impacted node lies in every closed set: it is reached along edges of positive weight.
  lemma ImpactContained(g: DependencyGraph, failed: set<string>, nodes: set<string>, sweep: Sweep)
    requires Valid(g) && failed <= Ids(g) && Closed(g, failed, nodes)
    ensures Impact(g, failed, sweep).prob.Keys <= nodes
  {
    StartInv(g, failed);
    RunContained(g, failed, nodes, sweep, Start(failed));
  }

  // ---------- Certain failure ----------

  // Holds the failed nodes and the target of every edge out of it that is certain to carry failure.
  ghost predicate CertainClosed(g: DependencyGraph, failed: set<string>, nodes: set<string>) {
    failed <= nodes && forall e :: e in g.edges && e.source in nodes && Weight(g, failed, e) == 1.0 ==> e.target in nodes
  }

  ghost predicate CertainWithin(prob: map<string, real>, nodes: set<string>) {
    forall v :: v in prob && prob[v] == 1.0 ==> v in nodes
  }

  lemma OneFromOnes(a: real, b: real, product: real)
    requires IsScore(a) && IsScore(b) && product == a * b
    ensures product == 1.0 ==> a == 1.0 && b == 1.0
  {
    UnitProduct(a, b, product);
  }

  lemma ZeroFromZeros(a: real, b: real, product: real)
    requires a >= 0.0 && b >= 0.0 && product == a * b
    ensures product == 0.0 ==> a == 0.0 || b == 0.0
  {
    if a > 0.0 && b > 0.0 { SameSignProduct(a, b, product); }
  }

  lemma WeightIsScore(g: DependencyGraph, failed: set<string>, e: Edge)
    requires IsScore(e.strength)
    ensures IsScore(Weight(g, failed, e))
  {
    assert IsScore(Attenuation(g, failed, e));
    UnitProduct(e.strength, Attenuation(g, failed, e), Weight(g, failed, e));
  }

  lemma CertainRelax(g: DependencyGraph, failed: set<string>, nodes: set<string>, p: real, e: Edge, st: State)
    requires Valid(g) && CertainClosed(g, failed, nodes) && CertainWithin(st.prob, nodes) && e in g.edges
    requires e.source in st.prob && e.source in st.path && IsScore(p) && IsScore(Prob(st.prob, e.target))
    requires p == 1.0 ==> e.source in nodes
    ensures CertainWithin(Relax(g, failed, p, e, st).prob, nodes)
  {
    assert IsScore(e.strength);
    WeightIsScore(g, failed, e);
    var existing, weight, propagated := Prob(st.prob, e.target), Weight(g, failed, e), Propagated(g, failed, p, e);
    assert propagated == p * weight;
    UnitProduct(p, weight, propagated);
    OneFromOnes(p, weight, propagated);
    var miss := (1.0 - existing) * (1.0 - propagated);
    NonNegativeProduct(1.0 - existing, 1.0 - propagated, miss);
    ZeroFromZeros(1.0 - existing, 1.0 - propagated, miss);
    assert Combine(existing, propagated) == 1.0 - miss;
    hide Valid, Weight, Propagated, Combine, Attenuation;
  }

  lemma ProbIsScore(g: DependencyGraph, failed: set<string>, st: State, v: string)
    requires Inv(g, failed, st)
    ensures IsScore(Prob(st.prob, v)) && (v in st.prob ==> v in st.path)
  {
  }

  lemma {:induction false} CertainRelaxAll(g: DependencyGraph, failed: set<string>, nodes: set<string>, sweep: Sweep,
                                           p: real, cur: string, es: seq<Edge>, st: State)
    requires Inv(g, failed, st) && cur in st.prob && IsScore(p) && Leaves(g, cur, es)
    requires CertainClosed(g, failed, nodes) && CertainWithin(st.prob, nodes) && (p == 1.0 ==> cur in nodes)
    ensures CertainWithin(RelaxAll(g, failed, sweep, p, cur, es, st).prob, nodes)
    decreases |es|
  {
    if es != [] {
      InvFacts(g, failed, st, cur);
      assert Valid(g) && es[0] in g.edges && es[0].source == cur;
      var q := if sweep.ByTarget? then p else st.prob[cur];
      assert q == 1.0 ==> cur in nodes;
      hide Inv, CertainClosed, CertainWithin, Valid;
      ProbIsScore(g, failed, st, es[0].target);
      RelaxAllUnfolds(g, failed, sweep, p, cur, es, st);
      CertainRelax(g, failed, nodes, q, es[0], st);
      hide Relax, RelaxAll;
      CertainRelaxAll(g, failed, nodes, sweep, p, cur, es[1..], Relax(g, failed, q, es[0], st));
    }
  }

  lemma CertainTurn(g: DependencyGraph, failed: set<string>, nodes: set<string>, sweep: Sweep, st: State)
    requires Inv(g, failed, st) && st.queue != [] && CertainClosed(g, failed, nodes) && CertainWithin(st.prob, nodes)
    ensures CertainWithin(Turn(g, failed, sweep, st).prob, nodes)
  {
    hide IsImpactPath, RelaxAll, CertainClosed, Potential, Inv;
    PopKeepsInv(g, failed, st);
    var cur := st.queue[0];
    CertainRelaxAll(g, failed, nodes, sweep, st.prob[cur], cur, EdgesFrom(g, sweep, cur), st.(queue := st.queue[1..]));
  }

  lemma {:induction false} CertainRun(g: DependencyGraph, failed: set<string>, nodes: set<string>, sweep: Sweep, st: State)
    requires Inv(g, failed, st) && CertainClosed(g, failed, nodes) && CertainWithin(st.prob, nodes)
    ensures CertainWithin(Run(g, failed, sweep, st).prob, nodes)
    decreases Potential(g, st)
  {
    HeadroomNonNegative(g.nodes, st.prob);
    hide Turn, CertainClosed, CertainWithin, Inv;
    if st.queue != [] {
      CertainTurn(g, failed, nodes, sweep, st);
      CertainRun(g, failed, nodes, sweep, Turn(g, failed, sweep, st));
    }
  }

  // A node's probability is 1 only if a failed node reaches it along edges of weight 1.
  lemma CertainImpactContained(g: DependencyGraph, failed: set<string>, nodes: set<string>, sweep: Sweep)
    requires Valid(g) && failed <= Ids(g) && CertainClosed(g, failed, nodes)
    ensures CertainWithin(Impact(g, failed, sweep).prob, nodes)
  {
    StartInv(g, failed);
    CertainRun(g, failed, nodes, sweep, Start(failed));
  }
}
