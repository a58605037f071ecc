// The forecast in numbers: what every settled belief is, in terms of the beliefs of its parents.
module NoisyOr {
  import opened Reals
  import opened Graph
  import opened Forecast
  import opened Settling

  // The chance that none of the listed edges into t brings it down.
  function NoFailure(edges: seq<Edge>, b: Beliefs, t: string): real {
    if edges == [] then 1.0
    else
      var rest, e := NoFailure(edges[..|edges| - 1], b, t), edges[|edges| - 1];
      if e.target == t && e.source in b then Times(rest, 1.0 - b[e.source] * e.strength) else rest
  }

  // To three places, within one and ninety-nine percent.
  function Reported(p: real): real {
    Round((if p < 0.01 then 0.01 else if p > 0.99 then 0.99 else p) * 1000.0) as real / 1000.0
  }

  function Baseline(n: Node): real { Round(n.criticality * 0.10 * 1000.0) as real / 1000.0 }

  lemma ReportedIsRounded(p: real)
    ensures Round3(Clamp(p)) == Reported(p)
  {
    hide Round;
  }

  lemma Regroup(a: real, b: real, c: real)
    ensures Times(Times(a, b), c) == Times(a, Times(b, c)) && Times(a, 1.0) == a
  {
  }

  lemma NoFailureNext(front: seq<Edge>, e: Edge, b: Beliefs, t: string)
    ensures NoFailure(front + [e], b, t) == if e.target == t then Times(NoFailure(front, b, t), Spared(e, b)) else NoFailure(front, b, t)
  {
    assert (front + [e])[..|front|] == front;
    Regroup(NoFailure(front, b, t), 1.0, 1.0);
  }

  lemma {:induction false} SurvivalIsProduct(start: real, edges: seq<Edge>, b: Beliefs, t: string)
    ensures Survival(start, Incoming(edges, t), b) == Times(start, NoFailure(edges, b, t))
  {
    if edges == [] {
      Regroup(start, 1.0, 1.0);
    } else {
      var front, e := edges[..|edges| - 1], edges[|edges| - 1];
      assert edges == front + [e];
      SurvivalIsProduct(start, front, b, t);
      IncomingStep(front, e, t);
      NoFailureNext(front, e, b, t);
      hide Incoming, Times, NoFailure, Spared;
      if e.target == t {
        var ps := Incoming(front, t);
        assert (ps + [e])[..|ps|] == ps;
        SurvivalSplit(start, ps + [e], b);
        hide Survival;
        Regroup(start, NoFailure(front, b, t), Spared(e, b));
      }
    }
  }

  lemma PosteriorMeans(q: Question, b: Beliefs, t: string)
    requires t in q.priors
    ensures Posterior(q, b, t) == Reported(1.0 - Times(1.0 - q.priors[t], NoFailure(q.edges, b, t)))
  {
    hide Reported, Round3, Clamp, Survival, Incoming, NoFailure, Times;
    SurvivalIsProduct(1.0 - q.priors[t], q.edges, b, t);
    ReportedIsRounded(1.0 - Survival(1.0 - q.priors[t], Incoming(q.edges, t), b));
  }

  lemma {:induction false} PriorOf(nodes: seq<Node>, n: Node)
    requires n in nodes && forall i, j :: 0 <= i < j < |nodes| ==> nodes[i].id != nodes[j].id
    ensures n.id in Priors(nodes) && Priors(nodes)[n.id] == Baseline(n)
  {
    hide Round;
    var front, last := nodes[..|nodes| - 1], nodes[|nodes| - 1];
    if n != last {
      var i :| 0 <= i < |nodes| && nodes[i] == n;
      assert front[i] == n;
      PriorOf(front, n);
    }
  }

  lemma PriorIn(g: DependencyGraph, n: Node)
    requires Valid(g) && n in g.nodes
    ensures n.id in Priors(g.nodes) && Priors(g.nodes)[n.id] == Baseline(n)
  {
    PriorOf(g.nodes, n);
  }

  lemma HoldsMeans(q: Question, b: Beliefs, n: string)
    requires b.Keys == q.priors.Keys && n in b && Holds(q, b, n)
    ensures b[n] == if n in q.observed then Reported(q.observed[n])
                    else if Incoming(q.edges, n) == [] then q.priors[n]
                    else Reported(1.0 - Times(1.0 - q.priors[n], NoFailure(q.edges, b, n)))
  {
    hide Reported, Posterior, NoFailure, Round3, Clamp, Incoming, Times;
    if n in q.observed { ReportedIsRounded(q.observed[n]); } else { PosteriorMeans(q, b, n); }
  }

  // Every settled belief: an observed node keeps its observation, a node that nothing feeds its baseline,
  // and every other node has the noisy-OR of its baseline and the beliefs of its parents.
  lemma SettledBelief(g: DependencyGraph, observed: map<string, real>, n: Node, k: nat)
    requires Valid(g) && n in g.nodes && Reached(QuestionOf(g, observed), n.id, k)
    ensures var b := Sweeps(QuestionOf(g, observed), k);
            n.id in b && b[n.id] ==
              if n.id in observed then Reported(observed[n.id])
              else if forall e :: e in g.edges ==> e.target != n.id then Baseline(n)
              else Reported(1.0 - Times(1.0 - Baseline(n), NoFailure(g.edges, b, n.id)))
  {
    hide Sweeps, Reached, Priors, Baseline, Reported, NoFailure, Incoming, Times, Valid, Holds;
    var q := QuestionOf(g, observed);
    PriorIn(g, n);
    IncomingNone(g.edges, n.id);
    SweepsSettle(q, k);
    assert Holds(q, Sweeps(q, k), n.id);
    hide Solved;
    HoldsMeans(q, Sweeps(q, k), n.id);
  }

  lemma IncomingNone(edges: seq<Edge>, t: string)
    ensures Incoming(edges, t) == [] <==> forall e :: e in edges ==> e.target != t
  {
    if e :| e in edges && e.target == t { assert e in Incoming(edges, t); }
    if Incoming(edges, t) != [] { assert Incoming(edges, t)[0] in Incoming(edges, t); }
  }

  // A child of observed parents only is settled by the first sweep, and for good.
  lemma ChildOfObserved(g: DependencyGraph, observed: map<string, real>, n: Node, k: nat)
    requires Valid(g) && n in g.nodes && n.id !in observed && k >= 1
    requires exists e :: e in g.edges && e.target == n.id
    requires forall e :: e in g.edges && e.target == n.id ==> e.source in observed
    ensures var b := Sweeps(QuestionOf(g, observed), k);
            && n.id in b && b[n.id] == Reported(1.0 - Times(1.0 - Baseline(n), NoFailure(g.edges, b, n.id)))
            && forall e :: e in g.edges && e.target == n.id ==> e.source in b && b[e.source] == Reported(observed[e.source])
  {
    var q := QuestionOf(g, observed);
    assert Reached(q, n.id, 1);
    hide Reported, Baseline, NoFailure, Sweeps, Priors, Round3, Incoming;
    ReachedLater(q, n.id, 1, k);
    SettledBelief(g, observed, n, k);
    forall e | e in g.edges && e.target == n.id
      ensures e.source in Sweeps(q, k) && Sweeps(q, k)[e.source] == Reported(observed[e.source])
    {
      var m :| m in g.nodes && m.id == e.source;
      assert Reached(q, m.id, k);
      SettledBelief(g, observed, m, k);
    }
  }

  lemma ExampleNumbers(n: Node)
    requires n.criticality == 0.0
    ensures Baseline(n) == 0.0 && Reported(0.9) == 0.9 && Reported(1.0 - Times(1.0 - 0.0, 0.46)) == 0.54
  {
    RoundExact(0);
    RoundExact(900);
    RoundExact(540);
    assert Times(1.0 - 0.0, 0.46) == 0.46;
    hide Round;
  }

  lemma OneFactor(e: Edge, b: Beliefs, t: string)
    requires e.target == t && e.strength == 0.6 && e.source in b && b[e.source] == 0.9
    ensures NoFailure([e], b, t) == 0.46
  {
    NoFailureNext([], e, b, t);
    assert [] + [e] == [e] && Spared(e, b) == 0.46 && NoFailure([], b, t) == 1.0;
    Regroup(0.46, 1.0, 1.0);
    hide NoFailure, Spared;
    assert Times(1.0, 0.46) == 0.46;
  }

  lemma OneParentBelief(g: DependencyGraph, observed: map<string, real>, n: Node, e: Edge, k: nat)
    requires Valid(g) && n in g.nodes && n.criticality == 0.0 && n.id !in observed && k >= 1
    requires g.edges == [e] && e.target == n.id && e.strength == 0.6 && e.source in observed && observed[e.source] == 0.9
    ensures var b := Sweeps(QuestionOf(g, observed), k);
            n.id in b && b[n.id] == Reported(1.0 - Times(1.0 - Baseline(n), NoFailure([e], b, n.id)))
            && e.source in b && b[e.source] == Reported(0.9)
  {
    hide Sweeps, Valid, Reported, Baseline, Priors, NoFailure, Times;
    assert e in g.edges;
    ChildOfObserved(g, observed, n, k);
  }

  // One parent observed at 0.9 and an edge of strength 0.6: the child of no criticality stands at 0.54.
  lemma OneParent(g: DependencyGraph, observed: map<string, real>, n: Node, e: Edge, k: nat)
    requires Valid(g) && n in g.nodes && n.criticality == 0.0 && n.id !in observed && k >= 1
    requires g.edges == [e] && e.target == n.id && e.strength == 0.6 && e.source in observed && observed[e.source] == 0.9
    ensures var b := Sweeps(QuestionOf(g, observed), k); n.id in b && b[n.id] == 0.54 && n.id in HighRisk(g.nodes, b)
  {
    hide Sweeps, Valid, Reported, Baseline, Priors, NoFailure, Times, HighRisk;
    var b := Sweeps(QuestionOf(g, observed), k);
    OneParentBelief(g, observed, n, e, k);
    ExampleNumbers(n);
    OneFactor(e, b, n.id);
    HighRiskMeans(g.nodes, b, n.id);
  }
}
