// The noisy-OR forecaster: three in-place sweeps over the dependents, in the
// order in which the edge list first names them.
module Forecast {
  import opened Wrappers
  import opened Reals
  import opened Graph

  type Beliefs = map<string, real>

  datatype Question = Question(edges: seq<Edge>, priors: Beliefs, observed: map<string, real>)

  datatype Outcome = Outcome(failure: real, highRisk: seq<string>, beliefs: Beliefs)

  datatype Error = NoNodes

  function Round3(x: real): real { Round(x * 1000.0) as real / 1000.0 }

  function Clamp(p: real): real { Min(0.99, Max(0.01, p)) }

  function Priors(nodes: seq<Node>): Beliefs {
    if nodes == [] then map[]
    else
      var last := nodes[|nodes| - 1];
      Priors(nodes[..|nodes| - 1])[last.id := Round3(last.criticality * 0.10)]
  }

  function Start(q: Question): (b: Beliefs)
    ensures b.Keys == q.priors.Keys
  {
    map n | n in q.priors :: if n in q.observed then Round3(Clamp(q.observed[n])) else q.priors[n]
  }

  // The edges into t, in list order.
  function Incoming(edges: seq<Edge>, t: string): (r: seq<Edge>)
    ensures forall e :: e in r <==> e in edges && e.target == t
  {
    if edges == [] then []
    else
      var rest := Incoming(edges[..|edges| - 1], t);
      if edges[|edges| - 1].target == t then rest + [edges[|edges| - 1]] else rest
  }

  // The dependents in the order of their first edge.
  function Targets(edges: seq<Edge>): (r: seq<string>)
    ensures forall t :: t in r <==> Incoming(edges, t) != []
  {
    if edges == [] then []
    else
      var rest, t := Targets(edges[..|edges| - 1]), edges[|edges| - 1].target;
      if t in rest then rest else rest + [t]
  }

  // The chance that one parent does not bring the child down.
  function Spared(e: Edge, b: Beliefs): real {
    if e.source in b then 1.0 - b[e.source] * e.strength else 1.0
  }

  function Survival(start: real, parents: seq<Edge>, b: Beliefs): real {
    if parents == [] then start
    else Times(Survival(start, parents[..|parents| - 1], b), Spared(parents[|parents| - 1], b))
  }

  function Posterior(q: Question, b: Beliefs, t: string): real
    requires t in q.priors
  {
    Round3(Clamp(1.0 - Survival(1.0 - q.priors[t], Incoming(q.edges, t), b)))
  }

  function Step(q: Question, b: Beliefs, t: string): (r: Beliefs)
    requires b.Keys == q.priors.Keys
    ensures r.Keys == b.Keys
  {
    if t in q.observed || t !in b then b else b[t := Posterior(q, b, t)]
  }

  function Sweep(q: Question, b: Beliefs, targets: seq<string>): (r: Beliefs)
    requires b.Keys == q.priors.Keys
    ensures r.Keys == b.Keys
  {
    if targets == [] then b else Step(q, Sweep(q, b, targets[..|targets| - 1]), targets[|targets| - 1])
  }

  function Sweeps(q: Question, count: nat): (r: Beliefs)
    ensures r.Keys == q.priors.Keys
  {
    if count == 0 then Start(q) else Sweep(q, Sweeps(q, count - 1), Targets(q.edges))
  }

  // ---------- Worse observations never lower a belief ----------

  ghost predicate ValidQuestion(q: Question) {
    && (forall e :: e in q.edges ==> IsScore(e.strength))
    && (forall n :: n in q.priors ==> IsScore(q.priors[n]))
  }

  ghost predicate Scores(b: Beliefs) { forall n :: n in b ==> IsScore(b[n]) }

  ghost predicate AtMost(b: Beliefs, c: Beliefs) {
    b.Keys == c.Keys && Scores(b) && Scores(c) && forall n :: n in b ==> b[n] <= c[n]
  }

  lemma Round3Monotone(x: real, y: real)
    requires x <= y
    ensures Round3(x) <= Round3(y)
  {
    hide Round;
    RoundMonotone(x * 1000.0, y * 1000.0);
  }

  lemma Round3IsScore(x: real)
    requires IsScore(x)
    ensures IsScore(Round3(x))
  {
    hide Round;
    RoundMonotone(0.0, x * 1000.0);
    RoundMonotone(x * 1000.0, 1000.0);
    RoundExact(0);
    RoundExact(1000);
  }

  lemma {:induction false} PriorsAreScores(nodes: seq<Node>)
    requires forall n :: n in nodes ==> IsScore(n.criticality)
    ensures Scores(Priors(nodes))
  {
    hide Round3;
    if nodes != [] {
      assert nodes[|nodes| - 1] in nodes;
      PriorsAreScores(nodes[..|nodes| - 1]);
      Round3IsScore(nodes[|nodes| - 1].criticality * 0.10);
    }
  }

  lemma SparedAtMost(e: Edge, b: Beliefs, c: Beliefs)
    requires IsScore(e.strength) && AtMost(b, c)
    ensures 0.0 <= Spared(e, c) <= Spared(e, b) <= 1.0
  {
    if e.source in b {
      UnitProduct(b[e.source], e.strength, b[e.source] * e.strength);
      UnitProduct(c[e.source], e.strength, c[e.source] * e.strength);
      MonotoneProduct(e.strength, b[e.source], c[e.source], b[e.source] * e.strength, c[e.source] * e.strength);
    }
  }

  lemma TimesAtMost(x: real, y: real, k: real, l: real)
    requires 0.0 <= x <= y <= 1.0 && 0.0 <= k <= l <= 1.0
    ensures 0.0 <= Times(x, k) <= Times(y, l) <= 1.0
  {
    UnitProduct(x, k, Times(x, k));
    UnitProduct(y, l, Times(y, l));
    MonotoneProduct(x, k, l, Times(x, k), x * l);
    MonotoneProduct(l, x, y, l * x, Times(y, l));
  }

  lemma {:induction false} SurvivalAtMost(start: real, parents: seq<Edge>, b: Beliefs, c: Beliefs)
    requires IsScore(start) && AtMost(b, c) && forall e :: e in parents ==> IsScore(e.strength)
    ensures 0.0 <= Survival(start, parents, c) <= Survival(start, parents, b) <= 1.0
  {
    hide Times, Spared, AtMost;
    if parents != [] {
      var rest, last := parents[..|parents| - 1], parents[|parents| - 1];
      assert last in parents;
      SurvivalAtMost(start, rest, b, c);
      SparedAtMost(last, b, c);
      TimesAtMost(Survival(start, rest, c), Survival(start, rest, b), Spared(last, c), Spared(last, b));
    }
  }

  lemma RoundedAtMost(x: real, y: real)
    requires x <= y
    ensures 0.0 <= Round3(Clamp(x)) <= Round3(Clamp(y)) <= 1.0
  {
    hide Round3;
    Round3Monotone(Clamp(x), Clamp(y));
    Round3IsScore(Clamp(x));
    Round3IsScore(Clamp(y));
  }

  lemma IncomingScores(q: Question, t: string)
    requires ValidQuestion(q) && t in q.priors
    ensures IsScore(1.0 - q.priors[t]) && forall e :: e in Incoming(q.edges, t) ==> IsScore(e.strength)
  {
    hide Incoming;
  }

  lemma PosteriorAtMost(q: Question, b: Beliefs, c: Beliefs, t: string)
    requires ValidQuestion(q) && AtMost(b, c) && t in q.priors
    ensures 0.0 <= Posterior(q, b, t) <= Posterior(q, c, t) <= 1.0
  {
    hide Round3, Clamp, Survival, AtMost, Incoming, ValidQuestion;
    var parents := Incoming(q.edges, t);
    IncomingScores(q, t);
    SurvivalAtMost(1.0 - q.priors[t], parents, b, c);
    RoundedAtMost(1.0 - Survival(1.0 - q.priors[t], parents, b), 1.0 - Survival(1.0 - q.priors[t], parents, c));
  }

  ghost predicate Worse(q: Question, p: Question) {
    && p == q.(observed := p.observed) && p.observed.Keys == q.observed.Keys
    && forall n :: n in q.observed ==> q.observed[n] <= p.observed[n]
  }

  lemma StartAtMost(q: Question, p: Question)
    requires ValidQuestion(q) && Worse(q, p)
    ensures AtMost(Start(q), Start(p))
  {
    hide Round3;
    forall n | n in q.priors ensures 0.0 <= Start(q)[n] <= Start(p)[n] <= 1.0 {
      if n in q.observed {
        Round3Monotone(Clamp(q.observed[n]), Clamp(p.observed[n]));
        Round3IsScore(Clamp(q.observed[n]));
        Round3IsScore(Clamp(p.observed[n]));
      }
    }
  }

  lemma StepAtMost(q: Question, p: Question, b: Beliefs, c: Beliefs, t: string)
    requires ValidQuestion(q) && Worse(q, p) && b.Keys == q.priors.Keys && AtMost(b, c)
    ensures AtMost(Step(q, b, t), Step(p, c, t))
  {
    if t in b {
      PosteriorAtMost(q, b, c, t);
      assert Posterior(p, c, t) == Posterior(q, c, t);
      hide Posterior;
    }
  }

  lemma {:induction false} SweepAtMost(q: Question, p: Question, b: Beliefs, c: Beliefs, targets: seq<string>)
    requires ValidQuestion(q) && Worse(q, p) && b.Keys == q.priors.Keys && AtMost(b, c)
    ensures AtMost(Sweep(q, b, targets), Sweep(p, c, targets))
  {
    hide ValidQuestion, AtMost, Step;
    assert b.Keys == c.Keys by { AtMostKeys(b, c); }
    if targets != [] {
      var rest := targets[..|targets| - 1];
      SweepAtMost(q, p, b, c, rest);
      StepAtMost(q, p, Sweep(q, b, rest), Sweep(p, c, rest), targets[|targets| - 1]);
    }
  }

  lemma AtMostKeys(b: Beliefs, c: Beliefs)
    requires AtMost(b, c)
    ensures b.Keys == c.Keys
  {
  }

  lemma SweepsStep(q: Question, p: Question, count: nat)
    requires Worse(q, p) && count > 0
    ensures p.edges == q.edges && p.priors.Keys == q.priors.Keys
    ensures Sweeps(q, count) == Sweep(q, Sweeps(q, count - 1), Targets(q.edges))
    ensures Sweeps(p, count) == Sweep(p, Sweeps(p, count - 1), Targets(q.edges))
  {
  }

  lemma SweepsBase(q: Question)
    ensures Sweeps(q, 0) == Start(q)
  {
  }

  // With the same nodes observed, raising the observed levels lowers no belief after any number of sweeps.
  lemma {:induction false} SweepsMonotone(q: Question, p: Question, count: nat)
    requires ValidQuestion(q) && Worse(q, p)
    ensures AtMost(Sweeps(q, count), Sweeps(p, count))
  {
    hide ValidQuestion, Worse, AtMost, Sweeps, Sweep, Start, Targets, Incoming;
    if count == 0 {
      SweepsBase(q);
      SweepsBase(p);
      StartAtMost(q, p);
    } else {
      SweepsMonotone(q, p, count - 1);
      SweepsStep(q, p, count);
      SweepAtMost(q, p, Sweeps(q, count - 1), Sweeps(p, count - 1), Targets(q.edges));
    }
  }

  // A node that is updated stays between one and ninety-nine percent.
  lemma PosteriorInRange(q: Question, b: Beliefs, t: string)
    requires t in q.priors
    ensures 0.01 <= Posterior(q, b, t) <= 0.99
  {
    var x := Clamp(1.0 - Survival(1.0 - q.priors[t], Incoming(q.edges, t), b));
    hide Round;
    RoundMonotone(10.0, x * 1000.0);
    RoundMonotone(x * 1000.0, 990.0);
    RoundExact(10);
    RoundExact(990);
  }

  // ---------- The loops ----------

  datatype NodeProb = NodeProb(prior: real, posterior: real)

  type Parents = map<string, seq<(string, real)>>

  function Strip(edges: seq<Edge>): (r: seq<(string, real)>)
    ensures |r| == |edges| && forall i :: 0 <= i < |r| ==> r[i] == (edges[i].source, edges[i].strength)
  {
    if edges == [] then [] else Strip(edges[..|edges| - 1]) + [(edges[|edges| - 1].source, edges[|edges| - 1].strength)]
  }

  ghost predicate Grouped(edges: seq<Edge>, order: seq<string>, parents: Parents) {
    order == Targets(edges) && forall t :: (t in parents <==> t in order) && (t in parents ==> parents[t] == Strip(Incoming(edges, t)))
  }

  function AddEdge(parents: Parents, e: Edge): Parents {
    parents[e.target := (if e.target in parents then parents[e.target] else []) + [(e.source, e.strength)]]
  }

  lemma IncomingStep(edges: seq<Edge>, e: Edge, t: string)
    ensures Incoming(edges + [e], t) == if e.target == t then Incoming(edges, t) + [e] else Incoming(edges, t)
    ensures Targets(edges + [e]) == if e.target in Targets(edges) then Targets(edges) else Targets(edges) + [e.target]
  {
    assert (edges + [e])[..|edges|] == edges;
  }

  lemma StripStep(edges: seq<Edge>, e: Edge)
    ensures Strip(edges + [e]) == Strip(edges) + [(e.source, e.strength)] && Strip([]) == []
  {
    assert (edges + [e])[..|edges|] == edges;
  }

  lemma GroupedStep(edges: seq<Edge>, e: Edge, order: seq<string>, parents: Parents)
    requires Grouped(edges, order, parents)
    ensures Grouped(edges + [e], if e.target in parents then order else order + [e.target], AddEdge(parents, e))
  {
    hide Incoming, Targets, Strip;
    forall t | t in AddEdge(parents, e) ensures AddEdge(parents, e)[t] == Strip(Incoming(edges + [e], t)) {
      IncomingStep(edges, e, t);
      StripStep(Incoming(edges, t), e);
      if t !in parents { assert t !in Targets(edges) && Incoming(edges, t) == []; }
    }
    IncomingStep(edges, e, e.target);
  }

  lemma GroupedNone()
    ensures Grouped([], [], map[])
  {
  }

  // The parents of every dependent, with the dependents in order of first appearance.
  method GroupParents(edges: seq<Edge>) returns (order: seq<string>, parents: Parents)
    ensures Grouped(edges, order, parents)
  {
    hide Grouped, Incoming, Targets;
    order, parents := [], map[];
    GroupedNone();
    for i := 0 to |edges|
      invariant Grouped(edges[..i], order, parents)
    {
      var e := edges[i];
      GroupedStep(edges[..i], e, order, parents);
      assert edges[..i + 1] == edges[..i] + [e];
      ghost var next := AddEdge(parents, e);
      if e.target !in parents {
        order := order + [e.target];
        parents := parents[e.target := []];
      }
      parents := parents[e.target := parents[e.target] + [(e.source, e.strength)]];
      assert parents == next;
    }
    assert edges[..|edges|] == edges;
  }

  ghost predicate Represents(probs: map<string, NodeProb>, q: Question, b: Beliefs) {
    probs.Keys == q.priors.Keys == b.Keys && forall n :: n in probs ==> probs[n] == NodeProb(q.priors[n], b[n])
  }

  // The inner loop for one dependent.
  method Combine(probs: map<string, NodeProb>, start: real, parents: seq<(string, real)>,
                 ghost q: Question, ghost b: Beliefs, ghost edges: seq<Edge>) returns (survival: real)
    requires Represents(probs, q, b) && parents == Strip(edges)
    ensures survival == Survival(start, edges, b)
  {
    survival := start;
    for i := 0 to |parents|
      invariant survival == Survival(start, edges[..i], b)
    {
      hide Strip;
      assert edges[..i + 1][..i] == edges[..i];
      var (parent, weight) := parents[i];
      if parent in probs {
        survival := Times(survival, 1.0 - probs[parent].posterior * weight);
      } else {
        survival := Times(survival, 1.0);
      }
    }
    assert edges[..|edges|] == edges;
  }

  // One dependent's turn.
  method Revise(probs: map<string, NodeProb>, observed: map<string, real>, t: string, parents: seq<(string, real)>,
                ghost q: Question, ghost b: Beliefs) returns (next: map<string, NodeProb>)
    requires Represents(probs, q, b) && observed == q.observed && parents == Strip(Incoming(q.edges, t))
    ensures Represents(next, q, Step(q, b, t))
  {
    hide Incoming, Strip, Survival, Round3, Clamp;
    if t in observed { return probs; }
    if t !in probs { return probs; }
    var survival := Combine(probs, 1.0 - probs[t].prior, parents, q, b, Incoming(q.edges, t));
    next := probs[t := probs[t].(posterior := Round3(Clamp(1.0 - survival)))];
  }

  method SweepOnce(probs: map<string, NodeProb>, observed: map<string, real>, order: seq<string>, parents: Parents,
                   ghost q: Question, ghost b: Beliefs) returns (next: map<string, NodeProb>)
    requires Represents(probs, q, b) && observed == q.observed && Grouped(q.edges, order, parents)
    ensures Represents(next, q, Sweep(q, b, order))
  {
    hide Incoming, Strip, Step, Targets;
    assert b.Keys == q.priors.Keys;
    assert order[..0] == [];
    next := probs;
    for i := 0 to |order|
      invariant Represents(next, q, Sweep(q, b, order[..i]))
    {
      assert order[..i + 1][..i] == order[..i];
      assert order[i] in parents;
      next := Revise(next, observed, order[i], parents[order[i]], q, Sweep(q, b, order[..i]));
    }
    assert order[..|order|] == order;
  }

  lemma PriorsStep(nodes: seq<Node>, i: nat)
    requires i < |nodes|
    ensures Priors(nodes[..i + 1]) == Priors(nodes[..i])[nodes[i].id := Round3(nodes[i].criticality * 0.10)]
  {
    assert nodes[..i + 1][..i] == nodes[..i];
  }

  // Baseline beliefs, then the observations written over them.
  method Initialise(nodes: seq<Node>, observed: map<string, real>, ghost q: Question) returns (probs: map<string, NodeProb>)
    requires q.priors == Priors(nodes) && q.observed == observed
    ensures Represents(probs, q, Start(q))
  {
    hide Round3, Clamp, Priors;
    probs := map[];
    assert Priors(nodes[..0]) == map[] by { NoPriors(); }
    for i := 0 to |nodes|
      invariant Represents(probs, q.(priors := Priors(nodes[..i])), Priors(nodes[..i]))
    {
      PriorsStep(nodes, i);
      var prior := Round3(nodes[i].criticality * 0.10);
      probs := probs[nodes[i].id := NodeProb(prior, prior)];
    }
    assert nodes[..|nodes|] == nodes;
    probs := Inject(probs, observed, q);
  }

  lemma NoPriors()
    ensures Priors([]) == map[]
  {
  }

  method Inject(start: map<string, NodeProb>, observed: map<string, real>, ghost q: Question) returns (probs: map<string, NodeProb>)
    requires Represents(start, q, q.priors) && q.observed == observed
    ensures Represents(probs, q, Start(q))
  {
    hide Round3, Clamp;
    probs := start;
    var todo := observed.Keys;
    while todo != {}
      invariant todo <= observed.Keys && probs.Keys == q.priors.Keys
      invariant forall n :: n in probs ==>
        probs[n] == NodeProb(q.priors[n], if n in observed && n !in todo then Round3(Clamp(observed[n])) else q.priors[n])
      decreases |todo|
    {
      var n :| n in todo;
      if n in probs { probs := probs[n := probs[n].(posterior := Round3(Clamp(observed[n])))]; }
      todo := todo - {n};
    }
  }

  function HighRisk(nodes: seq<Node>, b: Beliefs): seq<string> {
    if nodes == [] then []
    else
      var rest, id := HighRisk(nodes[..|nodes| - 1], b), nodes[|nodes| - 1].id;
      if id in b && b[id] >= 0.5 then rest + [id] else rest
  }

  // Exactly the nodes that more likely fail than not.
  lemma {:induction false} HighRiskMeans(nodes: seq<Node>, b: Beliefs, id: string)
    ensures id in HighRisk(nodes, b) <==> (exists n :: n in nodes && n.id == id) && id in b && b[id] >= 0.5
  {
    if nodes != [] {
      var front, last := nodes[..|nodes| - 1], nodes[|nodes| - 1];
      HighRiskMeans(front, b, id);
      assert forall n :: n in nodes <==> n in front || n == last;
    }
  }

  function QuestionOf(g: DependencyGraph, observed: map<string, real>): Question {
    Question(g.edges, Priors(g.nodes), observed)
  }

  lemma {:induction false} PriorsOfNodes(nodes: seq<Node>)
    ensures Priors(nodes).Keys == set n | n in nodes :: n.id
  {
    hide Round3;
    if nodes != [] {
      var last := nodes[|nodes| - 1];
      PriorsOfNodes(nodes[..|nodes| - 1]);
      assert nodes == nodes[..|nodes| - 1] + [last];
    }
  }

  method Propagate(g: DependencyGraph, observed: map<string, real>, ghost q: Question) returns (probs: map<string, NodeProb>)
    requires q == QuestionOf(g, observed)
    ensures Represents(probs, q, Sweeps(q, 3))
  {
    hide Represents, Grouped, Incoming, Sweep, Targets;
    probs := Initialise(g.nodes, observed, q);
    assert Sweeps(q, 0) == Start(q);
    var order, parents := GroupParents(g.edges);
    GroupedOrder(g.edges, order, parents);
    for i := 0 to 3
      invariant Represents(probs, q, Sweeps(q, i))
    {
      probs := SweepOnce(probs, observed, order, parents, q, Sweeps(q, i));
      assert Sweeps(q, i + 1) == Sweep(q, Sweeps(q, i), order);
    }
  }

  lemma GroupedOrder(edges: seq<Edge>, order: seq<string>, parents: Parents)
    requires Grouped(edges, order, parents)
    ensures order == Targets(edges)
  {
  }

  // An unknown target reads the first node; a graph without nodes has no answer.
  method Forecast(g: DependencyGraph, target: string, observed: map<string, real>) returns (r: Result<Outcome, Error>)
    requires Valid(g)
    ensures r.Err? <==> g.nodes == []
    ensures r.Ok? ==>
      var b := Sweeps(QuestionOf(g, observed), 3);
      r.value.beliefs == b && r.value.highRisk == HighRisk(g.nodes, b) && b.Keys == Ids(g)
      && r.value.failure == b[if target in b then target else g.nodes[0].id]
      && forall id :: id in r.value.highRisk <==> id in b && b[id] >= 0.5
  {
    ghost var q := QuestionOf(g, observed);
    PriorsOfNodes(g.nodes);
    hide Valid, Sweeps, Priors;
    var probs := Propagate(g, observed, q);
    if |g.nodes| == 0 { return Err(NoNodes); }
    assert g.nodes[0] in g.nodes;
    var beliefs := map n | n in probs :: probs[n].posterior;
    assert beliefs == Sweeps(q, 3);
    forall id ensures id in HighRisk(g.nodes, beliefs) <==> id in beliefs && beliefs[id] >= 0.5 { HighRiskMeans(g.nodes, beliefs, id); }
    hide HighRisk;
    r := Ok(Outcome(beliefs[if target in beliefs then target else g.nodes[0].id], HighRisk(g.nodes, beliefs), beliefs));
  }
}
