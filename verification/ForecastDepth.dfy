// Three sweeps do not settle a chain of four edges that the edge list names backwards.
module ForecastDepth {
  import opened Reals
  import opened Wrappers
  import opened Graph
  import opened Forecast
  import opened Settling

  // Five different node ids.
  datatype Names = Names(n0: string, n1: string, n2: string, n3: string, n4: string)

  ghost predicate Different(c: Names) {
    && c.n0 != c.n1 && c.n0 != c.n2 && c.n0 != c.n3 && c.n0 != c.n4 && c.n1 != c.n2
    && c.n1 != c.n3 && c.n1 != c.n4 && c.n2 != c.n3 && c.n2 != c.n4 && c.n3 != c.n4
  }

  function Link(source: string, target: string): (e: Edge)
    ensures e.source == source && e.target == target && e.strength == 1.0
  {
    Edge(source, target, 1.0, false, None)
  }

  function Backwards(c: Names): seq<Edge> { [Link(c.n3, c.n4)] + [Link(c.n2, c.n3)] + [Link(c.n1, c.n2)] + [Link(c.n0, c.n1)] }

  function Zeros(c: Names): (b: Beliefs)
    ensures b.Keys == {c.n0, c.n1, c.n2, c.n3, c.n4} && forall n :: n in b ==> b[n] == 0.0
  {
    map[c.n0 := 0.0, c.n1 := 0.0, c.n2 := 0.0, c.n3 := 0.0, c.n4 := 0.0]
  }

  function Chain(c: Names): Question { Question(Backwards(c), Zeros(c), map[c.n0 := 1.0]) }

  function Rounded(x: real): real { Round3(Clamp(x)) }

  lemma RoundedValues()
    ensures Rounded(0.0) == 0.01 && Rounded(0.01) == 0.01 && Rounded(0.99) == 0.99 && Rounded(1.0) == 0.99
  {
    RoundExact(10);
    RoundExact(990);
  }

  function ParentOf(c: Names, t: string): seq<Edge> {
    if t == c.n4 then [Link(c.n3, c.n4)] else if t == c.n3 then [Link(c.n2, c.n3)]
    else if t == c.n2 then [Link(c.n1, c.n2)] else if t == c.n1 then [Link(c.n0, c.n1)] else []
  }

  function One(e: Edge, t: string): seq<Edge> { if e.target == t then [e] else [] }

  lemma IncomingNext(es: seq<Edge>, e: Edge, t: string)
    ensures Incoming(es + [e], t) == Incoming(es, t) + One(e, t)
  {
    IncomingStep(es, e, t);
    hide Incoming;
  }

  lemma IncomingFour(w: Edge, x: Edge, y: Edge, z: Edge, t: string)
    ensures Incoming([w] + [x] + [y] + [z], t) == One(w, t) + One(x, t) + One(y, t) + One(z, t)
  {
    assert Incoming([], t) == [] && [] + [w] == [w];
    hide Incoming, One;
    IncomingNext([], w, t);
    assert [] + One(w, t) == One(w, t);
    IncomingNext([w], x, t);
    IncomingNext([w] + [x], y, t);
    IncomingNext([w] + [x] + [y], z, t);
  }

  predicate TakesTurns(es: seq<Edge>, ts: seq<string>) { Targets(es) == ts }

  lemma TurnsNext(es: seq<Edge>, e: Edge, ts: seq<string>)
    requires TakesTurns(es, ts) && e.target !in ts
    ensures TakesTurns(es + [e], ts + [e.target])
  {
    IncomingStep(es, e, e.target);
    hide Targets, Incoming;
  }

  lemma NoTurns()
    ensures TakesTurns([], [])
  {
  }

  lemma TurnsFour(w: Edge, x: Edge, y: Edge, z: Edge)
    requires w.target != x.target && w.target != y.target && x.target != y.target
    requires z.target !in {w.target, x.target, y.target}
    ensures TakesTurns([w] + [x] + [y] + [z], [w.target] + [x.target] + [y.target] + [z.target])
  {
    hide TakesTurns;
    NoTurns();
    assert [] + [w] == [w] && [] + [w.target] == [w.target];
    TurnsNext([], w, []);
    TurnsNext([w], x, [w.target]);
    TurnsNext([w] + [x], y, [w.target] + [x.target]);
    TurnsNext([w] + [x] + [y], z, [w.target] + [x.target] + [y.target]);
  }

  lemma ChainShape(c: Names, t: string)
    requires Different(c)
    ensures Incoming(Backwards(c), t) == ParentOf(c, t)
    ensures Targets(Backwards(c)) == [c.n4, c.n3, c.n2, c.n1]
  {
    var w, x, y, z := Link(c.n3, c.n4), Link(c.n2, c.n3), Link(c.n1, c.n2), Link(c.n0, c.n1);
    hide Incoming, Targets, Link;
    IncomingFour(w, x, y, z, t);
    TurnsFour(w, x, y, z);
  }

  lemma SurvivalOne(start: real, e: Edge, b: Beliefs)
    ensures Survival(start, [e], b) == Times(start, Spared(e, b))
  {
    assert [e][..0] == [];
  }

  lemma PosteriorOne(q: Question, b: Beliefs, t: string, e: Edge)
    requires t in q.priors && q.priors[t] == 0.0 && Incoming(q.edges, t) == [e] && e.source in b && e.strength == 1.0
    ensures Posterior(q, b, t) == Rounded(b[e.source])
  {
    hide Incoming, Survival, Round3, Clamp;
    SurvivalOne(1.0, e, b);
    assert Spared(e, b) == 1.0 - b[e.source];
  }

  lemma PosteriorChain(c: Names, b: Beliefs, s: string, t: string)
    requires Different(c) && ParentOf(c, t) == [Link(s, t)] && s in b && t in Zeros(c)
    ensures Posterior(Chain(c), b, t) == Rounded(b[s])
  {
    ChainShape(c, t);
    hide Incoming, Backwards, Posterior, ParentOf, Link, Zeros, Rounded, Different;
    PosteriorOne(Chain(c), b, t, Link(s, t));
  }

  ghost predicate Reads(c: Names, b: Beliefs, x1: real, x2: real, x3: real, x4: real) {
    b.Keys == Zeros(c).Keys && b[c.n0] == 0.99 && b[c.n1] == x1 && b[c.n2] == x2 && b[c.n3] == x3 && b[c.n4] == x4
  }

  lemma StepChain(c: Names, b: Beliefs, s: string, t: string)
    requires Different(c) && b.Keys == Zeros(c).Keys && ParentOf(c, t) == [Link(s, t)] && s in b && t in b && t != c.n0
    ensures Step(Chain(c), b, t) == b[t := Rounded(b[s])]
  {
    PosteriorChain(c, b, s, t);
    hide Posterior, Rounded, Backwards, ParentOf, Zeros;
  }

  lemma SweepFour(q: Question, b: Beliefs, w: string, x: string, y: string, z: string)
    requires b.Keys == q.priors.Keys
    ensures Sweep(q, b, [w, x, y, z]) == Step(q, Step(q, Step(q, Step(q, b, w), x), y), z)
  {
    assert [w, x, y, z][..3] == [w, x, y] && [w, x, y][..2] == [w, x] && [w, x][..1] == [w] && [w][..0] == [];
    hide Step;
    assert Sweep(q, b, []) == b;
    assert Sweep(q, b, [w]) == Step(q, b, w);
    assert Sweep(q, b, [w, x]) == Step(q, Step(q, b, w), x);
    assert Sweep(q, b, [w, x, y]) == Step(q, Step(q, Step(q, b, w), x), y);
  }

  // One sweep moves every belief one edge down the chain.
  lemma SweepChain(c: Names, b: Beliefs, x1: real, x2: real, x3: real, x4: real)
    requires Different(c) && Reads(c, b, x1, x2, x3, x4)
    ensures Reads(c, Sweep(Chain(c), b, Targets(Backwards(c))), 0.99, Rounded(x1), Rounded(x2), Rounded(x3))
  {
    ChainShape(c, c.n4);
    RoundedValues();
    SweepFour(Chain(c), b, c.n4, c.n3, c.n2, c.n1);
    hide Rounded, Step, Targets, Backwards, Zeros, Sweep, Link, Incoming;
    StepChain(c, b, c.n3, c.n4);
    var d := Step(Chain(c), b, c.n4);
    StepChain(c, d, c.n2, c.n3);
    var e := Step(Chain(c), d, c.n3);
    StepChain(c, e, c.n1, c.n2);
    var f := Step(Chain(c), e, c.n2);
    StepChain(c, f, c.n0, c.n1);
  }

  lemma WithinStep(c: Names, s: string, t: string, k: nat)
    requires Different(c) && ParentOf(c, t) == [Link(s, t)] && t != c.n0
    ensures Within(Chain(c), t, k) <==> k > 0 && Within(Chain(c), s, k - 1)
  {
    ChainShape(c, t);
    assert Link(s, t) in ParentOf(c, t);
    hide Incoming, Backwards, ParentOf, Link, Zeros;
  }

  lemma ParentsChain(c: Names)
    requires Different(c)
    ensures ParentOf(c, c.n4) == [Link(c.n3, c.n4)] && ParentOf(c, c.n3) == [Link(c.n2, c.n3)]
    ensures ParentOf(c, c.n2) == [Link(c.n1, c.n2)] && ParentOf(c, c.n1) == [Link(c.n0, c.n1)]
  {
  }

  lemma WithinThree(c: Names, k: nat)
    requires Different(c)
    ensures Within(Chain(c), c.n4, k + 3) <==> Within(Chain(c), c.n1, k)
  {
    ParentsChain(c);
    hide Within, Chain, Link, ParentOf;
    WithinStep(c, c.n3, c.n4, k + 3);
    WithinStep(c, c.n2, c.n3, k + 2);
    WithinStep(c, c.n1, c.n2, k + 1);
  }

  lemma WithinFour(c: Names, k: nat)
    requires Different(c)
    ensures Within(Chain(c), c.n4, k + 3) <==> k > 0
  {
    ParentsChain(c);
    WithinThree(c, k);
    assert Fixed(Chain(c), c.n0);
    hide Within, Chain, Link, ParentOf, Fixed;
    WithinStep(c, c.n0, c.n1, k);
    if k > 0 { FixedIsWithin(Chain(c), c.n0, k - 1); }
  }

  lemma {:induction false} WithinGrowsTo(q: Question, n: string, k: nat, l: nat)
    requires Within(q, n, k) && k <= l
    ensures Within(q, n, l)
    decreases l
  {
    hide Within;
    if k < l {
      WithinGrowsTo(q, n, k, l - 1);
      WithinGrows(q, n, l - 1);
    }
  }

  // The last node is within k edges of an observation exactly when k is at least four.
  lemma WithinChain(c: Names, k: nat)
    requires Different(c)
    ensures Within(Chain(c), c.n4, k) <==> k >= 4
  {
    hide Within, Chain, Different;
    if k >= 3 {
      WithinFour(c, k - 3);
    } else if Within(Chain(c), c.n4, k) {
      WithinGrowsTo(Chain(c), c.n4, k, 3);
      WithinFour(c, 0);
    }
  }

  lemma StartChain(c: Names)
    requires Different(c)
    ensures Reads(c, Start(Chain(c)), 0.0, 0.0, 0.0, 0.0)
  {
    RoundedValues();
    assert Start(Chain(c))[c.n0] == Rounded(1.0);
  }

  lemma UnrollThree(q: Question)
    ensures Sweeps(q, 1) == Sweep(q, Start(q), Targets(q.edges))
    ensures Sweeps(q, 2) == Sweep(q, Sweeps(q, 1), Targets(q.edges))
    ensures Sweeps(q, 3) == Sweep(q, Sweeps(q, 2), Targets(q.edges))
  {
    hide Sweep, Targets, Start;
  }

  lemma ThreeSweeps(c: Names)
    requires Different(c)
    ensures Reads(c, Sweeps(Chain(c), 3), 0.99, 0.99, 0.99, 0.01)
  {
    RoundedValues();
    StartChain(c);
    var q := Chain(c);
    UnrollThree(q);
    hide Rounded, Sweep, Sweeps, Targets, Backwards, Reads, Start, Zeros;
    SweepChain(c, Start(q), 0.0, 0.0, 0.0, 0.0);
    SweepChain(c, Sweeps(q, 1), 0.99, 0.01, 0.01, 0.01);
    SweepChain(c, Sweeps(q, 2), 0.99, 0.99, 0.01, 0.01);
  }

  // Its equation fails after three sweeps.
  lemma FourthEdgeNotSettled(c: Names)
    requires Different(c)
    ensures !Holds(Chain(c), Sweeps(Chain(c), 3), c.n4)
  {
    RoundedValues();
    ThreeSweeps(c);
    ChainShape(c, c.n4);
    var b := Sweeps(Chain(c), 3);
    hide Within, Rounded, Sweeps, Posterior, Incoming, Targets, Backwards, Zeros;
    PosteriorChain(c, b, c.n3, c.n4);
  }

  // The order of the list decides: n4 is reached by four sweeps and not by three.
  lemma ReachedChain(c: Names)
    requires Different(c)
    ensures Reached(Chain(c), c.n4, 4) && !Reached(Chain(c), c.n4, 3)
  {
    WithinChain(c, 4);
    SweepsSettle(Chain(c), 3);
    FourthEdgeNotSettled(c);
    hide Within, Reached, Holds, Chain, Different;
    WithinIsReached(Chain(c), c.n4, 4);
  }

  function Calm(id: string): (n: Node)
    ensures n.id == id && n.criticality == 0.0
  {
    Node(id, 0.0, map[])
  }

  function ChainGraph(c: Names): DependencyGraph {
    DependencyGraph([Calm(c.n0)] + [Calm(c.n1)] + [Calm(c.n2)] + [Calm(c.n3)] + [Calm(c.n4)], Backwards(c))
  }

  lemma {:induction false} CalmPriors(nodes: seq<Node>)
    requires forall n :: n in nodes ==> n.criticality == 0.0
    ensures forall id :: id in Priors(nodes) ==> Priors(nodes)[id] == 0.0
  {
    RoundExact(0);
    hide Round;
    if nodes != [] {
      assert nodes[|nodes| - 1] in nodes;
      CalmPriors(nodes[..|nodes| - 1]);
    }
  }

  lemma FiveNodes(v: Node, w: Node, x: Node, y: Node, z: Node, nodes: seq<Node>)
    requires nodes == [v] + [w] + [x] + [y] + [z]
    ensures nodes == [v, w, x, y, z] && forall n :: n in nodes <==> n in {v, w, x, y, z}
    ensures (set n | n in nodes :: n.id) == {v.id, w.id, x.id, y.id, z.id}
  {
  }

  lemma FiveDistinct(c: Names, nodes: seq<Node>)
    requires Different(c) && nodes == [Calm(c.n0), Calm(c.n1), Calm(c.n2), Calm(c.n3), Calm(c.n4)]
    ensures forall i, j :: 0 <= i < j < |nodes| ==> nodes[i].id != nodes[j].id
  {
    hide Calm;
  }

  lemma ChainNodes(c: Names, nodes: seq<Node>)
    requires Different(c) && nodes == ChainGraph(c).nodes
    ensures Priors(nodes) == Zeros(c) && forall i, j :: 0 <= i < j < |nodes| ==> nodes[i].id != nodes[j].id
    ensures Ids(ChainGraph(c)) == {c.n0, c.n1, c.n2, c.n3, c.n4} && forall n :: n in nodes ==> n.criticality == 0.0
  {
    hide Priors, Calm, Zeros, Backwards;
    FiveNodes(Calm(c.n0), Calm(c.n1), Calm(c.n2), Calm(c.n3), Calm(c.n4), nodes);
    FiveDistinct(c, nodes);
    hide Different;
    CalmPriors(nodes);
    PriorsOfNodes(nodes);
  }

  lemma ChainEdges(c: Names, e: Edge)
    requires e in Backwards(c)
    ensures e.source in Zeros(c) && e.target in Zeros(c) && e.strength == 1.0
  {
    hide Link, Zeros;
  }

  // The chain is what the forecaster is asked about a valid graph whose first node is observed to have failed.
  lemma ChainIsForecast(c: Names)
    requires Different(c)
    ensures Valid(ChainGraph(c)) && QuestionOf(ChainGraph(c), map[c.n0 := 1.0]) == Chain(c)
  {
    ChainNodes(c, ChainGraph(c).nodes);
    forall e | e in Backwards(c) ensures e.source in Zeros(c) && e.target in Zeros(c) && e.strength == 1.0 { ChainEdges(c, e); }
    hide Ids, Backwards, Priors, Zeros, Different;
  }
}
