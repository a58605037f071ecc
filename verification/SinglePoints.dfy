// Single points of failure in numbers: nodes that a candidate feeds directly, and a diamond
// whose two halves bring down what neither of them would.
module SinglePoints {
  import opened Reals
  import opened Wrappers
  import opened Graph
  import opened Propagation
  import opened Engine
  import opened Causes

  lemma CriticalityOf(nodes: seq<Node>, n: Node)
    requires n in nodes && forall i, j :: 0 <= i < j < |nodes| ==> nodes[i].id != nodes[j].id
    ensures Criticality(nodes, n.id) == n.criticality
  {
  }

  // A node that only the candidate feeds is hit when its criticality is at least 0.8 and what it is
  // spared leaves room for 0.7, and only then, up to one epsilon for every edge.
  lemma FedByCandidate(g: DependencyGraph, candidate: string, n: Node)
    requires Valid(g) && candidate in Ids(g) && n in g.nodes && n.id != candidate
    requires forall e :: e in g.edges && e.target == n.id ==> e.source == candidate
    ensures var spared, k := SparedBy(g, {candidate}, g.edges, n.id), Into(g.edges, n.id);
            && (n.criticality >= 0.8 && spared + k as real * 0.000000001 <= 0.3 ==> IsSinglePoint(g, candidate))
            && (n.criticality < 0.8 || spared > 0.3 ==> !Hits(g, candidate, Impact(g, {candidate}, AsListed).prob, n.id))
  {
    DirectImpact(g, {candidate}, AsListed, n.id);
    CriticalityOf(g.nodes, n);
    var final := Impact(g, {candidate}, AsListed);
    InvKeys(g, {candidate}, final);
    hide Impact, SparedBy, Into, Valid, Ids, Inv, Criticality;
    if n.criticality >= 0.8 && SparedBy(g, {candidate}, g.edges, n.id) + Into(g.edges, n.id) as real * 0.000000001 <= 0.3 {
      assert Hits(g, candidate, final.prob, n.id);
    }
  }

  // ---------- A diamond ----------

  function Plain(source: string, target: string, strength: real): Edge { Edge(source, target, strength, false, None) }

  // s feeds a and b for certain, and each of them feeds c with even odds.
  ghost predicate Diamond(g: DependencyGraph, s: string, a: string, b: string, c: string) {
    && Outgoing(g.edges, s) == [Plain(s, a, 1.0), Plain(s, b, 1.0)]
    && Outgoing(g.edges, a) == [Plain(a, c, 0.5)] && Outgoing(g.edges, b) == [Plain(b, c, 0.5)]
    && s != a && s != b && s != c && a != b && a != c && b != c
  }

  // The probabilities and the queue of a state.
  ghost predicate At(st: State, prob: map<string, real>, queue: seq<string>) { st.prob == prob && st.queue == queue }

  // What a plain edge out of a node of probability p does.
  lemma RelaxTo(g: DependencyGraph, failed: set<string>, p: real, e: Edge, st: State, w: real, existing: real, x: real)
    requires e.source in st.path && !e.substitutable && Prob(st.prob, e.target) == existing && w == p * e.strength
    requires x == 1.0 - Times(1.0 - existing, 1.0 - w) && existing + 0.000000001 < x <= 1.0
    ensures At(Relax(g, failed, p, e, st), st.prob[e.target := x], st.queue + [e.target])
  {
    assert Attenuation(g, failed, e) == 1.0;
    assert Propagated(g, failed, p, e) == w;
    CombineMisses(existing, w);
    hide Attenuation, Prob, Propagated, Times, Combine;
  }

  lemma TurnOne(g: DependencyGraph, failed: set<string>, st: State, e: Edge)
    requires Inv(g, failed, st) && st.queue != [] && Outgoing(g.edges, st.queue[0]) == [e]
    ensures var popped := st.(queue := st.queue[1..]);
            e.source == st.queue[0] && e.source in st.prob && e.source in st.path
            && Turn(g, failed, AsListed, st) == Relax(g, failed, st.prob[st.queue[0]], e, popped)
  {
    hide Inv, Relax, Potential, Grows, EdgesFrom, Outgoing, IsImpactPath, Prob;
    var cur, popped := st.queue[0], st.(queue := st.queue[1..]);
    PopKeepsInv(g, failed, st);
    ListedEdges(g, cur);
    InvFacts(g, failed, popped, cur);
    assert e in [e] && [e][1..] == [];
    assert e in Outgoing(g.edges, cur);
    RelaxAllUnfolds(g, failed, AsListed, st.prob[cur], cur, [e], popped);
  }

  // The edges of one turn, when there are two.
  lemma RelaxTwo(g: DependencyGraph, failed: set<string>, cur: string, e: Edge, f: Edge, st: State)
    requires Inv(g, failed, st) && cur in st.prob && cur in st.path && IsScore(st.prob[cur]) && Leaves(g, cur, [e, f])
    ensures e.source == f.source == cur
    ensures var s := Relax(g, failed, st.prob[cur], e, st);
            Inv(g, failed, s) && cur in s.prob && cur in s.path
            && RelaxAll(g, failed, AsListed, st.prob[cur], cur, [e, f], st) == Relax(g, failed, s.prob[cur], f, s)
  {
    hide Inv, Relax, Potential, Grows, IsImpactPath, Prob;
    assert e in [e, f] && f in [e, f] && [e, f][1..] == [f] && [f][1..] == [];
    var s := Relax(g, failed, st.prob[cur], e, st);
    RelaxAllUnfolds(g, failed, AsListed, st.prob[cur], cur, [e, f], st);
    InvFacts(g, failed, s, cur);
    RelaxAllUnfolds(g, failed, AsListed, st.prob[cur], cur, [f], s);
  }

  lemma TurnTwo(g: DependencyGraph, failed: set<string>, st: State, e: Edge, f: Edge)
    requires Inv(g, failed, st) && st.queue != [] && Outgoing(g.edges, st.queue[0]) == [e, f]
    ensures var popped, cur := st.(queue := st.queue[1..]), st.queue[0];
            e.source == f.source == cur && cur in st.prob && cur in st.path
            && var s := Relax(g, failed, st.prob[cur], e, popped);
               Inv(g, failed, s) && cur in s.prob && cur in s.path
               && Turn(g, failed, AsListed, st) == Relax(g, failed, s.prob[cur], f, s)
  {
    hide Inv, Relax, RelaxAll, Potential, Grows, EdgesFrom, Outgoing, IsImpactPath, Prob;
    var cur, popped := st.queue[0], st.(queue := st.queue[1..]);
    PopKeepsInv(g, failed, st);
    ListedEdges(g, cur);
    InvFacts(g, failed, popped, cur);
    RelaxTwo(g, failed, cur, e, f, popped);
  }

  // The same, for known probabilities.
  lemma PlainStep(g: DependencyGraph, failed: set<string>, st: State, prob: map<string, real>, queue: seq<string>, p: real,
                  source: string, target: string, strength: real, w: real, existing: real, x: real)
    requires At(st, prob, queue) && source in st.path && Prob(prob, target) == existing && w == p * strength
    requires x == 1.0 - Times(1.0 - existing, 1.0 - w) && existing + 0.000000001 < x <= 1.0
    ensures At(Relax(g, failed, p, Plain(source, target, strength), st), prob[target := x], queue + [target])
  {
    hide Relax, Prob, Times;
    RelaxTo(g, failed, p, Plain(source, target, strength), st, w, existing, x);
  }

  lemma Sums()
    ensures 1.0 - Times(1.0 - 0.0, 1.0 - 1.0) == 1.0 && 1.0 - Times(1.0 - 0.0, 1.0 - 0.5) == 0.5
    ensures 1.0 - Times(1.0 - 0.5, 1.0 - 0.5) == 0.75
  {
  }

  lemma FirstTurn(g: DependencyGraph, s: string, a: string, b: string, c: string, st: State)
    requires Diamond(g, s, a, b, c) && Inv(g, {s}, st) && At(st, map[s := 1.0], [s])
    ensures At(Turn(g, {s}, AsListed, st), map[s := 1.0][a := 1.0][b := 1.0], [] + [a] + [b])
  {
    hide Inv, Relax, Turn, Outgoing, Plain, Times;
    var e, f := Plain(s, a, 1.0), Plain(s, b, 1.0);
    TurnTwo(g, {s}, st, e, f);
    Sums();
    var popped := st.(queue := st.queue[1..]);
    PlainStep(g, {s}, popped, map[s := 1.0], [], 1.0, s, a, 1.0, 1.0, 0.0, 1.0);
    PlainStep(g, {s}, Relax(g, {s}, 1.0, e, popped), map[s := 1.0][a := 1.0], [] + [a], 1.0, s, b, 1.0, 1.0, 0.0, 1.0);
  }

  // One turn of a node with one plain edge.
  lemma PlainTurn(g: DependencyGraph, s: string, st: State, prob: map<string, real>, queue: seq<string>,
                  source: string, target: string, strength: real, w: real, existing: real, x: real)
    requires Inv(g, {s}, st) && At(st, prob, [source] + queue) && Outgoing(g.edges, source) == [Plain(source, target, strength)]
    requires source in prob && w == prob[source] * strength && Prob(prob, target) == existing
    requires x == 1.0 - Times(1.0 - existing, 1.0 - w) && existing + 0.000000001 < x <= 1.0
    ensures At(Turn(g, {s}, AsListed, st), prob[target := x], queue + [target])
  {
    hide Inv, Relax, Turn, Outgoing, Plain, Times, Prob;
    assert ([source] + queue)[1..] == queue;
    TurnOne(g, {s}, st, Plain(source, target, strength));
    PlainStep(g, {s}, st.(queue := queue), prob, queue, prob[source], source, target, strength, w, existing, x);
  }

  lemma RunThree(g: DependencyGraph, failed: set<string>, st: State)
    requires Inv(g, failed, st) && st.queue != [] && Turn(g, failed, AsListed, st).queue != []
    requires Turn(g, failed, AsListed, Turn(g, failed, AsListed, st)).queue != []
    ensures var third := Turn(g, failed, AsListed, Turn(g, failed, AsListed, Turn(g, failed, AsListed, st)));
            Inv(g, failed, third) && Run(g, failed, AsListed, st) == Run(g, failed, AsListed, third)
  {
    hide Inv, Turn, Run, Potential, Grows;
    var first := Turn(g, failed, AsListed, st);
    RunStep(g, failed, AsListed, st);
    RunStep(g, failed, AsListed, first);
    RunStep(g, failed, AsListed, Turn(g, failed, AsListed, first));
  }

  // The two halves together: c fails with probability at least 0.75, so that s is a single point
  // of failure as soon as c is critical.
  lemma DiamondIsSinglePoint(g: DependencyGraph, s: string, a: string, b: string, n: Node)
    requires Valid(g) && s in Ids(g) && Diamond(g, s, a, b, n.id) && n in g.nodes && n.criticality >= 0.8
    ensures Prob(Impact(g, {s}, AsListed).prob, n.id) >= 0.75 && IsSinglePoint(g, s)
  {
    StartInv(g, {s});
    StartQuiet(g, s);
    CriticalityOf(g.nodes, n);
    var final := Impact(g, {s}, AsListed);
    InvKeys(g, {s}, final);
    var st := Start({s});
    hide Valid, Ids, Inv, Turn, Run, Potential, Criticality, Start;
    var three := DiamondTurns(g, s, a, b, n.id, st);
    assert three.prob[n.id] == 0.75;
    assert Grows(three.prob, Run(g, {s}, AsListed, three).prob);
    assert Hits(g, s, final.prob, n.id);
  }

  lemma DiamondTurns(g: DependencyGraph, s: string, a: string, b: string, c: string, st: State) returns (three: State)
    requires Diamond(g, s, a, b, c) && Inv(g, {s}, st) && At(st, map[s := 1.0], [s])
    ensures Inv(g, {s}, three) && Run(g, {s}, AsListed, st) == Run(g, {s}, AsListed, three)
    ensures At(three, map[s := 1.0][a := 1.0][b := 1.0][c := 0.5][c := 0.75], [c] + [c])
  {
    hide Inv, Turn, Run, Potential, Times, Outgoing, Plain, Grows;
    Sums();
    FirstTurn(g, s, a, b, c, st);
    var one := Turn(g, {s}, AsListed, st);
    var first := map[s := 1.0][a := 1.0][b := 1.0];
    assert [] + [a] + [b] == [a] + [b];
    PlainTurn(g, s, one, first, [b], a, c, 0.5, 0.5, 0.0, 0.5);
    var two := Turn(g, {s}, AsListed, one);
    PlainTurn(g, s, two, first[c := 0.5], [c], b, c, 0.5, 0.5, 0.5, 0.75);
    RunThree(g, {s}, st);
    three := Turn(g, {s}, AsListed, two);
  }

  // ---------- A tail behind the diamond ----------

  lemma TurnNone(g: DependencyGraph, failed: set<string>, st: State)
    requires Inv(g, failed, st) && st.queue != [] && Outgoing(g.edges, st.queue[0]) == []
    ensures Turn(g, failed, AsListed, st) == st.(queue := st.queue[1..])
  {
    ListedEdges(g, st.queue[0]);
    hide Inv, Outgoing, Potential, Grows;
  }

  lemma TailSums()
    ensures 1.0 - Times(1.0 - 0.0, 1.0 - 0.75) == 0.75 && 1.0 - Times(1.0 - 0.75, 1.0 - 0.75) == 0.9375
  {
  }

  // c feeds d for certain, and nothing else.
  ghost predicate Tailed(g: DependencyGraph, c: string, d: string) {
    Outgoing(g.edges, c) == [Plain(c, d, 1.0)] && Outgoing(g.edges, d) == []
  }

  lemma TailTurns(g: DependencyGraph, s: string, c: string, d: string, prob: map<string, real>, st: State) returns (last: State)
    requires Inv(g, {s}, st) && At(st, prob, [c] + [c]) && Tailed(g, c, d) && c in prob && prob[c] == 0.75 && d !in prob && c != d
    ensures Inv(g, {s}, last) && Run(g, {s}, AsListed, st) == Run(g, {s}, AsListed, last)
    ensures At(last, prob[d := 0.75][d := 0.9375], [d] + [d])
  {
    hide Inv, Turn, Run, Potential, Times, Outgoing, Plain, Grows;
    TailSums();
    PlainTurn(g, s, st, prob, [c], c, d, 1.0, 0.75, 0.0, 0.75);
    RunStep(g, {s}, AsListed, st);
    var one := Turn(g, {s}, AsListed, st);
    PlainTurn(g, s, one, prob[d := 0.75], [d], c, d, 1.0, 0.75, 0.75, 0.9375);
    RunStep(g, {s}, AsListed, one);
    last := Turn(g, {s}, AsListed, one);
  }

  lemma QuietTurns(g: DependencyGraph, s: string, d: string, prob: map<string, real>, st: State)
    requires Inv(g, {s}, st) && At(st, prob, [d] + [d]) && Outgoing(g.edges, d) == []
    ensures Run(g, {s}, AsListed, st).prob == prob
  {
    hide Inv, Turn, Run, Potential, Outgoing, Grows;
    TurnNone(g, {s}, st);
    RunStep(g, {s}, AsListed, st);
    var one := Turn(g, {s}, AsListed, st);
    assert one.queue == [d];
    TurnNone(g, {s}, one);
    RunStep(g, {s}, AsListed, one);
    RunStep(g, {s}, AsListed, Turn(g, {s}, AsListed, one));
  }

  lemma TailMap(s: string, a: string, b: string, c: string, d: string)
    requires s != a && s != b && s != c && a != b && a != c && b != c && d !in {s, a, b, c}
    ensures map[s := 1.0][a := 1.0][b := 1.0][c := 0.5][c := 0.75][d := 0.75][d := 0.9375]
         == map[s := 1.0, a := 1.0, b := 1.0, c := 0.75, d := 0.9375]
  {
  }

  lemma StartsAlone(g: DependencyGraph, s: string) returns (st: State)
    requires Valid(g) && s in Ids(g)
    ensures Inv(g, {s}, st) && At(st, map[s := 1.0], [s]) && Impact(g, {s}, AsListed) == Run(g, {s}, AsListed, st)
  {
    st := Start({s});
    StartInv(g, {s});
    StartQuiet(g, s);
    hide Inv, Start, Run, Valid, Ids;
  }

  // First in, first out: c waits twice, each visit counts it at 0.75, and d ends at 0.9375.
  lemma DiamondTail(g: DependencyGraph, s: string, a: string, b: string, c: string, d: string)
    requires Valid(g) && s in Ids(g) && Diamond(g, s, a, b, c) && Tailed(g, c, d) && d !in {s, a, b, c}
    ensures Impact(g, {s}, AsListed).prob == map[s := 1.0, a := 1.0, b := 1.0, c := 0.75, d := 0.9375]
  {
    TailMap(s, a, b, c, d);
    TailRun(g, s, a, b, c, d);
  }

  lemma TailRun(g: DependencyGraph, s: string, a: string, b: string, c: string, d: string)
    requires Valid(g) && s in Ids(g) && Diamond(g, s, a, b, c) && Tailed(g, c, d) && d !in {s, a, b, c}
    ensures Impact(g, {s}, AsListed).prob == map[s := 1.0][a := 1.0][b := 1.0][c := 0.5][c := 0.75][d := 0.75][d := 0.9375]
  {
    hide Valid, Ids, Inv, Run, Impact, At, Outgoing;
    var st := StartsAlone(g, s);
    var before := map[s := 1.0][a := 1.0][b := 1.0][c := 0.5][c := 0.75];
    var three := DiamondTurns(g, s, a, b, c, st);
    var five := TailTurns(g, s, c, d, before, three);
    QuietTurns(g, s, d, before[d := 0.75][d := 0.9375], five);
  }
}
