// The engine's loops over the graph: the reporting analysis, the internal one,
// and the early-exit search for single points of failure.
module Engine {
  import opened Reals
  import opened Wrappers
  import opened Text
  import opened Graph
  import opened Propagation

  const CRITICAL := 0.8
  const SEVERE := 0.7

  datatype Assessment = Assessment(prob: map<string, real>, path: map<string, seq<string>>, singlePoints: seq<string>)

  function Criticality(nodes: seq<Node>, id: string): (c: real)
    requires exists n :: n in nodes && n.id == id
    ensures exists n :: n in nodes && n.id == id && n.criticality == c
  {
    if nodes[0].id == id then nodes[0].criticality else Criticality(nodes[1..], id)
  }

  // Another node of high criticality is severely impacted.
  ghost predicate Hits(g: DependencyGraph, candidate: string, prob: map<string, real>, v: string)
    requires prob.Keys <= Ids(g)
  {
    v != candidate && v in prob && Criticality(g.nodes, v) >= CRITICAL && prob[v] >= SEVERE
  }

  // The definition by the full computation.
  ghost predicate IsSinglePoint(g: DependencyGraph, candidate: string)
    requires Valid(g) && candidate in Ids(g)
  {
    exists v :: Hits(g, candidate, Impact(g, {candidate}, AsListed).prob, v)
  }

  // The order in which the edges of a node are visited: as listed by the internal analysis; by
  // target in the reporting one, where edges to one target stay as listed.
  lemma VisitOrder(g: DependencyGraph, u: string, target: string)
    ensures EdgesFrom(g, AsListed, u) == Outgoing(g.edges, u)
    ensures SortedBy(EdgesFrom(g, ByTarget, u), (e: Edge) => e.target)
    ensures Keyed(EdgesFrom(g, ByTarget, u), (e: Edge) => e.target, target) == Keyed(Outgoing(g.edges, u), (e: Edge) => e.target, target)
  {
    hide Outgoing, Sort, Keyed, Leq;
    var key := (e: Edge) => e.target;
    SortStable(Outgoing(g.edges, u), key, target);
    assert EdgesFrom(g, ByTarget, u) == Sort(Outgoing(g.edges, u), key);
  }

  // ---------- One turn of the worklist ----------

  // Relaxes the edges of the node just taken off the queue.
  method TurnLoop(g: DependencyGraph, failed: set<string>, sweep: Sweep, st: State) returns (r: State)
    requires Inv(g, failed, st) && st.queue != []
    ensures r == Turn(g, failed, sweep, st)
  {
    hide Inv, Valid, Ids, Potential, Grows, Raises, Relax, EdgesFrom;
    PopKeepsInv(g, failed, st);
    var current := st.queue[0];
    var currentProbability := st.prob[current];
    r := st.(queue := st.queue[1..]);
    var edges := EdgesFrom(g, sweep, current);
    ghost var whole := Turn(g, failed, sweep, st);
    for i := 0 to |edges|
      invariant Inv(g, failed, r) && current in r.prob
      invariant RelaxAll(g, failed, sweep, currentProbability, current, edges[i..], r) == whole
    {
      InvFacts(g, failed, r, current);
      assert edges[i..][0] == edges[i] && edges[i..][1..] == edges[i + 1..];
      RelaxAllUnfolds(g, failed, sweep, currentProbability, current, edges[i..], r);
      r := Relax(g, failed, if sweep.ByTarget? then currentProbability else r.prob[current], edges[i], r);
    }
  }

  lemma PotentialNonNegative(g: DependencyGraph, failed: set<string>, st: State)
    requires Inv(g, failed, st)
    ensures Potential(g, st) >= 0.0
  {
    HeadroomNonNegative(g.nodes, st.prob);
  }

  // The while loop over the worklist.
  method Drain(g: DependencyGraph, failed: set<string>, sweep: Sweep) returns (r: State)
    requires Valid(g) && failed <= Ids(g)
    ensures r == Impact(g, failed, sweep)
  {
    hide Inv, Valid, Ids, Potential, Grows, Turn;
    StartInv(g, failed);
    r := Start(failed);
    while r.queue != []
      invariant Inv(g, failed, r)
      invariant Run(g, failed, sweep, r) == Impact(g, failed, sweep)
      decreases Potential(g, r)
    {
      PotentialNonNegative(g, failed, r);
      r := TurnLoop(g, failed, sweep, r);
    }
  }

  // The internal propagation: probabilities and paths, no single-point search.
  method AnalyzeWithoutSpof(g: DependencyGraph, failed: set<string>)
    returns (prob: map<string, real>, path: map<string, seq<string>>)
    requires Valid(g) && failed <= Ids(g)
    ensures prob == Impact(g, failed, AsListed).prob && path == Impact(g, failed, AsListed).path
    ensures Settled(g, failed, prob) && prob.Keys <= Ids(g) && path.Keys == prob.Keys
    ensures forall v :: v in prob ==> 0.0 <= prob[v] <= 1.0 && IsImpactPath(g, failed, path[v], v)
    ensures forall f :: f in failed ==> f in prob && prob[f] == 1.0
  {
    var final := Drain(g, failed, AsListed);
    prob, path := final.prob, final.path;
    ImpactSettles(g, failed, AsListed);
  }

  // ---------- Single points of failure ----------

  lemma CriticalityDefined(g: DependencyGraph, v: string)
    requires v in Ids(g)
    ensures exists n :: n in g.nodes && n.id == v
  {
  }

  // Relaxing keeps every hit a hit: probabilities only grow.
  lemma HitsGrow(g: DependencyGraph, candidate: string, p: map<string, real>, q: map<string, real>, v: string)
    requires Grows(p, q) && q.Keys <= Ids(g) && Hits(g, candidate, p, v)
    ensures Hits(g, candidate, q, v)
  {
  }

  ghost predicate NoHits(g: DependencyGraph, candidate: string, prob: map<string, real>)
    requires prob.Keys <= Ids(g)
  {
    forall v :: !Hits(g, candidate, prob, v)
  }

  lemma RaiseQuiet(g: DependencyGraph, candidate: string, reach: real, e: Edge, st: State, s: State)
    requires e.source in st.path && Raises(e, reach, st, s)
    requires st.prob.Keys <= Ids(g) && s.prob.Keys <= Ids(g) && NoHits(g, candidate, st.prob)
    ensures (s == st || !Hits(g, candidate, s.prob, e.target)) ==> NoHits(g, candidate, s.prob)
  {
    hide Ids, Criticality;
    if s != st && !Hits(g, candidate, s.prob, e.target) {
      forall v ensures !Hits(g, candidate, s.prob, v) {
        assert !Hits(g, candidate, st.prob, v);
      }
    }
  }

  lemma QuietStep(g: DependencyGraph, candidate: string, p: real, e: Edge, st: State)
    requires Inv(g, {candidate}, st) && e in g.edges && e.source in st.prob && IsScore(p)
    requires st.prob.Keys <= Ids(g) && NoHits(g, candidate, st.prob)
    ensures var s := Relax(g, {candidate}, p, e, st);
            && s.prob.Keys <= Ids(g) && (exists n :: n in g.nodes && n.id == e.target)
            && ((s == st || !Hits(g, candidate, s.prob, e.target)) ==> NoHits(g, candidate, s.prob))
  {
    hide Potential, Valid, Ids, Reach, Grows, NoHits, Raises, Relax, Hits, Inv;
    InvEdge(g, {candidate}, st, e);
    CriticalityDefined(g, e.target);
    InvKeys(g, {candidate}, st);
    RelaxStep(g, {candidate}, p, e, st);
    var s := Relax(g, {candidate}, p, e, st);
    InvKeys(g, {candidate}, s);
    RaiseQuiet(g, candidate, Reach(g, {candidate}, p, e), e, st, s);
  }

  lemma InvEdge(g: DependencyGraph, failed: set<string>, st: State, e: Edge)
    requires Inv(g, failed, st) && e in g.edges
    ensures e.target in Ids(g)
  {
  }

  // A hit seen half-way is still there when the queue has emptied.
  lemma HitPersists(g: DependencyGraph, candidate: string, st: State, whole: State, v: string)
    requires Valid(g) && candidate in Ids(g)
    requires Inv(g, {candidate}, st) && Inv(g, {candidate}, whole) && Grows(st.prob, whole.prob)
    requires Run(g, {candidate}, AsListed, whole) == Impact(g, {candidate}, AsListed)
    requires Hits(g, candidate, st.prob, v)
    ensures IsSinglePoint(g, candidate)
  {
    hide Valid, Ids, Inv, Potential, Turn;
    InvKeys(g, {candidate}, st);
    InvKeys(g, {candidate}, whole);
    HitsGrow(g, candidate, st.prob, whole.prob, v);
    var final := Run(g, {candidate}, AsListed, whole);
    InvKeys(g, {candidate}, final);
    HitsGrow(g, candidate, whole.prob, final.prob, v);
  }

  lemma InvKeys(g: DependencyGraph, failed: set<string>, st: State)
    requires Inv(g, failed, st)
    ensures st.prob.Keys <= Ids(g) && st.path.Keys == st.prob.Keys
  {
  }

  // One candidate: the loop stops at the first critical node it sees severely hit.
  method CandidateHits(g: DependencyGraph, candidate: string) returns (found: bool)
    requires Valid(g) && candidate in Ids(g)
    ensures found <==> IsSinglePoint(g, candidate)
  {
    hide Valid, Ids, Inv, Potential, Grows, Hits, NoHits, Turn, Relax;
    StartInv(g, {candidate});
    var probability := map[candidate := 1.0];
    var queue := [candidate];
    ghost var st := Start({candidate});
    StartQuiet(g, candidate);
    found := false;
    while queue != [] && !found
      invariant found ==> IsSinglePoint(g, candidate)
      invariant !found ==> Inv(g, {candidate}, st) && st.prob == probability && st.queue == queue
      invariant !found ==> st.prob.Keys <= Ids(g) && NoHits(g, candidate, st.prob)
      invariant !found ==> Run(g, {candidate}, AsListed, st) == Impact(g, {candidate}, AsListed)
      decreases !found, Potential(g, st)
    {
      PotentialNonNegative(g, {candidate}, st);
      found, probability, queue, st := EdgesHit(g, candidate, probability, queue, st);
    }
    if !found { QuietEnd(g, candidate, st); }
  }

  lemma StartQuiet(g: DependencyGraph, candidate: string)
    requires candidate in Ids(g)
    ensures var st := Start({candidate});
            && st.prob == map[candidate := 1.0] && st.queue == [candidate]
            && st.prob.Keys <= Ids(g) && NoHits(g, candidate, st.prob)
  {
    assert SortedSet({candidate}) == [candidate];
  }

  lemma QuietEnd(g: DependencyGraph, candidate: string, st: State)
    requires Valid(g) && candidate in Ids(g) && Inv(g, {candidate}, st) && st.queue == []
    requires st.prob.Keys <= Ids(g) && NoHits(g, candidate, st.prob)
    requires Run(g, {candidate}, AsListed, st) == Impact(g, {candidate}, AsListed)
    ensures !IsSinglePoint(g, candidate)
  {
  }

  // The inner loop of the search, with its break.
  method EdgesHit(g: DependencyGraph, candidate: string, probability0: map<string, real>, queue0: seq<string>, ghost st0: State)
    returns (found: bool, probability: map<string, real>, queue: seq<string>, ghost st: State)
    requires Valid(g) && candidate in Ids(g) && Inv(g, {candidate}, st0)
    requires st0.prob == probability0 && st0.queue == queue0 != []
    requires st0.prob.Keys <= Ids(g) && NoHits(g, candidate, st0.prob)
    requires Run(g, {candidate}, AsListed, st0) == Impact(g, {candidate}, AsListed)
    ensures found ==> IsSinglePoint(g, candidate)
    ensures !found ==> st == Turn(g, {candidate}, AsListed, st0) && st.prob == probability && st.queue == queue
    ensures !found ==> st.prob.Keys <= Ids(g) && NoHits(g, candidate, st.prob)
  {
    hide Valid, Ids, Inv, Potential, Grows, NoHits, Raises, Relax, EdgesFrom;
    PopKeepsInv(g, {candidate}, st0);
    var curr := queue0[0];
    probability, queue := probability0, queue0[1..];
    st := st0.(queue := queue0[1..]);
    found := false;
    var edges := Outgoing(g.edges, curr);
    ghost var whole := Turn(g, {candidate}, AsListed, st0);
    ghost var p0 := st0.prob[curr];
    ListedEdges(g, curr);
    for i := 0 to |edges|
      invariant Inv(g, {candidate}, st) && curr in st.prob && st.prob == probability && st.queue == queue
      invariant st.prob.Keys <= Ids(g) && NoHits(g, candidate, st.prob)
      invariant RelaxAll(g, {candidate}, AsListed, p0, curr, edges[i..], st) == whole
    {
      var edge := edges[i];
      InvFacts(g, {candidate}, st, curr);
      assert edges[i..][0] == edge && edges[i..][1..] == edges[i + 1..];
      RelaxAllUnfolds(g, {candidate}, AsListed, p0, curr, edges[i..], st);
      QuietStep(g, candidate, probability[curr], edge, st);
      ghost var next := Relax(g, {candidate}, probability[curr], edge, st);
      var propagated := Propagated(g, {candidate}, probability[curr], edge);
      var existing := Prob(probability, edge.target);
      var combined := Combine(existing, propagated);
      RelaxCases(g, {candidate}, probability[curr], edge, st);
      st := next;
      if combined > existing + EPSILON {
        probability := probability[edge.target := Min(1.0, combined)];
        if edge.target != candidate && Criticality(g.nodes, edge.target) >= CRITICAL && probability[edge.target] >= SEVERE {
          found := true;
          HitPersists(g, candidate, st, whole, edge.target);
          break;
        }
        queue := queue + [edge.target];
      }
    }
  }

  lemma ListedEdges(g: DependencyGraph, u: string)
    ensures EdgesFrom(g, AsListed, u) == Outgoing(g.edges, u)
  {
  }

  lemma RelaxCases(g: DependencyGraph, failed: set<string>, p: real, e: Edge, st: State)
    requires e.source in st.path
    ensures var combined := Combine(Prob(st.prob, e.target), Propagated(g, failed, p, e));
            var s := Relax(g, failed, p, e, st);
            if combined > Prob(st.prob, e.target) + EPSILON
            then s.prob == st.prob[e.target := Min(1.0, combined)] && s.queue == st.queue + [e.target]
            else s == st
  {
  }

  // A candidate after all those before it leaves the list sorted.
  lemma NextInOrder(ids: seq<string>, i: nat, result: seq<string>)
    requires Distinct(ids) && SortedBy(ids, (x: string) => x) && i < |ids|
    requires Distinct(result) && SortedBy(result, (x: string) => x) && forall c :: c in result ==> c in ids[..i]
    ensures Distinct(result + [ids[i]]) && SortedBy(result + [ids[i]], (x: string) => x)
  {
    hide Leq;
    assert forall k :: 0 <= k < |result| ==> result[k] in ids[..i];
  }

  // Keeps the candidates that hit something, in sorted order.
  method SinglePointsFast(g: DependencyGraph) returns (result: seq<string>)
    requires Valid(g)
    ensures forall c :: c in result <==> c in Ids(g) && IsSinglePoint(g, c)
    ensures Distinct(result) && SortedBy(result, (x: string) => x)
  {
    hide Valid, IsSinglePoint, Leq, Ids, Outgoing;
    result := [];
    var ids := SortedSet(Ids(g));
    for i := 0 to |ids|
      invariant forall c :: c in result <==> c in ids[..i] && IsSinglePoint(g, c)
      invariant Distinct(result) && SortedBy(result, (x: string) => x)
    {
      assert ids[..i + 1] == ids[..i] + [ids[i]];
      if Outgoing(g.edges, ids[i]) != [] {
        var found := CandidateHits(g, ids[i]);
        if found {
          NextInOrder(ids, i, result);
          result := result + [ids[i]];
        }
      } else {
        NoOutgoingNoHit(g, ids[i]);
      }
    }
    assert ids[..|ids|] == ids;
  }

  // Without outgoing edges nothing but the candidate itself is impacted.
  lemma NoOutgoingNoHit(g: DependencyGraph, candidate: string)
    requires Valid(g) && candidate in Ids(g) && Outgoing(g.edges, candidate) == []
    ensures !IsSinglePoint(g, candidate)
  {
    hide Valid, Ids, Inv, Potential, NoHits;
    StartInv(g, {candidate});
    StartQuiet(g, candidate);
    var st := Start({candidate});
    ListedEdges(g, candidate);
    var s := Turn(g, {candidate}, AsListed, st);
    assert s == st.(queue := []);
    QuietEnd(g, candidate, s);
  }

  // The public analysis: refuses unknown nodes, then propagates and searches.
  method Analyze(g: DependencyGraph, failed: set<string>) returns (r: Result<Assessment, string>)
    requires Valid(g)
    ensures r.Ok? <==> failed <= Ids(g)
    ensures r.Ok? ==>
      && r.value.prob == Impact(g, failed, ByTarget).prob && r.value.path == Impact(g, failed, ByTarget).path
      && Settled(g, failed, r.value.prob) && r.value.prob.Keys <= Ids(g) && r.value.path.Keys == r.value.prob.Keys
      && (forall v :: v in r.value.prob ==> IsScore(r.value.prob[v]) && IsImpactPath(g, failed, r.value.path[v], v))
      && (forall f :: f in failed ==> f in r.value.prob && r.value.prob[f] == 1.0)
      && (forall c :: c in r.value.singlePoints <==> c in Ids(g) && IsSinglePoint(g, c))
  {
    hide IsSinglePoint, Settled, EdgeSettled, IsImpactPath, Ids;
    if !(failed <= Ids(g)) { return Err("unknown failed nodes"); }
    var final := Drain(g, failed, ByTarget);
    ImpactSettles(g, failed, ByTarget);
    var singlePoints := SinglePointsFast(g);
    return Ok(Assessment(final.prob, final.path, singlePoints));
  }
}
