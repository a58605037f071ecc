// What repeated sweeps settle. A sweep updates beliefs in place, so a belief
// travels down several edges in one sweep when the list names them in order.
module Settling {
  import opened Reals
  import opened Graph
  import opened Forecast
  import Text

  // Observed nodes and nodes without parents keep their starting belief.
  predicate Fixed(q: Question, n: string) { n in q.observed || Incoming(q.edges, n) == [] }

  // Every chain of edges up from n reaches a fixed node within k edges.
  ghost predicate Within(q: Question, n: string, k: nat)
    decreases k
  {
    n in q.observed || forall e :: e in Incoming(q.edges, n) ==> k > 0 && Within(q, e.source, k - 1)
  }

  // The position of t, or the length when t does not occur.
  function Place(ts: seq<string>, t: string): (r: nat)
    ensures r <= |ts| && (r < |ts| <==> t in ts) && (r < |ts| ==> ts[r] == t)
  {
    if ts == [] || ts[0] == t then 0 else 1 + Place(ts[1..], t)
  }

  function Turn(q: Question, n: string): nat { Place(Targets(q.edges), n) }

  // What is left of k sweeps above the edge from source to n: the belief at the source counts in the
  // same sweep when the source has its turn before n, and in the next sweep otherwise.
  function Left(q: Question, source: string, n: string, k: nat): int {
    if Turn(q, source) < Turn(q, n) then k else k - 1
  }

  // Every chain up from n reaches a fixed node while only its edges against the order count.
  ghost predicate Reached(q: Question, n: string, k: nat)
    decreases k, Turn(q, n)
  {
    Fixed(q, n) || (k > 0 && forall e :: e in Incoming(q.edges, n) ==> Reached(q, e.source, Left(q, e.source, n, k)))
  }

  // The noisy-OR equation at n.
  ghost predicate Holds(q: Question, b: Beliefs, n: string)
    requires b.Keys == q.priors.Keys
  {
    n in b ==> b[n] == if Fixed(q, n) then Start(q)[n] else Posterior(q, b, n)
  }

  ghost predicate Solved(q: Question, b: Beliefs, k: nat)
    requires b.Keys == q.priors.Keys
  {
    forall n :: Reached(q, n, k) ==> Holds(q, b, n)
  }

  // ---------- Reaching ----------

  lemma {:induction false} ReachedGrows(q: Question, n: string, k: nat)
    requires Reached(q, n, k)
    ensures Reached(q, n, k + 1)
    decreases k, Turn(q, n)
  {
    hide Fixed, Incoming, Turn;
    if !Fixed(q, n) {
      forall e | e in Incoming(q.edges, n) ensures Reached(q, e.source, Left(q, e.source, n, k + 1)) {
        ReachedGrows(q, e.source, Left(q, e.source, n, k));
      }
    }
  }

  lemma {:induction false} WithinGrows(q: Question, n: string, k: nat)
    requires Within(q, n, k)
    ensures Within(q, n, k + 1)
    decreases k
  {
    if n !in q.observed {
      forall e | e in Incoming(q.edges, n) ensures Within(q, e.source, k) {
        WithinGrows(q, e.source, k - 1);
      }
    }
  }

  lemma {:induction false} FixedIsWithin(q: Question, n: string, k: nat)
    requires Fixed(q, n)
    ensures Within(q, n, k)
  {
  }

  // No edge counts more than once.
  lemma {:induction false} WithinIsReached(q: Question, n: string, k: nat)
    requires Within(q, n, k)
    ensures Reached(q, n, k)
    decreases k
  {
    hide Incoming, Turn;
    if !Fixed(q, n) {
      if Incoming(q.edges, n) != [] { assert Incoming(q.edges, n)[0] in Incoming(q.edges, n); }
      forall e | e in Incoming(q.edges, n) ensures Reached(q, e.source, Left(q, e.source, n, k)) {
        WithinIsReached(q, e.source, k - 1);
        ReachedGrows(q, e.source, k - 1);
      }
    }
  }

  // A list that names the edges into every node before the edges out of it.
  ghost predicate Forwards(q: Question) {
    forall e :: e in q.edges ==> Fixed(q, e.source) || Turn(q, e.source) < Turn(q, e.target)
  }

  lemma {:induction false} ForwardsReached(q: Question, n: string)
    requires Forwards(q)
    ensures Reached(q, n, 1)
    decreases Turn(q, n)
  {
    hide Fixed, Turn;
    if !Fixed(q, n) {
      forall e | e in Incoming(q.edges, n) ensures Reached(q, e.source, Left(q, e.source, n, 1)) {
        if !Fixed(q, e.source) { ForwardsReached(q, e.source); }
      }
    }
  }

  // ---------- One sweep ----------

  ghost predicate AgreeOn(parents: seq<Edge>, b: Beliefs, c: Beliefs) {
    forall e :: e in parents ==> (e.source in b <==> e.source in c) && (e.source in b ==> b[e.source] == c[e.source])
  }

  lemma {:induction false} SurvivalLocal(start: real, parents: seq<Edge>, b: Beliefs, c: Beliefs)
    requires AgreeOn(parents, b, c)
    ensures Survival(start, parents, b) == Survival(start, parents, c)
  {
    hide Times;
    if parents != [] {
      var last := parents[|parents| - 1];
      assert last in parents;
      assert Spared(last, b) == Spared(last, c);
      SurvivalLocal(start, parents[..|parents| - 1], b, c);
    }
  }

  lemma NoChange(q: Question, b: Beliefs, u: string)
    requires b.Keys == q.priors.Keys && Holds(q, b, u) && Incoming(q.edges, u) != []
    ensures Step(q, b, u) == b
  {
  }

  lemma {:induction false} TargetsDistinct(edges: seq<Edge>)
    ensures forall i, j :: 0 <= i < j < |Targets(edges)| ==> Targets(edges)[i] != Targets(edges)[j]
  {
    hide Incoming;
    if edges != [] { TargetsDistinct(edges[..|edges| - 1]); }
  }

  lemma TurnOf(q: Question, i: nat)
    requires i < |Targets(q.edges)|
    ensures Turn(q, Targets(q.edges)[i]) == i && Incoming(q.edges, Targets(q.edges)[i]) != []
  {
    TargetsDistinct(q.edges);
    hide Targets, Place, Incoming;
  }

  // An update of u changes nothing in the equation at a node without u among its parents, and makes
  // the equation at u true unless u is its own parent.
  lemma StepElsewhere(q: Question, b: Beliefs, u: string, n: string)
    requires b.Keys == q.priors.Keys && !Fixed(q, u)
    requires n == u || Holds(q, b, n)
    requires forall e :: e in Incoming(q.edges, n) ==> e.source != u
    ensures Holds(q, Step(q, b, u), n)
  {
    hide Incoming, Survival, Round3, Clamp;
    if n in q.priors {
      assert AgreeOn(Incoming(q.edges, n), b, Step(q, b, u));
      SurvivalLocal(1.0 - q.priors[n], Incoming(q.edges, n), b, Step(q, b, u));
    }
  }

  // A node out of reach is no parent of a node within reach that had its turn, or is having it.
  lemma NoParent(q: Question, u: string, n: string, k: nat)
    requires !Reached(q, u, k)
    requires Reached(q, n, k) || (Reached(q, n, k + 1) && Turn(q, n) <= Turn(q, u))
    ensures Fixed(q, n) || forall e :: e in Incoming(q.edges, n) ==> e.source != u
  {
    hide Fixed, Incoming, Turn;
    if !Fixed(q, n) && Reached(q, n, k) && Reached(q, u, k - 1) { ReachedGrows(q, u, k - 1); }
  }

  // Reached nodes stay settled, and those that had their turn are settled one sweep deeper.
  ghost predicate Halfway(q: Question, b: Beliefs, k: nat, i: nat)
    requires b.Keys == q.priors.Keys
  {
    Solved(q, b, k) && forall n :: Reached(q, n, k + 1) && Turn(q, n) < i ==> Holds(q, b, n)
  }

  lemma StepFixed(q: Question, b: Beliefs, u: string, n: string)
    requires b.Keys == q.priors.Keys && !Fixed(q, u) && Fixed(q, n) && Holds(q, b, n)
    ensures Holds(q, Step(q, b, u), n)
  {
    hide Incoming, Posterior;
  }

  lemma StepHolds(q: Question, b: Beliefs, u: string, n: string, k: nat)
    requires b.Keys == q.priors.Keys && Solved(q, b, k) && !Reached(q, u, k)
    requires Reached(q, n, k) || (Reached(q, n, k + 1) && Turn(q, n) <= Turn(q, u))
    requires n == u || Holds(q, b, n)
    ensures Holds(q, Step(q, b, u), n)
  {
    NoParent(q, u, n, k);
    assert !Fixed(q, u);
    assert Fixed(q, n) ==> Reached(q, n, k);
    hide Reached, Turn, Fixed, Holds, Step, Incoming;
    if Fixed(q, n) { StepFixed(q, b, u, n); } else { StepElsewhere(q, b, u, n); }
  }

  lemma StepHalfway(q: Question, b: Beliefs, k: nat, i: nat)
    requires b.Keys == q.priors.Keys && i < |Targets(q.edges)| && Halfway(q, b, k, i)
    ensures Halfway(q, Step(q, b, Targets(q.edges)[i]), k, i + 1)
  {
    var u := Targets(q.edges)[i];
    TurnOf(q, i);
    forall n | Turn(q, n) == i ensures n == u { TargetsDistinct(q.edges); }
    hide Reached, Turn, Targets, Incoming, Holds, Step, Fixed;
    if Reached(q, u, k) {
      NoChange(q, b, u);
    } else {
      forall n | Reached(q, n, k) || (Reached(q, n, k + 1) && Turn(q, n) < i + 1) ensures Holds(q, Step(q, b, u), n) {
        StepHolds(q, b, u, n, k);
      }
    }
  }

  lemma {:induction false} SweepHalfway(q: Question, b: Beliefs, k: nat, i: nat)
    requires b.Keys == q.priors.Keys && Solved(q, b, k) && i <= |Targets(q.edges)|
    ensures Halfway(q, Sweep(q, b, Targets(q.edges)[..i]), k, i)
  {
    var ts := Targets(q.edges);
    hide Solved, Step, Reached, Targets, Holds;
    if i > 0 {
      SweepHalfway(q, b, k, i - 1);
      assert ts[..i][..i - 1] == ts[..i - 1];
      hide Halfway;
      StepHalfway(q, Sweep(q, b, ts[..i - 1]), k, i - 1);
    }
  }

  lemma HalfwayDone(q: Question, b: Beliefs, k: nat)
    requires b.Keys == q.priors.Keys && Halfway(q, b, k, |Targets(q.edges)|)
    ensures Solved(q, b, k + 1)
  {
    forall n | Reached(q, n, k + 1) ensures Holds(q, b, n) {
      assert Fixed(q, n) ==> Reached(q, n, k);
      assert n in Targets(q.edges) <==> Incoming(q.edges, n) != [];
      hide Reached, Holds, Incoming, Targets;
      assert !Fixed(q, n) ==> n in Targets(q.edges);
    }
  }

  lemma StartSolved(q: Question)
    ensures Solved(q, Start(q), 0)
  {
    hide Incoming, Posterior, Start;
  }

  // After k sweeps the equation holds at every node whose chains go against the order at most k times.
  lemma {:induction false} SweepsSettle(q: Question, k: nat)
    ensures Solved(q, Sweeps(q, k), k)
  {
    StartSolved(q);
    hide Solved, Targets, Halfway, Sweep, Start;
    if k > 0 {
      SweepsSettle(q, k - 1);
      var ts := Targets(q.edges);
      SweepHalfway(q, Sweeps(q, k - 1), k - 1, |ts|);
      assert ts[..|ts|] == ts;
      HalfwayDone(q, Sweeps(q, k), k - 1);
    }
  }

  // One sweep solves every equation when the list runs forwards, and further sweeps change nothing.
  lemma OneSweepIsEnough(q: Question, k: nat)
    requires Forwards(q) && k >= 1
    ensures Sweeps(q, k) == Sweeps(q, 1) && forall n :: Holds(q, Sweeps(q, 1), n)
  {
    hide Forwards, Reached, Holds, Sweeps;
    SweepsSettle(q, 1);
    SweepsSettle(q, k);
    forall n ensures Reached(q, n, 1) { ForwardsReached(q, n); }
    forall n ensures Reached(q, n, k) { ReachedLater(q, n, 1, k); }
    forall n | n in q.priors ensures Sweeps(q, k)[n] == Sweeps(q, 1)[n] {
      SolutionUnique(q, q, Sweeps(q, k), Sweeps(q, 1), k, 1, n);
    }
  }

  lemma {:induction false} ReachedLater(q: Question, n: string, k: nat, l: nat)
    requires Reached(q, n, k) && k <= l
    ensures Reached(q, n, l)
    decreases l
  {
    hide Reached;
    if k < l {
      ReachedLater(q, n, k, l - 1);
      ReachedGrows(q, n, l - 1);
    }
  }

  lemma ReachedParents(q: Question, n: string, k: nat, source: string)
    requires Reached(q, n, k) && !Fixed(q, n) && exists e :: e in Incoming(q.edges, n) && e.source == source
    ensures Reached(q, source, k)
  {
    hide Incoming, Turn, Fixed;
    var e :| e in Incoming(q.edges, n) && e.source == source;
    if Left(q, source, n, k) < k { ReachedGrows(q, source, k - 1); }
  }

  // ---------- Solutions, and the order of the edges ----------

  lemma TimesCommutes(x: real, y: real, z: real)
    ensures Times(Times(x, y), z) == Times(Times(x, z), y)
  {
  }

  function Without(ps: seq<Edge>, i: nat): (r: seq<Edge>)
    requires i < |ps|
    ensures multiset(r) == multiset(ps) - multiset{ps[i]} && |r| == |ps| - 1
  {
    assert ps == ps[..i] + [ps[i]] + ps[i + 1..];
    ps[..i] + ps[i + 1..]
  }

  lemma {:induction false} SurvivalTake(start: real, ps: seq<Edge>, b: Beliefs, i: nat)
    requires i < |ps|
    ensures Survival(start, ps, b) == Times(Survival(start, Without(ps, i), b), Spared(ps[i], b))
    decreases |ps|
  {
    hide Times, Spared;
    var n := |ps| - 1;
    if i == n {
      assert Without(ps, i) == ps[..n];
    } else {
      SurvivalTake(start, ps[..n], b, i);
      assert Without(ps, i) == Without(ps[..n], i) + [ps[n]];
      assert Without(ps, i)[..n - 1] == Without(ps[..n], i);
      hide Survival, Without;
      SurvivalSplit(start, Without(ps, i), b);
      SurvivalSplit(start, ps, b);
      TimesCommutes(Survival(start, Without(ps[..n], i), b), Spared(ps[i], b), Spared(ps[n], b));
    }
  }

  lemma SurvivalSplit(start: real, ps: seq<Edge>, b: Beliefs)
    requires ps != []
    ensures Survival(start, ps, b) == Times(Survival(start, ps[..|ps| - 1], b), Spared(ps[|ps| - 1], b))
  {
  }

  lemma {:induction false} SurvivalOrder(start: real, ps: seq<Edge>, qs: seq<Edge>, b: Beliefs)
    requires multiset(ps) == multiset(qs)
    ensures Survival(start, ps, b) == Survival(start, qs, b)
    decreases |ps|
  {
    hide Times, Spared;
    Text.SameElements(ps, qs);
    if ps != [] {
      var n := |ps| - 1;
      assert ps[n] in qs && ps == ps[..n] + [ps[n]];
      var i :| 0 <= i < |qs| && qs[i] == ps[n];
      SurvivalTake(start, qs, b, i);
      SurvivalOrder(start, ps[..n], Without(qs, i), b);
      SurvivalSplit(start, ps, b);
    }
  }

  lemma {:induction false} IncomingCounts(edges: seq<Edge>, t: string, e: Edge)
    ensures multiset(Incoming(edges, t))[e] == if e.target == t then multiset(edges)[e] else 0
  {
    if edges != [] {
      IncomingCounts(edges[..|edges| - 1], t, e);
      assert edges == edges[..|edges| - 1] + [edges[|edges| - 1]];
    }
  }

  lemma IncomingOrder(es: seq<Edge>, fs: seq<Edge>, t: string)
    requires multiset(es) == multiset(fs)
    ensures multiset(Incoming(es, t)) == multiset(Incoming(fs, t))
    ensures forall e :: e in Incoming(es, t) <==> e in Incoming(fs, t)
  {
    hide Incoming;
    forall e ensures multiset(Incoming(es, t))[e] == multiset(Incoming(fs, t))[e] {
      IncomingCounts(es, t, e);
      IncomingCounts(fs, t, e);
    }
    Text.SameElements(Incoming(es, t), Incoming(fs, t));
  }

  lemma {:induction false} WithinOrder(q: Question, p: Question, n: string, k: nat)
    requires p == q.(edges := p.edges) && multiset(p.edges) == multiset(q.edges) && Within(q, n, k)
    ensures Within(p, n, k)
    decreases k
  {
    hide Incoming;
    IncomingOrder(p.edges, q.edges, n);
    if n !in q.observed {
      forall e | e in Incoming(p.edges, n) ensures k > 0 && Within(p, e.source, k - 1) {
        WithinOrder(q, p, e.source, k - 1);
      }
    }
  }

  lemma HoldsOrder(q: Question, p: Question, b: Beliefs, n: string)
    requires p == q.(edges := p.edges) && multiset(p.edges) == multiset(q.edges)
    requires b.Keys == q.priors.Keys && Holds(q, b, n)
    ensures Holds(p, b, n)
  {
    hide Incoming, Survival, Round3, Clamp;
    IncomingOrder(p.edges, q.edges, n);
    assert Incoming(p.edges, n) == [] <==> Incoming(q.edges, n) == [] by {
      Text.SameElements(Incoming(p.edges, n), Incoming(q.edges, n));
    }
    assert Start(p) == Start(q);
    if n in b { SurvivalOrder(1.0 - q.priors[n], Incoming(q.edges, n), Incoming(p.edges, n), b); }
  }

  lemma FixedOrder(q: Question, p: Question, n: string)
    requires p == q.(edges := p.edges) && multiset(p.edges) == multiset(q.edges)
    ensures Fixed(p, n) <==> Fixed(q, n)
    ensures forall e :: e in Incoming(p.edges, n) <==> e in Incoming(q.edges, n)
  {
    IncomingOrder(p.edges, q.edges, n);
    Text.SameElements(Incoming(p.edges, n), Incoming(q.edges, n));
    hide Incoming;
  }

  lemma SameEquation(q: Question, b: Beliefs, c: Beliefs, n: string)
    requires b.Keys == q.priors.Keys == c.Keys && Holds(q, b, n) && Holds(q, c, n) && n in b
    requires Fixed(q, n) || AgreeOn(Incoming(q.edges, n), b, c)
    ensures b[n] == c[n]
  {
    hide Incoming, Survival, Round3, Clamp, Fixed;
    if !Fixed(q, n) { SurvivalLocal(1.0 - q.priors[n], Incoming(q.edges, n), b, c); }
  }

  // Under two orders of one edge list, the equations have one solution on the nodes within reach of both.
  lemma {:induction false} SolutionUnique(q: Question, p: Question, b: Beliefs, c: Beliefs, k: nat, l: nat, n: string)
    requires p == q.(edges := p.edges) && multiset(p.edges) == multiset(q.edges)
    requires b.Keys == q.priors.Keys == c.Keys && Solved(q, b, k) && Solved(p, c, l)
    requires Reached(q, n, k) && Reached(p, n, l) && n in b
    ensures b[n] == c[n]
  {
    ReachedOnBoth(q, p, b, c, k, l, n, k);
  }

  lemma BothParents(q: Question, p: Question, k: nat, l: nat, n: string, e: Edge)
    requires p == q.(edges := p.edges) && multiset(p.edges) == multiset(q.edges)
    requires Reached(q, n, k) && Reached(p, n, l) && !Fixed(q, n) && e in Incoming(q.edges, n)
    ensures Reached(q, e.source, k) && Reached(p, e.source, l)
  {
    FixedOrder(q, p, n);
    hide Reached, Fixed, Incoming;
    ReachedParents(q, n, k, e.source);
    ReachedParents(p, n, l, e.source);
  }

  lemma SolvedOrder(q: Question, p: Question, c: Beliefs, l: nat, n: string)
    requires p == q.(edges := p.edges) && multiset(p.edges) == multiset(q.edges)
    requires c.Keys == q.priors.Keys && Solved(p, c, l) && Reached(p, n, l)
    ensures Holds(q, c, n)
  {
    hide Reached, Holds;
    HoldsOrder(p, q, c, n);
  }

  lemma {:induction false} ReachedOnBoth(q: Question, p: Question, b: Beliefs, c: Beliefs, k: nat, l: nat, n: string, m: nat)
    requires p == q.(edges := p.edges) && multiset(p.edges) == multiset(q.edges)
    requires b.Keys == q.priors.Keys == c.Keys && Solved(q, b, k) && Solved(p, c, l)
    requires Reached(q, n, k) && Reached(p, n, l) && Reached(q, n, m) && n in b
    ensures b[n] == c[n]
    decreases m, Turn(q, n)
  {
    SolvedOrder(q, p, c, l, n);
    assert Holds(q, b, n);
    hide Incoming, Turn, Fixed, Solved, Holds;
    if !Fixed(q, n) {
      forall e | e in Incoming(q.edges, n) && e.source in b ensures b[e.source] == c[e.source] {
        BothParents(q, p, k, l, n, e);
        ReachedOnBoth(q, p, b, c, k, l, e.source, Left(q, e.source, n, m));
      }
    }
    SameEquation(q, b, c, n);
  }

  // The forecast equals every fixpoint of the noisy-OR equations wherever at most three edges go against the order.
  lemma ForecastIsFixpoint(q: Question, fixpoint: Beliefs, n: string)
    requires fixpoint.Keys == q.priors.Keys && forall m :: m in fixpoint ==> Holds(q, fixpoint, m)
    requires Reached(q, n, 3) && n in q.priors
    ensures Sweeps(q, 3)[n] == fixpoint[n]
  {
    SweepsSettle(q, 3);
    assert Solved(q, fixpoint, 3) by {
      forall m | Reached(q, m, 3) ensures Holds(q, fixpoint, m) {}
    }
    hide Reached, Sweeps, Solved;
    SolutionUnique(q, q, Sweeps(q, 3), fixpoint, 3, 3, n);
  }

  // Listing the edges in another order changes no belief that k sweeps settle under both orders.
  lemma SettledUnderBoth(q: Question, p: Question, n: string, k: nat)
    requires p == q.(edges := p.edges) && multiset(p.edges) == multiset(q.edges)
    requires n in q.priors && Reached(q, n, k) && Reached(p, n, k)
    ensures Sweeps(q, k)[n] == Sweeps(p, k)[n]
  {
    SweepsSettle(q, k);
    SweepsSettle(p, k);
    hide Reached, Sweeps, Solved;
    SolutionUnique(q, p, Sweeps(q, k), Sweeps(p, k), k, k, n);
  }

  // Within three edges no order changes a belief.
  lemma EdgeOrderIrrelevant(q: Question, p: Question, n: string)
    requires p == q.(edges := p.edges) && multiset(p.edges) == multiset(q.edges)
    requires n in q.priors && Within(q, n, 3)
    ensures Sweeps(q, 3)[n] == Sweeps(p, 3)[n]
  {
    WithinOrder(q, p, n, 3);
    hide Within, Reached, Sweeps;
    WithinIsReached(q, n, 3);
    WithinIsReached(p, n, 3);
    SettledUnderBoth(q, p, n, 3);
  }
}
