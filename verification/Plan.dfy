// The bounded exact compiler: it tries every subset of the actions, smallest
// first, and keeps the best feasible one.
module Plan {
  import opened Wrappers
  import opened Reals
  import opened PlanRisk
  import Text

  datatype Request = Request(overall: real, factors: seq<(Factor, real)>, minimumContinuity: real, budget: real,
                             approvalRequired: bool, actions: seq<Action>)

  datatype Candidate = Candidate(actions: seq<Action>, cost: real, continuity: real, risk: real)

  datatype Reason = NoFeasibleSet | ObjectiveNotAchievable

  datatype CompiledPlan = CompiledPlan(selected: seq<Action>, cost: real, continuity: real, risk: real,
                                       objectiveMet: bool, approvalRequired: bool, rejected: Option<Reason>)

  datatype Error = TooManyActions(count: nat)

  ghost predicate ValidRequest(r: Request) {
    IsScore(r.overall) && r.budget > 0.0 && AllValid(r.actions) && ScoreRisks(FactorRisks(r.factors))
  }

  // A later entry for a factor replaces an earlier one.
  function FactorRisks(factors: seq<(Factor, real)>): Risks {
    if factors == [] then map[]
    else
      var last := factors[|factors| - 1];
      FactorRisks(factors[..|factors| - 1])[last.0 := last.1]
  }

  function IdOf(a: Action): string { a.id }

  function IdSet(actions: seq<Action>): set<string> { set a | a in actions :: a.id }

  function Cost(actions: seq<Action>): real {
    if actions == [] then 0.0 else actions[0].cost + Cost(actions[1..])
  }

  predicate Compatible(a: Action, ids: set<string>) { a.prerequisites <= ids && a.incompatible !! ids }

  predicate Feasible(r: Request, subset: seq<Action>) {
    Cost(subset) <= r.budget && forall a :: a in subset ==> Compatible(a, IdSet(subset))
  }

  function Risk(r: Request, subset: seq<Action>): real { ProjectRisk(r.overall, FactorRisks(r.factors), subset) }

  function Score(r: Request, subset: seq<Action>): Candidate {
    Candidate(subset, Cost(subset), Min(1.0, 1.0 - Risk(r, subset)), Max(0.0, Risk(r, subset)))
  }

  function Evaluate(r: Request, subset: seq<Action>): Option<Candidate> {
    if Feasible(r, subset) then Some(Score(r, subset)) else None
  }

  // ---------- The order on candidates ----------

  predicate StringLess(a: string, b: string) { Text.Leq(a, b) && a != b }

  predicate TupleLess(a: seq<string>, b: seq<string>) {
    b != [] && (a == [] || StringLess(a[0], b[0]) || (a[0] == b[0] && TupleLess(a[1..], b[1..])))
  }

  function IdTuple(actions: seq<Action>): (ids: seq<string>)
    ensures |ids| == |actions| && forall i :: 0 <= i < |ids| ==> ids[i] == actions[i].id
  {
    if actions == [] then [] else [actions[0].id] + IdTuple(actions[1..])
  }

  datatype Key = Key(first: real, second: real, ids: seq<string>)

  predicate KeyLess(k: Key, l: Key) {
    k.first < l.first || (k.first == l.first && (k.second < l.second || (k.second == l.second && TupleLess(k.ids, l.ids))))
  }

  // Candidates that meet the target compare by cost first, the others by continuity first.
  function KeyOf(c: Candidate, target: real): Key {
    if c.continuity >= target then Key(c.cost, -c.continuity, IdTuple(c.actions))
    else Key(-c.continuity, c.cost, IdTuple(c.actions))
  }

  predicate Better(c: Candidate, incumbent: Candidate, target: real) {
    if (c.continuity >= target) != (incumbent.continuity >= target) then c.continuity >= target
    else KeyLess(KeyOf(c, target), KeyOf(incumbent, target))
  }

  lemma StringLessTransitive(a: string, b: string, c: string)
    requires StringLess(a, b) && StringLess(b, c)
    ensures StringLess(a, c)
  {
    Text.LeqTransitive(a, b, c);
    if a == c { Text.LeqAntisymmetric(a, b); }
  }

  lemma {:induction false} TupleLessTransitive(a: seq<string>, b: seq<string>, c: seq<string>)
    requires TupleLess(a, b) && TupleLess(b, c)
    ensures TupleLess(a, c)
  {
    hide StringLess;
    if a != [] {
      if StringLess(a[0], b[0]) && StringLess(b[0], c[0]) {
        StringLessTransitive(a[0], b[0], c[0]);
      } else if a[0] == b[0] == c[0] && !StringLess(a[0], b[0]) && !StringLess(b[0], c[0]) {
        TupleLessTransitive(a[1..], b[1..], c[1..]);
      }
    }
  }

  lemma {:induction false} TupleLessIrreflexive(a: seq<string>)
    ensures !TupleLess(a, a)
  {
    if a != [] { TupleLessIrreflexive(a[1..]); }
  }

  lemma {:induction false} TupleLessTotal(a: seq<string>, b: seq<string>)
    ensures TupleLess(a, b) || a == b || TupleLess(b, a)
  {
    if a != [] && b != [] {
      Text.LeqTotal(a[0], b[0]);
      TupleLessTotal(a[1..], b[1..]);
      assert a == [a[0]] + a[1..] && b == [b[0]] + b[1..];
    }
  }

  lemma BetterTransitive(a: Candidate, b: Candidate, c: Candidate, target: real)
    requires Better(a, b, target) && Better(b, c, target)
    ensures Better(a, c, target)
  {
    hide TupleLess, IdTuple;
    var x, y, z := IdTuple(a.actions), IdTuple(b.actions), IdTuple(c.actions);
    if TupleLess(x, y) && TupleLess(y, z) { TupleLessTransitive(x, y, z); }
  }

  lemma BetterIrreflexive(a: Candidate, target: real)
    ensures !Better(a, a, target)
  {
    hide TupleLess, IdTuple;
    TupleLessIrreflexive(IdTuple(a.actions));
  }

  // Candidates that name different actions always compare.
  lemma BetterTotal(a: Candidate, b: Candidate, target: real)
    requires IdTuple(a.actions) != IdTuple(b.actions)
    ensures Better(a, b, target) || Better(b, a, target)
  {
    hide TupleLess, IdTuple;
    TupleLessTotal(IdTuple(a.actions), IdTuple(b.actions));
  }

  // ---------- The subsets tried ----------

  function PrependAll(a: Action, lists: seq<seq<Action>>): (r: seq<seq<Action>>)
    ensures |r| == |lists| && forall i :: 0 <= i < |r| ==> r[i] == [a] + lists[i]
  {
    if lists == [] then [] else [[a] + lists[0]] + PrependAll(a, lists[1..])
  }

  // The choices of k positions, in position order.
  function Combinations(xs: seq<Action>, k: nat): seq<seq<Action>> {
    if k == 0 then [[]]
    else if xs == [] then []
    else PrependAll(xs[0], Combinations(xs[1..], k - 1)) + Combinations(xs[1..], k)
  }

  lemma SubStep<T>(s: seq<T>, xs: seq<T>)
    requires s != [] && xs != []
    ensures IsSub(s, xs) <==> (s[0] == xs[0] && IsSub(s[1..], xs[1..])) || IsSub(s, xs[1..])
  {
  }

  lemma CombinationsStep(xs: seq<Action>, k: nat, s: seq<Action>)
    requires k > 0 && xs != [] && s != []
    ensures s in Combinations(xs, k) <==> (s[0] == xs[0] && s[1..] in Combinations(xs[1..], k - 1)) || s in Combinations(xs[1..], k)
  {
    var with, without := Combinations(xs[1..], k - 1), Combinations(xs[1..], k);
    assert Combinations(xs, k) == PrependAll(xs[0], with) + without;
    hide Combinations, PrependAll;
    PrependedIn(xs[0], with, s);
  }

  lemma CombinationsBase(xs: seq<Action>, k: nat, s: seq<Action>)
    requires k == 0 || xs == [] || s == []
    ensures s in Combinations(xs, k) <==> IsSub(s, xs) && |s| == k
  {
    if k == 0 {
      assert Combinations(xs, k) == [[]];
    } else if xs == [] {
      assert Combinations(xs, k) == [];
    } else {
      EmptyNotTried(xs, k);
    }
  }

  // Every subset of k actions is tried, and nothing else.
  lemma {:induction false} CombinationsExact(xs: seq<Action>, k: nat, s: seq<Action>)
    ensures s in Combinations(xs, k) <==> IsSub(s, xs) && |s| == k
    decreases |xs|
  {
    hide Combinations, IsSub;
    if k == 0 || xs == [] || s == [] {
      CombinationsBase(xs, k, s);
    } else {
      CombinationsExact(xs[1..], k - 1, s[1..]);
      CombinationsExact(xs[1..], k, s);
      CombinationsStep(xs, k, s);
      SubStep(s, xs);
    }
  }

  lemma PrependedIn(a: Action, lists: seq<seq<Action>>, s: seq<Action>)
    requires s != []
    ensures s in PrependAll(a, lists) <==> s[0] == a && s[1..] in lists
  {
    var r := PrependAll(a, lists);
    hide PrependAll;
    if s in r {
      var i :| 0 <= i < |r| && r[i] == s;
      assert s[1..] == lists[i];
    }
    if s[0] == a && s[1..] in lists {
      var i :| 0 <= i < |lists| && lists[i] == s[1..];
      assert r[i] == s;
    }
  }

  lemma {:induction false} EmptyNotTried(xs: seq<Action>, k: nat)
    requires k > 0
    ensures [] !in Combinations(xs, k)
  {
    if xs != [] {
      EmptyNotTried(xs[1..], k);
      var with := PrependAll(xs[0], Combinations(xs[1..], k - 1));
      assert forall i :: 0 <= i < |with| ==> with[i] != [];
    }
  }

  lemma {:induction false} SubLength<T>(a: seq<T>, b: seq<T>)
    requires IsSub(a, b)
    ensures |a| <= |b| && forall x :: x in a ==> x in b
    decreases |b|
  {
    if a != [] {
      assert b == [b[0]] + b[1..] && a == [a[0]] + a[1..];
      if a[0] == b[0] && IsSub(a[1..], b[1..]) { SubLength(a[1..], b[1..]); } else { SubLength(a, b[1..]); }
    }
  }

  // ---------- The search ----------

  ghost predicate Covers(r: Request, best: Option<Candidate>, s: seq<Action>) {
    Feasible(r, s) ==> best.Some? && !Better(Score(r, s), best.value, r.minimumContinuity)
  }

  ghost predicate Found(r: Request, best: Option<Candidate>, sorted: seq<Action>) {
    best.Some? ==> IsSub(best.value.actions, sorted) && Evaluate(r, best.value.actions) == best
  }

  lemma CoversStep(r: Request, best: Option<Candidate>, next: Option<Candidate>, c: Candidate, s: seq<Action>)
    requires Covers(r, best, s) && next == Some(c)
    requires best.None? || Better(c, best.value, r.minimumContinuity)
    ensures Covers(r, next, s)
  {
    hide Better, Feasible, Score;
    if Feasible(r, s) && Better(Score(r, s), c, r.minimumContinuity) {
      BetterTransitive(Score(r, s), c, best.value, r.minimumContinuity);
    }
  }

  // The early returns of the check.
  method Assess(r: Request, subset: seq<Action>) returns (c: Option<Candidate>)
    ensures c == Evaluate(r, subset)
  {
    var ids := IdSet(subset);
    var cost := Cost(subset);
    hide Cost, ProjectRisk, IdSet, FactorRisks;
    if cost > r.budget { return None; }
    for i := 0 to |subset|
      invariant forall k :: 0 <= k < i ==> Compatible(subset[k], ids)
    {
      assert subset[i] in subset;
      if !(subset[i].prerequisites <= ids) { return None; }
      if !(subset[i].incompatible !! ids) { return None; }
    }
    hide Compatible;
    var risk := ProjectedRisk(r.overall, FactorRisks(r.factors), subset);
    c := Some(Candidate(subset, cost, Min(1.0, 1.0 - risk), Max(0.0, risk)));
  }

  predicate Replaces(c: Option<Candidate>, best: Option<Candidate>, target: real) {
    c.Some? && (best.None? || Better(c.value, best.value, target))
  }

  lemma Challenged(r: Request, best: Option<Candidate>, c: Option<Candidate>, subset: seq<Action>, sorted: seq<Action>)
    requires Found(r, best, sorted) && IsSub(subset, sorted) && c == Evaluate(r, subset)
    ensures var next := if Replaces(c, best, r.minimumContinuity) then c else best;
            Found(r, next, sorted) && Covers(r, next, subset) && forall s :: Covers(r, best, s) ==> Covers(r, next, s)
  {
    if c.Some? { BetterIrreflexive(c.value, r.minimumContinuity); }
    hide Better, Feasible, IsSub, Risk, Cost;
    if Replaces(c, best, r.minimumContinuity) {
      hide Covers, Score;
      forall s | Covers(r, best, s) ensures Covers(r, c, s) { CoversStep(r, best, c, c.value, s); }
    }
  }

  // One comparison of the inner loop.
  method Challenge(r: Request, best: Option<Candidate>, subset: seq<Action>, ghost sorted: seq<Action>)
    returns (next: Option<Candidate>)
    requires Found(r, best, sorted) && IsSub(subset, sorted)
    ensures Found(r, next, sorted) && Covers(r, next, subset)
    ensures forall s :: Covers(r, best, s) ==> Covers(r, next, s)
  {
    hide Better, Feasible, Score, IsSub, Covers, Found, Evaluate;
    var c := Assess(r, subset);
    next := best;
    if Replaces(c, best, r.minimumContinuity) { next := c; }
    Challenged(r, best, c, subset, sorted);
  }

  // ---------- The whole search ----------

  ghost predicate CoversUpTo(r: Request, best: Option<Candidate>, sorted: seq<Action>, count: nat) {
    forall s :: IsSub(s, sorted) && |s| < count ==> Covers(r, best, s)
  }

  // All subsets of one size.
  method SearchSize(r: Request, start: Option<Candidate>, sorted: seq<Action>, count: nat) returns (best: Option<Candidate>)
    requires Found(r, start, sorted) && CoversUpTo(r, start, sorted, count)
    ensures Found(r, best, sorted) && CoversUpTo(r, best, sorted, count + 1)
  {
    hide Feasible, IsSub, Covers, Found, Evaluate, Combinations;
    best := start;
    var subsets := Combinations(sorted, count);
    for j := 0 to |subsets|
      invariant Found(r, best, sorted)
      invariant CoversUpTo(r, best, sorted, count)
      invariant forall k :: 0 <= k < j ==> Covers(r, best, subsets[k])
    {
      assert subsets[j] in subsets;
      CombinationsExact(sorted, count, subsets[j]);
      best := Challenge(r, best, subsets[j], sorted);
    }
    forall s | IsSub(s, sorted) && |s| < count + 1 ensures Covers(r, best, s) {
      CombinationsExact(sorted, count, s);
    }
  }

  // The chosen set is feasible, and no feasible set beats it.
  ghost predicate Optimal(r: Request, sorted: seq<Action>, best: Candidate) {
    && IsSub(best.actions, sorted) && Feasible(r, best.actions) && best == Score(r, best.actions)
    && forall s :: IsSub(s, sorted) && Feasible(r, s) ==> !Better(Score(r, s), best, r.minimumContinuity)
  }

  lemma EmptySetFeasible(r: Request)
    requires ValidRequest(r)
    ensures Feasible(r, [])
  {
  }

  lemma SearchOptimal(r: Request, sorted: seq<Action>, best: Option<Candidate>)
    requires ValidRequest(r) && Found(r, best, sorted) && CoversUpTo(r, best, sorted, |sorted| + 1)
    ensures best.Some? && Optimal(r, sorted, best.value)
  {
    EmptySetFeasible(r);
    assert IsSub([], sorted);
    hide Feasible, IsSub, Score, Better;
    assert Covers(r, best, []);
    forall s | IsSub(s, sorted) && Feasible(r, s) ensures !Better(Score(r, s), best.value, r.minimumContinuity) {
      SubLength(s, sorted);
      assert Covers(r, best, s);
    }
  }

  method Search(r: Request, sorted: seq<Action>) returns (best: Candidate)
    requires ValidRequest(r)
    ensures Optimal(r, sorted, best)
  {
    hide Feasible, IsSub, Score, Better, Covers, Optimal, ValidRequest;
    var found: Option<Candidate> := None;
    for count := 0 to |sorted| + 1
      invariant Found(r, found, sorted) && CoversUpTo(r, found, sorted, count)
    {
      found := SearchSize(r, found, sorted, count);
    }
    SearchOptimal(r, sorted, found);
    best := found.value;
  }

  function SortedActions(actions: seq<Action>): seq<Action> { Text.Sort(actions, IdOf) }

  function PlanOf(r: Request, best: Candidate): CompiledPlan {
    var met := best.continuity >= r.minimumContinuity;
    CompiledPlan(best.actions, best.cost, best.continuity, best.risk, met,
                 r.approvalRequired || exists a :: a in best.actions && a.needsApproval,
                 if met then None else Some(ObjectiveNotAchievable))
  }

  // No plan ever reports that there is no feasible set: the empty one is feasible.
  method Compile(r: Request, maxActions: nat) returns (plan: Result<CompiledPlan, Error>)
    requires ValidRequest(r)
    ensures plan.Ok? ==> plan.value.rejected != Some(NoFeasibleSet)
    ensures |r.actions| > maxActions ==> plan == Err(TooManyActions(|r.actions|))
    ensures |r.actions| <= maxActions ==>
      exists best :: Optimal(r, SortedActions(r.actions), best) && plan == Ok(PlanOf(r, best))
  {
    hide Optimal, ValidRequest;
    var sorted := SortedActions(r.actions);
    if |sorted| > maxActions { return Err(TooManyActions(|sorted|)); }
    var best := Search(r, sorted);
    plan := Ok(PlanOf(r, best));
  }
}
