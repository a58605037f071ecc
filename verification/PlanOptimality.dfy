// What an optimal plan guarantees, and when it is the only one.
module PlanOptimality {
  import opened Reals
  import opened PlanRisk
  import opened Plan
  import Text

  predicate Meets(r: Request, s: seq<Action>) { Score(r, s).continuity >= r.minimumContinuity }

  // When some feasible set meets the target, the plan meets it at the least cost;
  // otherwise the plan has the greatest continuity that is feasible.
  lemma OptimalMeans(r: Request, sorted: seq<Action>, best: Candidate, s: seq<Action>)
    requires Optimal(r, sorted, best) && IsSub(s, sorted) && Feasible(r, s)
    ensures Meets(r, s) ==> Meets(r, best.actions) && best.cost <= Score(r, s).cost
    ensures !Meets(r, best.actions) ==> Score(r, s).continuity <= best.continuity
  {
    hide IsSub, Feasible, Risk, Cost, IdTuple, TupleLess;
    assert !Better(Score(r, s), best, r.minimumContinuity);
  }

  // What the compiled plan reports.
  lemma PlanReports(r: Request, sorted: seq<Action>, best: Candidate)
    requires ValidRequest(r) && AllValid(sorted) && Optimal(r, sorted, best)
    ensures var plan := PlanOf(r, best);
            && (plan.objectiveMet <==> exists s :: IsSub(s, sorted) && Feasible(r, s) && Meets(r, s))
            && (plan.rejected.None? <==> plan.objectiveMet)
            && plan.cost == Cost(plan.selected) <= r.budget
            && 0.0 <= plan.risk <= 1.0 && plan.continuity + plan.risk == 1.0
            && (plan.approvalRequired <==> r.approvalRequired || exists a :: a in plan.selected && a.needsApproval)
  {
    hide IsSub, ProjectRisk, Cost, Compatible;
    if s :| IsSub(s, sorted) && Feasible(r, s) && Meets(r, s) {
      OptimalMeans(r, sorted, best, s);
    }
    RiskIsScore(r, best.actions);
  }

  lemma RiskIsScore(r: Request, s: seq<Action>)
    ensures IsScore(Risk(r, s))
  {
    hide Fade, Before;
  }

  lemma {:induction false} SubOfItself<T>(xs: seq<T>)
    ensures IsSub(xs, xs)
  {
    if xs != [] { SubOfItself(xs[1..]); }
  }

  // When all the actions together are feasible, the plan meets the target exactly when all of them do.
  lemma AllActionsDecide(r: Request, sorted: seq<Action>, best: Candidate)
    requires ValidRequest(r) && AllValid(sorted)
    requires Optimal(r, sorted, best) && Feasible(r, sorted)
    ensures Meets(r, best.actions) <==> Meets(r, sorted)
    ensures !Meets(r, best.actions) ==> best.continuity == Score(r, sorted).continuity
  {
    SubOfItself(sorted);
    OptimalMeans(r, sorted, best, sorted);
    hide IsSub, Feasible, ProjectRisk;
    MoreActionsLessRisk(r.overall, FactorRisks(r.factors), best.actions, sorted);
  }

  // ---------- One optimum, whatever the order of the input ----------

  ghost predicate IdsIdentify(actions: seq<Action>) {
    forall a, b :: a in actions && b in actions && a.id == b.id ==> a == b
  }

  lemma TuplesIdentify(xs: seq<Action>, s: seq<Action>, t: seq<Action>)
    requires IdsIdentify(xs) && IsSub(s, xs) && IsSub(t, xs) && IdTuple(s) == IdTuple(t)
    ensures s == t
  {
    hide IsSub, IdTuple;
    SubLength(s, xs);
    SubLength(t, xs);
    assert |s| == |IdTuple(s)| == |t|;
    forall i | 0 <= i < |s| ensures s[i] == t[i] {
      assert s[i] in xs && t[i] in xs && s[i].id == IdTuple(s)[i] == t[i].id;
    }
  }

  // Every other feasible set is strictly worse.
  lemma OptimumBeatsAll(r: Request, sorted: seq<Action>, best: Candidate, s: seq<Action>)
    requires IdsIdentify(sorted) && Optimal(r, sorted, best)
    requires IsSub(s, sorted) && Feasible(r, s) && s != best.actions
    ensures Better(best, Score(r, s), r.minimumContinuity)
  {
    if IdTuple(s) == IdTuple(best.actions) { TuplesIdentify(sorted, s, best.actions); }
    hide IsSub, Feasible, IdsIdentify, Better, IdTuple;
    BetterTotal(Score(r, s), best, r.minimumContinuity);
  }

  lemma OptimumUnique(r: Request, sorted: seq<Action>, a: Candidate, b: Candidate)
    requires IdsIdentify(sorted) && Optimal(r, sorted, a) && Optimal(r, sorted, b)
    ensures a == b
  {
    hide IsSub, Feasible, IdsIdentify, Better, Score;
    if a.actions != b.actions { OptimumBeatsAll(r, sorted, a, b.actions); }
  }

  lemma HeadLeast(xs: seq<Action>, y: Action)
    requires Text.SortedBy(xs, IdOf) && y in xs
    ensures Text.Leq(xs[0].id, y.id)
  {
    var i :| 0 <= i < |xs| && xs[i] == y;
    if i == 0 { Text.LeqReflexive(y.id); } else { assert Text.Leq(IdOf(xs[0]), IdOf(xs[i])); }
  }

  lemma Tail(xs: seq<Action>)
    requires Text.SortedBy(xs, IdOf) && IdsIdentify(xs) && xs != []
    ensures Text.SortedBy(xs[1..], IdOf) && IdsIdentify(xs[1..])
    ensures multiset(xs[1..]) == multiset(xs) - multiset{xs[0]}
  {
    assert xs == [xs[0]] + xs[1..];
  }

  lemma SameIdentify(xs: seq<Action>, ys: seq<Action>)
    requires multiset(xs) == multiset(ys) && IdsIdentify(xs)
    ensures |xs| == |ys| && IdsIdentify(ys) && forall x :: x in xs <==> x in ys
  {
    Text.SameElements(xs, ys);
  }

  lemma Identify(xs: seq<Action>, a: Action, b: Action)
    requires IdsIdentify(xs) && a in xs && b in xs && a.id == b.id
    ensures a == b
  {
  }

  lemma SameHead(xs: seq<Action>, ys: seq<Action>)
    requires multiset(xs) == multiset(ys) && IdsIdentify(xs) && xs != []
    requires Text.SortedBy(xs, IdOf) && Text.SortedBy(ys, IdOf)
    ensures ys != [] && xs[0] == ys[0]
  {
    hide IdsIdentify, Text.SortedBy, Text.Leq;
    SameIdentify(xs, ys);
    HeadLeast(ys, xs[0]);
    HeadLeast(xs, ys[0]);
    Text.LeqAntisymmetric(xs[0].id, ys[0].id);
    Identify(xs, xs[0], ys[0]);
  }

  lemma {:induction false} SortedUnique(xs: seq<Action>, ys: seq<Action>)
    requires multiset(xs) == multiset(ys) && IdsIdentify(xs) && IdsIdentify(ys)
    requires Text.SortedBy(xs, IdOf) && Text.SortedBy(ys, IdOf)
    ensures xs == ys
  {
    hide IdsIdentify, Text.SortedBy, Text.Leq;
    assert |xs| == |multiset(xs)| == |multiset(ys)| == |ys|;
    if xs != [] {
      SameHead(xs, ys);
      Tail(xs);
      Tail(ys);
      SortedUnique(xs[1..], ys[1..]);
      assert xs == [xs[0]] + xs[1..] && ys == [xs[0]] + ys[1..];
    }
  }

  // Two requests that differ in the order of their actions compile to the same plan.
  lemma OrderIrrelevant(r: Request, q: Request, a: Candidate, b: Candidate)
    requires q == r.(actions := q.actions) && multiset(q.actions) == multiset(r.actions) && IdsIdentify(r.actions)
    requires Optimal(r, SortedActions(r.actions), a) && Optimal(q, SortedActions(q.actions), b)
    ensures a == b && PlanOf(r, a) == PlanOf(q, b)
  {
    var xs, ys := SortedActions(r.actions), SortedActions(q.actions);
    SameIdentify(r.actions, xs);
    SameIdentify(xs, ys);
    SortedUnique(xs, ys);
    forall s ensures Feasible(q, s) == Feasible(r, s) && Score(q, s) == Score(r, s) { SameQuestion(r, q, s); }
    hide IsSub, Feasible, Score, Better, IdsIdentify, SortedActions;
    assert Optimal(r, xs, b);
    OptimumUnique(r, xs, a, b);
  }

  lemma SameQuestion(r: Request, q: Request, s: seq<Action>)
    requires q == r.(actions := q.actions)
    ensures Feasible(q, s) == Feasible(r, s) && Score(q, s) == Score(r, s)
  {
  }

  // ---------- Sets of actions in any order ----------

  lemma {:induction false} CostInsert(x: Action, xs: seq<Action>)
    ensures Cost(Text.Insert(x, xs, IdOf)) == x.cost + Cost(xs)
  {
    if xs != [] && !Text.Leq(IdOf(x), IdOf(xs[0])) { CostInsert(x, xs[1..]); }
  }

  lemma {:induction false} CostSorted(xs: seq<Action>)
    ensures Cost(Text.Sort(xs, IdOf)) == Cost(xs)
  {
    if xs != [] {
      CostSorted(xs[1..]);
      CostInsert(xs[0], Text.Sort(xs[1..], IdOf));
    }
  }

  lemma Exchange(a: real, b: real, c: real)
    ensures Times(a, Times(b, c)) == Times(b, Times(a, c))
  {
  }

  lemma KeepStep(p: Part, a: Action, xs: seq<Action>)
    ensures Keep(p, [a] + xs) == Times(Share(p, a), Keep(p, xs))
  {
    assert ([a] + xs)[1..] == xs;
  }

  lemma {:induction false} KeepInsert(p: Part, x: Action, xs: seq<Action>)
    ensures Keep(p, Text.Insert(x, xs, IdOf)) == Times(Share(p, x), Keep(p, xs))
  {
    hide Share, Keep, Times, Text.Leq;
    if xs != [] && !Text.Leq(IdOf(x), IdOf(xs[0])) {
      assert Text.Insert(x, xs, IdOf) == [xs[0]] + Text.Insert(x, xs[1..], IdOf);
      hide Text.Insert;
      KeepInsert(p, x, xs[1..]);
      KeepStep(p, xs[0], Text.Insert(x, xs[1..], IdOf));
      KeepStep(p, xs[0], xs[1..]);
      assert xs == [xs[0]] + xs[1..];
      Exchange(Share(p, x), Share(p, xs[0]), Keep(p, xs[1..]));
    } else {
      assert Text.Insert(x, xs, IdOf) == [x] + xs;
      KeepStep(p, x, xs);
    }
  }

  lemma {:induction false} KeepSorted(p: Part, xs: seq<Action>)
    ensures Keep(p, Text.Sort(xs, IdOf)) == Keep(p, xs)
  {
    hide Share, Keep, Times, Text.Insert;
    if xs == [] {
      assert Text.Sort(xs, IdOf) == xs;
    } else {
      assert Text.Sort(xs, IdOf) == Text.Insert(xs[0], Text.Sort(xs[1..], IdOf), IdOf);
      hide Text.Sort;
      KeepSorted(p, xs[1..]);
      KeepInsert(p, xs[0], Text.Sort(xs[1..], IdOf));
      KeepStep(p, xs[0], xs[1..]);
      assert xs == [xs[0]] + xs[1..];
    }
  }

  lemma ReduceSorted(risks: Risks, xs: seq<Action>)
    ensures ReduceAll(risks, Text.Sort(xs, IdOf)) == ReduceAll(risks, xs)
  {
    var ys := Text.Sort(xs, IdOf);
    hide Keep, ReduceAll, Text.Sort;
    forall f | f in risks ensures ReduceAll(risks, ys)[f] == ReduceAll(risks, xs)[f] {
      KeepSorted(Of(f), xs);
      ReduceAllIsKeep(risks, xs, f);
      ReduceAllIsKeep(risks, ys, f);
    }
  }

  lemma FadeSorted(risk: real, xs: seq<Action>)
    ensures Fade(risk, Text.Sort(xs, IdOf)) == Fade(risk, xs)
  {
    hide Keep, Fade, Text.Sort;
    KeepSorted(Whole, xs);
    FadeIsKeep(risk, xs);
    FadeIsKeep(risk, Text.Sort(xs, IdOf));
  }

  lemma BeforeSorted(overall: real, risks: Risks, xs: seq<Action>)
    ensures Before(overall, risks, Text.Sort(xs, IdOf)) == Before(overall, risks, xs)
  {
    hide ReduceAll, FactorRisk, AllFactors, WeightUsed, Text.Sort;
    ReduceSorted(risks, xs);
  }

  lemma RiskSorted(r: Request, xs: seq<Action>)
    ensures Risk(r, SortedActions(xs)) == Risk(r, xs)
  {
    hide Fade, Before, Text.Sort, FactorRisks;
    BeforeSorted(r.overall, FactorRisks(r.factors), xs);
    FadeSorted(Before(r.overall, FactorRisks(r.factors), xs), xs);
  }

  lemma FeasibleSorted(r: Request, xs: seq<Action>)
    ensures Feasible(r, SortedActions(xs)) == Feasible(r, xs)
    ensures Score(r, SortedActions(xs)) == Score(r, xs).(actions := SortedActions(xs))
  {
    CostSorted(xs);
    RiskSorted(r, xs);
    hide Text.Sort, Cost, Risk, Compatible;
    assert IdSet(SortedActions(xs)) == IdSet(xs);
  }

  lemma {:induction false} SortedSelection(ys: seq<Action>, xs: seq<Action>)
    requires multiset(ys) <= multiset(xs) && IdsIdentify(xs) && IdsIdentify(ys)
    requires Text.SortedBy(xs, IdOf) && Text.SortedBy(ys, IdOf)
    ensures IsSub(ys, xs)
    decreases |xs|
  {
    if ys == [] {
      assert IsSub(ys, xs);
    } else {
      hide IsSub, IdsIdentify, Text.SortedBy;
      assert ys[0] in multiset(xs);
      Tail(xs);
      Tail(ys);
      SubStep(ys, xs);
      if xs[0] == ys[0] {
        SortedSelection(ys[1..], xs[1..]);
      } else {
        NotSelected(ys, xs);
        SortedSelection(ys, xs[1..]);
      }
    }
  }

  lemma SelectionIdentify(ys: seq<Action>, xs: seq<Action>)
    requires multiset(ys) <= multiset(xs) && IdsIdentify(xs)
    ensures IdsIdentify(ys)
  {
    forall y | y in ys ensures y in xs { assert y in multiset(ys) && y in multiset(xs); }
  }

  lemma NotSelected(ys: seq<Action>, xs: seq<Action>)
    requires multiset(ys) <= multiset(xs) && IdsIdentify(xs)
    requires Text.SortedBy(xs, IdOf) && Text.SortedBy(ys, IdOf)
    requires ys != [] && xs != [] && xs[0] != ys[0]
    ensures multiset(ys) <= multiset(xs) - multiset{xs[0]}
  {
    hide IdsIdentify, Text.SortedBy, Text.Leq;
    assert ys[0] in multiset(xs) && ys[0] in xs;
    if xs[0] in multiset(ys) {
      HeadLeast(ys, xs[0]);
      HeadLeast(xs, ys[0]);
      Text.LeqAntisymmetric(xs[0].id, ys[0].id);
      Identify(xs, xs[0], ys[0]);
    }
  }

  // Against every feasible set of the actions, however it is listed.
  lemma OptimalForEverySet(r: Request, best: Candidate, s: seq<Action>)
    requires IdsIdentify(r.actions) && Optimal(r, SortedActions(r.actions), best)
    requires multiset(s) <= multiset(r.actions) && Feasible(r, s)
    ensures Meets(r, s) ==> Meets(r, best.actions) && best.cost <= Cost(s)
    ensures !Meets(r, best.actions) ==> Score(r, s).continuity <= best.continuity
  {
    var xs, ys := SortedActions(r.actions), SortedActions(s);
    assert IdsIdentify(xs);
    SelectionIdentify(ys, xs);
    SortedSelection(ys, xs);
    FeasibleSorted(r, s);
    hide IsSub, Feasible, IdsIdentify, Optimal, SortedActions;
    OptimalMeans(r, xs, best, ys);
  }
}
