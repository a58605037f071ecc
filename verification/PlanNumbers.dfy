// The projected risk in numbers.
module PlanNumbers {
  import opened Reals
  import opened PlanRisk

  // The weights of the factors, in percent.
  function Percent(f: Factor): nat {
    match f
    case Ice => 14 case Cyber => 12 case Port => 12 case Communications => 11 case DataTrust => 10 case Commercial => 9
    case Weather => 8 case Geopolitical => 7 case Traffic => 6 case Escort => 6 case Inventory => 5
  }

  function Rank(f: Factor): nat {
    match f
    case Ice => 0 case Weather => 1 case Traffic => 2 case Port => 3 case Communications => 4 case Cyber => 5
    case DataTrust => 6 case Commercial => 7 case Geopolitical => 8 case Escort => 9 case Inventory => 10
  }

  // The mean of two risks by their weights.
  function MeanOf(f: Factor, x: real, h: Factor, y: real): real {
    (Percent(f) as real * x + Percent(h) as real * y) / (Percent(f) + Percent(h)) as real
  }

  function Cut(x: real, r: real): real { x * (1.0 - if r > 0.95 then 0.95 else r) }

  lemma PercentPositive(f: Factor)
    ensures Percent(f) > 0 && Weight(f) == Percent(f) as real / 100.0
  {
  }

  ghost predicate Ranked(factors: seq<Factor>, from: nat) {
    forall i :: 0 <= i < |factors| ==> Rank(factors[i]) == from + i
  }

  lemma AllRanked()
    ensures Ranked(AllFactors(), 0) && |AllFactors()| == 11
  {
  }

  lemma RanksDiffer(f: Factor, h: Factor)
    ensures Rank(f) == Rank(h) <==> f == h
    ensures Rank(f) < 11
  {
  }

  // What one factor adds to the weighted sum, and to the weights used.
  function Term(risks: Risks, f: Factor): real { if f in risks then risks[f] * Weight(f) else 0.0 }

  function Used(risks: Risks, f: Factor): real { if f in risks then Weight(f) else 0.0 }

  lemma SumStep(factors: seq<Factor>, risks: Risks)
    requires factors != []
    ensures WeightedSum(factors, risks) == Term(risks, factors[0]) + WeightedSum(factors[1..], risks)
    ensures WeightUsed(factors, risks) == Used(risks, factors[0]) + WeightUsed(factors[1..], risks)
  {
    hide Weight;
  }

  lemma TermOther(risks: Risks, f: Factor, x: real, h: Factor)
    requires f !in risks
    ensures Term(risks[f := x], h) == if h == f then x * Weight(f) else Term(risks, h)
    ensures Used(risks[f := x], h) == if h == f then Weight(f) else Used(risks, h)
    ensures Term(risks, f) == 0.0 == Used(risks, f)
  {
    hide Weight;
  }

  // One more factor adds its own term.
  lemma {:induction false} SumAdds(factors: seq<Factor>, from: nat, risks: Risks, f: Factor, x: real)
    requires Ranked(factors, from) && f !in risks
    ensures var inside := from <= Rank(f) < from + |factors|;
            && WeightedSum(factors, risks[f := x]) == WeightedSum(factors, risks) + (if inside then Times(x, Weight(f)) else 0.0)
            && WeightUsed(factors, risks[f := x]) == WeightUsed(factors, risks) + (if inside then Weight(f) else 0.0)
  {
    if factors != [] {
      var h, rest := factors[0], factors[1..];
      assert Rank(h) == from && Ranked(rest, from + 1);
      RanksDiffer(f, h);
      assert Times(x, Weight(f)) == x * Weight(f);
      hide Weight, Term, Used, WeightedSum, WeightUsed, Rank, Ranked, Times;
      SumAdds(rest, from + 1, risks, f, x);
      SumStep(factors, risks);
      SumStep(factors, risks[f := x]);
      TermOther(risks, f, x, h);
    }
  }

  lemma {:induction false} NothingSums(factors: seq<Factor>)
    ensures WeightedSum(factors, map[]) == 0.0 == WeightUsed(factors, map[])
  {
    if factors != [] { NothingSums(factors[1..]); }
  }

  lemma SumsOfOne(f: Factor, x: real)
    ensures WeightedSum(AllFactors(), map[][f := x]) == Times(x, Weight(f)) && WeightUsed(AllFactors(), map[][f := x]) == Weight(f)
  {
    AllRanked();
    RanksDiffer(f, f);
    hide Weight, WeightedSum, WeightUsed, Rank, Ranked, AllFactors, Times;
    NothingSums(AllFactors());
    SumAdds(AllFactors(), 0, map[], f, x);
  }

  lemma SumsOfTwo(f: Factor, x: real, h: Factor, y: real)
    requires f != h
    ensures WeightedSum(AllFactors(), map[][f := x][h := y]) == Times(x, Weight(f)) + Times(y, Weight(h))
    ensures WeightUsed(AllFactors(), map[][f := x][h := y]) == Weight(f) + Weight(h)
  {
    AllRanked();
    RanksDiffer(h, h);
    hide Weight, WeightedSum, WeightUsed, Rank, Ranked, AllFactors, Times;
    SumsOfOne(f, x);
    SumAdds(AllFactors(), 0, map[][f := x], h, y);
  }

  lemma DivideBack(x: real, w: real)
    requires w > 0.0
    ensures Times(x, w) / w == x
  {
  }

  lemma OneFactorRisk(f: Factor, x: real)
    ensures WeightUsed(AllFactors(), map[][f := x]) > 0.0 && FactorRisk(map[][f := x]) == x
  {
    hide Weight, WeightedSum, WeightUsed, AllFactors, Times;
    SumsOfOne(f, x);
    DivideBack(x, Weight(f));
  }

  lemma Percents(x: real, f: Factor, y: real, h: Factor)
    ensures Weight(f) + Weight(h) > 0.0 && (Times(x, Weight(f)) + Times(y, Weight(h))) / (Weight(f) + Weight(h)) == MeanOf(f, x, h, y)
  {
    PercentPositive(f);
    PercentPositive(h);
    var p, q := Percent(f) as real, Percent(h) as real;
    hide Weight, Percent;
    OverHundred(x, p, y, q, Weight(f), Weight(h));
  }

  lemma OverHundred(x: real, p: real, y: real, q: real, v: real, w: real)
    requires p > 0.0 && q > 0.0 && v == p / 100.0 && w == q / 100.0
    ensures (Times(x, v) + Times(y, w)) / (v + w) == (p * x + q * y) / (p + q)
  {
    var a, b := p * x + q * y, p + q;
    assert Times(x, v) + Times(y, w) == a / 100.0 && v + w == b / 100.0;
    SameRatio(a, b);
  }

  lemma SameRatio(a: real, b: real)
    requires b > 0.0
    ensures (a / 100.0) / (b / 100.0) == a / b
  {
    var z := a / b;
    assert z * b == a;
    assert z * (b / 100.0) == a / 100.0;
  }

  lemma TwoFactorRisk(f: Factor, x: real, h: Factor, y: real)
    requires f != h
    ensures WeightUsed(AllFactors(), map[][f := x][h := y]) > 0.0 && FactorRisk(map[][f := x][h := y]) == MeanOf(f, x, h, y)
  {
    hide Weight, WeightedSum, WeightUsed, AllFactors, Times, MeanOf;
    SumsOfTwo(f, x, h, y);
    Percents(x, f, y, h);
  }

  // ---------- One action ----------

  lemma ReduceOne(risks: Risks, a: Action)
    ensures ReduceAll(risks, [a]) == Reduce(risks, a)
  {
    assert [a][1..] == [];
    hide Reduce;
  }

  lemma FadeOne(risk: real, a: Action)
    ensures Fade(risk, [a]) == if a.reductions == map[] then Cut(risk, a.gain) else risk
  {
    assert [a][1..] == [];
  }

  lemma CutIsLeft(x: real, r: real)
    ensures x * Left(r) == Cut(x, r)
  {
  }

  // The risk after one action, from the factor risks before and after it.
  lemma ProjectOne(overall: real, risks: Risks, after: Risks, a: Action, u: real, v: real)
    requires risks != map[] && a.reductions != map[] && after == ReduceAll(risks, [a]) && v >= 0.0
    requires WeightUsed(AllFactors(), risks) > 0.0 && FactorRisk(risks) == u
    requires WeightUsed(AllFactors(), after) > 0.0 && FactorRisk(after) == v
    ensures ProjectRisk(overall, risks, [a]) == Min(1.0, v + Max(0.0, overall - u))
  {
    hide WeightUsed, AllFactors, FactorRisk, Fade, ReduceAll;
    FadeOne(Before(overall, risks, [a]), a);
  }

  lemma ReduceFirst(f: Factor, x: real, rest: Risks, a: Action)
    requires f in a.reductions && f !in rest && forall h :: h in rest ==> h !in a.reductions
    ensures ReduceAll(rest[f := x], [a]) == rest[f := Cut(x, a.reductions[f])]
  {
    var before := rest[f := x];
    ReduceOne(before, a);
    CutIsLeft(x, a.reductions[f]);
    assert Reduce(before, a)[f] == before[f] * Left(a.reductions[f]) == Cut(x, a.reductions[f]);
    hide Cut, Left, ReduceAll;
    forall h | h in rest ensures Reduce(before, a)[h] == rest[h] {}
    assert Reduce(before, a) == rest[f := Cut(x, a.reductions[f])];
  }

  // An assessment of one factor and an action that reduces it.
  lemma OneFactorOneAction(overall: real, f: Factor, x: real, a: Action)
    requires IsScore(overall) && IsScore(x) && ValidAction(a) && f in a.reductions
    ensures ProjectRisk(overall, map[f := x], [a]) == Min(1.0, Cut(x, a.reductions[f]) + Max(0.0, overall - x))
  {
    var cut := Cut(x, a.reductions[f]);
    CutIsScore(x, a.reductions[f]);
    hide WeightUsed, AllFactors, FactorRisk, Cut, ReduceAll, ProjectRisk;
    ReduceFirst(f, x, map[], a);
    OneFactorRisk(f, x);
    OneFactorRisk(f, cut);
    assert map[][f := x] == map[f := x];
    ProjectOne(overall, map[][f := x], map[][f := cut], a, x, cut);
  }

  lemma CutIsScore(x: real, r: real)
    requires IsScore(x) && IsScore(r)
    ensures IsScore(Cut(x, r))
  {
    var left := 1.0 - if r > 0.95 then 0.95 else r;
    UnitProduct(x, left, x * left);
  }

  // An action without reductions cuts the whole risk by its gain.
  lemma WholeAction(overall: real, risks: Risks, a: Action)
    requires IsScore(overall) && ScoreRisks(risks) && ValidAction(a) && a.reductions == map[]
    ensures ProjectRisk(overall, risks, [a]) == Cut(ProjectRisk(overall, risks, []), a.gain)
  {
    assert Reduce(risks, a) == risks;
    ReduceOne(risks, a);
    assert ReduceAll(risks, []) == risks;
    assert AllValid([]) && AllValid([a]);
    BeforeIsScore(overall, risks, []);
    var before := Before(overall, risks, []);
    assert Before(overall, risks, [a]) == before by { hide WeightUsed, AllFactors, FactorRisk, Reduce; }
    CutIsScore(before, a.gain);
    hide Before, Cut, Reduce, ReduceAll;
    FadeOne(before, a);
    assert Fade(before, []) == before;
  }

  lemma SameMaps(f: Factor, x: real, h: Factor, y: real)
    requires f != h
    ensures map[][h := y][f := x] == map[][f := x][h := y] == map[f := x, h := y]
  {
  }

  // An assessment of two factors and an action that reduces the first of them.
  lemma TwoFactorsOneAction(overall: real, f: Factor, x: real, h: Factor, y: real, a: Action)
    requires IsScore(overall) && IsScore(x) && IsScore(y) && f != h && ValidAction(a)
    requires f in a.reductions && h !in a.reductions
    ensures ProjectRisk(overall, map[f := x, h := y], [a]) ==
            Min(1.0, MeanOf(f, Cut(x, a.reductions[f]), h, y) + Max(0.0, overall - MeanOf(f, x, h, y)))
  {
    var cut := Cut(x, a.reductions[f]);
    CutIsScore(x, a.reductions[f]);
    hide WeightUsed, AllFactors, FactorRisk, Cut, ReduceAll, MeanOf, ProjectRisk;
    SameMaps(f, x, h, y);
    SameMaps(f, cut, h, y);
    ReduceFirst(f, x, map[][h := y], a);
    TwoFactorRisk(f, x, h, y);
    TwoFactorRisk(f, cut, h, y);
    MeanIsScore(f, cut, h, y);
    ProjectOne(overall, map[][f := x][h := y], map[][f := cut][h := y], a, MeanOf(f, x, h, y), MeanOf(f, cut, h, y));
  }

  lemma MeanIsScore(f: Factor, x: real, h: Factor, y: real)
    requires IsScore(x) && IsScore(y)
    ensures 0.0 <= MeanOf(f, x, h, y)
  {
    PercentPositive(f);
    PercentPositive(h);
    NonNegativeProduct(Percent(f) as real, x, Percent(f) as real * x);
    NonNegativeProduct(Percent(h) as real, y, Percent(h) as real * y);
    hide Percent;
    Divide(0.0, Percent(f) as real * x + Percent(h) as real * y, (Percent(f) + Percent(h)) as real);
  }
}
