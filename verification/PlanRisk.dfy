// The risk that remains after a set of mitigation actions.
module PlanRisk {
  import opened Reals

  datatype Factor = Ice | Weather | Traffic | Port | Communications | Cyber | DataTrust | Commercial | Geopolitical | Escort | Inventory

  function Weight(f: Factor): (w: real)
    ensures w > 0.0
  {
    match f
    case Ice => 0.14 case Weather => 0.08 case Traffic => 0.06 case Port => 0.12 case Communications => 0.11
    case Cyber => 0.12 case DataTrust => 0.10 case Commercial => 0.09 case Geopolitical => 0.07 case Escort => 0.06
    case Inventory => 0.05
  }

  function AllFactors(): seq<Factor> {
    [Ice, Weather, Traffic, Port, Communications, Cyber, DataTrust, Commercial, Geopolitical, Escort, Inventory]
  }

  datatype Action = Action(id: string, cost: real, gain: real, reductions: map<Factor, real>,
                           prerequisites: set<string>, incompatible: set<string>, needsApproval: bool)

  type Risks = map<Factor, real>

  ghost predicate ValidAction(a: Action) {
    a.cost >= 0.0 && IsScore(a.gain) && forall f :: f in a.reductions ==> IsScore(a.reductions[f])
  }

  ghost predicate AllValid(actions: seq<Action>) { forall a :: a in actions ==> ValidAction(a) }

  ghost predicate ScoreRisks(risks: Risks) { forall f :: f in risks ==> IsScore(risks[f]) }

  // What one mitigation leaves of a risk.
  function Left(reduction: real): real { 1.0 - Min(0.95, reduction) }

  // One action applied to every factor it names and the assessment has.
  function Reduce(risks: Risks, a: Action): (r: Risks)
    ensures r.Keys == risks.Keys
  {
    map f | f in risks :: if f in a.reductions then risks[f] * Left(a.reductions[f]) else risks[f]
  }

  function ReduceAll(risks: Risks, actions: seq<Action>): (r: Risks)
    ensures r.Keys == risks.Keys
  {
    if actions == [] then risks else ReduceAll(Reduce(risks, actions[0]), actions[1..])
  }

  function WeightedSum(factors: seq<Factor>, risks: Risks): real {
    if factors == [] then 0.0
    else (if factors[0] in risks then risks[factors[0]] * Weight(factors[0]) else 0.0) + WeightedSum(factors[1..], risks)
  }

  function WeightUsed(factors: seq<Factor>, risks: Risks): real {
    if factors == [] then 0.0
    else (if factors[0] in risks then Weight(factors[0]) else 0.0) + WeightUsed(factors[1..], risks)
  }

  // An action without factor reductions scales the whole risk.
  function Soften(risk: real, a: Action): real {
    if a.reductions == map[] then risk * Left(a.gain) else risk
  }

  function Fade(risk: real, actions: seq<Action>): real
    decreases |actions|
  {
    if actions == [] then risk else Fade(Soften(risk, actions[0]), actions[1..])
  }

  function FactorRisk(risks: Risks): real
    requires WeightUsed(AllFactors(), risks) > 0.0
  {
    WeightedSum(AllFactors(), risks) / WeightUsed(AllFactors(), risks)
  }

  lemma {:induction false} WeightUsedPositive(factors: seq<Factor>, risks: Risks)
    ensures WeightUsed(factors, risks) >= 0.0
    ensures (exists f :: f in factors && f in risks) ==> WeightUsed(factors, risks) > 0.0
  {
    if factors != [] {
      WeightUsedPositive(factors[1..], risks);
      assert forall f :: f in factors <==> f == factors[0] || f in factors[1..];
    }
  }

  lemma EveryFactorListed(f: Factor)
    ensures f in AllFactors()
  {
    var i := match f
      case Ice => 0 case Weather => 1 case Traffic => 2 case Port => 3 case Communications => 4 case Cyber => 5
      case DataTrust => 6 case Commercial => 7 case Geopolitical => 8 case Escort => 9 case Inventory => 10;
    assert AllFactors()[i] == f;
  }

  lemma SomeWeight(risks: Risks)
    requires risks != map[]
    ensures WeightUsed(AllFactors(), risks) > 0.0
  {
    var f :| f in risks;
    EveryFactorListed(f);
    WeightUsedPositive(AllFactors(), risks);
  }

  function Before(overall: real, risks: Risks, actions: seq<Action>): real {
    if risks == map[] then overall else
      SomeWeight(risks);
      SomeWeight(ReduceAll(risks, actions));
      var penalty := Max(0.0, overall - FactorRisk(risks));
      Min(1.0, FactorRisk(ReduceAll(risks, actions)) + penalty)
  }

  function ProjectRisk(overall: real, risks: Risks, actions: seq<Action>): real {
    Max(0.0, Min(1.0, Fade(Before(overall, risks, actions), actions)))
  }

  // ---------- Enlarging a set never raises the risk ----------

  // a is obtained from b by leaving elements out.
  ghost predicate IsSub<T>(a: seq<T>, b: seq<T>)
    decreases |b|
  {
    a == [] || (b != [] && ((a[0] == b[0] && IsSub(a[1..], b[1..])) || IsSub(a, b[1..])))
  }

  // What the actions scale: the risk of one factor, or the whole risk.
  datatype Part = Of(f: Factor) | Whole

  // What one action leaves of a part.
  function Share(p: Part, a: Action): real {
    match p
    case Of(f) => if f in a.reductions then Left(a.reductions[f]) else 1.0
    case Whole => if a.reductions == map[] then Left(a.gain) else 1.0
  }

  function Keep(p: Part, actions: seq<Action>): real {
    if actions == [] then 1.0 else Share(p, actions[0]) * Keep(p, actions[1..])
  }

  lemma Associate(a: real, b: real, c: real)
    ensures (a * b) * c == a * (b * c)
  {
  }

  lemma {:induction false} ReduceAllIsKeep(risks: Risks, actions: seq<Action>, f: Factor)
    requires f in risks
    ensures ReduceAll(risks, actions)[f] == risks[f] * Keep(Of(f), actions)
    decreases |actions|
  {
    hide Reduce, Share;
    if actions == [] {
      assert Keep(Of(f), actions) == 1.0;
    } else {
      ReduceStep(risks, actions[0], f);
      ReduceAllIsKeep(Reduce(risks, actions[0]), actions[1..], f);
      assert Keep(Of(f), actions) == Share(Of(f), actions[0]) * Keep(Of(f), actions[1..]);
      hide Keep, ReduceAll;
      Associate(risks[f], Share(Of(f), actions[0]), Keep(Of(f), actions[1..]));
    }
  }

  lemma ReduceStep(risks: Risks, a: Action, f: Factor)
    requires f in risks
    ensures Reduce(risks, a)[f] == risks[f] * Share(Of(f), a)
  {
  }

  lemma SoftenIsShare(risk: real, a: Action)
    ensures Soften(risk, a) == risk * Share(Whole, a)
  {
    if a.reductions != map[] { assert Share(Whole, a) == 1.0; }
  }

  lemma {:induction false} FadeIsKeep(risk: real, actions: seq<Action>)
    ensures Fade(risk, actions) == risk * Keep(Whole, actions)
    decreases |actions|
  {
    hide Soften, Share;
    if actions == [] {
      assert Keep(Whole, actions) == 1.0;
    } else {
      SoftenIsShare(risk, actions[0]);
      FadeIsKeep(Soften(risk, actions[0]), actions[1..]);
      assert Keep(Whole, actions) == Share(Whole, actions[0]) * Keep(Whole, actions[1..]);
      hide Fade, Keep;
      Associate(risk, Share(Whole, actions[0]), Keep(Whole, actions[1..]));
    }
  }

  lemma ShareIsScore(p: Part, a: Action)
    requires ValidAction(a)
    ensures IsScore(Share(p, a))
  {
  }

  lemma {:induction false} KeepIsScore(p: Part, actions: seq<Action>)
    requires AllValid(actions)
    ensures IsScore(Keep(p, actions))
  {
    hide ValidAction, Share;
    if actions != [] {
      ShareIsScore(p, actions[0]);
      KeepIsScore(p, actions[1..]);
      UnitProduct(Share(p, actions[0]), Keep(p, actions[1..]), Keep(p, actions));
    }
  }

  lemma {:induction false} KeepShrinks(p: Part, a: seq<Action>, b: seq<Action>)
    requires IsSub(a, b) && AllValid(b)
    ensures Keep(p, b) <= Keep(p, a)
    decreases |b|
  {
    hide ValidAction, Share;
    if a == [] {
      KeepIsScore(p, b);
    } else {
      ShareIsScore(p, b[0]);
      KeepIsScore(p, b[1..]);
      if a[0] == b[0] && IsSub(a[1..], b[1..]) {
        KeepShrinks(p, a[1..], b[1..]);
        MonotoneProduct(Share(p, b[0]), Keep(p, b[1..]), Keep(p, a[1..]), Keep(p, b), Keep(p, a));
      } else {
        KeepShrinks(p, a, b[1..]);
        UnitProduct(Share(p, b[0]), Keep(p, b[1..]), Keep(p, b));
      }
    }
  }

  ghost predicate Below(low: Risks, high: Risks) {
    low.Keys == high.Keys && forall f :: f in low ==> low[f] <= high[f]
  }

  lemma ReduceAllShrinks(risks: Risks, a: seq<Action>, b: seq<Action>)
    requires IsSub(a, b) && AllValid(b) && ScoreRisks(risks)
    ensures Below(ReduceAll(risks, b), ReduceAll(risks, a))
  {
    hide IsSub, AllValid, Keep, ReduceAll;
    forall f | f in risks ensures ReduceAll(risks, b)[f] <= ReduceAll(risks, a)[f] {
      KeepShrinks(Of(f), a, b);
      ReduceAllIsKeep(risks, a, f);
      ReduceAllIsKeep(risks, b, f);
      MonotoneProduct(risks[f], Keep(Of(f), b), Keep(Of(f), a), ReduceAll(risks, b)[f], ReduceAll(risks, a)[f]);
    }
  }

  lemma ReduceAllKeepsScores(risks: Risks, actions: seq<Action>)
    requires AllValid(actions) && ScoreRisks(risks)
    ensures ScoreRisks(ReduceAll(risks, actions))
  {
    hide AllValid, Keep, ReduceAll;
    forall f | f in risks ensures IsScore(ReduceAll(risks, actions)[f]) {
      KeepIsScore(Of(f), actions);
      ReduceAllIsKeep(risks, actions, f);
      UnitProduct(risks[f], Keep(Of(f), actions), ReduceAll(risks, actions)[f]);
    }
  }

  lemma {:induction false} WeightedSumMonotone(factors: seq<Factor>, low: Risks, high: Risks)
    requires Below(low, high)
    ensures WeightedSum(factors, low) <= WeightedSum(factors, high)
    ensures WeightUsed(factors, low) == WeightUsed(factors, high)
  {
    hide Weight;
    if factors != [] {
      WeightedSumMonotone(factors[1..], low, high);
      if factors[0] in low {
        MonotoneProduct(Weight(factors[0]), low[factors[0]], high[factors[0]],
                        low[factors[0]] * Weight(factors[0]), high[factors[0]] * Weight(factors[0]));
      }
    }
  }

  lemma {:induction false} WeightedSumBounded(factors: seq<Factor>, risks: Risks)
    requires ScoreRisks(risks)
    ensures 0.0 <= WeightedSum(factors, risks) <= WeightUsed(factors, risks)
  {
    hide Weight;
    if factors != [] {
      WeightedSumBounded(factors[1..], risks);
      if factors[0] in risks {
        var w := Weight(factors[0]);
        NonNegativeProduct(risks[factors[0]], w, risks[factors[0]] * w);
        MonotoneProduct(w, risks[factors[0]], 1.0, risks[factors[0]] * w, w * 1.0);
      }
    }
  }

  lemma Divide(x: real, y: real, w: real)
    requires x <= y && w > 0.0
    ensures x / w <= y / w && w / w == 1.0
  {
  }

  lemma FactorRiskIsScore(risks: Risks)
    requires risks != map[] && ScoreRisks(risks) && WeightUsed(AllFactors(), risks) > 0.0
    ensures IsScore(FactorRisk(risks))
  {
    hide WeightedSum, WeightUsed, AllFactors;
    WeightedSumBounded(AllFactors(), risks);
    Divide(0.0, WeightedSum(AllFactors(), risks), WeightUsed(AllFactors(), risks));
    Divide(WeightedSum(AllFactors(), risks), WeightUsed(AllFactors(), risks), WeightUsed(AllFactors(), risks));
  }

  lemma FactorRiskMonotone(low: Risks, high: Risks)
    requires Below(low, high) && WeightUsed(AllFactors(), low) > 0.0 && WeightUsed(AllFactors(), high) > 0.0
    ensures FactorRisk(low) <= FactorRisk(high)
  {
    hide WeightedSum, WeightUsed, AllFactors, Below;
    WeightedSumMonotone(AllFactors(), low, high);
    Divide(WeightedSum(AllFactors(), low), WeightedSum(AllFactors(), high), WeightUsed(AllFactors(), low));
  }

  lemma BeforeIsScore(overall: real, risks: Risks, actions: seq<Action>)
    requires IsScore(overall) && ScoreRisks(risks) && AllValid(actions)
    ensures IsScore(Before(overall, risks, actions))
  {
    hide WeightUsed, AllFactors, ReduceAll, FactorRisk, AllValid, ScoreRisks;
    if risks != map[] {
      SomeWeight(risks);
      SomeWeight(ReduceAll(risks, actions));
      ReduceAllKeepsScores(risks, actions);
      FactorRiskIsScore(ReduceAll(risks, actions));
    }
  }

  lemma BeforeShrinks(overall: real, risks: Risks, a: seq<Action>, b: seq<Action>)
    requires IsScore(overall) && ScoreRisks(risks) && AllValid(b) && IsSub(a, b)
    ensures Before(overall, risks, b) <= Before(overall, risks, a)
  {
    hide WeightUsed, AllFactors, ReduceAll, FactorRisk, AllValid, ScoreRisks, IsSub, Below;
    if risks != map[] {
      SomeWeight(risks);
      SomeWeight(ReduceAll(risks, a));
      SomeWeight(ReduceAll(risks, b));
      ReduceAllShrinks(risks, a, b);
      FactorRiskMonotone(ReduceAll(risks, b), ReduceAll(risks, a));
    }
  }

  lemma BothShrink(x: real, y: real, k: real, l: real, xk: real, yl: real)
    requires 0.0 <= x <= y && 0.0 <= k <= l && xk == x * k && yl == y * l
    ensures xk <= yl
  {
    MonotoneProduct(x, k, l, xk, x * l);
    MonotoneProduct(l, x, y, l * x, yl);
  }

  lemma FadeShrinks(x: real, y: real, a: seq<Action>, b: seq<Action>)
    requires 0.0 <= x <= y && IsSub(a, b) && AllValid(b)
    ensures Fade(x, b) <= Fade(y, a)
  {
    hide Fade, Keep, AllValid, IsSub;
    KeepShrinks(Whole, a, b);
    KeepIsScore(Whole, b);
    FadeIsKeep(x, b);
    FadeIsKeep(y, a);
    BothShrink(x, y, Keep(Whole, b), Keep(Whole, a), Fade(x, b), Fade(y, a));
  }

  // Adding actions to a set never raises the projected risk.
  lemma MoreActionsLessRisk(overall: real, risks: Risks, a: seq<Action>, b: seq<Action>)
    requires IsScore(overall) && ScoreRisks(risks) && AllValid(b) && IsSub(a, b)
    ensures ProjectRisk(overall, risks, b) <= ProjectRisk(overall, risks, a)
  {
    hide Before, Fade, AllValid, ScoreRisks, IsSub;
    BeforeShrinks(overall, risks, a, b);
    BeforeIsScore(overall, risks, b);
    FadeShrinks(Before(overall, risks, b), Before(overall, risks, a), a, b);
  }

  // Doing nothing leaves the assessed risk, or the weighted factor risk if that is higher.
  lemma NoActions(overall: real, risks: Risks)
    requires IsScore(overall) && ScoreRisks(risks)
    requires risks != map[] ==> WeightUsed(AllFactors(), risks) > 0.0
    ensures ProjectRisk(overall, risks, []) == if risks == map[] then overall else Max(overall, FactorRisk(risks))
  {
    assert ReduceAll(risks, []) == risks;
    hide WeightUsed, AllFactors, FactorRisk, ScoreRisks;
    if risks != map[] { FactorRiskIsScore(risks); }
  }

  // ---------- The loops that compute it ----------

  // Scales the risk of every factor one action names.
  method Mitigate(risks: Risks, a: Action) returns (r: Risks)
    ensures r == Reduce(risks, a)
  {
    r := risks;
    var todo := a.reductions.Keys;
    while todo != {}
      invariant todo <= a.reductions.Keys && r.Keys == risks.Keys
      invariant forall f :: f in risks ==>
        r[f] == if f in a.reductions && f !in todo then risks[f] * Left(a.reductions[f]) else risks[f]
      decreases |todo|
    {
      var f :| f in todo;
      if f in r { r := r[f := r[f] * (1.0 - Min(0.95, a.reductions[f]))]; }
      todo := todo - {f};
    }
    forall f | f in risks ensures r[f] == Reduce(risks, a)[f] {}
  }

  method MitigateAll(risks: Risks, actions: seq<Action>) returns (r: Risks)
    ensures r == ReduceAll(risks, actions)
  {
    hide Reduce;
    r := risks;
    var i := 0;
    while i < |actions|
      invariant 0 <= i <= |actions|
      invariant ReduceAll(r, actions[i..]) == ReduceAll(risks, actions)
    {
      assert actions[i..][1..] == actions[i + 1..];
      r := Mitigate(r, actions[i]);
      i := i + 1;
    }
  }

  method SoftenBy(risk: real, a: Action) returns (r: real)
    ensures r == Soften(risk, a)
  {
    r := risk;
    if |a.reductions| == 0 { r := r * (1.0 - Min(0.95, a.gain)); }
  }

  method ScaleWhole(risk: real, actions: seq<Action>) returns (r: real)
    ensures r == Fade(risk, actions)
  {
    hide Soften;
    r := risk;
    var i := 0;
    while i < |actions|
      invariant 0 <= i <= |actions|
      invariant Fade(r, actions[i..]) == Fade(risk, actions)
    {
      assert actions[i..][1..] == actions[i + 1..];
      r := SoftenBy(r, actions[i]);
      i := i + 1;
    }
  }

  method ProjectedRisk(overall: real, risks: Risks, actions: seq<Action>) returns (r: real)
    ensures r == ProjectRisk(overall, risks, actions)
  {
    if |risks| == 0 {
      r := overall;
    } else {
      SomeWeight(risks);
      var base := FactorRisk(risks);
      var penalty := Max(0.0, overall - base);
      var left := MitigateAll(risks, actions);
      SomeWeight(left);
      r := Min(1.0, FactorRisk(left) + penalty);
    }
    hide FactorRisk, Fade, ReduceAll;
    r := ScaleWhole(r, actions);
    r := Max(0.0, Min(1.0, r));
  }
}
