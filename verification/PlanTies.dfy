// How the compiler chooses, in plain terms: what may be selected, what it costs, and every tie.
module PlanTies {
  import opened PlanRisk
  import opened Plan
  import opened PlanOptimality
  import Text

  // a before b: a shorter list that b continues, or the smaller id at the first difference.
  ghost predicate Before(a: seq<string>, b: seq<string>) {
    || (|a| < |b| && a == b[..|a|])
    || exists i :: 0 <= i < |a| && i < |b| && a[..i] == b[..i] && a[i] != b[i] && Earlier(a[i], b[i])
  }

  // The same for the characters of two ids.
  ghost predicate Earlier(a: string, b: string) {
    || (|a| < |b| && a == b[..|a|])
    || exists i :: 0 <= i < |a| && i < |b| && a[..i] == b[..i] && a[i] < b[i]
  }

  lemma {:induction false} LeqMeans(a: string, b: string)
    ensures Text.Leq(a, b) && a != b ==> Earlier(a, b)
  {
    if a != [] && b != [] && a[0] == b[0] && Text.Leq(a, b) && a != b {
      assert a == [a[0]] + a[1..] && b == [b[0]] + b[1..];
      LeqMeans(a[1..], b[1..]);
      if !(|a| < |b| && a == b[..|a|]) {
        var i :| 0 <= i < |a[1..]| && i < |b[1..]| && a[1..][..i] == b[1..][..i] && a[1..][i] < b[1..][i];
        assert a[..i + 1] == [a[0]] + a[1..][..i] && b[..i + 1] == [b[0]] + b[1..][..i];
        assert a[i + 1] < b[i + 1];
      }
    } else if a != [] && b != [] && a[0] < b[0] {
      assert a[..0] == b[..0];
    }
  }

  lemma {:induction false} TupleMeans(a: seq<string>, b: seq<string>)
    ensures TupleLess(a, b) ==> Before(a, b)
  {
    hide Earlier;
    if TupleLess(a, b) && a != [] {
      assert a == [a[0]] + a[1..] && b == [b[0]] + b[1..];
      if StringLess(a[0], b[0]) {
        LeqMeans(a[0], b[0]);
        assert a[..0] == b[..0];
      } else {
        TupleMeans(a[1..], b[1..]);
        if !(|a| < |b| && a == b[..|a|]) {
          var i :| 0 <= i < |a[1..]| && i < |b[1..]| && a[1..][..i] == b[1..][..i] && a[1..][i] != b[1..][i] && Earlier(a[1..][i], b[1..][i]);
          assert a[..i + 1] == [a[0]] + a[1..][..i] && b[..i + 1] == [b[0]] + b[1..][..i];
          assert a[i + 1] != b[i + 1] && Earlier(a[i + 1], b[i + 1]);
        }
      }
    }
  }

  // Every tie. Of two feasible sets that meet the target at one cost the plan has the higher
  // continuity; of two that miss it with one continuity the plan is the cheaper one; and with both
  // equal the ids of the plan come first.
  lemma TiesDecided(r: Request, sorted: seq<Action>, best: Candidate, s: seq<Action>)
    requires Optimal(r, sorted, best) && IsSub(s, sorted) && Feasible(r, s)
    ensures var c, target := Score(r, s), r.minimumContinuity;
            && (best.continuity >= target && c.continuity >= target && c.cost == best.cost ==> c.continuity <= best.continuity)
            && (best.continuity < target && c.continuity == best.continuity ==> best.cost <= c.cost)
            && (c.continuity == best.continuity && c.cost == best.cost ==>
                  IdTuple(s) == IdTuple(best.actions) || Before(IdTuple(best.actions), IdTuple(s)))
  {
    hide IsSub, Feasible, Risk, Cost, IdTuple, TupleLess, Before;
    assert !Better(Score(r, s), best, r.minimumContinuity);
    TupleLessTotal(IdTuple(best.actions), IdTuple(s));
    TupleMeans(IdTuple(best.actions), IdTuple(s));
  }

  // ---------- What may be selected, and what it costs ----------

  // A set is feasible exactly when it fits the budget, holds every prerequisite of its actions, and
  // none of its actions is incompatible with another of them.
  lemma FeasibleMeans(r: Request, s: seq<Action>)
    ensures Feasible(r, s) <==>
      && Cost(s) <= r.budget
      && (forall a, id :: a in s && id in a.prerequisites ==> exists b :: b in s && b.id == id)
      && forall a, b :: a in s && b in s ==> b.id !in a.incompatible
  {
    hide Cost;
    forall a | a in s && Compatible(a, IdSet(s)) ensures forall id :: id in a.prerequisites ==> exists b :: b in s && b.id == id {}
    forall a, b | a in s && b in s && Compatible(a, IdSet(s)) ensures b.id !in a.incompatible {
      assert b.id in IdSet(s);
    }
  }

  // Costs add.
  lemma {:induction false} CostAdds(s: seq<Action>, t: seq<Action>)
    ensures Cost(s + t) == Cost(s) + Cost(t) && forall a: Action :: Cost([a]) == a.cost
  {
    if s == [] {
      assert s + t == t;
    } else {
      assert (s + t)[1..] == s[1..] + t;
      CostAdds(s[1..], t);
    }
  }

  // Continuity and risk are complements.
  lemma ScoreMeans(r: Request, s: seq<Action>)
    ensures var c := Score(r, s);
            c.cost == Cost(s) && c.risk == Risk(r, s) && c.continuity == 1.0 - Risk(r, s) && 0.0 <= c.continuity <= 1.0
  {
    hide Risk, Cost;
    RiskIsScore(r, s);
  }
}
