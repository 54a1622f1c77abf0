/** The retry budget: a weighted token bucket with an exact share. */
module Budget {

  datatype Source = FreshWork | RetryWork

  predicate CanRetry(credit: real, ratio: real) {
    credit >= 1.0 - ratio
  }

  function AfterFresh(credit: real, ratio: real): real {
    if credit + ratio > 1.0 then 1.0 else credit + ratio
  }

  function AfterRetry(credit: real, ratio: real): real {
    var rest := credit - (1.0 - ratio);
    if rest < 0.0 then 0.0 else rest
  }

  function Retries(plan: seq<Source>): nat {
    if plan == [] then 0 else Retries(plan[..|plan| - 1]) + if plan[|plan| - 1].RetryWork? then 1 else 0
  }

  lemma RetriesNext(plan: seq<Source>, source: Source)
    ensures Retries(plan + [source]) == Retries(plan) + if source.RetryWork? then 1 else 0
  {
    assert (plan + [source])[..|plan|] == plan;
  }

  /** Credit earned by n slots. */
  function Earned(ratio: real, n: nat): real {
    if n == 0 then 0.0 else Earned(ratio, n - 1) + ratio
  }

  lemma {:induction false} EarnedIsProduct(ratio: real, n: nat)
    ensures Earned(ratio, n) == (n as real) * ratio
  {
    if n > 0 {
      EarnedIsProduct(ratio, n - 1);
      OneMore((n - 1) as real, ratio);
    }
  }

  lemma OneMore(m: real, x: real)
    ensures (m + 1.0) * x == m * x + x
  {
  }

  /** Every nonempty prefix of the plan holds exactly the whole part of the credit earned so far. */
  ghost predicate ExactShare(plan: seq<Source>, credit: real, ratio: real) {
    forall n :: 0 < n <= |plan| ==> Retries(plan[..n]) == (credit + Earned(ratio, n)).Floor
  }

  /**
   * plan: from any credit up to one, the first n slots hold exactly
   * floor(credit + ratio*n) retries, and the cap on credit never binds.
   */
  method Plan(credit: real, ratio: real, limit: int) returns (plan: seq<Source>)
    requires 0.0 < ratio < 1.0 && 0.0 <= credit <= 1.0
    ensures |plan| == if limit <= 0 then 0 else limit
    ensures ExactShare(plan, credit, ratio)
  {
    plan := [];
    if limit <= 0 {
      return;
    }
    var left := credit;
    for n := 0 to limit
      invariant |plan| == n && 0.0 <= left <= 1.0 && (n > 0 ==> left < 1.0)
      invariant left == credit + Earned(ratio, n) - (Retries(plan) as real)
      invariant ExactShare(plan, credit, ratio)
    {
      ghost var before := plan;
      if CanRetry(left, ratio) {
        plan := plan + [RetryWork];
        left := AfterRetry(left, ratio);
        RetriesNext(before, RetryWork);
      } else {
        assert left + ratio < 1.0;
        plan := plan + [FreshWork];
        left := AfterFresh(left, ratio);
        RetriesNext(before, FreshWork);
      }
      ShareExtends(before, plan, credit, ratio);
    }
  }

  lemma ShareExtends(before: seq<Source>, plan: seq<Source>, credit: real, ratio: real)
    requires ExactShare(before, credit, ratio) && |plan| == |before| + 1 && plan[..|before|] == before
    requires 0.0 <= credit + Earned(ratio, |plan|) - (Retries(plan) as real) < 1.0
    ensures ExactShare(plan, credit, ratio)
  {
    forall n | 0 < n <= |plan|
      ensures Retries(plan[..n]) == (credit + Earned(ratio, n)).Floor
    {
      if n == |plan| {
        assert plan[..n] == plan;
      } else {
        assert plan[..n] == before[..n];
      }
    }
  }

  /** From no credit, n slots hold floor(ratio*n) retries, and so does every prefix. */
  lemma PlanFromNothing(plan: seq<Source>, ratio: real, n: nat)
    requires ExactShare(plan, 0.0, ratio) && n <= |plan|
    ensures Retries(plan[..n]) == ((n as real) * ratio).Floor
  {
    EarnedIsProduct(ratio, n);
    assert plan[..0] == [];
  }

  // ---------------------------------------------------------------- dispatches

  /** A dispatch: fresh work, a retry paid from the budget, or one that borrowed idle capacity. */
  datatype Dispatch = Fresh | Budgeted | Borrowed

  predicate CanDispatch(credit: real, ratio: real, d: Dispatch) {
    d.Budgeted? ==> CanRetry(credit, ratio)
  }

  function Credit(credit: real, ratio: real, d: Dispatch): real {
    match d
    case Fresh => AfterFresh(credit, ratio)
    case Budgeted => AfterRetry(credit, ratio)
    case Borrowed => credit
  }

  function CreditAfter(credit: real, ratio: real, run: seq<Dispatch>): real {
    if run == [] then credit else Credit(CreditAfter(credit, ratio, run[..|run| - 1]), ratio, run[|run| - 1])
  }

  predicate Affordable(credit: real, ratio: real, run: seq<Dispatch>) {
    run == [] ||
    (Affordable(credit, ratio, run[..|run| - 1])
      && CanDispatch(CreditAfter(credit, ratio, run[..|run| - 1]), ratio, run[|run| - 1]))
  }

  function Count(run: seq<Dispatch>, d: Dispatch): nat {
    if run == [] then 0 else Count(run[..|run| - 1], d) + if run[|run| - 1] == d then 1 else 0
  }

  /** Over any run, budgeted retries never outspend the starting credit plus what fresh work earned. */
  lemma {:induction false} RetriesArePaidFor(credit: real, ratio: real, run: seq<Dispatch>)
    requires 0.0 < ratio < 1.0 && 0.0 <= credit <= 1.0 && Affordable(credit, ratio, run)
    ensures 0.0 <= CreditAfter(credit, ratio, run) <= 1.0
    ensures CreditAfter(credit, ratio, run) + Earned(1.0 - ratio, Count(run, Budgeted)) <= credit + Earned(ratio,
      Count(run, Fresh))
    decreases |run|
  {
    if run != [] {
      RetriesArePaidFor(credit, ratio, run[..|run| - 1]);
    }
  }

  lemma InNumbers(credit: real, gain: real, cost: real, retries: nat, plain: nat)
    requires Earned(cost, retries) <= credit + Earned(gain, plain)
    ensures (retries as real) * cost <= credit + (plain as real) * gain
  {
    EarnedIsProduct(cost, retries);
    EarnedIsProduct(gain, plain);
  }

  /** The same in numbers: R*(1-ratio) <= credit + F*ratio. */
  lemma RetryShareIsBounded(credit: real, ratio: real, run: seq<Dispatch>, retries: nat, plain: nat)
    requires 0.0 < ratio < 1.0 && 0.0 <= credit <= 1.0 && Affordable(credit, ratio, run)
    requires retries == Count(run, Budgeted) && plain == Count(run, Fresh)
    ensures (retries as real) * (1.0 - ratio) <= credit + (plain as real) * ratio
  {
    RetriesArePaidFor(credit, ratio, run);
    InNumbers(credit, ratio, 1.0 - ratio, retries, plain);
  }
}
