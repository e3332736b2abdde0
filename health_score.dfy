/** The financial health score (src/lib/utils/healthScore.ts): four sub-scores,
    each guarded against division by zero, combined 30/30/20/20 into a rounded
    composite that is mapped to a label and a colour. */
module HealthScore {
  import opened JsMath
  import opened Records

  datatype Label = Good | Average | Poor

  datatype Breakdown = Breakdown(
    budgetAdherence: int,
    savingsRate: int,
    billsPunctuality: int,
    challengeParticipation: int)

  datatype HealthResult = HealthResult(score: int, healthLabel: Label, color: string, breakdown: Breakdown)

  /** Budget adherence (30%): 100 without a budget or with a limit of 0 or
      less; otherwise the unspent share of the limit, as a percentage clamped
      to [0, 100]. */
  function BudgetAdherence(budget: Option<Budget>, totalExpenses: real): (r: real)
    ensures 0.0 <= r <= 100.0
    ensures budget.None? || budget.value.monthlyLimit <= 0.0 ==> r == 100.0
    ensures totalExpenses <= 0.0 ==> r == 100.0
    ensures budget.Some? && budget.value.monthlyLimit > 0.0 && totalExpenses >= budget.value.monthlyLimit ==> r == 0.0
    ensures budget.Some? && 0.0 <= totalExpenses <= budget.value.monthlyLimit ==>
      r * budget.value.monthlyLimit == (budget.value.monthlyLimit - totalExpenses) * 100.0
  {
    if budget.Some? && budget.value.monthlyLimit > 0.0 then
      var limit := budget.value.monthlyLimit;
      MaxR(0.0, MinR(100.0, ((limit - totalExpenses) / limit) * 100.0))
    else
      100.0
  }

  /** Spending more never raises budget adherence. */
  lemma BudgetAdherenceMonotone(budget: Option<Budget>, e1: real, e2: real)
    requires e1 <= e2
    ensures BudgetAdherence(budget, e2) <= BudgetAdherence(budget, e1)
  {
    if budget.Some? && budget.value.monthlyLimit > 0.0 {
      var limit := budget.value.monthlyLimit;
      DivideMonotone(limit - e2, limit - e1, limit);
    }
  }

  lemma DivideMonotone(a: real, b: real, d: real)
    requires a <= b && d > 0.0
    ensures a / d <= b / d
  {
  }

  lemma MultiplyPositive(x: real, y: real, d: real)
    requires x < y && d > 0.0
    ensures x * d < y * d
  {
  }

  /** Savings rate (30%): 0 without a positive income; otherwise the savings
      share of income measured against a 20% target and capped at 100. */
  function SavingsRate(monthlyIncome: real, totalSavings: real): (r: real)
    ensures r <= 100.0
    ensures monthlyIncome <= 0.0 ==> r == 0.0
    ensures totalSavings >= 0.0 ==> r >= 0.0
    ensures monthlyIncome > 0.0 ==> (r == 100.0 <==> totalSavings >= 0.2 * monthlyIncome)
    ensures monthlyIncome > 0.0 && totalSavings < 0.2 * monthlyIncome ==>
      r * monthlyIncome == totalSavings * 500.0
  {
    if monthlyIncome > 0.0 then
      var rate := (totalSavings / monthlyIncome) * 100.0;
      SavingsShare(totalSavings, monthlyIncome);
      MinR(100.0, (rate / 20.0) * 100.0)
    else
      0.0
  }

  lemma SavingsShare(savings: real, income: real)
    requires income > 0.0
    ensures var x := ((savings / income) * 100.0 / 20.0) * 100.0;
      x * income == savings * 500.0 && (x >= 100.0 <==> savings >= 0.2 * income)
      && (savings >= 0.0 ==> x >= 0.0)
  {
    var q := savings / income;
    assert savings == q * income;
    var x := (q * 100.0 / 20.0) * 100.0;
    assert x == q * 500.0;
    if savings >= 0.2 * income {
      DivAtLeast(savings, 0.2, income);
    } else {
      DivBelow(savings, 0.2, income);
    }
    if savings >= 0.0 {
      DivAtLeast(savings, 0.0, income);
    }
  }

  /** `bills.filter((b) => b.isPaid).length`. */
  function PaidCount(bills: seq<Bill>): (n: nat)
    ensures n <= |bills|
    ensures n == |bills| <==> forall i :: 0 <= i < |bills| ==> bills[i].isPaid
    ensures n == 0 <==> forall i :: 0 <= i < |bills| ==> !bills[i].isPaid
  {
    if bills == [] then 0
    else
      var rest := PaidCount(bills[..|bills| - 1]);
      assert forall i :: 0 <= i < |bills| - 1 ==> bills[..|bills| - 1][i] == bills[i];
      rest + if bills[|bills| - 1].isPaid then 1 else 0
  }

  /** With `PaidCountSingle`, this pins the count down bill by bill: each paid
      bill adds one and each unpaid bill nothing. */
  lemma {:induction false} PaidCountAppend(a: seq<Bill>, b: seq<Bill>)
    ensures PaidCount(a + b) == PaidCount(a) + PaidCount(b)
  {
    if b == [] {
      assert a + b == a;
    } else {
      var n := |b| - 1;
      assert (a + b)[..|a + b| - 1] == a + b[..n];
      PaidCountAppend(a, b[..n]);
    }
  }

  lemma PaidCountSingle(b: Bill)
    ensures PaidCount([b]) == if b.isPaid then 1 else 0
  {
    assert [b][..0] == [];
  }

  /** Bills punctuality (20%): 100 without bills; otherwise the percentage of
      bills currently marked paid. */
  function BillsPunctuality(bills: seq<Bill>): (r: real)
    ensures 0.0 <= r <= 100.0
    ensures r == 100.0 <==> forall i :: 0 <= i < |bills| ==> bills[i].isPaid
    ensures r == 0.0 <==> |bills| > 0 && forall i :: 0 <= i < |bills| ==> !bills[i].isPaid
    ensures |bills| > 0 ==> r * |bills| as real == PaidCount(bills) as real * 100.0
  {
    if |bills| > 0 then
      var paid := PaidCount(bills);
      ShareOfCount(paid, |bills|);
      (paid as real / |bills| as real) * 100.0
    else
      100.0
  }

  lemma ShareOfCount(k: nat, n: nat)
    requires k <= n && n > 0
    ensures var x := (k as real / n as real) * 100.0;
      0.0 <= x <= 100.0 && (x == 100.0 <==> k == n) && (x == 0.0 <==> k == 0)
      && x * n as real == k as real * 100.0
  {
    var q := k as real / n as real;
    assert k as real == q * n as real;
    if q > 1.0 {
      MultiplyPositive(1.0, q, n as real);
    }
    if q == 1.0 {
      assert k as real == n as real;
    }
    if k == n {
      DivAtLeast(k as real, 1.0, n as real);
    }
  }

  /** One challenge's progress: saved over target capped at 1, and 0 for a
      target of 0 or less. */
  function Progress(c: Challenge): (p: real)
    ensures p <= 1.0
    ensures c.targetAmount <= 0.0 ==> p == 0.0
    ensures c.savedAmount >= 0.0 ==> p >= 0.0
    ensures c.targetAmount > 0.0 ==> (p == 1.0 <==> c.savedAmount >= c.targetAmount)
    ensures c.targetAmount > 0.0 && c.savedAmount < c.targetAmount ==> p * c.targetAmount == c.savedAmount
  {
    if c.targetAmount > 0.0 then
      ShareOfTarget(c.savedAmount, c.targetAmount);
      MinR(1.0, c.savedAmount / c.targetAmount)
    else
      0.0
  }

  lemma ShareOfTarget(saved: real, target: real)
    requires target > 0.0
    ensures saved / target >= 1.0 <==> saved >= target
    ensures saved >= 0.0 ==> saved / target >= 0.0
  {
    if saved >= target {
      DivAtLeast(saved, 1.0, target);
    } else {
      DivBelow(saved, 1.0, target);
    }
    if saved >= 0.0 {
      DivAtLeast(saved, 0.0, target);
    }
  }

  predicate Participates(c: Challenge)
  {
    c.status == Active || c.status == Completed
  }

  /** `challenges.filter((c) => c.status === "active" || c.status === "completed")`. */
  function Participating(cs: seq<Challenge>): (r: seq<Challenge>)
    ensures |r| <= |cs|
    ensures forall i :: 0 <= i < |r| ==> Participates(r[i]) && r[i] in cs
    ensures forall c :: c in cs && Participates(c) ==> c in r
  {
    if cs == [] then []
    else
      var last := cs[|cs| - 1];
      Participating(cs[..|cs| - 1]) + (if Participates(last) then [last] else [])
  }

  /** The `reduce` over progress values. */
  function ProgressSum(cs: seq<Challenge>): (s: real)
    ensures s <= |cs| as real
    ensures (forall i :: 0 <= i < |cs| ==> cs[i].savedAmount >= 0.0) ==> s >= 0.0
  {
    if cs == [] then 0.0
    else
      assert forall i :: 0 <= i < |cs| - 1 ==> cs[..|cs| - 1][i] == cs[i];
      ProgressSum(cs[..|cs| - 1]) + Progress(cs[|cs| - 1])
  }

  /** Challenge participation (20%): the mean progress of the active and
      completed challenges as a percentage, 0 when there are none; abandoned
      challenges are ignored. */
  function ChallengeParticipation(challenges: seq<Challenge>): (r: real)
    ensures r <= 100.0
    ensures Participating(challenges) == [] ==> r == 0.0
    ensures (forall i :: 0 <= i < |challenges| ==> challenges[i].savedAmount >= 0.0) ==> r >= 0.0
  {
    var active := Participating(challenges);
    if |active| > 0 then
      var sum := ProgressSum(active);
      var count := |active| as real;
      MeanBounds(sum, |active|, forall i :: 0 <= i < |active| ==> active[i].savedAmount >= 0.0);
      (sum / count) * 100.0
    else
      0.0
  }

  lemma MeanBounds(s: real, n: nat, nonNegative: bool)
    requires n > 0 && s <= n as real
    requires nonNegative ==> s >= 0.0
    ensures (s / n as real) * 100.0 <= 100.0
    ensures nonNegative ==> (s / n as real) * 100.0 >= 0.0
  {
    DivideMonotone(s, n as real, n as real);
    if nonNegative {
      DivideMonotone(0.0, s, n as real);
    }
  }

  /** Participation is the mean progress of the participating challenges,
      as a percentage: times their number it is their summed progress. */
  lemma ParticipationIsMean(challenges: seq<Challenge>, active: seq<Challenge>)
    requires active == Participating(challenges) && active != []
    ensures ChallengeParticipation(challenges) * |active| as real == ProgressSum(active) * 100.0
  {
    MeanTimesCount(ChallengeParticipation(challenges), ProgressSum(active), |active| as real);
  }

  lemma MeanTimesCount(m: real, s: real, k: real)
    requires k > 0.0 && m == (s / k) * 100.0
    ensures m * k == s * 100.0
  {
  }

  lemma {:induction false} ParticipatingAppend(a: seq<Challenge>, b: seq<Challenge>)
    ensures Participating(a + b) == Participating(a) + Participating(b)
  {
    if b == [] {
      assert a + b == a;
    } else {
      var n := |b| - 1;
      assert (a + b)[..|a + b| - 1] == a + b[..n];
      ParticipatingAppend(a, b[..n]);
    }
  }

  /** With `ParticipatingAppend`, this pins the filter down challenge by
      challenge: kept exactly when active or completed. */
  lemma ParticipatingSingle(c: Challenge)
    ensures Participating([c]) == if Participates(c) then [c] else []
  {
    assert [c][..0] == [];
  }

  /** The progress sum of a concatenation is the sum of the two sums, so the
      mean counts every kept challenge's own progress once. */
  lemma {:induction false} ProgressSumAppend(a: seq<Challenge>, b: seq<Challenge>)
    ensures ProgressSum(a + b) == ProgressSum(a) + ProgressSum(b)
  {
    if b == [] {
      assert a + b == a;
    } else {
      var n := |b| - 1;
      assert (a + b)[..|a + b| - 1] == a + b[..n];
      ProgressSumAppend(a, b[..n]);
    }
  }

  lemma ProgressSumSingle(c: Challenge)
    ensures ProgressSum([c]) == Progress(c)
  {
    assert [c][..0] == [];
  }

  /** An abandoned challenge, wherever it sits, does not change participation. */
  lemma AbandonedIgnored(a: seq<Challenge>, c: Challenge, b: seq<Challenge>)
    requires c.status == Abandoned
    ensures ChallengeParticipation(a + [c] + b) == ChallengeParticipation(a + b)
  {
    ParticipatingAppend(a + [c], b);
    ParticipatingAppend(a, [c]);
    ParticipatingAppend(a, b);
    assert Participating([c]) == [];
    assert Participating(a + [c]) == Participating(a);
  }

  /** `Math.round` of the 30/30/20/20 weighted sum. */
  function CompositeScore(adherence: real, savings: real, punctuality: real, participation: real): (r: int)
    ensures var weighted := adherence * 0.3 + savings * 0.3 + punctuality * 0.2 + participation * 0.2;
      r as real - 0.5 <= weighted < r as real + 0.5
  {
    Round(adherence * 0.3 + savings * 0.3 + punctuality * 0.2 + participation * 0.2)
  }

  /** With every sub-score in [0, 100], the composite is an integer in [0, 100];
      with every sub-score 100 it is 100. */
  lemma CompositeInRange(a: real, s: real, p: real, c: real)
    requires 0.0 <= a <= 100.0 && 0.0 <= s <= 100.0 && 0.0 <= p <= 100.0 && 0.0 <= c <= 100.0
    ensures 0 <= CompositeScore(a, s, p, c) <= 100
    ensures a == s == p == c == 100.0 ==> CompositeScore(a, s, p, c) == 100
  {
    var w := a * 0.3 + s * 0.3 + p * 0.2 + c * 0.2;
    assert 0.0 <= w <= 100.0;
    RoundMonotone(0.0, w);
    RoundMonotone(w, 100.0);
    RoundOfInt(0);
    RoundOfInt(100);
  }

  /** The label bands: "Good" from 80, "Average" from 50 to 79, "Poor" below. */
  function LabelFor(score: int): (l: Label)
    ensures l == Good <==> score >= 80
    ensures l == Average <==> 50 <= score < 80
    ensures l == Poor <==> score < 50
  {
    if score >= 80 then Good else if score >= 50 then Average else Poor
  }

  /** The colour shown for each label. */
  predicate IsHexDigit(ch: char)
  {
    '0' <= ch <= '9' || 'a' <= ch <= 'f'
  }

  function ColorFor(l: Label): (c: string)
    ensures |c| == 7 && c[0] == '#'
    ensures forall i :: 1 <= i < 7 ==> IsHexDigit(c[i])
  {
    match l
    case Good => "#22c55e"
    case Average => "#f59e0b"
    case Poor => "#ef4444"
  }

  /** The colour is a function of the label and tells the labels apart. */
  lemma ColorIdentifiesLabel(l1: Label, l2: Label)
    ensures ColorFor(l1) == ColorFor(l2) <==> l1 == l2
  {
    assert ColorFor(Good)[1] == '2' && ColorFor(Average)[1] == 'f' && ColorFor(Poor)[1] == 'e';
  }

  /** `calculateHealthScore(transactions, budget, bills, challenges, monthlyIncome)`. */
  function CalculateHealthScore(
    transactions: seq<Transaction>,
    budget: Option<Budget>,
    bills: seq<Bill>,
    challenges: seq<Challenge>,
    monthlyIncome: real): (r: HealthResult)
    ensures r.healthLabel == Good <==> r.score >= 80
    ensures r.healthLabel == Average <==> 50 <= r.score < 80
    ensures r.healthLabel == Poor <==> r.score < 50
    ensures r.color == ColorFor(r.healthLabel)
    ensures 0 <= r.breakdown.budgetAdherence <= 100
    ensures 0 <= r.breakdown.billsPunctuality <= 100
    ensures r.breakdown.savingsRate <= 100
    ensures r.breakdown.challengeParticipation <= 100
    ensures var a := BudgetAdherence(budget, TotalOf(transactions, Expense));
      r.breakdown.budgetAdherence as real - 0.5 <= a < r.breakdown.budgetAdherence as real + 0.5
    ensures var s := SavingsRate(monthlyIncome, TotalOf(transactions, Savings));
      r.breakdown.savingsRate as real - 0.5 <= s < r.breakdown.savingsRate as real + 0.5
    ensures var p := BillsPunctuality(bills);
      r.breakdown.billsPunctuality as real - 0.5 <= p < r.breakdown.billsPunctuality as real + 0.5
    ensures var c := ChallengeParticipation(challenges);
      r.breakdown.challengeParticipation as real - 0.5 <= c < r.breakdown.challengeParticipation as real + 0.5
    ensures var weighted :=
        BudgetAdherence(budget, TotalOf(transactions, Expense)) * 0.3
        + SavingsRate(monthlyIncome, TotalOf(transactions, Savings)) * 0.3
        + BillsPunctuality(bills) * 0.2
        + ChallengeParticipation(challenges) * 0.2;
      r.score as real - 0.5 <= weighted < r.score as real + 0.5
  {
    var totalExpenses := TotalOf(transactions, Expense);
    var totalSavings := TotalOf(transactions, Savings);
    var adherence := BudgetAdherence(budget, totalExpenses);
    var savingsRate := SavingsRate(monthlyIncome, totalSavings);
    var punctuality := BillsPunctuality(bills);
    var participation := ChallengeParticipation(challenges);
    var score := CompositeScore(adherence, savingsRate, punctuality, participation);
    var rating := LabelFor(score);
    RoundBounds(adherence);
    RoundBounds(punctuality);
    RoundAtMost100(savingsRate);
    RoundAtMost100(participation);
    HealthResult(score, rating, ColorFor(rating),
      Breakdown(Round(adherence), Round(savingsRate), Round(punctuality), Round(participation)))
  }

  lemma RoundBounds(x: real)
    requires 0.0 <= x <= 100.0
    ensures 0 <= Round(x) <= 100
  {
    RoundMonotone(0.0, x);
    RoundMonotone(x, 100.0);
    RoundOfInt(0);
    RoundOfInt(100);
  }

  lemma RoundAtMost100(x: real)
    requires x <= 100.0
    ensures Round(x) <= 100
  {
    RoundMonotone(x, 100.0);
    RoundOfInt(100);
  }

  /** With non-negative amounts (transactions and challenge savings), the
      score and all four breakdown values lie in [0, 100]. */
  lemma HealthScoreInRange(
    transactions: seq<Transaction>,
    budget: Option<Budget>,
    bills: seq<Bill>,
    challenges: seq<Challenge>,
    monthlyIncome: real)
    requires forall i :: 0 <= i < |transactions| ==> transactions[i].amount >= 0.0
    requires forall i :: 0 <= i < |challenges| ==> challenges[i].savedAmount >= 0.0
    ensures var r := CalculateHealthScore(transactions, budget, bills, challenges, monthlyIncome);
      && 0 <= r.score <= 100
      && 0 <= r.breakdown.savingsRate <= 100
      && 0 <= r.breakdown.challengeParticipation <= 100
  {
    var totalSavings := TotalOf(transactions, Savings);
    TotalNonNegative(transactions, Savings);
    var a := BudgetAdherence(budget, TotalOf(transactions, Expense));
    var s := SavingsRate(monthlyIncome, totalSavings);
    var p := BillsPunctuality(bills);
    var c := ChallengeParticipation(challenges);
    CompositeInRange(a, s, p, c);
    RoundBounds(s);
    RoundBounds(c);
  }

  /** A snapshot with income 50000 and nothing else scores
      round(30 + 0 + 20 + 0) = 50, "Average". */
  lemma EmptySnapshotExample()
    ensures CalculateHealthScore([], None, [], [], 50000.0)
      == HealthResult(50, Average, "#f59e0b", Breakdown(100, 0, 100, 0))
  {
    assert TotalOf([], Savings) == 0.0;
    RoundOfInt(50);
    RoundOfInt(100);
    RoundOfInt(0);
  }
}
