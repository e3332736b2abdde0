/** The alert generator (src/lib/utils/budgetAlerts.ts): fixed rules, applied
    in order, each appending zero or more alerts to one list. The rule for a
    single budget, bill or challenge is a function; `GenerateAlerts` is the
    accumulating loop. */
module BudgetAlerts {
  import opened JsMath
  import opened Records
  import opened DateHelpers

  datatype AlertType = Warning | Danger | Info | Success

  /** An alert's message: which text it shows and the values interpolated
      into it. */
  datatype Message =
    | BudgetExceededText(usagePercent: int)
    | BudgetWarningText(usagePercent: int)
    | BillOverdueText(billName: string, billAmount: real, dueDay: int)
    | BillDueSoonText(billName: string, billAmount: real, dueDay: int)
    | SavingsBehindText(shortfall: int)
    | StreakText(checkInCount: nat, challengeTitle: string)
    | SetBudgetText

  datatype Alert = Alert(id: string, kind: AlertType, title: string, message: Message)

  /** The rule an alert comes from, numbered in emission order: budget usage,
      bills, savings pace, streaks, missing budget. */
  function Group(a: Alert): nat
  {
    match a.message
    case BudgetExceededText(_) => 0
    case BudgetWarningText(_) => 0
    case BillOverdueText(_, _, _) => 1
    case BillDueSoonText(_, _, _) => 1
    case SavingsBehindText(_) => 2
    case StreakText(_, _) => 3
    case SetBudgetText => 4
  }

  predicate InGroup(alerts: seq<Alert>, g: nat)
  {
    forall i :: 0 <= i < |alerts| ==> Group(alerts[i]) == g
  }

  predicate HasPrefix(s: string, p: string)
  {
    |p| <= |s| && s[..|p|] == p
  }

  // ---------------------------------------------------------------------
  // Rule 1: budget usage
  // ---------------------------------------------------------------------

  lemma UsageThresholds(totalExpenses: real, limit: real)
    requires limit > 0.0
    ensures (totalExpenses / limit) * 100.0 >= 100.0 <==> totalExpenses >= limit
    ensures (totalExpenses / limit) * 100.0 >= 80.0 <==> totalExpenses >= 0.8 * limit
  {
    if totalExpenses >= limit {
      DivAtLeast(totalExpenses, 1.0, limit);
    } else {
      DivBelow(totalExpenses, 1.0, limit);
    }
    if totalExpenses >= 0.8 * limit {
      DivAtLeast(totalExpenses, 0.8, limit);
    } else {
      DivBelow(totalExpenses, 0.8, limit);
    }
  }

  /** At most one budget alert, and only for a budget with a positive limit:
      "Budget Exceeded" once spending reaches the limit (usage >= 100%),
      "Budget Almost Full" from 80% of it up to the limit. The message shows
      the usage percentage, rounded. */
  function BudgetAlert(budget: Option<Budget>, totalExpenses: real): (r: seq<Alert>)
    ensures |r| <= 1 && InGroup(r, 0)
    ensures r != [] ==> budget.Some? && budget.value.monthlyLimit > 0.0
    ensures (r != [] && r[0].id == "budget-exceeded") <==>
      budget.Some? && budget.value.monthlyLimit > 0.0 && totalExpenses >= budget.value.monthlyLimit
    ensures (r != [] && r[0].id == "budget-warning") <==>
      budget.Some? && 0.8 * budget.value.monthlyLimit <= totalExpenses < budget.value.monthlyLimit
    ensures r != [] ==> r[0].message.usagePercent == Round((totalExpenses / budget.value.monthlyLimit) * 100.0)
    ensures r != [] ==> (r[0].kind == Danger <==> r[0].id == "budget-exceeded")
    ensures r != [] && r[0].id == "budget-exceeded" ==>
      r[0].title == "Budget Exceeded" && r[0].message.BudgetExceededText?
    ensures r != [] && r[0].id == "budget-warning" ==>
      r[0].kind == Warning && r[0].title == "Budget Almost Full" && r[0].message.BudgetWarningText?
  {
    if budget.Some? && budget.value.monthlyLimit > 0.0 then
      var usage := (totalExpenses / budget.value.monthlyLimit) * 100.0;
      UsageThresholds(totalExpenses, budget.value.monthlyLimit);
      if usage >= 100.0 then
        [Alert("budget-exceeded", Danger, "Budget Exceeded", BudgetExceededText(Round(usage)))]
      else if usage >= 80.0 then
        [Alert("budget-warning", Warning, "Budget Almost Full", BudgetWarningText(Round(usage)))]
      else
        []
    else
      []
  }

  // ---------------------------------------------------------------------
  // Rule 2: bills
  // ---------------------------------------------------------------------

  lemma BillIdsDiffer(billId: string)
    ensures "bill-overdue-" + billId != "bill-due-" + billId
    ensures HasPrefix("bill-overdue-" + billId, "bill-") && HasPrefix("bill-due-" + billId, "bill-")
  {
    assert ("bill-overdue-" + billId)[5] == 'o';
    assert ("bill-due-" + billId)[5] == 'd';
    assert ("bill-overdue-" + billId)[..5] == "bill-";
    assert ("bill-due-" + billId)[..5] == "bill-";
  }

  /** A bill gives at most one alert: "Bill Overdue" when it is overdue,
      otherwise "Bill Due Soon" when it is unpaid and due within 3 days; a
      paid bill gives none. */
  function BillAlert(bill: Bill, now: Now): (r: seq<Alert>)
    requires ValidNow(now)
    ensures |r| <= 1 && InGroup(r, 1)
    ensures bill.isPaid ==> r == []
    ensures r != [] ==> HasPrefix(r[0].id, "bill-")
    ensures (r != [] && r[0].id == "bill-overdue-" + bill.id) <==> IsOverdue(bill.dueDate, bill.isPaid, now)
    ensures (r != [] && r[0].id == "bill-due-" + bill.id) <==> !bill.isPaid && IsDueSoon(bill.dueDate, 3, now)
    ensures r != [] ==> r[0].id == "bill-overdue-" + bill.id || r[0].id == "bill-due-" + bill.id
    ensures r != [] ==>
      if IsOverdue(bill.dueDate, bill.isPaid, now)
      then r[0].kind == Danger && r[0].title == "Bill Overdue" && r[0].message.BillOverdueText?
      else r[0].kind == Warning && r[0].title == "Bill Due Soon" && r[0].message.BillDueSoonText?
    ensures r != [] ==>
      r[0].message.billName == bill.name && r[0].message.billAmount == bill.amount
      && r[0].message.dueDay == bill.dueDate
  {
    BillIdsDiffer(bill.id);
    OverdueExcludesDueSoon(bill.dueDate, 3, now);
    if IsOverdue(bill.dueDate, bill.isPaid, now) then
      [Alert("bill-overdue-" + bill.id, Danger, "Bill Overdue", BillOverdueText(bill.name, bill.amount, bill.dueDate))]
    else if !bill.isPaid && IsDueSoon(bill.dueDate, 3, now) then
      [Alert("bill-due-" + bill.id, Warning, "Bill Due Soon", BillDueSoonText(bill.name, bill.amount, bill.dueDate))]
    else
      []
  }

  /** The bill alerts of `bills.forEach`, in the order of the bills. */
  function BillAlerts(bills: seq<Bill>, now: Now): (r: seq<Alert>)
    requires ValidNow(now)
    ensures |r| <= |bills| && InGroup(r, 1)
    ensures forall i :: 0 <= i < |r| ==> HasPrefix(r[i].id, "bill-")
  {
    if bills == [] then []
    else BillAlerts(bills[..|bills| - 1], now) + BillAlert(bills[|bills| - 1], now)
  }

  /** Bill alerts keep the order of the bills: the alerts of a concatenation
      are the concatenation of the alerts. */
  lemma {:induction false} BillAlertsAppend(a: seq<Bill>, b: seq<Bill>, now: Now)
    requires ValidNow(now)
    ensures BillAlerts(a + b, now) == BillAlerts(a, now) + BillAlerts(b, now)
  {
    if b == [] {
      assert a + b == a;
    } else {
      var n := |b| - 1;
      assert (a + b)[..|a + b| - 1] == a + b[..n];
      assert (a + b)[|a + b| - 1] == b[n];
      BillAlertsAppend(a, b[..n], now);
      AppendAssoc(BillAlerts(a, now), BillAlerts(b[..n], now), BillAlert(b[n], now));
    }
  }

  /** Each bill contributes exactly its own alert, in its place. */
  lemma BillAlertsAt(a: seq<Bill>, bill: Bill, b: seq<Bill>, now: Now)
    requires ValidNow(now)
    ensures BillAlerts(a + [bill] + b, now) == BillAlerts(a, now) + BillAlert(bill, now) + BillAlerts(b, now)
  {
    BillAlertsAppend(a + [bill], b, now);
    BillAlertsAppend(a, [bill], now);
    assert [bill][..0] == [];
  }

  // ---------------------------------------------------------------------
  // Rule 3: savings pace
  // ---------------------------------------------------------------------

  /** The saving goal prorated to today: goal x day / days in the month. */
  function ExpectedPace(savingGoal: real, now: Now): (pace: real)
    requires ValidNow(now)
    ensures pace * DaysInMonth(now.month) as real == savingGoal * now.day as real
    ensures savingGoal > 0.0 ==> 0.0 < pace <= savingGoal
  {
    var pace := (savingGoal / DaysInMonth(now.month) as real) * now.day as real;
    ProratedBounds(savingGoal, now.day, DaysInMonth(now.month));
    pace
  }

  lemma ProratedBounds(goal: real, day: int, days: int)
    requires 1 <= day <= days
    ensures var p := (goal / days as real) * day as real;
      p * days as real == goal * day as real && (goal > 0.0 ==> 0.0 < p <= goal)
  {
    var q := goal / days as real;
    assert goal == q * days as real;
    if goal > 0.0 {
      DivAtLeast(goal, 0.0, days as real);
      assert q > 0.0;
      assert q * day as real <= q * days as real;
    }
  }

  /** "Savings Behind Target" exactly when a budget sets a positive saving
      goal and the month's savings are below half the prorated goal; the
      message asks for the rounded gap to the prorated goal, never a negative
      amount. */
  function SavingsAlert(budget: Option<Budget>, totalSavings: real, now: Now): (r: seq<Alert>)
    requires ValidNow(now)
    ensures |r| <= 1 && InGroup(r, 2)
    ensures r != [] <==>
      budget.Some? && budget.value.savingGoal > 0.0
      && totalSavings < ExpectedPace(budget.value.savingGoal, now) * 0.5
    ensures r != [] ==> r[0].id == "savings-behind"
    ensures r != [] ==> r[0].message.shortfall == Round(ExpectedPace(budget.value.savingGoal, now) - totalSavings)
    ensures r != [] ==> r[0].message.shortfall >= 0
    ensures r != [] ==> r[0].kind == Warning && r[0].title == "Savings Behind Target"
  {
    if budget.Some? && budget.value.savingGoal > 0.0 then
      var expectedPace := ExpectedPace(budget.value.savingGoal, now);
      if totalSavings < expectedPace * 0.5 then
        var gap := expectedPace - totalSavings;
        RoundMonotone(0.0, gap);
        RoundOfInt(0);
        [Alert("savings-behind", Warning, "Savings Behind Target", SavingsBehindText(Round(gap)))]
      else
        []
    else
      []
  }

  // ---------------------------------------------------------------------
  // Rule 4: challenge streaks
  // ---------------------------------------------------------------------

  /** `challenges.filter((c) => c.status === "active")`. */
  function ActiveChallenges(cs: seq<Challenge>): (r: seq<Challenge>)
    ensures |r| <= |cs|
    ensures forall i :: 0 <= i < |r| ==> r[i].status == Active && r[i] in cs
    ensures forall c :: c in cs && c.status == Active ==> c in r
  {
    if cs == [] then []
    else
      var last := cs[|cs| - 1];
      ActiveChallenges(cs[..|cs| - 1]) + (if last.status == Active then [last] else [])
  }

  /** The last five check-ins: `checkIns.slice(-5)` once there are at least five. */
  function LastFive(checkIns: seq<CheckIn>): (r: seq<CheckIn>)
    requires |checkIns| >= 5
    ensures |r| == 5 && forall k :: 0 <= k < 5 ==> r[k] == checkIns[|checkIns| - 5 + k]
  {
    checkIns[|checkIns| - 5..]
  }

  predicate AllCompleted(checkIns: seq<CheckIn>)
  {
    forall k :: 0 <= k < |checkIns| ==> checkIns[k].completed
  }

  /** "Saving Streak!" for a challenge with at least five check-ins whose last
      five are all completed; the message reports the total number of
      check-ins, not just five. */
  function StreakAlert(c: Challenge): (r: seq<Alert>)
    ensures |r| <= 1 && InGroup(r, 3)
    ensures r != [] <==>
      |c.checkIns| >= 5 && forall i :: |c.checkIns| - 5 <= i < |c.checkIns| ==> c.checkIns[i].completed
    ensures r != [] ==> r[0].id == "streak-" + c.id && r[0].message.checkInCount == |c.checkIns|
    ensures r != [] ==>
      r[0].kind == Success && r[0].title == "Saving Streak!" && r[0].message.challengeTitle == c.title
  {
    if |c.checkIns| >= 5 && AllCompleted(LastFive(c.checkIns)) then
      [Alert("streak-" + c.id, Success, "Saving Streak!", StreakText(|c.checkIns|, c.title))]
    else
      []
  }

  /** The streak alerts of `activeChallenges.forEach`, in order. */
  function StreakAlerts(active: seq<Challenge>): (r: seq<Alert>)
    ensures |r| <= |active| && InGroup(r, 3)
    ensures forall i :: 0 <= i < |r| ==> HasPrefix(r[i].id, "streak-")
  {
    if active == [] then []
    else
      var c := active[|active| - 1];
      assert StreakAlert(c) != [] ==> StreakAlert(c)[0].id[..7] == "streak-";
      StreakAlerts(active[..|active| - 1]) + StreakAlert(c)
  }

  lemma {:induction false} ActiveAppend(a: seq<Challenge>, b: seq<Challenge>)
    ensures ActiveChallenges(a + b) == ActiveChallenges(a) + ActiveChallenges(b)
  {
    if b == [] {
      assert a + b == a;
    } else {
      var n := |b| - 1;
      assert (a + b)[..|a + b| - 1] == a + b[..n];
      ActiveAppend(a, b[..n]);
    }
  }

  lemma ActiveSingle(c: Challenge)
    ensures ActiveChallenges([c]) == if c.status == Active then [c] else []
  {
    assert [c][..0] == [];
  }

  /** Completed and abandoned challenges never produce a streak alert,
      wherever they sit in the list. */
  lemma InactiveNoStreak(a: seq<Challenge>, c: Challenge, b: seq<Challenge>)
    requires c.status != Active
    ensures StreakAlerts(ActiveChallenges(a + [c] + b)) == StreakAlerts(ActiveChallenges(a + b))
  {
    ActiveAppend(a + [c], b);
    ActiveAppend(a, [c]);
    ActiveAppend(a, b);
    assert ActiveChallenges([c]) == [];
    assert ActiveChallenges(a + [c]) == ActiveChallenges(a);
  }

  // ---------------------------------------------------------------------
  // Rule 5: no budget
  // ---------------------------------------------------------------------

  /** "Set Your Budget" exactly when there is no budget record. */
  function NoBudgetAlert(budget: Option<Budget>): (r: seq<Alert>)
    ensures |r| <= 1 && InGroup(r, 4)
    ensures r != [] <==> budget.None?
    ensures r != [] ==> r[0].id == "no-budget"
    ensures r != [] ==> r[0].kind == Info && r[0].title == "Set Your Budget" && r[0].message == SetBudgetText
  {
    if budget.None? then [Alert("no-budget", Info, "Set Your Budget", SetBudgetText)] else []
  }

  // ---------------------------------------------------------------------
  // The whole generator
  // ---------------------------------------------------------------------

  /** The five rules' alerts, concatenated in rule order. */
  function Alerts(
    transactions: seq<Transaction>,
    budget: Option<Budget>,
    bills: seq<Bill>,
    challenges: seq<Challenge>,
    now: Now): seq<Alert>
    requires ValidNow(now)
  {
    BudgetAlert(budget, TotalOf(transactions, Expense))
    + BillAlerts(bills, now)
    + SavingsAlert(budget, TotalOf(transactions, Savings), now)
    + StreakAlerts(ActiveChallenges(challenges))
    + NoBudgetAlert(budget)
  }

  /** `generateAlerts(transactions, budget, bills, challenges)`, with the
      clock reading as a parameter. */
  method GenerateAlerts(
    transactions: seq<Transaction>,
    budget: Option<Budget>,
    bills: seq<Bill>,
    challenges: seq<Challenge>,
    now: Now) returns (alerts: seq<Alert>)
    requires ValidNow(now)
    ensures alerts == Alerts(transactions, budget, bills, challenges, now)
    ensures Ordered(alerts)
    ensures CountId(alerts, "no-budget") == if budget.None? then 1 else 0
  {
    var totalExpenses := TotalOf(transactions, Expense);
    alerts := BudgetAlert(budget, totalExpenses);
    ghost var budgetPart := alerts;

    var i := 0;
    while i < |bills|
      invariant 0 <= i <= |bills|
      invariant alerts == budgetPart + BillAlerts(bills[..i], now)
    {
      BillAlertsStep(bills, i, now);
      AppendAssoc(budgetPart, BillAlerts(bills[..i], now), BillAlert(bills[i], now));
      alerts := alerts + BillAlert(bills[i], now);
      i := i + 1;
    }
    assert bills[..|bills|] == bills;

    var totalSavings := TotalOf(transactions, Savings);
    alerts := alerts + SavingsAlert(budget, totalSavings, now);
    ghost var beforeStreaks := alerts;

    var active := ActiveChallenges(challenges);
    var j := 0;
    while j < |active|
      invariant 0 <= j <= |active|
      invariant alerts == beforeStreaks + StreakAlerts(active[..j])
    {
      StreakAlertsStep(active, j);
      AppendAssoc(beforeStreaks, StreakAlerts(active[..j]), StreakAlert(active[j]));
      alerts := alerts + StreakAlert(active[j]);
      j := j + 1;
    }
    assert active[..|active|] == active;

    alerts := alerts + NoBudgetAlert(budget);
    assert alerts == BudgetAlert(budget, totalExpenses) + BillAlerts(bills, now)
      + SavingsAlert(budget, totalSavings, now) + StreakAlerts(active) + NoBudgetAlert(budget);
    AlertsOrdered(transactions, budget, bills, challenges, now);
    NoBudgetCount(transactions, budget, bills, challenges, now);
  }

  /** Appending to a list that already holds a prefix keeps the prefix. */
  lemma AppendAssoc(a: seq<Alert>, b: seq<Alert>, c: seq<Alert>)
    ensures a + b + c == a + (b + c)
  {
  }

  lemma BillAlertsStep(bills: seq<Bill>, i: nat, now: Now)
    requires ValidNow(now) && i < |bills|
    ensures BillAlerts(bills[..i + 1], now) == BillAlerts(bills[..i], now) + BillAlert(bills[i], now)
  {
    assert bills[..i + 1][..i] == bills[..i];
  }

  lemma StreakAlertsStep(active: seq<Challenge>, j: nat)
    requires j < |active|
    ensures StreakAlerts(active[..j + 1]) == StreakAlerts(active[..j]) + StreakAlert(active[j])
  {
    assert active[..j + 1][..j] == active[..j];
  }

  // ---------------------------------------------------------------------
  // Properties of the whole list
  // ---------------------------------------------------------------------

  /** Alerts appear grouped by rule, in rule order. */
  predicate Ordered(alerts: seq<Alert>)
  {
    forall i, j :: 0 <= i < j < |alerts| ==> Group(alerts[i]) <= Group(alerts[j])
  }

  predicate GroupsAtMost(alerts: seq<Alert>, g: nat)
  {
    forall i :: 0 <= i < |alerts| ==> Group(alerts[i]) <= g
  }

  lemma AppendGroup(s: seq<Alert>, t: seq<Alert>, g: nat)
    requires Ordered(s) && GroupsAtMost(s, g) && InGroup(t, g)
    ensures Ordered(s + t) && GroupsAtMost(s + t, g)
  {
    var st := s + t;
    forall i, j | 0 <= i < j < |st|
      ensures Group(st[i]) <= Group(st[j])
    {
      if j >= |s| {
        assert st[j] == t[j - |s|];
      }
    }
  }

  /** The output order: the budget alert, bill alerts, the savings alert,
      streak alerts, then the no-budget alert. */
  lemma AlertsOrdered(
    transactions: seq<Transaction>,
    budget: Option<Budget>,
    bills: seq<Bill>,
    challenges: seq<Challenge>,
    now: Now)
    requires ValidNow(now)
    ensures Ordered(Alerts(transactions, budget, bills, challenges, now))
  {
    var a1 := BudgetAlert(budget, TotalOf(transactions, Expense));
    var a2 := BillAlerts(bills, now);
    var a3 := SavingsAlert(budget, TotalOf(transactions, Savings), now);
    var a4 := StreakAlerts(ActiveChallenges(challenges));
    var a5 := NoBudgetAlert(budget);
    AppendGroup([], a1, 0);
    assert [] + a1 == a1;
    AppendGroup(a1, a2, 1);
    AppendGroup(a1 + a2, a3, 2);
    AppendGroup(a1 + a2 + a3, a4, 3);
    AppendGroup(a1 + a2 + a3 + a4, a5, 4);
  }

  /** At most one alert each from the budget-usage, savings and no-budget
      rules, at most one per bill and at most one per challenge. */
  lemma AlertsCount(
    transactions: seq<Transaction>,
    budget: Option<Budget>,
    bills: seq<Bill>,
    challenges: seq<Challenge>,
    now: Now)
    requires ValidNow(now)
    ensures |Alerts(transactions, budget, bills, challenges, now)| <= 3 + |bills| + |challenges|
  {
  }

  /** How many alerts carry the identity key `id`. */
  function CountId(alerts: seq<Alert>, id: string): (n: nat)
    ensures n <= |alerts|
    ensures n == 0 <==> forall i :: 0 <= i < |alerts| ==> alerts[i].id != id
  {
    if alerts == [] then 0
    else
      assert forall i :: 0 <= i < |alerts| - 1 ==> alerts[..|alerts| - 1][i] == alerts[i];
      CountId(alerts[..|alerts| - 1], id) + if alerts[|alerts| - 1].id == id then 1 else 0
  }

  lemma {:induction false} CountIdAppend(a: seq<Alert>, b: seq<Alert>, id: string)
    ensures CountId(a + b, id) == CountId(a, id) + CountId(b, id)
  {
    if b == [] {
      assert a + b == a;
    } else {
      var n := |b| - 1;
      assert (a + b)[..|a + b| - 1] == a + b[..n];
      CountIdAppend(a, b[..n], id);
    }
  }

  /** Exactly one "no-budget" alert without a budget, none with one: no other
      rule can produce that key. */
  lemma NoBudgetCount(
    transactions: seq<Transaction>,
    budget: Option<Budget>,
    bills: seq<Bill>,
    challenges: seq<Challenge>,
    now: Now)
    requires ValidNow(now)
    ensures CountId(Alerts(transactions, budget, bills, challenges, now), "no-budget")
      == if budget.None? then 1 else 0
  {
    var a1 := BudgetAlert(budget, TotalOf(transactions, Expense));
    var a2 := BillAlerts(bills, now);
    var a3 := SavingsAlert(budget, TotalOf(transactions, Savings), now);
    var a4 := StreakAlerts(ActiveChallenges(challenges));
    var a5 := NoBudgetAlert(budget);
    OtherRulesLackKey(a2, "bill-");
    OtherRulesLackKey(a4, "streak-");
    SingleRulesCount(budget, TotalOf(transactions, Expense), TotalOf(transactions, Savings), now);
    CountIdAppend(a1, a2, "no-budget");
    CountIdAppend(a1 + a2, a3, "no-budget");
    CountIdAppend(a1 + a2 + a3, a4, "no-budget");
    CountIdAppend(a1 + a2 + a3 + a4, a5, "no-budget");
  }

  /** The budget-usage and savings rules never use the "no-budget" key; the
      last rule uses it once exactly when there is no budget. */
  lemma SingleRulesCount(budget: Option<Budget>, totalExpenses: real, totalSavings: real, now: Now)
    requires ValidNow(now)
    ensures CountId(BudgetAlert(budget, totalExpenses), "no-budget") == 0
    ensures CountId(SavingsAlert(budget, totalSavings, now), "no-budget") == 0
    ensures CountId(NoBudgetAlert(budget), "no-budget") == if budget.None? then 1 else 0
  {
    var a5 := NoBudgetAlert(budget);
    if a5 != [] {
      assert a5[..0] == [];
    }
  }

  /** Keys that start with "bill-" or "streak-" are never "no-budget". */
  lemma OtherRulesLackKey(alerts: seq<Alert>, prefix: string)
    requires prefix == "bill-" || prefix == "streak-"
    requires forall i :: 0 <= i < |alerts| ==> HasPrefix(alerts[i].id, prefix)
    ensures CountId(alerts, "no-budget") == 0
  {
    forall i | 0 <= i < |alerts|
      ensures alerts[i].id != "no-budget"
    {
      var id := alerts[i].id;
      assert id[0] == id[..|prefix|][0] == prefix[0];
    }
  }

  predicate LacksGroup(alerts: seq<Alert>, g: nat)
  {
    forall i :: 0 <= i < |alerts| ==> Group(alerts[i]) != g
  }

  /** The "no-budget" alert never appears beside a budget-usage or savings
      alert: it is there exactly when there is no budget, and without a budget
      neither of those two rules fires. */
  lemma NoBudgetExcludesBudgetAndSavings(
    transactions: seq<Transaction>,
    budget: Option<Budget>,
    bills: seq<Bill>,
    challenges: seq<Challenge>,
    now: Now)
    requires ValidNow(now)
    ensures var alerts := Alerts(transactions, budget, bills, challenges, now);
      LacksGroup(alerts, 4) <==> budget.Some?
    ensures var alerts := Alerts(transactions, budget, bills, challenges, now);
      !LacksGroup(alerts, 4) ==> LacksGroup(alerts, 0) && LacksGroup(alerts, 2)
  {
    var alerts := Alerts(transactions, budget, bills, challenges, now);
    var a1 := BudgetAlert(budget, TotalOf(transactions, Expense));
    var a2 := BillAlerts(bills, now);
    var a3 := SavingsAlert(budget, TotalOf(transactions, Savings), now);
    var a4 := StreakAlerts(ActiveChallenges(challenges));
    var a5 := NoBudgetAlert(budget);
    assert alerts == a1 + a2 + a3 + a4 + a5;
    if budget.Some? {
      assert a5 == [];
      assert alerts == a1 + a2 + a3 + a4;
      GroupsBelowFour(a1, a2, a3, a4);
    } else {
      assert a1 == [] && a3 == [];
      assert alerts == a2 + a4 + a5;
      assert alerts[|alerts| - 1] == a5[0];
      OnlyGroupsOneThreeFour(a2, a4, a5);
    }
  }

  lemma GroupsBelowFour(a1: seq<Alert>, a2: seq<Alert>, a3: seq<Alert>, a4: seq<Alert>)
    requires InGroup(a1, 0) && InGroup(a2, 1) && InGroup(a3, 2) && InGroup(a4, 3)
    ensures LacksGroup(a1 + a2 + a3 + a4, 4)
  {
  }

  lemma OnlyGroupsOneThreeFour(a2: seq<Alert>, a4: seq<Alert>, a5: seq<Alert>)
    requires InGroup(a2, 1) && InGroup(a4, 3) && InGroup(a5, 4)
    ensures LacksGroup(a2 + a4 + a5, 0) && LacksGroup(a2 + a4 + a5, 2)
  {
  }

  /** A budget with neither a positive limit nor a positive saving goal
      silences the budget, savings and no-budget rules: only bill and streak
      alerts remain. */
  lemma InertBudgetOnlyBillsAndStreaks(
    transactions: seq<Transaction>,
    budget: Budget,
    bills: seq<Bill>,
    challenges: seq<Challenge>,
    now: Now)
    requires ValidNow(now)
    requires budget.monthlyLimit <= 0.0 && budget.savingGoal <= 0.0
    ensures Alerts(transactions, Some(budget), bills, challenges, now)
      == BillAlerts(bills, now) + StreakAlerts(ActiveChallenges(challenges))
  {
    var a1 := BudgetAlert(Some(budget), TotalOf(transactions, Expense));
    var a2 := BillAlerts(bills, now);
    var a3 := SavingsAlert(Some(budget), TotalOf(transactions, Savings), now);
    var a4 := StreakAlerts(ActiveChallenges(challenges));
    var a5 := NoBudgetAlert(Some(budget));
    InertRulesSilent(budget, TotalOf(transactions, Expense), TotalOf(transactions, Savings), now);
    assert Alerts(transactions, Some(budget), bills, challenges, now) == a1 + a2 + a3 + a4 + a5;
    DropEmpty(a1, a2, a3, a4, a5);
  }

  lemma DropEmpty(a1: seq<Alert>, a2: seq<Alert>, a3: seq<Alert>, a4: seq<Alert>, a5: seq<Alert>)
    requires a1 == [] && a3 == [] && a5 == []
    ensures a1 + a2 + a3 + a4 + a5 == a2 + a4
  {
    assert a1 + a2 == a2;
  }

  lemma InertRulesSilent(budget: Budget, totalExpenses: real, totalSavings: real, now: Now)
    requires ValidNow(now)
    requires budget.monthlyLimit <= 0.0 && budget.savingGoal <= 0.0
    ensures BudgetAlert(Some(budget), totalExpenses) == []
    ensures SavingsAlert(Some(budget), totalSavings, now) == []
    ensures NoBudgetAlert(Some(budget)) == []
  {
  }
}
