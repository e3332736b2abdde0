/** The rule-based saving-challenge suggester (src/lib/utils/challengeEngine.ts):
    up to six candidates are pushed in a fixed order, each guarded by a
    condition on the income, the month's expenses, the profession or the
    income type, and the first four are returned. */
module ChallengeEngine {
  import opened JsMath
  import opened Records

  datatype Frequency = Daily | Weekly

  /** A suggested challenge; the free-text `description` is left out, its
      interpolated amounts are the fields below. */
  datatype ChallengeSuggestion = ChallengeSuggestion(
    title: string,
    targetAmount: int,
    frequency: Frequency,
    perPeriodTarget: int,
    durationDays: int)

  const SprintTitle: string := "30-Day Savings Sprint"
  const WeeklyTitle: string := "Weekly Wealth Builder"
  const WantsFreeTitle: string := "Wants-Free Week"
  const MicroTitle: string := "Micro Saver"
  const IncomeBoostTitle: string := "Income Boost Saver"
  const PowerTitle: string := "Power Saver Challenge"

  /** `slice(0, 4)`: at most this many suggestions are returned. */
  const MaxSuggestions: nat := 4

  /** The income from which the high-income challenge is offered. */
  const HighIncome: real := 50000.0

  // ---------------------------------------------------------------------
  // Amounts

  /** `Math.max(minimum, Math.round(x / step) * step)`: the multiple of `step`
      nearest to `x`, but never below `minimum`. */
  function RoundedSave(x: real, step: int, minimum: int): (r: int)
    requires step > 0 && minimum > 0 && minimum % step == 0
    ensures r >= minimum && r % step == 0
    ensures x >= minimum as real - step as real / 2.0 ==>
      r as real - step as real / 2.0 <= x < r as real + step as real / 2.0
    ensures x < minimum as real - step as real / 2.0 ==> r == minimum
  {
    RoundToMultiple(x, step);
    var n := Round(x / step as real) * step;
    if n > minimum - step then
      MultipleGap(n, minimum, step);
      if minimum >= n then minimum else n
    else
      if minimum >= n then minimum else n
  }

  /** Two multiples of `s` less than `s` apart in one direction are ordered. */
  lemma MultipleGap(n: int, mn: int, s: int)
    requires s > 0 && n % s == 0 && mn % s == 0 && n > mn - s
    ensures n >= mn
  {
    var k := n / s - mn / s;
    assert n - mn == k * s;
    if k < 0 {
      MulPositive(-k, s);
    }
  }

  /** The sprint's daily amount: 1% of the income to the nearest 10, at least 50. */
  function DailySaveBase(income: real): (r: int)
    ensures r >= 50 && r % 10 == 0
    ensures income * 0.01 >= 45.0 ==> r as real - 5.0 <= income * 0.01 < r as real + 5.0
    ensures income * 0.01 < 45.0 ==> r == 50
  {
    RoundedSave(income * 0.01, 10, 50)
  }

  /** The weekly amount: 5% of the income to the nearest 100, at least 200. */
  function WeeklySave(income: real): (r: int)
    ensures r >= 200 && r % 100 == 0
    ensures income * 0.05 >= 150.0 ==> r as real - 50.0 <= income * 0.05 < r as real + 50.0
    ensures income * 0.05 < 150.0 ==> r == 200
  {
    RoundedSave(income * 0.05, 100, 200)
  }

  /** The variable-income amount: 15% of the disposable income (income minus
      expenses) to the nearest 100, at least 500 even when nothing is left. */
  function IncomeBoostSave(disposable: real): (r: int)
    ensures r >= 500 && r % 100 == 0
    ensures disposable * 0.15 >= 450.0 ==> r as real - 50.0 <= disposable * 0.15 < r as real + 50.0
    ensures disposable * 0.15 < 450.0 ==> r == 500
  {
    RoundedSave(disposable * 0.15, 100, 500)
  }

  /** The high-income amount: 10% of the income to the nearest 1000, with no
      lower bound of its own. */
  function BigSave(income: real): (r: int)
    ensures r % 1000 == 0
    ensures r as real - 500.0 <= income * 0.1 < r as real + 500.0
  {
    RoundToMultiple(income * 0.1, 1000);
    Round(income * 0.1 / 1000 as real) * 1000
  }

  /** From the high-income threshold on the big amount is at least 5000, and a
      quarter of it is a whole number. */
  lemma BigSaveBounds(income: real)
    requires income >= HighIncome
    ensures BigSave(income) >= 5000
    ensures Round(BigSave(income) as real / 4.0) * 4 == BigSave(income)
  {
    var b := BigSave(income);
    MultipleGap(b, 5000, 1000);
    var q := b / 1000 * 250;
    assert b == q * 4;
    assert b as real / 4.0 == q as real;
    RoundOfInt(q);
  }

  // ---------------------------------------------------------------------
  // The six candidates

  function Sprint(dailySave: int): ChallengeSuggestion
  {
    ChallengeSuggestion(SprintTitle, dailySave * 30, Daily, dailySave, 30)
  }

  function WeeklyBuilder(weeklySave: int): ChallengeSuggestion
  {
    ChallengeSuggestion(WeeklyTitle, weeklySave * 4, Weekly, weeklySave, 28)
  }

  function WantsFreeWeek(expenses: real): ChallengeSuggestion
  {
    ChallengeSuggestion(WantsFreeTitle, Round(expenses * 0.1), Daily, Round(expenses * 0.1 / 7.0), 7)
  }

  function MicroSaver(): ChallengeSuggestion
  {
    ChallengeSuggestion(MicroTitle, 600, Daily, 20, 30)
  }

  function IncomeBoost(savePct: int): ChallengeSuggestion
  {
    ChallengeSuggestion(IncomeBoostTitle, savePct * 4, Weekly, savePct, 28)
  }

  function PowerSaver(bigSave: int): ChallengeSuggestion
  {
    ChallengeSuggestion(PowerTitle, bigSave, Weekly, Round(bigSave as real / 4.0), 30)
  }

  /** A conditional `push`: the one-element list when the guard holds. */
  function Pushed(guard: bool, c: ChallengeSuggestion): seq<ChallengeSuggestion>
  {
    if guard then [c] else []
  }

  /** Every candidate, in push order, before the cut to four. */
  function Candidates(income: real, expenses: real, profession: Profession, incomeType: IncomeType)
    : (r: seq<ChallengeSuggestion>)
    ensures 2 <= |r| <= 6
  {
    [Sprint(DailySaveBase(income)), WeeklyBuilder(WeeklySave(income))]
    + Pushed(expenses > income * 0.6, WantsFreeWeek(expenses))
    + Pushed(profession == Student, MicroSaver())
    + Pushed(incomeType == Variable, IncomeBoost(IncomeBoostSave(income - expenses)))
    + Pushed(income >= HighIncome, PowerSaver(BigSave(income)))
  }

  /** The returned list: the first `MaxSuggestions` candidates. */
  function Suggestions(income: real, expenses: real, profession: Profession, incomeType: IncomeType)
    : (r: seq<ChallengeSuggestion>)
    ensures 2 <= |r| <= MaxSuggestions
    ensures r[0] == Sprint(DailySaveBase(income))
    ensures r[1] == WeeklyBuilder(WeeklySave(income))
  {
    var all := Candidates(income, expenses, profession, incomeType);
    if |all| <= MaxSuggestions then all else all[..MaxSuggestions]
  }

  /** The builder: straight-line conditional pushes onto a local list, then
      the cut to four. */
  method GenerateChallengeSuggestions(
    monthlyIncome: real,
    totalExpenses: real,
    profession: Profession,
    incomeType: IncomeType) returns (r: seq<ChallengeSuggestion>)
    ensures r == Suggestions(monthlyIncome, totalExpenses, profession, incomeType)
    ensures |r| <= MaxSuggestions
    ensures r[0].title == SprintTitle && r[1].title == WeeklyTitle
  {
    var suggestions: seq<ChallengeSuggestion> := [];
    var disposable := monthlyIncome - totalExpenses;
    var dailySaveBase := DailySaveBase(monthlyIncome);
    suggestions := suggestions + [Sprint(dailySaveBase)];

    var weeklySave := WeeklySave(monthlyIncome);
    suggestions := suggestions + [WeeklyBuilder(weeklySave)];
    // `expected` follows `suggestions` push by push in the shape of `Candidates`.
    ghost var expected := [Sprint(dailySaveBase), WeeklyBuilder(weeklySave)];

    var wants := totalExpenses > monthlyIncome * 0.6;
    if wants {
      suggestions := suggestions + [WantsFreeWeek(totalExpenses)];
    }
    expected := expected + Pushed(wants, WantsFreeWeek(totalExpenses));
    assert suggestions == expected;

    if profession == Student {
      suggestions := suggestions + [MicroSaver()];
    }
    expected := expected + Pushed(profession == Student, MicroSaver());
    assert suggestions == expected;

    if incomeType == Variable {
      var savePct := IncomeBoostSave(disposable);
      suggestions := suggestions + [IncomeBoost(savePct)];
    }
    expected := expected + Pushed(incomeType == Variable, IncomeBoost(IncomeBoostSave(disposable)));
    assert suggestions == expected;

    if monthlyIncome >= HighIncome {
      var bigSave := BigSave(monthlyIncome);
      suggestions := suggestions + [PowerSaver(bigSave)];
    }
    expected := expected + Pushed(monthlyIncome >= HighIncome, PowerSaver(BigSave(monthlyIncome)));
    assert suggestions == expected;

    if |suggestions| <= MaxSuggestions {
      r := suggestions;
    } else {
      r := suggestions[..MaxSuggestions];
    }
  }

  // ---------------------------------------------------------------------
  // Which challenges are offered

  predicate HasTitle(s: seq<ChallengeSuggestion>, title: string)
  {
    exists i :: 0 <= i < |s| && s[i].title == title
  }

  function CountTrue(a: bool, b: bool, c: bool): nat
  {
    (if a then 1 else 0) + (if b then 1 else 0) + (if c then 1 else 0)
  }

  /** Each optional challenge is offered exactly when its own condition holds
      and, for the last two, when the cut to four leaves room for it: the
      wants-free week iff expenses exceed 60% of the income, the micro saver
      iff the user is a student, the income boost iff the income is variable
      and not both earlier optional ones were pushed, the power saver iff the
      income is at least 50000 and at most one earlier optional one was pushed. */
  lemma {:induction false} OfferedChallenges(income: real, expenses: real, profession: Profession, incomeType: IncomeType)
    ensures var r := Suggestions(income, expenses, profession, incomeType);
      var wants := expenses > income * 0.6;
      var student := profession == Student;
      var variable := incomeType == Variable;
      && (HasTitle(r, WantsFreeTitle) <==> wants)
      && (HasTitle(r, MicroTitle) <==> student)
      && (HasTitle(r, IncomeBoostTitle) <==> variable && !(wants && student))
      && (HasTitle(r, PowerTitle) <==> income >= HighIncome && CountTrue(wants, student, variable) <= 1)
    ensures var r := Suggestions(income, expenses, profession, incomeType);
      var wants := expenses > income * 0.6;
      var student := profession == Student;
      var variable := incomeType == Variable;
      var pushed := 2 + CountTrue(wants, student, variable) + (if income >= HighIncome then 1 else 0);
      |r| == if pushed < MaxSuggestions then pushed else MaxSuggestions
    ensures var r := Suggestions(income, expenses, profession, incomeType);
      var before := 2 + (if expenses > income * 0.6 then 1 else 0);
      var boostAt := before + (if profession == Student then 1 else 0);
      var powerAt := boostAt + (if incomeType == Variable then 1 else 0);
      forall i :: 0 <= i < |r| ==>
        && (r[i].title == WantsFreeTitle ==> i == 2)
        && (r[i].title == MicroTitle ==> i == before)
        && (r[i].title == IncomeBoostTitle ==> i == boostAt)
        && (r[i].title == PowerTitle ==> i == powerAt)
  {
    var r := Suggestions(income, expenses, profession, incomeType);
    var all := Candidates(income, expenses, profession, incomeType);
    var wants := expenses > income * 0.6;
    var student := profession == Student;
    var variable := incomeType == Variable;
    var before := 2 + (if wants then 1 else 0);
    // Position of each optional candidate in `all`, when it was pushed.
    if wants {
      assert all[2].title == WantsFreeTitle && r[2] == all[2];
    }
    if student {
      assert all[before].title == MicroTitle && r[before] == all[before];
    }
    var boostAt := before + (if student then 1 else 0);
    if variable && boostAt < MaxSuggestions {
      assert all[boostAt].title == IncomeBoostTitle && r[boostAt] == all[boostAt];
    }
    var powerAt := boostAt + (if variable then 1 else 0);
    if income >= HighIncome && powerAt < MaxSuggestions {
      assert all[powerAt].title == PowerTitle && r[powerAt] == all[powerAt];
    }
    TitlesDistinct();
    forall i | 0 <= i < |r|
      ensures r[i].title == WantsFreeTitle ==> wants && i == 2
      ensures r[i].title == MicroTitle ==> student && i == before
      ensures r[i].title == IncomeBoostTitle ==> variable && i == boostAt
      ensures r[i].title == PowerTitle ==> income >= HighIncome && i == powerAt
    {
      assert r[i] == all[i];
    }
  }

  /** Whatever is offered has the amounts its rule promises: the wants-free
      week saves a tenth of the expenses over 7 days, the micro saver 20 a day
      up to 600, the income boost a multiple of 100 of at least 500 for 4
      weeks, the power saver a multiple of 1000 of at least 5000 in 4 equal
      weekly parts. */
  lemma OfferedAmounts(income: real, expenses: real, profession: Profession, incomeType: IncomeType)
    ensures var r := Suggestions(income, expenses, profession, incomeType);
      forall i :: 0 <= i < |r| ==>
        && (r[i].title == WantsFreeTitle ==>
              r[i] == ChallengeSuggestion(WantsFreeTitle, Round(expenses * 0.1), Daily, Round(expenses * 0.1 / 7.0), 7))
        && (r[i].title == MicroTitle ==> r[i] == ChallengeSuggestion(MicroTitle, 600, Daily, 20, 30))
        && (r[i].title == IncomeBoostTitle ==>
              && r[i] == IncomeBoost(IncomeBoostSave(income - expenses))
              && r[i].frequency == Weekly && r[i].durationDays == 28
              && r[i].perPeriodTarget >= 500 && r[i].perPeriodTarget % 100 == 0
              && r[i].targetAmount == 4 * r[i].perPeriodTarget)
        && (r[i].title == PowerTitle ==>
              && r[i] == PowerSaver(BigSave(income))
              && r[i].frequency == Weekly && r[i].durationDays == 30
              && r[i].targetAmount >= 5000 && r[i].targetAmount % 1000 == 0
              && r[i].targetAmount == 4 * r[i].perPeriodTarget)
  {
    var r := Suggestions(income, expenses, profession, incomeType);
    var all := Candidates(income, expenses, profession, incomeType);
    TitlesDistinct();
    if income >= HighIncome {
      BigSaveBounds(income);
    }
    forall i | 0 <= i < |r|
      ensures r[i] == all[i]
    {
    }
  }

  lemma TitlesDistinct()
    ensures var ts := [SprintTitle, WeeklyTitle, WantsFreeTitle, MicroTitle, IncomeBoostTitle, PowerTitle];
      forall i, j :: 0 <= i < j < |ts| ==> ts[i] != ts[j]
  {
    assert SprintTitle[0] == '3' && WeeklyTitle[1] == 'e' && WantsFreeTitle[1] == 'a';
    assert MicroTitle[0] == 'M' && IncomeBoostTitle[0] == 'I' && PowerTitle[0] == 'P';
  }

  /** Whatever the inputs, the sprint and the weekly builder always come first
      and keep their fixed shape: 30 daily deposits and 4 weekly ones. */
  lemma FixedChallenges(income: real, expenses: real, profession: Profession, incomeType: IncomeType)
    ensures var r := Suggestions(income, expenses, profession, incomeType);
      && r[0].targetAmount == 30 * r[0].perPeriodTarget && r[0].durationDays == 30
      && r[0].frequency == Daily && r[0].perPeriodTarget >= 50
      && r[1].targetAmount == 4 * r[1].perPeriodTarget && r[1].durationDays == 28
      && r[1].frequency == Weekly && r[1].perPeriodTarget >= 200
  {
  }

  /** A student earning 10000 with 3000 of expenses and a fixed income gets
      the sprint at 100 a day, the weekly builder at 500 and the micro saver. */
  lemma StudentExample()
    ensures Suggestions(10000.0, 3000.0, Student, Fixed) ==
      [ChallengeSuggestion(SprintTitle, 3000, Daily, 100, 30),
       ChallengeSuggestion(WeeklyTitle, 2000, Weekly, 500, 28),
       ChallengeSuggestion(MicroTitle, 600, Daily, 20, 30)]
  {
    RoundOfInt(10);
    RoundOfInt(5);
    assert 10000.0 * 0.01 / 10 as real == 10 as real;
    assert 10000.0 * 0.05 / 100 as real == 5 as real;
  }
}
