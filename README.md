# Personal-finance engines: health score, alerts, challenge suggestions, dates

This project models the rule engines of a personal-finance web app in Dafny:

- the **financial health score** (`calculateHealthScore`). It turns a month's
  transactions, budget, bills and challenges into four sub-scores, a weighted
  0–100 score, a Good/Average/Poor label and a colour;
- the **alert generator** (`generateAlerts`). It pushes alerts in a fixed order:
  budget usage, then one per bill, then savings pace, then one per
  active challenge streak, then a missing budget;
- the **challenge suggester** (`generateChallengeSuggestions`). It pushes up to six
  saving challenges under conditions on income, expenses, profession and
  income type, and keeps the first four;
- the **date helpers** these engines call: overdue and due-soon tests for
  a bill's day of the month, days until the next due date, next and previous
  `"yyyy-MM"` month strings, and the bounds of a month.

Modules:

- `JsMath` (jsmath.dfy): `Math.round`, `Math.ceil`, `min` and `max` on exact reals.
- `Records` (records.dfy): the record shapes and the `filter`/`reduce` totals per transaction type.
- `DateHelpers` (date_helpers.dfy): the calendar, the clock and the date helpers.
- `HealthScore` (health_score.dfy): pure functions.
- `BudgetAlerts` (budget_alerts.dfy): the rules as functions. `GenerateAlerts` is the accumulating
  method with a loop over the bills and one over the active challenges.
- `ChallengeEngine` (challenge_engine.dfy): `GenerateChallengeSuggestions` is the straight-line
  method with conditional pushes and the cut to four.

How the model represents the source:

- **The clock** is a parameter `Now(month, day, msOfDay)`, i.e. the local date and the milliseconds
  since local midnight. Instants inside the current month are milliseconds from the month's first
  midnight.
- **A bill's due date** `new Date(y, m, dueDay)` is `(dueDay - 1)` days after that midnight. This
  holds for every `dueDay`, because the JavaScript `Date` constructor carries an overflowing day
  into the following months.
- **Amounts** are exact reals.
- **Alert messages** are a datatype that records which template an alert shows and the values
  interpolated into it.

With income 50000 and nothing else the score is 50 (`HealthScore.EmptySnapshotExample`).

The source's bill record calls the due day `dueDate`, and it is a day number. The model keeps
that field name.

## Model

| member | source | states |
|---|---|---|
| Records.OfKind | src/lib/utils/healthScore.ts:25-26 | the filtered list keeps only transactions of the requested type, each from the input, and every input transaction of that type is kept |
| Records.OfKindSingle | src/lib/utils/healthScore.ts:25-26 | on a one-element list the filter keeps the transaction iff it has the requested type |
| Records.TotalOf | src/lib/utils/healthScore.ts:25-31 | `OfKind` then the `reduce` fold `SumAmounts`; when the filter keeps nothing (by `OfKind`'s contract: no transaction of the type) the total is 0 |
| Records.SumAppend | src/lib/utils/healthScore.ts:27 | the `reduce` fold `SumAmounts` of two concatenated lists is the sum of their folds |
| Records.TotalOfAppend | src/lib/utils/healthScore.ts:25-31 | the per-type total of two concatenated lists is the sum of their totals |
| Records.OtherKindIgnored | src/lib/utils/healthScore.ts:25-31 | inserting a transaction of another type (e.g. income) anywhere leaves the expense or savings total unchanged |
| Records.SameKindAdded | src/lib/utils/healthScore.ts:25-31 | a transaction of the totalled type raises the total by exactly its amount |
| Records.TotalNonNegative | src/lib/utils/budgetAlerts.ts:22-24 | with non-negative amounts every per-type total is non-negative |
| JsMath.Round | src/lib/utils/healthScore.ts:63-68 | `Math.round` gives the integer within half of x, with halves rounded up |
| JsMath.Ceil | src/lib/utils/dateHelpers.ts:43 | `Math.ceil` gives the least integer not below x |
| JsMath.RoundToMultiple | src/lib/utils/challengeEngine.ts:20 | `Math.round(x / m) * m` is a multiple of m within m/2 of x |
| HealthScore.BudgetAdherence | src/lib/utils/healthScore.ts:33-37 | the result is in [0,100]; it is 100 with no budget or a limit ≤ 0, and 100 with no expenses; it is 0 once expenses reach the limit, and otherwise the unspent share of the limit times 100 |
| HealthScore.BudgetAdherenceMonotone | src/lib/utils/healthScore.ts:33-37 | more expenses never raise budget adherence |
| HealthScore.SavingsRate | src/lib/utils/healthScore.ts:39-44 | the result is 0 when income ≤ 0 and never above 100; with income > 0 it is 100 exactly when savings reach 20% of income, and otherwise savings/(0.2·income)·100; it is non-negative for non-negative savings |
| HealthScore.PaidCount | src/lib/utils/healthScore.ts:49 | the count is at most the bill count; it equals it iff all bills are paid, and is 0 iff none is |
| HealthScore.PaidCountAppend | src/lib/utils/healthScore.ts:49 | the paid count of two concatenated lists is the sum of their paid counts |
| HealthScore.PaidCountSingle | src/lib/utils/healthScore.ts:49 | one bill counts 1 iff it is paid, else 0 (with the append lemma: the count is the number of paid bills) |
| HealthScore.BillsPunctuality | src/lib/utils/healthScore.ts:46-51 | the result is in [0,100]; with bills, result × bill count = paid count × 100; it is 100 iff every bill is paid (hence with no bills), and 0 iff there are bills and none is paid |
| HealthScore.Progress | src/lib/utils/healthScore.ts:58 | one challenge contributes at most 1, and 0 when its target ≤ 0; it contributes exactly 1 iff the saved amount reaches a positive target, and below that progress × target = saved amount; ≥ 0 for non-negative savings |
| HealthScore.Participating | src/lib/utils/healthScore.ts:55 | only active or completed challenges from the input are kept, and every one of them is kept |
| HealthScore.ParticipatingSingle | src/lib/utils/healthScore.ts:55 | a one-element list keeps its challenge iff it is active or completed |
| HealthScore.ProgressSumAppend | src/lib/utils/healthScore.ts:57-59 | the progress sum of two concatenated lists is the sum of their progress sums |
| HealthScore.ProgressSumSingle | src/lib/utils/healthScore.ts:57-59 | the progress sum of one challenge is its progress (with the append lemma: the sum of all progresses) |
| HealthScore.ProgressSum | src/lib/utils/healthScore.ts:57-59 | the `reduce` fold of the progresses is at most the number of challenges, and ≥ 0 for non-negative savings |
| HealthScore.ChallengeParticipation | src/lib/utils/healthScore.ts:53-61 | the result is at most 100; it is 0 when no challenge is active or completed, and ≥ 0 for non-negative savings |
| HealthScore.ParticipationIsMean | src/lib/utils/healthScore.ts:55-60 | with participating challenges, participation × their number = their summed progress × 100, i.e. the mean progress as a percentage |
| HealthScore.ParticipatingAppend | src/lib/utils/healthScore.ts:55 | the active/completed filter distributes over concatenation |
| HealthScore.AbandonedIgnored | src/lib/utils/healthScore.ts:55-61 | inserting an abandoned challenge anywhere leaves challenge participation unchanged |
| HealthScore.CompositeInRange | src/lib/utils/healthScore.ts:63-68 | with all four sub-scores in [0,100], the weighted rounded score is in [0,100], and 100 when all four are 100 |
| HealthScore.CompositeScore | src/lib/utils/healthScore.ts:63-68 | the score is within 0.5 of the 30/30/20/20 weighted sum of the sub-scores (half rounded up) |
| HealthScore.LabelFor | src/lib/utils/healthScore.ts:70-78 | Good iff score ≥ 80, Average iff 50 ≤ score < 80, Poor iff score < 50 |
| HealthScore.ColorFor | src/lib/utils/healthScore.ts:70-78 | every colour is a seven-character string: '#' followed by six lower-case hex digits |
| HealthScore.ColorIdentifiesLabel | src/lib/utils/healthScore.ts:70-78 | two labels have the same colour iff they are the same label |
| HealthScore.CalculateHealthScore | src/lib/utils/healthScore.ts:18-91 | the score is the rounded 30/30/20/20 weighted sum of the four sub-scores (within 0.5 of it); label iffs on the score; colour from the label; each breakdown field is the rounded sub-score (within 0.5 of it); budget and bill fields in [0,100], savings and challenge fields at most 100 |
| HealthScore.HealthScoreInRange | src/lib/utils/healthScore.ts:63-89 | with non-negative amounts and saved amounts, the score and the savings and challenge fields are in [0,100] as well |
| HealthScore.EmptySnapshotExample | src/lib/utils/healthScore.ts:18-91 | income 50000 with nothing else gives score 50, Average, amber, breakdown 100/0/100/0 |
| BudgetAlerts.UsageThresholds | src/lib/utils/budgetAlerts.ts:28-36 | usage ≥ 100% iff expenses ≥ limit; usage ≥ 80% iff expenses ≥ 0.8·limit |
| BudgetAlerts.BudgetAlert | src/lib/utils/budgetAlerts.ts:26-44 | at most one alert, only with a budget whose limit > 0; "budget-exceeded" iff expenses ≥ limit, "budget-warning" iff 0.8·limit ≤ expenses < limit; it reports the rounded usage percentage; exceeded is a danger alert titled "Budget Exceeded" with the exceeded message, the warning is a warning alert titled "Budget Almost Full" with the almost-full message |
| BudgetAlerts.BillIdsDiffer | src/lib/utils/budgetAlerts.ts:50-57 | the overdue and due-soon ids of a bill differ, and both start with "bill-" |
| BudgetAlerts.BillAlert | src/lib/utils/budgetAlerts.ts:47-63 | at most one alert per bill and none for a paid bill; "bill-overdue-id" iff overdue, "bill-due-id" iff unpaid and due within 3 days, never both; overdue is a danger alert titled "Bill Overdue", due-soon a warning titled "Bill Due Soon"; either message carries the bill's name, amount and due day |
| BudgetAlerts.BillAlerts | src/lib/utils/budgetAlerts.ts:47-63 | at most one alert per bill, all in the bill group, all with ids starting "bill-" |
| BudgetAlerts.BillAlertsAppend | src/lib/utils/budgetAlerts.ts:47-63 | bill alerts of concatenated lists are the concatenation, so input order is kept |
| BudgetAlerts.BillAlertsAt | src/lib/utils/budgetAlerts.ts:47-63 | a bill's alert sits between the alerts of the bills before and after it |
| BudgetAlerts.ExpectedPace | src/lib/utils/budgetAlerts.ts:70-72 | the expected pace is the goal prorated by today's day over the month's length, and for a positive goal it lies in (0, goal] |
| BudgetAlerts.SavingsAlert | src/lib/utils/budgetAlerts.ts:65-82 | "savings-behind" iff there is a budget with goal > 0 and savings < half the expected pace; it is a warning titled "Savings Behind Target" and reports the rounded shortfall, which is ≥ 0 |
| BudgetAlerts.ActiveChallenges | src/lib/utils/budgetAlerts.ts:85 | only active challenges from the input are kept, and every active one is kept |
| BudgetAlerts.ActiveSingle | src/lib/utils/budgetAlerts.ts:85 | a one-element list keeps its challenge iff it is active |
| BudgetAlerts.LastFive | src/lib/utils/budgetAlerts.ts:88 | `slice(-5)` is the last five check-ins, in order |
| BudgetAlerts.StreakAlert | src/lib/utils/budgetAlerts.ts:86-97 | for one challenge, "streak-id" iff it has ≥ 5 check-ins and the last five are completed (the active filter is `ActiveChallenges`); it is a success alert titled "Saving Streak!" whose message reports the total check-in count and the challenge's title |
| BudgetAlerts.StreakAlerts | src/lib/utils/budgetAlerts.ts:85-98 | at most one alert per challenge, all in the streak group with ids starting "streak-" |
| BudgetAlerts.ActiveAppend | src/lib/utils/budgetAlerts.ts:85 | the active filter distributes over concatenation |
| BudgetAlerts.InactiveNoStreak | src/lib/utils/budgetAlerts.ts:85-98 | inserting a completed or abandoned challenge anywhere changes no streak alert |
| BudgetAlerts.NoBudgetAlert | src/lib/utils/budgetAlerts.ts:100-108 | one "no-budget" alert iff there is no budget; it is an info alert titled "Set Your Budget" with the set-a-budget message |
| BudgetAlerts.AlertsCount | src/lib/utils/budgetAlerts.ts:20-110 | the rules' list (`Alerts`) has at most three alerts besides one per bill and one per challenge |
| BudgetAlerts.GenerateAlerts | src/lib/utils/budgetAlerts.ts:14-111 | the pushed list equals the concatenation of the five rules in order; its groups are ordered; "no-budget" occurs once iff there is no budget, and otherwise never |
| BudgetAlerts.BillAlertsStep | src/lib/utils/budgetAlerts.ts:47-63 | one more bill of the loop adds exactly that bill's alert at the end |
| BudgetAlerts.StreakAlertsStep | src/lib/utils/budgetAlerts.ts:86-98 | one more active challenge of the loop adds exactly that challenge's alert at the end |
| BudgetAlerts.AppendGroup | src/lib/utils/budgetAlerts.ts:20-110 | appending alerts of a group no earlier than all previous ones keeps the list ordered |
| BudgetAlerts.AlertsOrdered | src/lib/utils/budgetAlerts.ts:20-110 | every budget alert precedes every bill alert, which precedes the savings alert, then streaks, then no-budget |
| BudgetAlerts.CountId | src/lib/utils/budgetAlerts.ts:20-110 | an id's count is 0 iff no alert carries it |
| BudgetAlerts.NoBudgetCount | src/lib/utils/budgetAlerts.ts:100-108 | "no-budget" appears exactly once iff the budget is null, and otherwise never |
| BudgetAlerts.SingleRulesCount | src/lib/utils/budgetAlerts.ts:26-108 | the budget-usage and savings rules never produce the "no-budget" id; the last rule produces it once iff there is no budget |
| BudgetAlerts.OtherRulesLackKey | src/lib/utils/budgetAlerts.ts:50-91 | bill and streak alerts never carry the "no-budget" id |
| BudgetAlerts.NoBudgetExcludesBudgetAndSavings | src/lib/utils/budgetAlerts.ts:26-108 | a no-budget alert never coexists with a budget-usage or savings alert |
| BudgetAlerts.InertBudgetOnlyBillsAndStreaks | src/lib/utils/budgetAlerts.ts:26-108 | a budget with limit ≤ 0 and goal ≤ 0 yields only bill and streak alerts |
| DateHelpers.DaysInMonth | src/lib/utils/budgetAlerts.ts:71 | day 0 of the next month is the month's last day: 28 to 31, Gregorian leap years |
| DateHelpers.IsDueSoon | src/lib/utils/dateHelpers.ts:22-27 | due soon iff the due midnight is not before now and strictly before now + n days, stated in days and milliseconds |
| DateHelpers.IsOverdue | src/lib/utils/dateHelpers.ts:29-34 | overdue iff unpaid and today is past the due day, or is the due day after midnight; never when paid |
| DateHelpers.OverdueExcludesDueSoon | src/lib/utils/dateHelpers.ts:22-34 | an unpaid bill is never both overdue and due soon, and a past due date is never due soon |
| DateHelpers.GetDaysUntilDue | src/lib/utils/dateHelpers.ts:36-44 | the result is ≥ 0, and 0 iff it is the due day's midnight; it counts days up to this month's due day, or up to next month's after the rollover |
| DateHelpers.CeilOfDays | src/lib/utils/dateHelpers.ts:43 | the ceiling of a millisecond span divided by a day is the number of started days |
| DateHelpers.NextMonth | src/lib/utils/dateHelpers.ts:56-60 | the month number rises by exactly one (December wraps to January of the next year) |
| DateHelpers.PreviousMonth | src/lib/utils/dateHelpers.ts:50-54 | the month number falls by exactly one (January wraps to December of the previous year) |
| DateHelpers.MonthNumberInjective | src/lib/utils/dateHelpers.ts:50-60 | valid months with the same month number are equal |
| DateHelpers.NextPreviousInverse | src/lib/utils/dateHelpers.ts:50-60 | next and previous are mutual inverses, with the December and January wraps |
| DateHelpers.NormalMonth | src/lib/utils/dateHelpers.ts:52 | an overflowing month index is carried into the year, keeping the month number |
| DateHelpers.JsDateMonth | src/lib/utils/dateHelpers.ts:58 | the `Date` constructor's month is valid and has the carried month number, with years 0–99 read as 1900–1999 |
| DateHelpers.DecimalDigits | src/lib/utils/dateHelpers.ts:53 | a decimal rendering whose digits read back as the number |
| DateHelpers.PadZeros | src/lib/utils/dateHelpers.ts:53 | zero-padding to a width keeps the value and has length max(width, length) |
| DateHelpers.FormatMonth | src/lib/utils/dateHelpers.ts:53 | the `yyyy-MM` form has at least seven characters, with a dash before the last two |
| DateHelpers.ParseMonth | src/lib/utils/dateHelpers.ts:51 | a string without a dash parses to nothing; a parsed year and month are ≥ 0 |
| DateHelpers.ParseFormat | src/lib/utils/dateHelpers.ts:51-53 | splitting a formatted month on "-" and reading the numbers gives the month back |
| DateHelpers.FormatInjective | src/lib/utils/dateHelpers.ts:53 | distinct months format differently |
| DateHelpers.GetNextMonth | src/lib/utils/dateHelpers.ts:56-60 | an answer exactly for the strings that parse, and the answer parses again, to a month in 1..12 |
| DateHelpers.GetPreviousMonth | src/lib/utils/dateHelpers.ts:50-54 | an answer exactly for the strings that parse, and the answer parses again, to a month in 1..12 |
| DateHelpers.GetNextMonthIsNext | src/lib/utils/dateHelpers.ts:56-60 | from year 100 on, the next-month string is the formatted next month |
| DateHelpers.GetPreviousMonthIsPrevious | src/lib/utils/dateHelpers.ts:50-54 | from year 100 on, the previous-month string is the formatted previous month |
| DateHelpers.MonthStringsInverse | src/lib/utils/dateHelpers.ts:50-60 | from year 100 on, next and previous month strings undo each other, except at "0100-01" |
| DateHelpers.GetNextMonthTwoDigitYear | src/lib/utils/dateHelpers.ts:58 | for years 0–99 the next-month string is the month after the same month in the 1900s |
| DateHelpers.GetNextMonthCounterexample | src/lib/utils/dateHelpers.ts:50-60 | "0099-12" is followed by "2000-01", not "0100-01", while the month before "0100-01" is "0099-12" |
| DateHelpers.IntendedMonthStrings | src/lib/utils/dateHelpers.ts:50-60 | the corrected month strings step by exactly one month and undo each other for every year ≥ 0, and agree with the source from year 100 on |
| DateHelpers.NextMonthStringIsNext | src/lib/utils/dateHelpers.ts:56-60 | the corrected next-month string is the formatted calendar successor for every year ≥ 0 |
| DateHelpers.PreviousMonthStringIsPrevious | src/lib/utils/dateHelpers.ts:50-54 | the corrected previous-month string is the formatted calendar predecessor whenever that year is ≥ 0 |
| DateHelpers.GetMonthStart | src/lib/utils/dateHelpers.ts:12-15 | a start exactly for the strings that parse: midnight of day 1 of a month in 1..12 |
| DateHelpers.GetMonthEnd | src/lib/utils/dateHelpers.ts:17-20 | an end exactly for the strings that parse: the last millisecond of the last day of the same month as the start |
| DateHelpers.MonthBounds | src/lib/utils/dateHelpers.ts:12-20 | the month start is day 1 at midnight and the month end is the last day's last millisecond, both of the same month; every instant of the month lies between them |
| ChallengeEngine.RoundedSave | src/lib/utils/challengeEngine.ts:20 | the result is at least the minimum and a multiple of the step; it is the nearest multiple when that is not below the minimum, and the minimum otherwise |
| ChallengeEngine.DailySaveBase | src/lib/utils/challengeEngine.ts:20 | the daily amount is ≥ 50 and a multiple of 10: 1% of income to the nearest 10, or 50 below that |
| ChallengeEngine.WeeklySave | src/lib/utils/challengeEngine.ts:33 | the weekly amount is ≥ 200 and a multiple of 100: 5% of income to the nearest 100, or 200 below that |
| ChallengeEngine.IncomeBoostSave | src/lib/utils/challengeEngine.ts:69 | the amount is ≥ 500 and a multiple of 100 even for negative disposable income |
| ChallengeEngine.BigSave | src/lib/utils/challengeEngine.ts:82 | the amount is a multiple of 1000 within 500 of 10% of income |
| ChallengeEngine.BigSaveBounds | src/lib/utils/challengeEngine.ts:81-89 | from 50000 of income the big amount is ≥ 5000, and its rounded quarter times 4 gives it back |
| ChallengeEngine.Candidates | src/lib/utils/challengeEngine.ts:18-91 | between 2 and 6 candidates |
| ChallengeEngine.Suggestions | src/lib/utils/challengeEngine.ts:93 | 2 to 4 suggestions, the sprint first and the weekly builder second |
| ChallengeEngine.GenerateChallengeSuggestions | src/lib/utils/challengeEngine.ts:12-94 | the pushed list, cut to four, is the first four candidates in push order; the sprint and the weekly builder come first |
| ChallengeEngine.OfferedChallenges | src/lib/utils/challengeEngine.ts:44-93 | wants-free iff expenses > 60% of income; micro saver iff student; income boost iff variable income and not both earlier optional ones; power saver iff income ≥ 50000 and at most one earlier optional one; the list holds min(2 + optional rules that fire, 4) challenges; wants-free sits at index 2, micro saver right after the fixed two and wants-free, income boost right after those, power saver right after those |
| ChallengeEngine.OfferedAmounts | src/lib/utils/challengeEngine.ts:44-91 | each offered optional challenge is exactly its rule's record (the income boost from 15% of income minus expenses, the power saver from 10% of income), with its amounts, frequency and duration |
| ChallengeEngine.FixedChallenges | src/lib/utils/challengeEngine.ts:20-41 | the sprint is 30 daily deposits of ≥ 50, and the weekly builder 4 weekly deposits of ≥ 200 over 28 days |
| ChallengeEngine.StudentExample | src/lib/utils/challengeEngine.ts:12-94 | a student with 10000 of fixed income and 3000 of expenses gets the sprint at 100, the weekly builder at 500 and the micro saver |

## Left out

- The wall clock: each `new Date()` is the `now` parameter. The alert generator reads the clock once per helper
  call; the model uses one instant for the whole call, so a clock tick between two reads is not modelled.
- Daylight-saving time and time zones: every day has 86 400 000 ms.
- IEEE-754 doubles: amounts and percentages are exact reals, and rounding artefacts of floating point are not modelled.
- Message and description text: alerts carry a template and its values, and suggestions drop the `description`,
  whose only variable parts are amounts already in the record. Number-to-text rendering (`₹`, `toString`) is not modelled.
- `getCurrentMonth`, `getMonthLabel` and `formatDate`: clock reads and `date-fns` display formatting.
- Lenient `Number()` parsing of month strings (spaces, signs, `"1e3"`, missing parts giving `NaN` and "Invalid Date"):
  `ParseMonth` accepts only digits, a dash and digits, and answers `None` for everything else.
- DateHelpers.MonthBounds: the month bounds are proved only from year 100 on; years 0–99 go through the same 1900s mapping
  as the month strings.
- `isDueSoon`'s default of 7 days ahead: `generateAlerts` passes 3 and the pages pass 7; `IsDueSoon` takes the number of days as a parameter, so the default itself is not modelled.
- DateHelpers.ValidNow: admits clock years 0–99, for which JavaScript's `Date` constructor, used by the date helpers and the savings pace, would move to 1900–1999 (and February of year 0 has 29 days here, 28 in 1900); the model uses the clock's own year, which only differs from a real clock for those years.
- DateHelpers.PreviousMonthString: answers `None` for the month before January of year 0, which has no `yyyy` form.
- DateHelpers.GetDaysUntilDue: requires a due day ≥ 1 (the bill form's minimum). For a due day ≤ 0 the source's
  `setMonth` works on a date already carried into an earlier month, and that path is not modelled.
- BudgetAlerts.SavingsAlert: states the reported shortfall is ≥ 0, not ≥ 1; with the strict "less than half the pace"
  guard the shortfall is in fact at least half the pace.
- The completion rule applied when a check-in is recorded, and all Firebase storage, authentication, React hooks,
  pages, toast state and the LLM-backed routes: I/O and UI around the engines.

## Findings

| source | as written | input that shows it | evidently intended | confidence | as-written member | corrected member |
|---|---|---|---|---|---|---|
| src/lib/utils/dateHelpers.ts:56-60 | `new Date(year, mo, 1)` maps years 0–99 to 1900–1999 | `getNextMonth("0099-12")` gives `"2000-01"`, while `getPreviousMonth("0100-01")` gives `"0099-12"` | the next month of `"0099-12"` is `"0100-01"`, and next/previous undo each other for every year | not executed | DateHelpers.GetNextMonthCounterexample | DateHelpers.IntendedMonthStrings |
