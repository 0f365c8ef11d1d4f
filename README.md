# Work tracker and rock-paper-scissors, modelled in Dafny

This project models the computational core of two small JavaScript programs.

**The work tracker** (an Express and Mongoose application in `ASSIGNMENT02/work-tracker`):

- the earnings service: clock-time parsing, hours worked with the overnight wrap and the break, the overtime rate, gross pay, the flat 14.6 % deductions, net pay, the break-time label and the pay-type label;
- the `WorkEntry` schema: the time-string pattern, the field bounds and the pre-save hook that recomputes hours and earnings;
- the `Project` schema: status, colour, the `duration` virtual and the formatted end date;
- the browser's live earnings preview on the work-entry form (`public/javascripts/work.js`), with its own bracket tax rate;
- the reports routes: the dashboard and the chart-data API, which filter entries and tally them per project and per day.

**The rock-paper-scissors lab** (`LAB02/lab2.js`): input validation, the answer normalisation, the computer's choice from a random number, the winner rule and the three-round verdict.

Modelling conventions:

- Time of day is an integer number of minutes.
- Money and hours are `real`.
- A date is an integer number of milliseconds.
- Values that the program gets from the outside are parameters: the current time, `Math.random()`, a date parser and a number formatter.

The three earnings computations in the source differ, and the model keeps them apart:

- **The service** applies the overtime rate and deducts a flat 14.6 %.
- **The save hook** multiplies hours by the base rate. It applies no overtime and no deductions.
- **The preview** deducts at a rate chosen by bracket from the annual income the base rate implies. The code's constants give 0.15 + 0.0505 + 0.0595/2 + 0.0188/2 = 0.23965 for the lower bracket and 0.29465 for the upper one.

Lemmas in the model relate the three computations to each other.

Modules:

- `Wrappers` (`wrappers.dfy`): `Option`.
- `Text` (`text.dfy`): digit strings, `parseInt`-style prefix parsing, ASCII lower-casing and first-occurrence `replace`.
- `WorkEntryService` (`work_entry_service.dfy`).
- `WorkEntrySchema` (`work_entry.dfy`): class `WorkEntry`.
- `ProjectModel` (`project.dfy`).
- `EarningsPreview` (`earnings_preview.dfy`): class `PreviewPanel`.
- `Reports` (`reports.dfy`).
- `RockPaperScissors` (`rock_paper_scissors.dfy`).

## Model

| member | source | states |
|---|---|---|
| WorkEntryService.ParseTimeOfClock | ASSIGNMENT02/work-tracker/services/WorkEntryService.js:11-14 | `H:M` written in decimal reads back as H·60+M minutes |
| WorkEntryService.ParseTimePadded | ASSIGNMENT02/work-tracker/services/WorkEntryService.js:11-14 | zero-padded `HH:MM` reads as HH·60+MM |
| WorkEntryService.ParseTime | ASSIGNMENT02/work-tracker/services/WorkEntryService.js:11-14 | a reading, when there is one, is never negative (anything else is NaN, i.e. None) |
| WorkEntryService.ShiftMinutesOnDial | ASSIGNMENT02/work-tracker/services/WorkEntryService.js:27-30 | for clock times the shift is in [0, 1440), is (end−start) mod 1440, and start plus the shift lands on end |
| WorkEntryService.WorkedHours | ASSIGNMENT02/work-tracker/services/WorkEntryService.js:27-34 | hours are never negative; they are zero exactly when the break covers the shift; otherwise hours·60 is shift minus break |
| WorkEntryService.BreakNeverAddsHours | ASSIGNMENT02/work-tracker/services/WorkEntryService.js:33-34 | a longer break never yields more hours |
| WorkEntryService.CalculateTotalHours | ASSIGNMENT02/work-tracker/services/WorkEntryService.js:23-35 | a result exists exactly when both times parse, and it is non-negative |
| WorkEntryService.OvernightShiftExample | ASSIGNMENT02/work-tracker/services/WorkEntryService.js:27-30 | 22:00 to 06:00 counts 8 hours |
| WorkEntryService.BreakLongerThanShiftExample | ASSIGNMENT02/work-tracker/services/WorkEntryService.js:33-34 | a 30-minute break on a 15-minute shift gives 0 hours, not a negative amount |
| WorkEntryService.CalculateEffectiveRate | ASSIGNMENT02/work-tracker/services/WorkEntryService.js:44-49 | the rate is base·multiplier when overtime is set and the multiplier exceeds 1, and the base rate otherwise |
| WorkEntryService.EffectiveRateBounds | ASSIGNMENT02/work-tracker/services/WorkEntryService.js:44-49 | for a non-negative base the effective rate is at least the base, and at most 3× it when the multiplier is at most 3 |
| WorkEntryService.CalculateGrossEarnings | ASSIGNMENT02/work-tracker/services/WorkEntryService.js:57-59 | gross is non-negative for non-negative hours and rate |
| WorkEntryService.CalculateDeductions | ASSIGNMENT02/work-tracker/services/WorkEntryService.js:67-79 | the total is 14.6 % of gross, split 40 % federal, 20 % provincial, 25 % CPP and 15 % EI; the parts add up to the total; for a non-negative gross the total and every part lie between 0 and gross |
| WorkEntryService.CalculateNetEarnings | ASSIGNMENT02/work-tracker/services/WorkEntryService.js:88-90 | net plus deductions is gross |
| WorkEntryService.CalculateWorkEntry | ASSIGNMENT02/work-tracker/services/WorkEntryService.js:97-137 | a result exists exactly when both times parse; then hours are the total hours with the break defaulting to 0, the rate is the effective rate with overtime defaulting to off and the multiplier to 1, hours ≥ 0, gross = hours × effective rate, the four deduction parts are `CalculateDeductions` of the gross (so the 40/20/25/15 split and the bounds carry over), net = gross − deductions = 0.854·gross, total earnings = gross, and 0 ≤ net ≤ gross for a non-negative rate |
| WorkEntryService.RegularDayExample | ASSIGNMENT02/work-tracker/services/WorkEntryService.js:97-137 | 09:00–17:00 with a 60-minute break at 25/h gives 7 h, 175 gross, 25.55 deductions and 149.45 net |
| WorkEntryService.OvertimeDayExample | ASSIGNMENT02/work-tracker/services/WorkEntryService.js:97-137 | with the break omitted (default 0) and 1.5× overtime at 20/h: 8 h at 30/h, 240 gross |
| WorkEntryService.FormatBreakTime | ASSIGNMENT02/work-tracker/services/WorkEntryService.js:154-161 | the break label; what it states is proved by `BreakLabelRoundTrip`: it reads back to the minutes it was made from |
| WorkEntryService.BreakLabelRoundTrip | ASSIGNMENT02/work-tracker/services/WorkEntryService.js:154-161 | the break label reads back to the minutes it was made from, and it shows an hours part exactly when the break is at least 60 minutes |
| WorkEntryService.HoursLabelReadsBack | ASSIGNMENT02/work-tracker/services/WorkEntryService.js:158-160 | an `Hh Mm` label reads back as H·60+M |
| WorkEntryService.MinutesLabelReadsBack | ASSIGNMENT02/work-tracker/services/WorkEntryService.js:155-157 | an `Mm` label reads back as M and has no hours mark |
| WorkEntryService.GetOvertimeLabel | ASSIGNMENT02/work-tracker/services/WorkEntryService.js:169-177 | the label is Regular exactly when overtime is off; with overtime on, 1.5, 2 and 3 give Time & Half, Double Time and Triple Time, any other multiplier gives the `<m>x Rate` label, and the label always carries the multiplier |
| WorkEntryService.LabelText | ASSIGNMENT02/work-tracker/services/WorkEntryService.js:171-176 | the label texts; `PayTypeNameMatchesServerLabel` proves the preview's pay-type words are these texts in parentheses |
| WorkEntryService.OvertimeLabelMatchesRate | ASSIGNMENT02/work-tracker/services/WorkEntryService.js:169-177 | whenever the service applies overtime, or overtime is off, the effective rate is the base times the label's multiplier |
| WorkEntrySchema.IsTimeString | ASSIGNMENT02/work-tracker/models/WorkEntry.js:17 | the time pattern; `AcceptedTimeIsInDay` proves every accepted text reads as a minute of the day, and `EveryMinuteHasTimeString` that every minute of the day has an accepted text |
| WorkEntrySchema.TimeStringExamples | ASSIGNMENT02/work-tracker/models/WorkEntry.js:17 | the pattern accepts 9:05, 09:05, 23:59 and 0:00 and rejects 24:00, 9:5, 09:60 and the empty string |
| WorkEntrySchema.AcceptedTimeIsInDay | ASSIGNMENT02/work-tracker/models/WorkEntry.js:17 | every time the pattern accepts parses to a minute of the day in [0, 1440) |
| WorkEntrySchema.EveryMinuteHasTimeString | ASSIGNMENT02/work-tracker/models/WorkEntry.js:22 | every minute of the day has an accepted time string that parses back to it |
| WorkEntrySchema.AcceptedTimesAreRead | ASSIGNMENT02/work-tracker/models/WorkEntry.js:61-64 | for accepted times the service's hours are defined and equal the worked hours of the two readings |
| WorkEntrySchema.WorkEntry.constructor | ASSIGNMENT02/work-tracker/models/WorkEntry.js:24-55 | stores the given fields; the break defaults to 0; hours and earnings start at 0 |
| WorkEntrySchema.WorkEntry.PreSave | ASSIGNMENT02/work-tracker/models/WorkEntry.js:67-82 | when times and rate are set, hours become the service's total hours and earnings become hours × base rate; otherwise nothing changes; the schema bounds stay valid |
| WorkEntrySchema.HookEarningsAreServiceGrossWithoutOvertime | ASSIGNMENT02/work-tracker/models/WorkEntry.js:78-79 | for accepted times the hook's earnings equal the service's gross for a non-overtime entry, whose net is 0.854 of that |
| WorkEntrySchema.HookIgnoresOvertime | ASSIGNMENT02/work-tracker/models/WorkEntry.js:79 | for an overtime entry with positive hours, the service's gross is strictly more than the hook's hours × base rate |
| ProjectModel.ParseStatus | ASSIGNMENT02/work-tracker/models/Project.js:30-34 | a status is accepted exactly when it is one of the enumerated names, and it maps back to that name |
| ProjectModel.NewProject | ASSIGNMENT02/work-tracker/models/Project.js:3-46 | stores the given owner, name, description, rate, client and end date; status defaults to active, start date to now, and colour to '#667eea'; in-bounds fields give a valid project |
| ProjectModel.DefaultColorIsValid | ASSIGNMENT02/work-tracker/models/Project.js:44-45 | the default colour matches the colour pattern |
| ProjectModel.ColorIsCaseInsensitive | ASSIGNMENT02/work-tracker/models/Project.js:45 | a colour matches exactly when its lower-cased form does (the `i` flag) |
| ProjectModel.DiffDays | ASSIGNMENT02/work-tracker/models/Project.js:60-61 | days is the ceiling of the absolute millisecond difference over a day, and it is symmetric in its arguments |
| ProjectModel.SpanOf | ASSIGNMENT02/work-tracker/models/Project.js:63-71 | under 30 days → exactly that many days; 30 to 364 → 1 to 12 months; 365 and up → floor(days/365) years and at most 12 months more; the span covers the days to within 30, which fixes the months |
| ProjectModel.Duration | ASSIGNMENT02/work-tracker/models/Project.js:63-72 | the duration text of a day count; `DurationTextDeterminesSpan` proves two counts give the same text exactly when they give the same span, and the examples fix the wording |
| ProjectModel.ProjectDuration | ASSIGNMENT02/work-tracker/models/Project.js:57-73 | the duration from the start date to the end date, or to now when the end date is missing (`endDate \|\| new Date()`), through `DiffDays` and `Duration` |
| ProjectModel.DurationTextDeterminesSpan | ASSIGNMENT02/work-tracker/models/Project.js:57-73 | two day counts give the same duration text exactly when they give the same span, so the text is unambiguous |
| ProjectModel.DaysExamples | ASSIGNMENT02/work-tracker/models/Project.js:63-64 | 0 → "0 days", 1 → "1 days" |
| ProjectModel.MonthsExamples | ASSIGNMENT02/work-tracker/models/Project.js:65-67 | 45 → "1 month", 364 → "12 months" |
| ProjectModel.OneYearExample | ASSIGNMENT02/work-tracker/models/Project.js:68-71 | 365 → "1 year" |
| ProjectModel.YearsAndMonthsExample | ASSIGNMENT02/work-tracker/models/Project.js:68-71 | 800 → "2 years 2 months" |
| ProjectModel.FormattedEndDate | ASSIGNMENT02/work-tracker/models/Project.js:85-93 | no end date → "Ongoing"; otherwise the formatted date |
| EarningsPreview.SelectedHourlyRate | ASSIGNMENT02/work-tracker/public/javascripts/work.js:100-105 | the selected option's rate, or 0 when nothing is selected or it has no rate |
| EarningsPreview.ClockReading | ASSIGNMENT02/work-tracker/public/javascripts/work.js:112-113 | a time input reads exactly when it matches the schema's time pattern, as a minute of the day that agrees with the server's parse |
| EarningsPreview.BreakMinutes | ASSIGNMENT02/work-tracker/public/javascripts/work.js:114 | the leading integer of the break input, or 0 when there is none |
| EarningsPreview.PayTypeMultiplier | ASSIGNMENT02/work-tracker/public/javascripts/work.js:127-139 | 1.5 exactly for "overtime", 2 exactly for "double", and 1 otherwise |
| EarningsPreview.SelectedMultiplierOf | ASSIGNMENT02/work-tracker/public/javascripts/work.js:122-142 | the multiplier is 1, 1.5 or 2, and 1 when no radio is checked |
| EarningsPreview.SelectedMultiplier | ASSIGNMENT02/work-tracker/public/javascripts/work.js:122-142 | the loop returns the multiplier of the first checked radio, or 1 when none is checked |
| EarningsPreview.LaterRadiosIgnored | ASSIGNMENT02/work-tracker/public/javascripts/work.js:124-141 | once a radio is checked, radios after it do not change the multiplier |
| EarningsPreview.PreviewTaxRate | ASSIGNMENT02/work-tracker/public/javascripts/work.js:148-154 | 0.23965 when rate·40·52 ≤ 53359, 0.29465 above, and either way more than the server's 14.6 % |
| EarningsPreview.MakePreview | ASSIGNMENT02/work-tracker/public/javascripts/work.js:117-156 | the preview's figures; `PreviewArithmetic` states them: clamped unwrapped hours, the scaled rate, the gross, the bracket deduction and the net |
| EarningsPreview.PreviewArithmetic | ASSIGNMENT02/work-tracker/public/javascripts/work.js:117-156 | hours are shift minus break over 60, clamped at 0; gross = hours × rate × multiplier; deductions use the bracket rate of the base rate; net + deductions = gross |
| EarningsPreview.UpdateOf | ASSIGNMENT02/work-tracker/public/javascripts/work.js:107-181 | hide exactly when a time is empty or the rate is not positive; show exactly when both times read and the end is later than the start; the preview shown is the preview arithmetic of the two readings, the break, the selected rate and the first checked radio's multiplier |
| EarningsPreview.PreviewHoursAgreeWithServer | ASSIGNMENT02/work-tracker/public/javascripts/work.js:116-119 | whenever a preview is shown, its hours equal the server's total hours for the same inputs |
| EarningsPreview.OvernightShiftNotPreviewed | ASSIGNMENT02/work-tracker/public/javascripts/work.js:116 | 22:00 to 06:00 leaves the panel unchanged, though the server counts 8 hours |
| EarningsPreview.PreviewDeductsMoreThanServer | ASSIGNMENT02/work-tracker/public/javascripts/work.js:148-156 | for a positive gross the preview's deductions exceed the server's, and its net is lower |
| EarningsPreview.PayTypeName | ASSIGNMENT02/work-tracker/public/javascripts/work.js:164 | the pay-type line; `PayTypeNameMatchesServerLabel` proves it is shown exactly when the multiplier is not 1 and names it as the server's label does |
| EarningsPreview.PayTypeNameMatchesServerLabel | ASSIGNMENT02/work-tracker/public/javascripts/work.js:164-165 | the preview names the pay type exactly when the multiplier is not 1, with the same words as the server's overtime label |
| EarningsPreview.PreviewPanel.Update | ASSIGNMENT02/work-tracker/public/javascripts/work.js:107-181 | the panel hides, stays as it was, or becomes visible showing the computed preview, as `UpdateOf` decides |
| Reports.NegativeHoursExample | ASSIGNMENT02/work-tracker/routes/reports.js:27-36 | a report sum does not clamp: a 30-minute entry with a 60-minute break counts −0.5 h and −10 at 20/h |
| Reports.TotalHours | ASSIGNMENT02/work-tracker/routes/reports.js:27-30 | the hours total, a left fold; `TotalsAppend` proves it adds over concatenation and `GroupedSumsToTotals` that the groups add up to it |
| Reports.TotalEarnings | ASSIGNMENT02/work-tracker/routes/reports.js:32-36 | the earnings total, a left fold; the same two lemmas state it |
| Reports.TotalsAppend | ASSIGNMENT02/work-tracker/routes/reports.js:27-36 | the hours and earnings totals add over concatenation |
| Reports.Grouped | ASSIGNMENT02/work-tracker/routes/reports.js:39-55 | the intended dictionary; `GroupedKeys`, `GroupedPerKey` and `GroupedSumsToTotals` state its keys, its tallies and their sum |
| Reports.GroupedKeys | ASSIGNMENT02/work-tracker/routes/reports.js:39-55 | a key has a tally exactly when some entry has that key, and each tally counts at least one entry |
| Reports.GroupedPerKey | ASSIGNMENT02/work-tracker/routes/reports.js:39-55 | each key's tally is the total over exactly the entries with that key |
| Reports.GroupedSumsToTotals | ASSIGNMENT02/work-tracker/routes/reports.js:27-55 | the per-key tallies sum to the overall hours, earnings and count |
| Reports.ProjectStats | ASSIGNMENT02/work-tracker/routes/reports.js:39-55 | the loop builds the per-project grouping of the entries, with every project name as a key (the corrected behaviour, see Findings) |
| Reports.ProjectStatsAsWritten | ASSIGNMENT02/work-tracker/routes/reports.js:39-55 | the dictionary as written, in which inherited names make no key; `AsWrittenDropsInheritedNames` states it |
| Reports.AsWrittenDropsInheritedNames | ASSIGNMENT02/work-tracker/routes/reports.js:39-55 | as written, the per-project dictionary is the intended grouping with the names `Object.prototype` already answers (`toString`, `constructor`, …) left out |
| Reports.InheritedProjectNameVanishes | ASSIGNMENT02/work-tracker/routes/reports.js:39-55 | one hour on a project named "toString": the totals count 1 hour and the intended grouping has the project, but the dictionary as written is empty |
| Reports.DailyStats | ASSIGNMENT02/work-tracker/routes/reports.js:58-72 | the loop builds the per-day grouping of the entries, without counts |
| Reports.ReportIsConsistent | ASSIGNMENT02/work-tracker/routes/reports.js:27-81 | the per-project and per-day figures each sum to the summary totals, and the project counts sum to the entry count |
| Reports.BuildReport | ASSIGNMENT02/work-tracker/routes/reports.js:122-171 | returns the report of the entries: the totals, both groupings and the count |
| Reports.Find | ASSIGNMENT02/work-tracker/routes/reports.js:115-119 | exactly the stored entries that match the filter, each as many times as it is stored |
| Reports.DashboardFilter | ASSIGNMENT02/work-tracker/routes/reports.js:13-21 | matches exactly the user's entries dated from 30 days ago up to now |
| Reports.ChartDataFilter | ASSIGNMENT02/work-tracker/routes/reports.js:100-113 | filters by date only when both dates are given, and by project only when one is given other than "all" |
| Reports.UnfilteredChartData | ASSIGNMENT02/work-tracker/routes/reports.js:100-113 | with the project set to "all" and no end date, the query returns all of the user's entries |
| Reports.Dashboard | ASSIGNMENT02/work-tracker/routes/reports.js:8-92 | the report of the user's entries from the last 30 days |
| Reports.ChartData | ASSIGNMENT02/work-tracker/routes/reports.js:95-177 | the report of the entries that match the query filter |
| RockPaperScissors.ComputerChoice | LAB02/lab2.js:67-76 | paper for r ≤ 0.34, scissors for 0.34 < r ≤ 0.67, and rock above 0.67 |
| RockPaperScissors.DetermineWinner | LAB02/lab2.js:79-91 | a tie exactly when the two texts are equal; a user win only when both texts are move names |
| RockPaperScissors.DetermineWinnerFollowsRules | LAB02/lab2.js:79-91 | on move names: tie for equal moves, the user wins when their move beats the computer's, and the computer wins otherwise |
| RockPaperScissors.SwapPlayersSwapsWinner | LAB02/lab2.js:83-90 | of two different moves exactly one beats the other, so swapping the players swaps the winner |
| RockPaperScissors.NonMoveLoses | LAB02/lab2.js:90 | a choice that is not a move name loses to every computer move |
| RockPaperScissors.Conform | LAB02/lab2.js:17-19 | the prompt's check; `NormaliseOnName` and `NormaliseAgreesOnInitials` prove the names and initials pass it, and `Normalise` that nothing else does |
| RockPaperScissors.NormaliseAsWritten | LAB02/lab2.js:31-35 | the replace chain as written; the three `NormaliseAsWrittenOn…` lemmas give its results on the names, and `NormaliseAsWrittenBreaksNames` proves no name survives |
| RockPaperScissors.NormaliseAsWrittenOnRock | LAB02/lab2.js:31-35 | the chained replace turns "rock" into "rockock" |
| RockPaperScissors.NormaliseAsWrittenOnPaper | LAB02/lab2.js:31-35 | the chained replace turns "paper" into "paperaperock" |
| RockPaperScissors.NormaliseAsWrittenOnScissors | LAB02/lab2.js:31-35 | the chained replace turns "scissors" into "scissorscissorocks" |
| RockPaperScissors.NormaliseAsWrittenBreaksNames | LAB02/lab2.js:31-35 | the normalisation as written never maps a move name to any move name |
| RockPaperScissors.NormaliseAgreesOnInitials | LAB02/lab2.js:31-35 | on r, p and s the code as written and the corrected normaliser agree |
| RockPaperScissors.PlayGameAsWritten | LAB02/lab2.js:27-43 | a round as written; `FullNameAlwaysLoses` proves a full name loses it whatever the computer draws |
| RockPaperScissors.FullNameAlwaysLoses | LAB02/lab2.js:31-43 | as written, typing a full move name loses whatever the computer picks |
| RockPaperScissors.Normalise | LAB02/lab2.js:9 | every accepted answer, in any case, is a move's name or its initial |
| RockPaperScissors.NormaliseOnName | LAB02/lab2.js:9 | a move's name is accepted and normalises to that move |
| RockPaperScissors.PlayGame | LAB02/lab2.js:27-43 | a tie exactly when the moves are equal, and a user win exactly when the user's move beats the computer's |
| RockPaperScissors.NameAndInitialPlayAlike | LAB02/lab2.js:9 | a name and its initial are both accepted and play the same game |
| RockPaperScissors.CountsAddUp | LAB02/lab2.js:99-107 | ties, user wins and computer wins together count every round |
| RockPaperScissors.VerdictOf | LAB02/lab2.js:110-116 | the user wins the game exactly with more wins, the computer exactly with more wins, and otherwise it is a tie |
| RockPaperScissors.PlayThreeRounds | LAB02/lab2.js:94-117 | the loop's win counts are the counts over the three rounds' outcomes, they total at most 3, and the verdict follows them |
| RockPaperScissors.NoTiedRoundMeansWinner | LAB02/lab2.js:97-116 | three rounds without a tie never end in a tied game |
| Text.ParseIntPrefixOfNatStr | ASSIGNMENT02/work-tracker/public/javascripts/work.js:114 | `parseInt` reads a decimal number followed by non-digits as that number |
| Text.ParseIntPrefixOfNegated | ASSIGNMENT02/work-tracker/public/javascripts/work.js:114 | `parseInt` reads a minus sign followed by a number as its negation |
| Text.ReplaceFirstAt | LAB02/lab2.js:33-35 | `replace` with a string pattern splices the replacement in at the first occurrence, or leaves the text unchanged when there is none |

## Left out

- **User interface.** The DOM, Chart.js, `public/javascripts/reports.js` and the rendering of the preview's HTML are left out. Only what the panel shows, and whether it is visible, is modelled.
- **Infrastructure.** Express routing, sessions, rendering, redirects and `try`/`catch` error pages are left out. Mongoose queries, `populate` and `countDocuments` are left out too. A query is modelled as a filter over a sequence of stored entries.
- **Time and randomness.** The current time and `Math.random()` are parameters.
- **Console I/O.** The `prompt` module and the console output of the lab are left out. The prompt's `conform` check becomes the precondition `Conform` on the game functions.
- **Number and date formatting.**
  - `toFixed`, `toLocaleDateString` and `formatCurrency` are left out.
  - JavaScript's number-to-text is a parameter of `LabelText`.
  - The chart's ISO date key is modelled as the day number `DayKey`.
  - `new Date(text)` in the chart-data route is the parameter `parseDate`.
- **The 30-day window.** `setDate(getDate() - 30)` is taken as exactly 30 × 86 400 000 ms, so daylight-saving changes and month lengths are ignored.
- **Parsing is narrower than in JavaScript.**
  - `Number` in `parseTime` also accepts whitespace, signs, decimal fractions ("9.5:00" reads as 570), exponents, hex and `Infinity`. The model reads plain decimal digit fields only; anything else is None, which stands for NaN. An empty field reads as 0, as `Number("")` does.
  - Text.ParseIntPrefix: reads decimal text only. `parseInt` without a radix (work.js:114) reads a `0x` prefix as hexadecimal, so `parseInt("0x1A")` is 26 where the model gives 0.
  - `parseFloat` of the option's `data-rate` is taken as already read (an optional real).
  - Lower-casing and whitespace are ASCII only.
- **The preview's time parse.** `new Date('2000-01-01 ' + value)` is modelled as valid exactly when the value matches the schema's time pattern.
- **Arithmetic.** IEEE-754 rounding, NaN and Infinity are not modelled: amounts are exact reals.
- **Result texts.** `includes` on the lab's result strings is modelled as a test of the outcome value.
- **Key order.** Object key order for integer-like keys is left out. `KeyOrder` is first-appearance order.
- Reports.ProjectStats: builds the intended dictionary, in which every project name becomes a key. As written, `projectStats` is a plain `{}`, so a name such as `toString` finds the inherited property and never becomes a key (see Findings and `ProjectStatsAsWritten`). The side effects of that path are not modelled: the NaN written onto the inherited function, and the writes onto `Object.prototype` for `__proto__`.
- **Trimming.** `trim: true` on the text fields (Project.js:12,17,27; WorkEntry.js:33,38) is not modelled: text is taken as already trimmed, so a blank name such as "   " passes `ProjectModel.Valid`, where Mongoose would store "" and `required` would reject it.
- **Entry fields.** The reports routes read `entry.duration`, `entry.userId` and `entry.projectId`, which are not fields of the `WorkEntry` schema. They are taken as given fields of a report `Entry`.
- WorkEntrySchema.WorkEntry.PreSave: requires `Valid()`, because Mongoose validates the schema before it runs a pre-save hook. The truthiness test on the rate is modelled as `hourlyRate != 0`.
- **The break-label reader.** `ParseBreakLabel` is not in the source. It exists only to state the round trip of `formatBreakTime`.

## Findings

| source | as written | input that shows it | evidently intended | confidence | as-written member | corrected member |
|---|---|---|---|---|---|---|
| LAB02/lab2.js:31-35 | the answer is lower-cased, then `.replace("r","rock").replace("p","paper").replace("s","scissors")` runs on the whole text | "rock" becomes "rockock", "paper" becomes "paperaperock" and "scissors" becomes "scissorscissorocks"; none is a move, so `determineWinner` (lab2.js:90) gives the computer the round whatever it chose | map the initials r, p and s to their names and leave the full names as they are | high (not executed) | RockPaperScissors.FullNameAlwaysLoses | RockPaperScissors.NameAndInitialPlayAlike |
| ASSIGNMENT02/work-tracker/routes/reports.js:39-55 | `projectStats` starts as `{}` and a key is created only when `!projectStats[projectName]` | a work entry whose free-text project is "toString" (or "constructor", "valueOf", …): the lookup finds the inherited function, no key is created, and the project is missing from the chart while its hours stay in the totals | every project name becomes a key, so the per-project figures add up to the totals | medium (not executed) | Reports.InheritedProjectNameVanishes | Reports.GroupedSumsToTotals |

The rounds and the three-round verdict (`PlayGame`, `PlayThreeRounds`) use the corrected normaliser `Normalise`. The reports (`ProjectStats`, `BuildReport`, `Dashboard`, `ChartData`) use the corrected grouping `Grouped`; the same lookup at reports.js:122-138 behaves the same way.
