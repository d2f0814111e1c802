# FeelFree goals, SOS contacts and sentiment labels in Dafny

This project models three pieces of the FeelFree mental-health app: the goals screen, the SOS contacts screen and the sentiment-label helpers. It proves properties of each.

- **Goals screen.** Goals are daily, weekly or monthly. A goal counts as done for the current period when that period's key is in its completions. The keys come from `isoDate` (`2024-03-15`), `getISOWeek` (`2024-W11`) and `monthKey` (`2024-03`). Goals can be filtered by frequency, added, toggled and removed. After every change the screen writes the whole list to local storage under `goals.v1`.
- **SOS screen.** The list shows three built-in helplines, then the user's personal contacts. Only the personal contacts are written to storage, under `sos.contacts.v1`. Loading merges the stored contacts behind the built-in helplines and drops any stored contact whose id is a built-in one.
- **Sentiment helpers.** A note gets Positive, Negative or Neutral from the sign of a text score. Labels convert to the scores 1, -1 and 0 and back.

Modules:

- `Wrappers`: `Option`.
- `Seqs`: order-preserving `Filter`, the model of `Array.prototype.filter`.
- `Decimal`: JavaScript's rendering of integers and `padStart(2, "0")`, with a parser used as their inverse.
- `Text`: `String.prototype.trim` over JavaScript's whitespace set.
- `Calendar`: proleptic Gregorian dates as day numbers since 1970-01-01, the weekday, and day arithmetic with month and year rollover.
- `PeriodKeys`: the three period keys. The main theorem says two dates get the same key exactly when they fall in the same day, ISO week or month.
- `Goals`: pure list transitions, plus the class `GoalsScreen`. Its fields are the goal list, the stored value and the add-goal form.
- `Sos`: the merge, the personal-contact filter and the add/remove transitions, plus the class `SosScreen`.
- `Sentiment`: the label functions. The scoring library is a parameter.

Parameters stand in for the outside world:

- the current date is a `CalendarDate` (the local calendar date that `new Date()` yields);
- new ids and creation timestamps are strings;
- success of each storage read or write is a boolean;
- the sentiment library's score is a function `string -> int`.

Storage is a field `stored: Option<seq<_>>` on each screen class. It holds the value under the screen's storage key, and `None` means nothing was ever written.

## Model

| member | source | states |
|---|---|---|
| Seqs.Filter | app/tabs/goals.tsx:91 | exactly the elements satisfying the callback remain, in their original order |
| Seqs.FilterCounts | app/tabs/goals.tsx:91 | each satisfying element is kept as often as it occurs, every other one is dropped |
| Decimal.IntToString | app/tabs/goals.tsx:34 | `${y}` is at least one character, and starts with a minus sign exactly for negative numbers; the digits read back as the number (`Decimal.IntToStringRoundTrip`) |
| Decimal.PadStart2 | app/tabs/goals.tsx:32-33 | numbers below 100 become exactly two digits that read back as the number; larger numbers are unpadded; every character is a digit |
| Decimal.IntToStringRoundTrip | app/tabs/goals.tsx:34 | the rendered year reads back as the year, negative years included |
| Decimal.IntToStringInjective | app/tabs/goals.tsx:34 | different years render differently |
| Text.Trim | app/tabs/goals.tsx:96 | the trimmed title is empty exactly when the text is all whitespace; otherwise it starts and ends with a non-whitespace character |
| Text.TrimTakesInfix | app/tabs/goals.tsx:96 | the trimmed title is a piece of the text with only whitespace before and after it |
| Text.TrimIdempotent | app/tabs/goals.tsx:96 | trimming trimmed text changes nothing |
| Calendar.UtcDay | app/tabs/goals.tsx:40 | `getUTCDay()` lies in 0..6, with 1970-01-01 (day 0) a Thursday; `Calendar.IsoWeekdayArithmetic` gives its closed form |
| Calendar.IsoWeekday | app/tabs/goals.tsx:40 | `getUTCDay() \|\| 7` is between 1 (Monday) and 7 (Sunday) |
| Calendar.IsoWeekdayArithmetic | app/tabs/goals.tsx:40 | the weekday with Sunday as 7 is the day number plus 3, modulo 7, plus 1 |
| Calendar.ShiftDays | app/tabs/goals.tsx:41 | `setUTCDate(getUTCDate() + k)` moves the day number by exactly k, rolling over months and years |
| Calendar.DayOfYear | app/tabs/goals.tsx:42-43 | the day of the year computed from the difference to 1 January lies between 1 and the year's length |
| Calendar.EpochDayInjective | app/tabs/goals.tsx:39 | different dates have different `Date.UTC` day numbers |
| PeriodKeys.IsoThursday | app/tabs/goals.tsx:39-41 | the moved date has day number 7 * floor((n + 3) / 7) for a date with day number n |
| PeriodKeys.ThursdayOfWeek | app/tabs/goals.tsx:40-41 | the moved date is a Thursday, three days after the Monday of the date's week |
| PeriodKeys.WeekOfYear | app/tabs/goals.tsx:42-43 | `Math.ceil(dayOfYear / 7)` lies in 1..53 |
| PeriodKeys.IsoWeekNumber | app/tabs/goals.tsx:42-43 | the week number lies in 1..53 |
| PeriodKeys.IsoDate | app/tabs/goals.tsx:31-35 | no contract of its own; its round-trip and that it identifies the day are `PeriodKeys.IsoDateRoundTrip` and `PeriodKeys.DailyKeyIdentifiesDay` |
| PeriodKeys.MonthKey | app/tabs/goals.tsx:47-50 | no contract of its own; `PeriodKeys.MonthKeyRoundTrip` and `PeriodKeys.MonthlyKeyIdentifiesMonth` state its properties |
| PeriodKeys.IsoWeekKey | app/tabs/goals.tsx:38-45 | no contract of its own; `PeriodKeys.IsoWeekKeyRoundTrip` and `PeriodKeys.WeeklyKeyIdentifiesWeek` state its properties |
| PeriodKeys.PeriodKey | app/tabs/goals.tsx:52-56 | no contract of its own; `PeriodKeys.PeriodKeyIdentifiesPeriod` states its property |
| PeriodKeys.IsoDateRoundTrip | app/tabs/goals.tsx:31-35 | the daily key reads back as the date |
| PeriodKeys.MonthKeyRoundTrip | app/tabs/goals.tsx:47-50 | the monthly key reads back as year and month |
| PeriodKeys.IsoWeekKeyRoundTrip | app/tabs/goals.tsx:38-45 | the weekly key reads back as week-numbering year and week number |
| PeriodKeys.SameWeekNumberSameWeek | app/tabs/goals.tsx:42-44 | equal week-numbering year and week number imply the same Monday-to-Sunday week |
| PeriodKeys.WeeklyKeyIdentifiesWeek | app/tabs/goals.tsx:38-45 | two dates have equal weekly keys if and only if they are in the same Monday-to-Sunday week |
| PeriodKeys.DailyKeyIdentifiesDay | app/tabs/goals.tsx:31-35 | two dates have equal daily keys if and only if they are the same date |
| PeriodKeys.MonthlyKeyIdentifiesMonth | app/tabs/goals.tsx:47-50 | two dates have equal monthly keys if and only if they share year and month |
| PeriodKeys.PeriodKeyIdentifiesPeriod | app/tabs/goals.tsx:52-56 | for every frequency, equal period keys if and only if the same period |
| PeriodKeys.FourthOfJanuaryInWeekOne | app/tabs/goals.tsx:38-45 | 4 January is always in week 1 of its own year |
| PeriodKeys.TwentyEighthOfDecemberInLastWeek | app/tabs/goals.tsx:38-45 | 28 December is in its own year's last week: no date of that week-numbering year has a larger week number |
| PeriodKeys.NewYear2021Example | app/tabs/goals.tsx:38-45 | 1 January 2021 has key "2020-W53" and 4 January 2021 has "2021-W01" |
| PeriodKeys.FirstWeekOf2024Example | app/tabs/goals.tsx:38-45 | 1 to 7 January 2024 all have key "2024-W01" |
| PeriodKeys.DailyAndMonthlyExample | app/tabs/goals.tsx:52-56 | 15 March 2024 has daily key "2024-03-15" and monthly key "2024-03" |
| PeriodKeys.UtcDate | app/tabs/goals.tsx:39 | `Date.UTC` leaves dates outside years 0-99 alone; a date in years 0-99 moves to 1900-1999 with month and day kept, except that 29 February becomes 1 March when 1900 plus the year is not a leap year |
| PeriodKeys.WeekNumberAsWritten | app/tabs/goals.tsx:42-43 | no contract of its own; the week number as written, counted from the 1 January that `Date.UTC` makes of the Thursday's year; `PeriodKeys.YearHundredCounterexample` and `PeriodKeys.AsWrittenAgreesOutsideTwoDigitYears` state its properties |
| PeriodKeys.IsoWeekKeyAsWritten | app/tabs/goals.tsx:38-45 | no contract of its own; `getISOWeek` with both `Date.UTC` calls as written |
| PeriodKeys.AsWrittenAgreesOutsideTwoDigitYears | app/tabs/goals.tsx:38-45 | when neither the date nor its week's Thursday lies in years 0-99, the weekly key as written equals the ISO week key |
| PeriodKeys.TwoDigitYearCounterexample | app/tabs/goals.tsx:39 | as written, 15 June of year 50 gets a key of year 1950 |
| PeriodKeys.YearHundredCounterexample | app/tabs/goals.tsx:42-44 | as written, 1 January of year 100, whose Thursday is 31 December 99, gets key "99-W-99085" instead of "99-W53" |
| Goals.Filtered | app/tabs/goals.tsx:90-93 | "all" shows the list itself; a frequency shows exactly the goals of that frequency, in list order |
| Goals.FilteredCounts | app/tabs/goals.tsx:90-93 | the filter shows each goal of the chosen frequency as many times as the list holds it, and no other goal |
| Goals.Flip | app/tabs/goals.tsx:121-126 | the key's membership is inverted and every other key is kept |
| Goals.Toggled | app/tabs/goals.tsx:117-128 | same length and order; goals with another id are unchanged; goals with the id keep every field except that the key's membership flips; no other key changes |
| Goals.WithoutGoal | app/tabs/goals.tsx:135-136 | exactly the goals with another id remain, in order; an absent id leaves the list unchanged |
| Goals.WithoutGoalCounts | app/tabs/goals.tsx:135-136 | every copy of a goal with the id is dropped and every copy of any other goal is kept |
| Goals.NewGoalList | app/tabs/goals.tsx:95-108 | none exactly when the title is blank; otherwise one new goal in front with the trimmed, non-empty title, the chosen frequency, the given id and time and no completions, and the old list behind it |
| Goals.ToggleTwiceRestores | app/tabs/goals.tsx:117-128 | toggling the same goal twice with the same key gives back the list |
| Goals.ToggleAbsentId | app/tabs/goals.tsx:117-128 | toggling an id that no goal has changes nothing |
| Goals.ToggleFlipsDone | app/tabs/goals.tsx:117-128 | after toggling on a date, the goal's done-this-period status on that date is the opposite of before |
| Goals.DoneForTheWholePeriod | app/tabs/goals.tsx:143 | a goal is done on every day of a period or on none |
| Goals.ToggleKeepsOtherPeriods | app/tabs/goals.tsx:117-128 | toggling on one date leaves done status in every other period unchanged |
| Goals.RemoveIdempotent | app/tabs/goals.tsx:135-136 | removing the same id twice is removing it once |
| Goals.NewGoalNotDone | app/tabs/goals.tsx:101-107 | a new goal is not done in any period |
| Goals.GoalsScreen.constructor | app/tabs/goals.tsx:59-63 | first render: empty list, empty title, daily frequency, filter "all", modal closed |
| Goals.GoalsScreen.Load | app/tabs/goals.tsx:66-75 | a stored list replaces the shown one; nothing stored or a failed read leaves it |
| Goals.GoalsScreen.SaveGoals | app/tabs/goals.tsx:78-85 | the list is shown at once; a successful write stores it and a failed one leaves storage as it was |
| Goals.GoalsScreen.AddGoal | app/tabs/goals.tsx:95-111 | a blank title changes nothing; otherwise the new goal goes in front, is saved, and the form is reset to an empty title, daily frequency and a closed modal |
| Goals.GoalsScreen.ToggleComplete | app/tabs/goals.tsx:117-129 | the list becomes the toggle of the given goal's id under today's key for the given goal's frequency, and is saved |
| Goals.GoalsScreen.RemoveGoal | app/tabs/goals.tsx:135-137 | the list loses every goal with the id and is saved |
| Goals.GoalsScreen.FilteredGoals | app/tabs/goals.tsx:90-93 | exactly the goals the current filter shows, in list order; it is `Goals.Filtered` of the fields, so `Goals.FilteredCounts` gives how many copies |
| Sos.Merged | app/tabs/sos.tsx:54-57 | the built-in helplines first; then exactly the saved contacts without a built-in id, in saved order |
| Sos.PersonalContacts | app/tabs/sos.tsx:72 | exactly the personal contacts of the list, in order |
| Sos.MergedCounts | app/tabs/sos.tsx:54-57 | after the helplines, every copy of each saved contact without a built-in id, and nothing else |
| Sos.PersonalContactsCounts | app/tabs/sos.tsx:72 | every copy of each personal contact is written, and no helpline |
| Sos.NewContactList | app/tabs/sos.tsx:76-89 | none exactly when name or phone is blank; otherwise a personal contact with the trimmed, non-empty name and phone and the given id in front of the old list |
| Sos.WithoutContact | app/tabs/sos.tsx:98-99 | exactly the contacts with another id remain, in order, whatever their type; an absent id leaves the list unchanged |
| Sos.WithoutContactCounts | app/tabs/sos.tsx:98-99 | every copy of a contact with the id is dropped and every copy of any other contact is kept |
| Sos.DefaultIds | app/tabs/sos.tsx:35-39 | the built-in ids are exactly "emergency-112", "aasra" and "kiran" |
| Sos.DefaultsNotPersisted | app/tabs/sos.tsx:35-39 | no built-in helpline is ever written to storage |
| Sos.ReloadAfterPersist | app/tabs/sos.tsx:54-57 | reloading after persisting a list shows the helplines, then the list's personal contacts without a built-in id, in list order |
| Sos.PersistAfterLoad | app/tabs/sos.tsx:69-73 | persisting the loaded list writes back the stored contacts when they are personal and have their own ids |
| Sos.NewContactSurvivesReload | app/tabs/sos.tsx:76-89 | an added contact without a built-in id is still present after a reload |
| Sos.RemovedHelplineReturns | app/tabs/sos.tsx:98-104 | removing a helpline drops it from the list, and the next load shows it again |
| Sos.SosScreen.constructor | app/tabs/sos.tsx:42-45 | first render: empty list and empty, closed form |
| Sos.SosScreen.Load | app/tabs/sos.tsx:47-67 | the merge of the stored contacts; the built-in helplines alone when nothing is stored or the read fails |
| Sos.SosScreen.Persist | app/tabs/sos.tsx:69-74 | the list is shown at once; a successful write stores its personal contacts; a failed one leaves storage unchanged and reports failure |
| Sos.SosScreen.AddContact | app/tabs/sos.tsx:76-92 | blank name or phone changes nothing; otherwise the new contact goes in front and is persisted, and the form is reset only when the write succeeds |
| Sos.SosScreen.RemoveContact | app/tabs/sos.tsx:98-100 | the list loses every contact with the id and is persisted |
| Sentiment.ScoreToLabel | utils/sentimentHelper.ts:39-45 | Positive exactly for positive scores, Negative exactly for negative ones, Neutral exactly for zero |
| Sentiment.LabelToScore | utils/sentimentHelper.ts:23-34 | the score is -1, 0 or 1, positive exactly for Positive and negative exactly for Negative |
| Sentiment.AnalyzeSentiment | utils/sentimentHelper.ts:9-18 | blank text is Neutral; other text is Positive, Negative or Neutral exactly as its score is positive, negative or zero |
| Sentiment.LabelRoundTrip | utils/sentimentHelper.ts:23-45 | label to score to label gives the label back |
| Sentiment.ScoreRoundTrip | utils/sentimentHelper.ts:23-45 | score to label to score gives the sign of the score |
| Sentiment.AnalyzeIsScoreToLabel | utils/sentimentHelper.ts:14-17 | for non-blank text, analysing is labelling the score |
| Sentiment.BlankIgnoresScorer | utils/sentimentHelper.ts:12 | blank text is Neutral whatever the scorer says |

## Left out

- JSON serialisation: the model stores and loads lists as values. `JSON.parse` of a stored value that is not a goal or contact list is not modelled, and a parse failure counts as a failed read.
- Time zones and the clock: the current local calendar date is a parameter. JavaScript's Date range limit of about ±275 760 years is not modelled.
- Random ids (`Math.random().toString(36)`) and creation timestamps (`toISOString()`) are parameters. Id uniqueness is not assumed, which is why the lemmas speak of every goal or contact with a given id.
- Alerts, modals opened from buttons, the frequency and filter chips, text-input updates, `Linking` calls and SMS, and all rendering: these are direct field assignments or platform calls.
- Asynchronous interleaving: each handler is one atomic step on the current state. Stale closures over an older list and overlapping saves are not modelled.
- `Goals.GoalsScreen.IsDoneThisPeriod` and `Goals.IsDone` have no contract of their own. The toggle and period lemmas above state their properties.
- `Sentiment.AnalyzeSentiment`: the scorer returns an integer, because the library sums integer word ratings. A NaN score, which would give Neutral through both comparisons, is not modelled.
- The sentiment library's scoring of words is not part of this model.
- The unused `currentKey` constant (app/tabs/goals.tsx:87) is not modelled.

## Findings

| source | as written | input that shows it | evidently intended | confidence | as-written member | corrected member |
|---|---|---|---|---|---|---|
| app/tabs/goals.tsx:39 | `Date.UTC` reads years 0 to 99 as 1900 to 1999, so the weekly key of such a date names a week of the twentieth century | a local date of 15 June, year 50: the weekly key starts with "1950", while the daily key starts with "50" | the ISO week of the given date | high for the arithmetic; not executed; reachable only with a clock set to years 0 to 99 | PeriodKeys.TwoDigitYearCounterexample | PeriodKeys.WeeklyKeyIdentifiesWeek |
| app/tabs/goals.tsx:42 | the week is counted from `Date.UTC(thursdayYear, 0, 1)`, which again reads a Thursday year of 0 to 99 as 1900 to 1999 | a local date of 1 January, year 100 (a Friday): its Thursday is 31 December 99, counted from 1 January 1999, so the key is "99-W-99085" instead of "99-W53" | week 53 of year 99 | high for the arithmetic; not executed; reachable only with a clock set to the first days of year 100 | PeriodKeys.YearHundredCounterexample | PeriodKeys.WeeklyKeyIdentifiesWeek |

In the rest of the model, `PeriodKeys.IsoWeekKey` computes the ISO week of the date itself. `PeriodKeys.IsoWeekKeyAsWritten` models `getISOWeek` as written, with both `Date.UTC` calls. `PeriodKeys.AsWrittenAgreesOutsideTwoDigitYears` shows that the two agree whenever neither the date nor its week's Thursday lies in years 0 to 99. The goals screen uses `PeriodKeys.IsoWeekKey`, so it does not reproduce either row above.
