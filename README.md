# Medication reminder: dose and supply rules

This project models the dose-and-supply rules of a medication reminder app and proves properties about them. The app is written in React Native. Its rules sit inline in four screens:

- **Home** (`app/home.tsx`):
  - which medications are listed for today;
  - whether a medication's dose is taken;
  - the completed count and the daily progress;
  - taking a dose;
  - undoing the latest one, which restores supply up to the total;
  - the tap that chooses between take and undo.
- **Refill tracker** (`app/refills/index.tsx`):
  - the Low / Medium / Good supply tier;
  - the label of the refill button;
  - recording a refill.
- **Add-medication form** (`app/medications/add.tsx`):
  - the frequency and duration tables;
  - the two selectors;
  - the validator;
  - the record that saving writes.
- **Calendar** (`app/calendar/index.tsx`):
  - month navigation;
  - the loop that lays out the month grid in 7-cell weeks;
  - the dose marker of a day;
  - the taken status of each medication on the selected day;
  - the guarded take button.

The model has one module per concern:

- `Js` holds the JavaScript semantics the screens rely on:
  - `trim`;
  - `Number` and `parseInt`;
  - `Math.min`;
  - comparisons of a percentage that may be NaN or infinite.
- `Records` holds the two persisted entities.
- `Storage` holds the store the screens write through. It is a class whose two fields are replaced by each helper call.
- `Schedule` holds the home screen's active-today filter.
- `CivilDates` holds `new Date(y, m, d)` with its rollover, day numbers and `getDay`. These follow the day and weekday formulas of section 21.4.1 of ECMAScript 2024.
- `Home`, `Refills`, `AddMedication` and `Calendar` model the four screens.

**How the model is built:**

- **Value semantics.** A JavaScript number produced from the form's text is `Num = NaN | Int(n)`. A supply percentage is an exact fraction, NaN or an infinity, so the threshold tests are cross-multiplications.
- **Time.** An instant is an integer count of milliseconds. The local calendar day of an instant is taken at a fixed offset from UTC. The current instant, the local offset, and the random id and colour are parameters.
- **Screen operations.** Each operation that writes to storage is a method on the `Store`. Its `ensures` ties the new state to a function of the old one, such as `AfterUndo` or `AfterTap`. The lemmas prove the screen's promises about that function.
- **The grid loop.** The loop of `renderCalendar` is an imperative method with loop invariants. It is proved against the function `FullWeeks(GridCells(...))`.
- **The validator.** `validateForm` is a method that fills the error map field by field. It is split into the source's two blocks of checks.

Behaviour that follows the code as written:

- The active window is compared in milliseconds, inclusive at both ends. A parsed duration of -1 skips the start-date check.
- The form stores the duration's label, not its number. `parseInt("Ongoing")` is NaN, so a medication saved as "Ongoing" is never listed for today.
- The progress counts every taken record of today, so it can exceed 1.
- With a total supply of 0 the percentage is NaN (0/0) or +Infinity. Neither is at most a threshold, so the tier is Good, not Low.
- The calendar's take button guards against a duplicate only for the selected day. The record it writes is stamped with the current instant, so a press on any other day never makes that day read as taken, and each press there adds another record.

## Model

| member | source | states |
|---|---|---|
| Js.TrimEmptyIffBlank | app/medications/add.tsx:120-126 | `trim()` is empty exactly when the text is all white space; otherwise it is the inner slice: it starts and ends with a character that is not white space, and only white space comes before and after it |
| Js.Trim | app/medications/add.tsx:120-126 | `trim()` is never longer than the text, and a non-empty result starts and ends with a character that is not white space |
| Js.ParseInt | app/home.tsx:247 | parseInt is NaN exactly when, after leading white space and an optional sign, no decimal digit follows |
| Js.NumberOfSpec | app/medications/add.tsx:171-173 | `Number` of a blank text is 0; `Number` of a run of digits is the value the digits spell |
| Js.NumberOf | app/medications/add.tsx:171-173 | `Number` of an all-white-space text is 0 |
| Js.Min | app/home.tsx:213-216 | `Math.min` is NaN when either side is; otherwise it is the smaller of the two inputs and equals one of them |
| Js.Percentage | app/refills/index.tsx:68-69 | with a positive total the percentage is exactly current·100/total; any fraction it returns has a positive denominator |
| Storage.RemoveById | app/home.tsx:204 | deleteDose keeps exactly the records whose id differs, and never lengthens the history |
| Storage.RemoveByIdUnique | app/home.tsx:204 | with unique ids, deleting the id of the record at index i removes that record and only it, keeping the order |
| Storage.FindById | app/home.tsx:208-210 | `find` is None exactly when no record has the id; otherwise it is the first record that has it |
| Storage.ReplaceById | app/refills/index.tsx:54 | updateMedication replaces every record with the id and keeps every other record and the length |
| Storage.Store.RecordDose | app/home.tsx:324 | recordDose appends one record and leaves the medications alone |
| Storage.Store.DeleteDose | app/home.tsx:204 | deleteDose drops the records with the id and leaves the medications alone |
| Storage.Store.UpdateMedication | app/home.tsx:217 | updateMedication rewrites the medications by id and leaves the doses alone |
| Storage.Store.AddMedication | app/medications/add.tsx:178 | addMedication appends the record and leaves the doses alone |
| Schedule.FirstWord | app/home.tsx:247 | `split(" ")[0]` is a prefix with no space, and it ends at the first space |
| Schedule.FirstWordWithoutSpace | app/home.tsx:247 | a text without a space is its own `split(" ")[0]` |
| Schedule.DurationDays | app/home.tsx:247 | a duration without a space reads as `parseInt` of the whole text; one starting with a space reads as NaN (its first word is empty) |
| Schedule.IsActiveToday | app/home.tsx:245-256 | a listed medication has a duration that parses to a number, and unless that number is -1 its start is not after today |
| Schedule.TodaysMedications | app/home.tsx:245-261 | the list holds exactly the medications that are active today, and no more entries than the input |
| Schedule.TodaysMedicationsKeepsOrder | app/home.tsx:245-263 | today's list is an order-preserving subsequence of all medications |
| Schedule.SentinelAlwaysActive | app/home.tsx:250-252 | a parsed duration of -1 is active on every instant, including one before the start date |
| Schedule.FixedWindowInclusive | app/home.tsx:252-256 | a duration of n days is active exactly on [start, start + n·86400000] ms, both ends included and neither neighbour |
| Schedule.NaNDurationNeverActive | app/home.tsx:247-256 | a duration that parses to NaN is never active |
| Schedule.OngoingLabelNeverActive | app/home.tsx:247-256 | the stored label "Ongoing" parses to NaN, not -1, so such a medication is never active |
| Schedule.DaysLabelParses | app/home.tsx:247 | a label "<digits> days" parses to the number its digits spell |
| Schedule.SevenDayScenario | app/home.tsx:245-261 | "7 days" from 2024-01-01T00:00Z is active at +7 days and not 1 ms later |
| Schedule.SevenDaysLabel | app/medications/add.tsx:61 | the label "7 days" reads back as 7 |
| Home.IsDoseTaken | app/home.tsx:332-336 | taken exactly when some record has the id and `taken = true` |
| Home.LatestTakenDose | app/home.tsx:183-193 | there is no latest taken dose exactly when none is taken; otherwise it is a taken record of the medication from the history |
| Home.RestoreSupply | app/home.tsx:212-216 | undo writes only the current supply, and a medication within bounds stays within bounds |
| Home.AfterTake | app/home.tsx:322-330 | a take keeps the medications and the existing records, and appends exactly one record, a taken one of this medication |
| Home.AfterUndo | app/home.tsx:180-218 | undo without a taken dose changes nothing; undo never adds a record, never changes the number of medications, and keeps every supply within bounds |
| Home.AfterTap | app/home.tsx:459-465 | a tap on an untaken card appends one record and writes no medication; a tap on a taken card never adds a record; no tap breaks the supply bounds |
| Home.UndoFreshTake | app/home.tsx:190-204 | undo right after a take deletes exactly the record the take appended |
| Home.CompletedCount | app/home.tsx:266 | the completed count never exceeds the number of records |
| Home.CompletedCountAppend | app/home.tsx:266 | the count of a concatenation is the sum of the counts |
| Home.CompletedCountBounds | app/home.tsx:266 | the count is 0 exactly when nothing is taken, and equals the length exactly when everything is |
| Home.Progress | app/home.tsx:338-341 | the progress is a fraction with a positive denominator and a non-negative numerator |
| Home.TodaysProgress | app/home.tsx:338-341 | the progress shown after a reload always has a positive denominator |
| Home.ProgressScenario | app/home.tsx:338-341 | 2 active medications and 3 taken doses give 3/4 |
| Home.NoActiveMedicationNoProgress | app/home.tsx:338-341 | with no medication active today the progress is 0 |
| Home.NoneActiveEmptyList | app/home.tsx:245-263 | when no medication is active, today's list is empty |
| Home.EveryTakenRecordCounts | app/home.tsx:266 | any further taken record raises the numerator by one and keeps the denominator, even for a medication that is not active |
| Home.ProgressNotCapped | app/home.tsx:338-341 | the progress can exceed 1 (3 taken for 1 active) |
| Home.LatestTakenDoseSpec | app/home.tsx:183-193 | there is a latest taken dose exactly when a dose is taken; it is a taken record of the medication; no taken record is later; earlier ones in history order are strictly earlier (stable sort) |
| Home.RestoreSupplyCapped | app/home.tsx:212-217 | undo sets supply to min(current + 1, total); it stays in bounds, is unchanged when full, keeps NaN as NaN, and writes no other field |
| Home.HandleTakeDose | app/home.tsx:322-330 | the store is AfterTake of its old state: one taken record appended, supply untouched |
| Home.HandleUndoDose | app/home.tsx:180-218 | the store is AfterUndo of its old state: the latest taken dose is deleted and the re-read medication gets one unit back |
| Home.PressDoseCard | app/home.tsx:459-465 | the store is AfterTap of its old state: take when not taken, undo when taken |
| Home.UndoWithoutTakenDoseIsNoop | app/home.tsx:183-187 | undo without a taken dose changes nothing |
| Home.UndoDeletesLatestDose | app/home.tsx:190-204 | undo deletes exactly one record, the latest taken dose, and keeps every other record in order |
| Home.UndoRestoresSupply | app/home.tsx:206-217 | after undo, other medications are unchanged, the medication is restored once and capped, and the supply invariant is preserved |
| Home.TapDispatch | app/home.tsx:459-465 | a tap on an untaken card appends one taken record only; a tap on a taken card only removes records |
| Home.TapKeepsSupplyInBounds | app/home.tsx:459-465 | no tap breaks the supply invariant |
| Home.TakeThenUndo | app/home.tsx:459-465 | take then tap again restores the ledger exactly, while the supply is the restored one |
| Home.RoundTripRaisesSupply | app/home.tsx:212-217 | in any store that holds the medication, take then undo on a medication below its total leaves every record of it one unit higher |
| Refills.SupplyPercentage | app/refills/index.tsx:156-157 | a finite percentage has a positive denominator |
| Refills.SupplyStatus | app/refills/index.tsx:67-89 | Low needs a numeric threshold; a NaN supply or total is Good |
| Refills.RefillButton | app/refills/index.tsx:255 | equal supplies or a NaN read "Fully Stocked"; with a positive total, "Refill Now" exactly when current < total |
| Refills.Refill | app/refills/index.tsx:48-52 | a refill sets the supply to the total, dates the refill now, and writes no other field |
| Refills.SupplyStatusPositiveTotal | app/refills/index.tsx:67-89 | with a positive total: Low iff current·100 ≤ refillAt·total; Medium iff not Low and current·100 ≤ 50·total; Good otherwise |
| Refills.ZeroTotalIsGood | app/refills/index.tsx:68-89 | a total of 0 with a non-negative or NaN supply is Good and "Fully Stocked" |
| Refills.NaNSupplyIsGood | app/refills/index.tsx:67-89 | a NaN supply or total is Good and "Fully Stocked" |
| Refills.SupplyStatusMonotone | app/refills/index.tsx:67-89 | with a fixed positive total and threshold, the tier never drops as the supply grows |
| Refills.RefillButtonIffBelowTotal | app/refills/index.tsx:255 | within bounds, "Refill Now" is shown exactly when current < total |
| Refills.RefillSpec | app/refills/index.tsx:48-52 | a refill writes only the supply (set to the total) and the date; refilling again only moves the date; the button reads "Fully Stocked"; gives the tier afterwards; in bounds iff total ≥ 0 |
| Refills.RefillNeverLowersTier | app/refills/index.tsx:48-89 | from within bounds, a refill never lowers the tier |
| Refills.StatusScenarios | app/refills/index.tsx:67-89 | with total 30 and threshold 20: 30 is Good, 12 is Medium, 5 is Low |
| Refills.HandleRefill | app/refills/index.tsx:46-54 | the store has the refilled record in place of the old one, and the doses are untouched |
| Refills.RefillStoreEffect | app/refills/index.tsx:48-54 | after a refill every record with the id is full and "Fully Stocked"; every other record is unchanged |
| AddMedication.FindFrequency | app/medications/add.tsx:214 | `find` is None exactly when no entry has the label; otherwise it is an entry with that label and no earlier entry has it, so it is the first |
| AddMedication.FrequencyTimes | app/medications/add.tsx:214-218 | a label missing from the table gives no times; non-empty times are those of a table entry with that label |
| AddMedication.FrequencyRow | app/medications/add.tsx:32-58 | each entry of the table gives its own times |
| AddMedication.SelectFrequency | app/medications/add.tsx:212-223 | the form gets the label and the times of the table, and the error map keeps its keys with the frequency error blanked |
| AddMedication.SelectDuration | app/medications/add.tsx:225-231 | the form gets the label and keeps its times, and the error map keeps its keys with the duration error blanked |
| AddMedication.FormAccepted | app/medications/add.tsx:117-151 | an accepted form has a name and a dosage that are not blank, and with refill tracking on both supply fields are filled in |
| AddMedication.BuildMedication | app/medications/add.tsx:168-176 | the record takes the form fields, the new id and the colour, has current = total, has no refill date, and reads blank supply and threshold as 0 |
| AddMedication.FrequencyTimesTable | app/medications/add.tsx:32-58 | once, twice, three and four times daily give 1, 2, 3 and 4 times; "As needed" gives none |
| AddMedication.FrequencyTimesUnknown | app/medications/add.tsx:214-218 | a label missing from the table gives no times |
| AddMedication.SelectorsSpec | app/medications/add.tsx:212-231 | selecting writes only the chosen field (and the times), blanks that field's error, and keeps the other errors |
| AddMedication.ValidateForm | app/medications/add.tsx:117-151 | each error key is present exactly when its rule fails, with the source's message; valid iff the map is empty iff the form is accepted |
| AddMedication.CheckRequiredFields | app/medications/add.tsx:120-134 | blank-after-trim name or dosage and empty frequency or duration each add their message, and nothing else is added |
| AddMedication.CheckRefillFields | app/medications/add.tsx:136-147 | supply and threshold are required; a threshold not below the supply overwrites the threshold's message; all other keys are kept |
| AddMedication.RefillFieldsIgnoredWhenOff | app/medications/add.tsx:136 | with refill tracking off, supply and threshold text never affect acceptance |
| AddMedication.ThresholdBelowSupply | app/medications/add.tsx:136-146 | an accepted numeric threshold is strictly below the supply; blank entries are rejected; NaN entries pass the comparison |
| AddMedication.NewRecordSupply | app/medications/add.tsx:168-176 | a new record has current = total; both are 0 when blank; the threshold is 0 when blank; in bounds exactly when the supply is blank or a non-negative number |
| AddMedication.DurationValues | app/medications/add.tsx:60-66 | every duration is positive except "Ongoing", which is -1 |
| AddMedication.DurationLabelsParse | app/medications/add.tsx:60-66 | each stored day label reads back as its table value; "Ongoing" reads back as NaN |
| AddMedication.FourteenDaysLabel | app/medications/add.tsx:62 | "14 days" reads back as 14 |
| AddMedication.ThirtyDaysLabel | app/medications/add.tsx:63 | "30 days" reads back as 30 |
| AddMedication.NinetyDaysLabel | app/medications/add.tsx:64 | "90 days" reads back as 90 |
| AddMedication.OngoingLabel | app/medications/add.tsx:65 | "Ongoing" reads back as NaN |
| AddMedication.TwoDigitLabel | app/medications/add.tsx:62-64 | a two-digit day label reads back as 10·d1 + d2 |
| AddMedication.HandleSave | app/medications/add.tsx:153-178 | saved iff the form is accepted; then exactly the built record is appended, otherwise nothing is written |
| AddMedication.SavedOngoingNeverActive | app/medications/add.tsx:225-227 | a medication saved with the "Ongoing" duration is never listed for today |
| CivilDates.DaysInMonth | app/calendar/index.tsx:72 | a month has 28 to 31 days |
| CivilDates.DayFromYear | app/calendar/index.tsx:72 | 1 January 1970 is day 0 and 1 January 1971 is day 365 |
| CivilDates.MakeDay | app/calendar/index.tsx:55-59 | with the month in range, MakeDay is the day number of the date, and day 1 is the start of the month |
| CivilDates.RollDay | app/calendar/index.tsx:82 | rolling an out-of-range day always ends on a valid date |
| CivilDates.NewDate | app/calendar/index.tsx:55-59 | `new Date(y, m, d)` for a year outside 0-99 always reads back as a valid date |
| CivilDates.NewDateAgrees | app/calendar/index.tsx:55-59 | the rollover lands on MakeDay(y, m, d), the standard's day number |
| CivilDates.RollDayAgrees | app/calendar/index.tsx:82 | rolling an out-of-range day moves it by whole months without changing its day number |
| CivilDates.YearStep | app/calendar/index.tsx:72 | consecutive years are 365 or 366 days apart, as the leap-year rule says |
| CivilDates.MonthStep | app/calendar/index.tsx:72 | the next month starts DaysInMonth days later, across a year end too |
| CivilDates.NewDateOfValid | app/calendar/index.tsx:82 | a date already in range reads back unchanged |
| CivilDates.DayZeroIsLastOfMonth | app/calendar/index.tsx:72 | day 0 of the next month is the last day of this one |
| CivilDates.FirstOfShiftedMonth | app/calendar/index.tsx:55-59 | `new Date(y, m + k, 1)` is the first of the month k away, by floor division |
| CivilDates.WeekDay | app/calendar/index.tsx:73 | `getDay` is between 0 and 6 |
| CivilDates.WeekDayStep | app/calendar/index.tsx:73 | the next day number has the next weekday |
| CivilDates.LeapYearExamples | app/calendar/index.tsx:72 | February has 29 days in 2024 and 2000, and 28 in 2023 and 1900 |
| CivilDates.KnownWeekDays | app/calendar/index.tsx:73 | 2024-01-01 is a Monday and 2024-09-01 a Sunday |
| Calendar.MonthChangeSpec | app/calendar/index.tsx:48-67 | month change lands on day 1 of the month `direction` away, with year rollover; changing back returns to the first of the start month |
| Calendar.MonthChange | app/calendar/index.tsx:48-67 | the new date is day 1 of a month in range, `direction` months from the selected one |
| Calendar.LocalDay | app/calendar/index.tsx:84-86 | the local day of an instant is the day whose 86400000 ms span holds the shifted instant |
| Calendar.HasDoses | app/calendar/index.tsx:84-86 | a day has a marker exactly when some record's local day is that day |
| Calendar.FirstWeekDay | app/calendar/index.tsx:73 | the number of leading blanks is between 0 and 6 |
| Calendar.DayCellFor | app/calendar/index.tsx:81-86 | the cell of day d is a day cell for d; for a valid date it is marked today and with doses exactly when so |
| Calendar.GridCells | app/calendar/index.tsx:72-100 | the grid of a month in range has firstDay + DaysInMonth cells |
| Calendar.GridCellsIndex | app/calendar/index.tsx:77-100 | the grid holds firstDay blanks, then the cell of each day 1..N in increasing order |
| Calendar.GridCellsSpec | app/calendar/index.tsx:72-100 | the grid has firstDay + DaysInMonth cells; each day's cell sits in its weekday's column and is marked today and with doses exactly when so |
| Calendar.GridDay | app/calendar/index.tsx:81-86 | the cell of day d is at index firstDay + d - 1, in column WeekDay of the date, with the correct markers |
| Calendar.FullWeeksSnoc | app/calendar/index.tsx:102-109 | pushing one cell closes a week exactly when the count reaches a multiple of 7 |
| Calendar.FullWeeks | app/calendar/index.tsx:102-109 | n cells give ⌊n/7⌋ weeks |
| Calendar.AllWeeks | app/calendar/index.tsx:102-112 | n cells give ⌈n/7⌉ weeks when the unfinished one is kept |
| Calendar.FullWeeksSpec | app/calendar/index.tsx:102-109 | the emitted weeks number ⌊n/7⌋, each has 7 cells, and together they are the cells up to the last full week |
| Calendar.PushCellStep | app/calendar/index.tsx:88-109 | one push-and-flush step keeps the calendar as the full weeks so far and the week as the cells since |
| Calendar.BuildWeeks | app/calendar/index.tsx:69-110 | the loop ends with the calendar equal to the full weeks of the grid and the week equal to the cells left over |
| Calendar.RenderCalendar | app/calendar/index.tsx:69-115 | as written, the rendered weeks are the full weeks of the grid only |
| Calendar.RenderedWeeks | app/calendar/index.tsx:102-110 | as written, (firstDay + days)/7 weeks of 7 cells are shown, and every dropped cell is a day |
| Calendar.DroppedDaysNotShown | app/calendar/index.tsx:102-110 | a day in the unfinished last week appears nowhere in the grid as written |
| Calendar.SundayThirtyTailDropped | app/calendar/index.tsx:102-110 | a 30-day month starting on a Sunday shows 4 weeks, and days 29 and 30 are missing |
| Calendar.SeptemberTailDropped | app/calendar/index.tsx:102-110 | September 2024 shows 4 weeks, and days 29 and 30 are missing |
| Calendar.SeptemberLayout | app/calendar/index.tsx:72-73 | September 2024 starts on a Sunday and has 30 days |
| Calendar.AllWeeksSpec | app/calendar/index.tsx:102-109 | every week of the corrected layout has 1 to 7 cells, all but the last have 7, and they cover all cells |
| Calendar.AllWeeksFromFull | app/calendar/index.tsx:102-110 | the corrected weeks are the full weeks plus the leftover week when it is not empty |
| Calendar.RenderCalendarFlushed | app/calendar/index.tsx:69-115 | with the leftover week pushed after the loop, the rendered weeks are AllWeeks of the grid |
| Calendar.FlushedShowsEveryDay | app/calendar/index.tsx:69-115 | corrected, every day of the month is shown, in weeks of 1 to 7 cells, covering the grid exactly |
| Calendar.DayDoses | app/calendar/index.tsx:118-121 | the records of a day are exactly the records whose local day is the selected day |
| Calendar.TakenOnDay | app/calendar/index.tsx:118-124 | a medication shows as taken on a day exactly when a taken record of it falls on that day |
| Calendar.TakenInDayDoses | app/calendar/index.tsx:118-124 | a taken record is among the day's records exactly when one with that day's timestamp is in the history |
| Calendar.AfterCalendarPress | app/calendar/index.tsx:131-138 | a press never writes a medication; it changes nothing exactly when the medication is taken that day, and otherwise appends one taken record stamped now |
| Calendar.TakenOnDaySpec | app/calendar/index.tsx:118-124 | taken on a day iff a taken record of the medication falls on it; a marker iff some record does; taken implies a marker |
| Calendar.PressMedication | app/calendar/index.tsx:131-138 | the store is AfterCalendarPress of its old state: a taken record stamped now, only when not taken that day |
| Calendar.CalendarPressSpec | app/calendar/index.tsx:131-138 | a press on a taken medication changes nothing; otherwise it appends exactly one taken record |
| Calendar.PressTodayTwiceAddsOne | app/calendar/index.tsx:131-138 | with today selected, a second press after the reload adds nothing |
| Calendar.PressOtherDayRepeats | app/calendar/index.tsx:131-138 | with another day selected, the medication stays untaken there and each press adds another record |

## Left out

- Alerts: the cancel button of the undo confirmation is left out, and only the confirmed path is modelled. The success and failure Alerts of handleSave and handleRefill are left out too.
- Exceptions: the `catch` branches are left out, since each helper call is modelled as one that succeeds.
- Debouncing: the `isSubmitting` flag of handleSave is left out. It only guards against concurrent saves.
- Storage and notification helpers: these are not part of this model.
  - getMedications, getTodaysDoses, recordDose, deleteDose, updateMedication and addMedication are each modelled as the sequence update their name describes.
  - The notification scheduling calls are left out.
  - The id that recordDose assigns to a new record is a parameter.
  - Which records getTodaysDoses returns is not modelled. The home lemmas take the history the screen holds as a parameter.
- Values drawn at runtime: `Math.random` ids and colours, and `new Date()`, are parameters.
  - The ISO string of an instant is kept as the instant in milliseconds.
- Time zones: `toDateString` equality is local-day-number equality at a fixed offset from UTC. Daylight-saving changes are not modelled.
- Dates: a selected date is a valid CivilDate. This is why the calendar methods require `0 <= month < 12`: a JavaScript Date's getMonth is always in that range.
- Js.NumberOf: `Number` is modelled for decimal integers only. Hexadecimal, fractional, exponent and Infinity literals read as NaN in this model, while JavaScript reads them as numbers.
- Js.ParseInt: `parseInt` reads the leading decimal digits and stops at the first other character. So "1.5" reads as 1, as in JavaScript, but "0x1A" reads as 0 where JavaScript reads 26.
- CivilDates.NewDate: years 0 to 99 are not mapped to 1900 + y as JavaScript does, so `new Date(99, 0, 1)` is 1 January 99 here. The time-value range of ±8.64e15 ms, beyond which JavaScript gives an Invalid Date, is not modelled. The calendar's month navigation starts from the current date, so it reaches neither.
- Schedule.IsActiveToday: the end of the active window, `new Date(start + durationDays · 86400000)`, is an unbounded integer here. For a duration so large that the end lies beyond ±8.64e15 ms, JavaScript gives an Invalid Date, the comparison is false, and the medication is not listed, while the model lists it. No entry of the duration table comes near that range.
- Storage.Store.RecordDose: the model assumes recordDose only appends a record and does not lower the supply, because the storage helper is not part of this model. The undo alert's text ("This will restore 1 dose to your supply", app/home.tsx:197) suggests that taking lowers it. Home.TakeThenUndo and Home.RoundTripRaisesSupply depend on this assumption: they state that a take and an undo leave the supply one unit higher, capped at the total.
- Js.IsWhitespace: the Unicode space-separator category (Zs) beyond U+00A0 is not included in the white space that trim skips.
- Floating point: percentages and progress are exact fractions. Rounding of `/` on doubles is not modelled.
- Rendering: JSX, styles, animation, haptics, focus and AppState reload hooks, and async interleaving between the awaits are left out.

## Findings

| source | as written | input that shows it | evidently intended | confidence | as-written member | corrected member |
|---|---|---|---|---|---|---|
| app/calendar/index.tsx:102-112 | the week still being filled when the day loop ends is never pushed into the calendar, so the last days of most months are not shown | September 2024: it starts on a Sunday and has 30 days, so days 29 and 30 are left in the unfinished week and dropped | push the unfinished week after the loop, so that every day of the month is shown | not executed | Calendar.RenderCalendar, Calendar.SeptemberTailDropped | Calendar.RenderCalendarFlushed, Calendar.FlushedShowsEveryDay |
