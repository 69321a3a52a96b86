/** The calendar screen (app/calendar/index.tsx): month navigation, the
    month grid renderCalendar lays out week by week, the dose marker of a
    day, and the medication list of the selected day with its guarded take
    button. A day is a local day number (CivilDates); an instant is turned
    into one with a fixed time-zone offset. */
module Calendar {
  import opened Records
  import opened Storage
  import opened Home
  import opened CivilDates

  /** handleMonthChange: new Date(year, month + direction, 1). */
  function MonthChange(selected: CivilDate, direction: int): (r: CivilDate)
    ensures r.day == 1 && 0 <= r.month < 12
    ensures r.year * 12 + r.month == selected.year * 12 + selected.month + direction
  {
    FirstOfShiftedMonth(selected.year, selected.month, direction);
    NewDate(selected.year, selected.month + direction, 1)
  }

  /** Changing month lands on the first of the month `direction` months
      away, with the year rolling over in either direction, and changing
      back returns to the first of the month we started from. */
  lemma {:induction false} MonthChangeSpec(selected: CivilDate, direction: int)
    requires Valid(selected)
    ensures var r := MonthChange(selected, direction);
      r.day == 1 && 0 <= r.month < 12
      && r.year * 12 + r.month == selected.year * 12 + selected.month + direction
      && r == CivilDate(selected.year + (selected.month + direction) / 12, (selected.month + direction) % 12, 1)
    ensures MonthChange(MonthChange(selected, direction), -direction) == CivilDate(selected.year, selected.month, 1)
  {
    var r := MonthChange(selected, direction);
    FirstOfShiftedMonth(selected.year, selected.month, direction);
    FirstOfShiftedMonth(r.year, r.month, -direction);
    var back := MonthChange(r, -direction);
    assert back.year * 12 + back.month == selected.year * 12 + selected.month;
    SameMonthIndex(back.year, back.month, selected.year, selected.month);
  }

  lemma SameMonthIndex(y1: int, m1: int, y2: int, m2: int)
    requires 0 <= m1 < 12 && 0 <= m2 < 12
    requires y1 * 12 + m1 == y2 * 12 + m2
    ensures y1 == y2 && m1 == m2
  {
  }

  /** The local calendar day of an instant: the toDateString of a
      timestamp, for a time zone at a fixed offset from UTC. */
  function LocalDay(timestamp: int, offset: int): (day: int)
    ensures day * MS_PER_DAY <= timestamp + offset < (day + 1) * MS_PER_DAY
  {
    (timestamp + offset) / MS_PER_DAY
  }

  /** hasDoses: some record of the history falls on the day. */
  function HasDoses(doses: seq<DoseRecord>, dayNumber: int, offset: int): (r: bool)
    ensures r <==> exists k :: 0 <= k < |doses| && LocalDay(doses[k].timestamp, offset) == dayNumber
  {
    if doses == [] then false
    else LocalDay(doses[0].timestamp, offset) == dayNumber
         || (assert doses == [doses[0]] + doses[1..]; HasDoses(doses[1..], dayNumber, offset))
  }

  /** One slot of the grid: an empty cell before day 1, or a day. */
  datatype Cell = Blank | DayCell(day: int, isToday: bool, hasDoses: bool)

  /** The number of days of the month, new Date(year, month + 1, 0).getDate(). */
  function MonthDays(year: int, month: int): int {
    NewDate(year, month + 1, 0).day
  }

  /** The weekday of day 1, new Date(year, month, 1).getDay(). */
  function FirstWeekDay(year: int, month: int): (w: int)
    ensures 0 <= w < 7
  {
    WeekDay(DayNumber(NewDate(year, month, 1)))
  }

  /** The cell renderCalendar pushes for a day of the month. */
  function DayCellFor(year: int, month: int, day: int, today: int, doses: seq<DoseRecord>, offset: int): (c: Cell)
    ensures c.DayCell? && c.day == day
    ensures Valid(CivilDate(year, month, day)) ==>
      var n := DayNumber(CivilDate(year, month, day));
      c.isToday == (n == today) && c.hasDoses == HasDoses(doses, n, offset)
  {
    var date := NewDate(year, month, day);
    assert Valid(CivilDate(year, month, day)) ==> date == CivilDate(year, month, day) by {
      if Valid(CivilDate(year, month, day)) { NewDateOfValid(CivilDate(year, month, day)); }
    }
    DayCell(day, DayNumber(date) == today, HasDoses(doses, DayNumber(date), offset))
  }

  /** Every cell renderCalendar pushes, in order: the blanks, then each day. */
  function GridCells(year: int, month: int, today: int, doses: seq<DoseRecord>, offset: int): (cells: seq<Cell>)
    ensures 0 <= month < 12 ==> |cells| == FirstWeekDay(year, month) + DaysInMonth(year, month)
  {
    assert 0 <= month < 12 ==> MonthDays(year, month) == DaysInMonth(year, month) by {
      if 0 <= month < 12 { DayZeroIsLastOfMonth(year, month); }
    }
    seq(FirstWeekDay(year, month), _ => Blank)
    + seq(MonthDays(year, month), i => DayCellFor(year, month, i + 1, today, doses, offset))
  }

  /** Where each cell of the grid sits. */
  lemma GridCellsIndex(year: int, month: int, today: int, doses: seq<DoseRecord>, offset: int)
    ensures var cells := GridCells(year, month, today, doses, offset);
      var first := FirstWeekDay(year, month);
      |cells| == first + MonthDays(year, month)
      && (forall i :: 0 <= i < first ==> cells[i] == Blank)
      && forall i :: first <= i < |cells| ==> cells[i] == DayCellFor(year, month, i - first + 1, today, doses, offset)
  {
  }

  lemma GridCellAt(year: int, month: int, today: int, doses: seq<DoseRecord>, offset: int, i: int)
    requires 0 <= i < FirstWeekDay(year, month) + MonthDays(year, month)
    ensures var cells := GridCells(year, month, today, doses, offset);
      var first := FirstWeekDay(year, month);
      i < |cells|
      && cells[i] == if i < first then Blank else DayCellFor(year, month, i - first + 1, today, doses, offset)
  {
    GridCellsIndex(year, month, today, doses, offset);
  }

  /** The grid of a month holds one blank per weekday before the first,
      then every day of the month once, in increasing order; each day's
      cell sits in the column of its weekday and is marked as today and as
      having doses exactly when it is so. */
  lemma {:induction false} GridCellsSpec(year: int, month: int, today: int, doses: seq<DoseRecord>, offset: int)
    requires 0 <= month < 12
    ensures var cells := GridCells(year, month, today, doses, offset);
      var first := FirstWeekDay(year, month);
      first == WeekDay(MonthStart(year, month))
      && |cells| == first + DaysInMonth(year, month)
      && (forall i :: 0 <= i < first ==> cells[i] == Blank)
      && forall d :: 1 <= d <= DaysInMonth(year, month) ==>
           var date := CivilDate(year, month, d);
           cells[first + d - 1] == DayCell(d, DayNumber(date) == today, HasDoses(doses, DayNumber(date), offset))
           && (first + d - 1) % 7 == WeekDay(DayNumber(date))
  {
    GridCellsIndex(year, month, today, doses, offset);
    DayZeroIsLastOfMonth(year, month);
    NewDateOfValid(CivilDate(year, month, 1));
    forall d | 1 <= d <= DaysInMonth(year, month)
      ensures var date := CivilDate(year, month, d);
        GridCells(year, month, today, doses, offset)[FirstWeekDay(year, month) + d - 1]
          == DayCell(d, DayNumber(date) == today, HasDoses(doses, DayNumber(date), offset))
        && (FirstWeekDay(year, month) + d - 1) % 7 == WeekDay(DayNumber(date))
    {
      GridDay(year, month, today, doses, offset, d);
    }
  }

  lemma {:induction false} GridDay(year: int, month: int, today: int, doses: seq<DoseRecord>, offset: int, d: int)
    requires 0 <= month < 12 && 1 <= d <= DaysInMonth(year, month)
    ensures var date := CivilDate(year, month, d);
      var first := FirstWeekDay(year, month);
      var cells := GridCells(year, month, today, doses, offset);
      first + d - 1 < |cells|
      && cells[first + d - 1] == DayCell(d, DayNumber(date) == today, HasDoses(doses, DayNumber(date), offset))
      && (first + d - 1) % 7 == WeekDay(DayNumber(date))
  {
    GridCellsIndex(year, month, today, doses, offset);
    DayZeroIsLastOfMonth(year, month);
    NewDateOfValid(CivilDate(year, month, 1));
    NewDateOfValid(CivilDate(year, month, d));
    ColumnOfDay(MonthStart(year, month), d);
  }

  lemma ColumnOfDay(start: int, d: int)
    ensures ((start + 4) % 7 + d - 1) % 7 == (start + d - 1 + 4) % 7
  {
  }

  /** The 7-cell weeks of a row of cells; cells after the last full week
      are dropped. */
  function FullWeeks(cells: seq<Cell>): (weeks: seq<seq<Cell>>)
    ensures |weeks| == |cells| / 7
    decreases |cells|
  {
    if |cells| < 7 then [] else [cells[..7]] + FullWeeks(cells[7..])
  }

  /** The weeks of a row of cells, the last one possibly shorter. */
  function AllWeeks(cells: seq<Cell>): (weeks: seq<seq<Cell>>)
    ensures |weeks| == (|cells| + 6) / 7
    decreases |cells|
  {
    if cells == [] then [] else if |cells| <= 7 then [cells] else [cells[..7]] + AllWeeks(cells[7..])
  }

  function Flatten(weeks: seq<seq<Cell>>): seq<Cell> {
    if weeks == [] then [] else weeks[0] + Flatten(weeks[1..])
  }

  /** Adding a cell closes a week exactly when the count reaches a multiple
      of 7. */
  lemma {:induction false} FullWeeksSnoc(s: seq<Cell>, c: Cell)
    ensures FullWeeks(s + [c]) == if (|s| + 1) % 7 == 0 then FullWeeks(s) + [(s + [c])[|s| + 1 - 7..]] else FullWeeks(s)
    decreases |s|
  {
    if |s| + 1 < 7 {
    } else if |s| + 1 == 7 {
      assert (s + [c])[..7] == s + [c];
      assert (s + [c])[7..] == [];
    } else {
      assert (s + [c])[..7] == s[..7];
      assert (s + [c])[7..] == s[7..] + [c];
      FullWeeksSnoc(s[7..], c);
      if (|s| + 1) % 7 == 0 {
        assert (s[7..] + [c])[|s| - 7 + 1 - 7..] == (s + [c])[|s| + 1 - 7..];
      }
    }
  }

  /** Every emitted week has 7 cells, there are |cells| / 7 of them, and
      together they are the cells up to the last full week. */
  lemma {:induction false} FullWeeksSpec(cells: seq<Cell>)
    ensures |FullWeeks(cells)| == |cells| / 7
    ensures forall k :: 0 <= k < |FullWeeks(cells)| ==> |FullWeeks(cells)[k]| == 7
    ensures Flatten(FullWeeks(cells)) == cells[..|cells| / 7 * 7]
    decreases |cells|
  {
    if |cells| >= 7 {
      var rest := cells[7..];
      FullWeeksSpec(rest);
      assert |rest| / 7 == |cells| / 7 - 1;
      assert cells[..|cells| / 7 * 7] == cells[..7] + rest[..|rest| / 7 * 7];
      var weeks := FullWeeks(cells);
      assert weeks[1..] == FullWeeks(rest);
      forall k | 0 <= k < |weeks| ensures |weeks[k]| == 7 {
        if k > 0 { assert weeks[k] == FullWeeks(rest)[k - 1]; }
      }
    }
  }

  /** Every week of AllWeeks has between 1 and 7 cells, all but the last
      exactly 7, and together they are all the cells. */
  lemma {:induction false} AllWeeksSpec(cells: seq<Cell>)
    ensures |AllWeeks(cells)| == (|cells| + 6) / 7
    ensures forall k :: 0 <= k < |AllWeeks(cells)| ==> 1 <= |AllWeeks(cells)[k]| <= 7
    ensures forall k :: 0 <= k < |AllWeeks(cells)| - 1 ==> |AllWeeks(cells)[k]| == 7
    ensures Flatten(AllWeeks(cells)) == cells
    decreases |cells|
  {
    if |cells| > 7 {
      var rest := cells[7..];
      AllWeeksSpec(rest);
      assert cells == cells[..7] + rest;
      var weeks := AllWeeks(cells);
      assert weeks[1..] == AllWeeks(rest);
      forall k | 0 <= k < |weeks| ensures 1 <= |weeks[k]| <= 7 && (k < |weeks| - 1 ==> |weeks[k]| == 7) {
        if k > 0 { assert weeks[k] == AllWeeks(rest)[k - 1]; }
      }
    } else if cells != [] {
      assert Flatten([cells]) == cells + Flatten([]);
    }
  }

  /** The weeks with the unfinished one pushed at the end. */
  lemma {:induction false} AllWeeksFromFull(cells: seq<Cell>)
    ensures var tail := cells[|cells| / 7 * 7..];
      AllWeeks(cells) == FullWeeks(cells) + (if tail == [] then [] else [tail])
    decreases |cells|
  {
    if |cells| > 7 {
      var rest := cells[7..];
      AllWeeksFromFull(rest);
      assert cells[|cells| / 7 * 7..] == rest[|rest| / 7 * 7..];
    } else if |cells| == 7 {
      assert cells[7..] == [];
      assert cells[..7] == cells;
    }
  }

  /** One step of the day loop of renderCalendar keeps its invariant:
      the calendar holds the full weeks so far and the week the cells since. */
  lemma {:induction false} PushCellStep(cells: seq<Cell>, n: int, calendar: seq<seq<Cell>>, week: seq<Cell>)
    requires 0 <= n < |cells|
    requires calendar == FullWeeks(cells[..n]) && week == cells[n / 7 * 7..n]
    ensures var w := week + [cells[n]];
      |w| <= 7
      && (|w| == 7 ==> calendar + [w] == FullWeeks(cells[..n + 1]) && [] == cells[(n + 1) / 7 * 7..n + 1])
      && (|w| != 7 ==> calendar == FullWeeks(cells[..n + 1]) && w == cells[(n + 1) / 7 * 7..n + 1])
  {
    assert cells[..n + 1] == cells[..n] + [cells[n]];
    FullWeeksSnoc(cells[..n], cells[n]);
    if (n + 1) % 7 == 0 {
      assert (n + 1) / 7 * 7 == n + 1 && n / 7 * 7 == n + 1 - 7;
      assert (cells[..n] + [cells[n]])[n + 1 - 7..] == week + [cells[n]];
    } else {
      assert (n + 1) / 7 * 7 == n / 7 * 7;
    }
  }

  /** The loop of renderCalendar: first the blanks, then one cell per day,
      moving the week into the calendar each time it holds 7 cells. It
      returns the calendar and the week still being filled. */
  method BuildWeeks(year: int, month: int, today: int, doses: seq<DoseRecord>, offset: int)
    returns (calendar: seq<seq<Cell>>, week: seq<Cell>)
    ensures var cells := GridCells(year, month, today, doses, offset);
      calendar == FullWeeks(cells) && week == cells[|cells| / 7 * 7..]
  {
    ghost var cells := GridCells(year, month, today, doses, offset);
    var days := NewDate(year, month + 1, 0).day;
    var firstDay := WeekDay(DayNumber(NewDate(year, month, 1)));
    assert |cells| == firstDay + days;
    calendar := [];
    week := [];
    var i := 0;
    while i < firstDay
      invariant 0 <= i <= firstDay
      invariant week == cells[..i]
    {
      GridCellAt(year, month, today, doses, offset, i);
      assert cells[..i + 1] == cells[..i] + [Blank];
      week := week + [Blank];
      i := i + 1;
    }
    var day := 1;
    while day <= days
      invariant 1 <= day <= days + 1
      invariant calendar == FullWeeks(cells[..firstDay + day - 1])
      invariant week == cells[(firstDay + day - 1) / 7 * 7..firstDay + day - 1]
    {
      var date := NewDate(year, month, day);
      var isToday := DayNumber(date) == today;
      var hasDoses := HasDoses(doses, DayNumber(date), offset);
      GridCellAt(year, month, today, doses, offset, firstDay + day - 1);
      PushCellStep(cells, firstDay + day - 1, calendar, week);
      week := week + [DayCell(day, isToday, hasDoses)];
      if |week| == 7 {
        calendar := calendar + [week];
        week := [];
      }
      day := day + 1;
    }
    assert cells[..firstDay + days] == cells;
  }

  /** renderCalendar as written: the week left unfinished after the last
      day is never pushed. */
  method RenderCalendar(year: int, month: int, today: int, doses: seq<DoseRecord>, offset: int)
    returns (calendar: seq<seq<Cell>>)
    ensures calendar == FullWeeks(GridCells(year, month, today, doses, offset))
  {
    var week;
    calendar, week := BuildWeeks(year, month, today, doses, offset);
  }

  /** renderCalendar with the unfinished week pushed after the loop. */
  method RenderCalendarFlushed(year: int, month: int, today: int, doses: seq<DoseRecord>, offset: int)
    returns (calendar: seq<seq<Cell>>)
    ensures calendar == AllWeeks(GridCells(year, month, today, doses, offset))
  {
    var week;
    calendar, week := BuildWeeks(year, month, today, doses, offset);
    AllWeeksFromFull(GridCells(year, month, today, doses, offset));
    if week != [] {
      calendar := calendar + [week];
    }
  }

  /** As written, the grid shows (first + days) / 7 full weeks and drops the
      last (first + days) % 7 cells, which are all days of the month. */
  lemma {:induction false} RenderedWeeks(year: int, month: int, today: int, doses: seq<DoseRecord>, offset: int)
    requires 0 <= month < 12
    ensures var cells := GridCells(year, month, today, doses, offset);
      var first := FirstWeekDay(year, month);
      var weeks := FullWeeks(cells);
      |weeks| == (first + DaysInMonth(year, month)) / 7
      && (forall k :: 0 <= k < |weeks| ==> |weeks[k]| == 7)
      && Flatten(weeks) == cells[..|cells| / 7 * 7]
      && forall i :: |cells| / 7 * 7 <= i < |cells| ==> cells[i].DayCell?
  {
    GridCellsSpec(year, month, today, doses, offset);
    var cells := GridCells(year, month, today, doses, offset);
    var first := FirstWeekDay(year, month);
    FullWeeksSpec(cells);
    forall i | |cells| / 7 * 7 <= i < |cells| ensures cells[i].DayCell? {
      var d := i - first + 1;
      assert cells[first + d - 1].DayCell?;
    }
  }

  /** A day shown in a row of cells. */
  predicate ShowsDay(cells: seq<Cell>, d: int) {
    exists i :: 0 <= i < |cells| && cells[i].DayCell? && cells[i].day == d
  }

  /** As written, a day in the unfinished last week of the month is not
      shown anywhere in the grid. */
  lemma {:induction false} DroppedDaysNotShown(year: int, month: int, today: int, doses: seq<DoseRecord>, offset: int, d: int)
    requires 0 <= month < 12
    requires var cells := GridCells(year, month, today, doses, offset);
      |cells| / 7 * 7 - FirstWeekDay(year, month) < d <= DaysInMonth(year, month)
    ensures !ShowsDay(Flatten(FullWeeks(GridCells(year, month, today, doses, offset))), d)
  {
    var cells := GridCells(year, month, today, doses, offset);
    GridCellsIndex(year, month, today, doses, offset);
    DayZeroIsLastOfMonth(year, month);
    FullWeeksSpec(cells);
    var shown := cells[..|cells| / 7 * 7];
    forall i | 0 <= i < |shown| && shown[i].DayCell? ensures shown[i].day != d {
      assert shown[i] == cells[i];
    }
  }

  /** A month of 30 days that starts on a Sunday loses days 29 and 30 as
      written: its grid is 30 cells, four full weeks and two left over. */
  lemma {:induction false} SundayThirtyTailDropped(year: int, month: int, today: int, doses: seq<DoseRecord>, offset: int)
    requires 0 <= month < 12
    requires FirstWeekDay(year, month) == 0 && DaysInMonth(year, month) == 30
    ensures var cells := GridCells(year, month, today, doses, offset);
      |cells| == 30 && |FullWeeks(cells)| == 4
      && !ShowsDay(Flatten(FullWeeks(cells)), 29) && !ShowsDay(Flatten(FullWeeks(cells)), 30)
  {
    var cells := GridCells(year, month, today, doses, offset);
    GridCellsIndex(year, month, today, doses, offset);
    DayZeroIsLastOfMonth(year, month);
    FullWeeksSpec(cells);
    DroppedDaysNotShown(year, month, today, doses, offset, 29);
    DroppedDaysNotShown(year, month, today, doses, offset, 30);
  }

  /** September 2024 starts on a Sunday and has 30 days, so as written its
      grid ends with day 28: days 29 and 30 are never shown. */
  lemma {:induction false} SeptemberTailDropped(today: int, doses: seq<DoseRecord>, offset: int)
    ensures var cells := GridCells(2024, 8, today, doses, offset);
      |cells| == 30 && |FullWeeks(cells)| == 4
      && !ShowsDay(Flatten(FullWeeks(cells)), 29) && !ShowsDay(Flatten(FullWeeks(cells)), 30)
  {
    SeptemberLayout();
    SundayThirtyTailDropped(2024, 8, today, doses, offset);
  }

  lemma {:induction false} SeptemberLayout()
    ensures FirstWeekDay(2024, 8) == 0 && MonthDays(2024, 8) == 30 && DaysInMonth(2024, 8) == 30
  {
    KnownWeekDays();
    NewDateOfValid(CivilDate(2024, 8, 1));
    DayZeroIsLastOfMonth(2024, 8);
  }

  /** With the unfinished week pushed, every day of the month is shown,
      in weeks of at most 7 cells. */
  lemma {:induction false} FlushedShowsEveryDay(year: int, month: int, today: int, doses: seq<DoseRecord>, offset: int, d: int)
    requires 0 <= month < 12
    requires 1 <= d <= DaysInMonth(year, month)
    ensures var weeks := AllWeeks(GridCells(year, month, today, doses, offset));
      Flatten(weeks) == GridCells(year, month, today, doses, offset)
      && (forall k :: 0 <= k < |weeks| ==> 1 <= |weeks[k]| <= 7)
      && ShowsDay(Flatten(weeks), d)
  {
    var cells := GridCells(year, month, today, doses, offset);
    GridCellsIndex(year, month, today, doses, offset);
    DayZeroIsLastOfMonth(year, month);
    AllWeeksSpec(cells);
    var first := FirstWeekDay(year, month);
    assert cells[first + d - 1].DayCell? && cells[first + d - 1].day == d;
  }

  /** dayDoses: the records whose timestamp falls on the selected day. */
  function DayDoses(doses: seq<DoseRecord>, dayNumber: int, offset: int): (r: seq<DoseRecord>)
    ensures forall x :: x in r <==> x in doses && LocalDay(x.timestamp, offset) == dayNumber
  {
    if doses == [] then []
    else if LocalDay(doses[0].timestamp, offset) == dayNumber then [doses[0]] + DayDoses(doses[1..], dayNumber, offset)
    else DayDoses(doses[1..], dayNumber, offset)
  }

  /** The check mark of a medication on the selected day. */
  function TakenOnDay(doses: seq<DoseRecord>, dayNumber: int, offset: int, medicationId: Id): (r: bool)
    ensures r <==> exists k :: 0 <= k < |doses| && TakenFor(doses[k], medicationId) && LocalDay(doses[k].timestamp, offset) == dayNumber
  {
    TakenInDayDoses(doses, dayNumber, offset, medicationId);
    IsDoseTaken(DayDoses(doses, dayNumber, offset), medicationId)
  }

  /** A taken record of the medication is among the day's records exactly
      when one with that day's timestamp is in the history. */
  lemma TakenInDayDoses(doses: seq<DoseRecord>, dayNumber: int, offset: int, medicationId: Id)
    ensures IsDoseTaken(DayDoses(doses, dayNumber, offset), medicationId) <==>
      exists k :: 0 <= k < |doses| && TakenFor(doses[k], medicationId) && LocalDay(doses[k].timestamp, offset) == dayNumber
  {
    var r := DayDoses(doses, dayNumber, offset);
    if IsDoseTaken(r, medicationId) {
      var j :| 0 <= j < |r| && TakenFor(r[j], medicationId);
      assert r[j] in doses;
      var k :| 0 <= k < |doses| && doses[k] == r[j];
    }
    if exists k :: 0 <= k < |doses| && TakenFor(doses[k], medicationId) && LocalDay(doses[k].timestamp, offset) == dayNumber {
      var k :| 0 <= k < |doses| && TakenFor(doses[k], medicationId) && LocalDay(doses[k].timestamp, offset) == dayNumber;
      assert doses[k] in r;
      var j :| 0 <= j < |r| && r[j] == doses[k];
    }
  }

  /** A medication shows as taken on a day exactly when a taken record of
      it falls on that day; the day shows a dose marker exactly when some
      record at all falls on it, so a taken medication implies a marker. */
  lemma {:induction false} TakenOnDaySpec(doses: seq<DoseRecord>, dayNumber: int, offset: int, medicationId: Id)
    ensures TakenOnDay(doses, dayNumber, offset, medicationId) <==>
      exists k :: 0 <= k < |doses| && TakenFor(doses[k], medicationId) && LocalDay(doses[k].timestamp, offset) == dayNumber
    ensures HasDoses(doses, dayNumber, offset) <==> DayDoses(doses, dayNumber, offset) != []
    ensures TakenOnDay(doses, dayNumber, offset, medicationId) ==> HasDoses(doses, dayNumber, offset)
  {
    var r := DayDoses(doses, dayNumber, offset);
    if HasDoses(doses, dayNumber, offset) {
      var k :| 0 <= k < |doses| && LocalDay(doses[k].timestamp, offset) == dayNumber;
      assert doses[k] in r;
    }
    if r != [] {
      assert r[0] in doses;
      var k :| 0 <= k < |doses| && doses[k] == r[0];
    }
  }

  /** The onPress of a medication card: record a taken dose stamped with the
      current instant, not the selected day, unless the medication already
      shows as taken on the selected day. */
  function AfterCalendarPress(s: Persisted, doseHistory: seq<DoseRecord>, selectedDay: int, offset: int,
                              medication: Medication, now: int, newId: Id): (r: Persisted)
    ensures r.medications == s.medications
    ensures r == s || r.doses == s.doses + [DoseRecord(newId, medication.id, now, true)]
    ensures r == s <==> TakenOnDay(doseHistory, selectedDay, offset, medication.id)
  {
    if !TakenOnDay(doseHistory, selectedDay, offset, medication.id)
    then Persisted(s.medications, s.doses + [DoseRecord(newId, medication.id, now, true)])
    else s
  }

  method PressMedication(store: Store, doseHistory: seq<DoseRecord>, selected: CivilDate, offset: int,
                         medication: Medication, now: int, newId: Id)
    requires 0 <= selected.month < 12
    modifies store
    ensures store.State() == AfterCalendarPress(old(store.State()), doseHistory, DayNumber(selected), offset, medication, now, newId)
  {
    var dayDoses := DayDoses(doseHistory, DayNumber(selected), offset);
    var taken := IsDoseTaken(dayDoses, medication.id);
    if !taken {
      store.RecordDose(medication.id, true, now, newId);
    }
  }

  /** A press on a medication already taken that day changes nothing; on
      one not taken it appends exactly one taken record. */
  lemma CalendarPressSpec(s: Persisted, doseHistory: seq<DoseRecord>, selectedDay: int, offset: int,
                          medication: Medication, now: int, newId: Id)
    ensures var after := AfterCalendarPress(s, doseHistory, selectedDay, offset, medication, now, newId);
      (TakenOnDay(doseHistory, selectedDay, offset, medication.id) ==> after == s)
      && (!TakenOnDay(doseHistory, selectedDay, offset, medication.id) ==>
            after.medications == s.medications && after.doses == s.doses + [DoseRecord(newId, medication.id, now, true)])
  {
  }

  /** With today selected, a second press after the reload finds the
      first record and adds nothing: the guard prevents a duplicate. */
  lemma {:induction false} PressTodayTwiceAddsOne(s: Persisted, offset: int, medication: Medication,
                                                  now: int, newId: Id, later: int, otherId: Id)
    ensures var today := LocalDay(now, offset);
      var s1 := AfterCalendarPress(s, s.doses, today, offset, medication, now, newId);
      var s2 := AfterCalendarPress(s1, s1.doses, today, offset, medication, later, otherId);
      s2 == s1 && |s2.doses| <= |s.doses| + 1
  {
    var today := LocalDay(now, offset);
    var s1 := AfterCalendarPress(s, s.doses, today, offset, medication, now, newId);
    if !TakenOnDay(s.doses, today, offset, medication.id) {
      var k := |s.doses|;
      assert s1.doses[k] == DoseRecord(newId, medication.id, now, true);
      TakenOnDaySpec(s1.doses, today, offset, medication.id);
    }
  }

  /** With another day selected, the record is stamped with the current
      instant and so does not fall on the selected day: the medication still
      shows as not taken there, and each further press adds another record. */
  lemma {:induction false} PressOtherDayRepeats(s: Persisted, selectedDay: int, offset: int, medication: Medication,
                                                now: int, newId: Id, later: int, otherId: Id)
    requires selectedDay != LocalDay(now, offset)
    requires !TakenOnDay(s.doses, selectedDay, offset, medication.id)
    ensures var s1 := AfterCalendarPress(s, s.doses, selectedDay, offset, medication, now, newId);
      var s2 := AfterCalendarPress(s1, s1.doses, selectedDay, offset, medication, later, otherId);
      !TakenOnDay(s1.doses, selectedDay, offset, medication.id)
      && s2.doses == s.doses + [DoseRecord(newId, medication.id, now, true), DoseRecord(otherId, medication.id, later, true)]
  {
    var s1 := AfterCalendarPress(s, s.doses, selectedDay, offset, medication, now, newId);
    TakenOnDaySpec(s.doses, selectedDay, offset, medication.id);
    TakenOnDaySpec(s1.doses, selectedDay, offset, medication.id);
    assert forall k :: 0 <= k < |s.doses| ==> s1.doses[k] == s.doses[k];
    assert s.doses + [DoseRecord(newId, medication.id, now, true)] + [DoseRecord(otherId, medication.id, later, true)]
        == s.doses + [DoseRecord(newId, medication.id, now, true), DoseRecord(otherId, medication.id, later, true)];
  }
}
