# BookEasy dashboard: the booking calendar and the confirmation popup

This project models the part of the BookEasy hotel dashboard script
(`app.js`) that holds real logic, and proves properties of the model:

- The room booking calendar ("Gantt"). It has:
  - a window of 14 consecutive days that opens at 24 Feb 2026 and is moved by `shiftCalendar`;
  - the range label above the grid;
  - the header row of weekday and day-of-month cells, with the column of a fixed "today" (27 Feb 2026) marked;
  - one row per room;
  - one bar per booking that meets the window, clipped to the visible day columns.
- The date helpers behind it: `fmtShort`, `fmtDay` and `dateKey`. They rest on JavaScript's
  `Date` constructor and its getters, which are modelled here as a proleptic Gregorian calendar
  over integer time values, for in-range fields and years from 100 on.
- The confirmation popup: `confirmAction` remembers a callback tag and opens the popup, and
  `confirmYes` closes it, shows the toast that the tag selects and clears the tag.

Modules, one per file:

| module | file | contents |
|---|---|---|
| `Wrappers` | `wrappers.dfy` | `Option` |
| `Decimal` | `decimal.dfy` | `String(n)`, `padStart`, and a reader that inverts them |
| `Civil` | `civil.dfy` | calendar dates and day numbers, in both directions |
| `DateFormat` | `dateformat.dfy` | time values, `new Date(y, m, d)`, `fmtShort`, `fmtDay`, `dateKey` |
| `Gantt` | `gantt.dfy` | clipping, window shifts, the grid specification and the loops that build it |
| `Confirm` | `confirm.dfy` | the callback-to-message dispatch |
| `SampleData` | `sample.dfy` | the constant rooms and bookings, and what the anchor window shows for them |
| `App` | `app.dfy` | class `Dashboard`: the page state that the two features change in place |

A time value is an integer number of milliseconds since local midnight on 1 January 1970. Local
time is one fixed zone without daylight-saving changes, so a day is always 86400000 ms long.
Booking dates are the local midnights that `new Date('YYYY-MM-DDT00:00:00')` gives for the
constant strings.

The code gives a bar the columns `max(0, floor(start - ws))` to `min(13, ceil(end - ws) - 1)`,
counted in days from the window start `ws`. So the booking's end date is exclusive: it is the
checkout day and gets no cell. Rahul Sharma's stay from 27 Feb to 1 Mar 2026 covers 27 and
28 Feb, which are columns `3..4` of the window that starts on 24 Feb (`SampleData.AnchorExamples`);
`Gantt.ClipColumnsExact` proves that a column is covered exactly when the booking meets that
column's day.

The range label shows the year of the window's first day only. A window that starts on
25 Dec 2026 is labelled "Dec 25 – Jan 07, 2026" (`SampleData.CrossYearRangeLabel`).

## Model

| member | source | states |
|---|---|---|
| Decimal.DigitChar | app.js:372 | the character of digit `v` is a decimal digit whose code is `'0' + v` |
| Decimal.NatToStringDigits | app.js:372 | `String(n)` of a natural is a non-empty run of digits, one digit long exactly when `n < 10` |
| Decimal.NatToStringRoundTrip | app.js:372 | reading back the digits of `String(n)` gives `n` |
| Decimal.IntToStringNonEmpty | app.js:392 | `String(i)` is never empty |
| Decimal.IntToStringRoundTrip | app.js:392 | `String(i)` loses nothing: parsing it back gives `i`, so distinct years print differently |
| Decimal.PadStart | app.js:372 | `padStart` yields `width` characters, or the string itself when it is already that long |
| Decimal.PadStartShape | app.js:372 | `padStart` keeps the string as its suffix and puts only filler characters in front |
| Decimal.Pad2Digits | app.js:372 | `String(n).padStart(2, '0')` for `0 <= n < 100` is the tens digit then the units digit, and reads back as `n` |
| Civil.WeekDay | app.js:377 | `getDay` is in `0..6` |
| Civil.WeekDayNext | app.js:377 | the weekday advances by one each day (mod 7) and repeats every seven days |
| Civil.LeapYearsStep | app.js:337 | the count of leap years goes up by one past year `y` exactly when `y` is a Gregorian leap year |
| Civil.YearStep | app.js:337 | the first day of year `y + 1` comes 365 or 366 days after that of `y`, by the Gregorian leap rule |
| Civil.MonthStep | app.js:337 | each month starts where the previous month's days end |
| Civil.FindYear | app.js:381 | locating a day gives a year and an offset inside that year's length that name the same day |
| Civil.FindMonth | app.js:381 | locating a day within its year gives a month and an offset inside that month's length that name the same day |
| Civil.CivilFromDay | app.js:381 | the getters of any day give a valid date whose day number is that day |
| Civil.DaysBeforeYearMonotone | app.js:381 | each year's days come wholly before every later year's days |
| Civil.DayInYear | app.js:381 | a valid date's day number lies inside its year |
| Civil.DayFromCivilInjective | app.js:337 | distinct valid dates have distinct day numbers |
| Civil.CivilRoundTrip | app.js:337 | the getters give back the fields of every valid `new Date(y, m, d)` |
| Civil.CivilFromDayInjective | app.js:381 | two days have the same calendar date exactly when they are the same day |
| DateFormat.LocalDate | app.js:372 | the getters always report a valid calendar date |
| DateFormat.MakeDateFields | app.js:337 | `new Date(y, m, d)` for a valid date (years from 100 on, as JavaScript reads them) is a local midnight whose getters return `y`, `m`, `d` |
| DateFormat.DayOfMidnight | app.js:397 | the midnight of day `n` lies on day `n` |
| DateFormat.JoinKeyInjective | app.js:380-382 | with two-character month and day fields, a `Y-MM-DD` key splits back into its three fields |
| DateFormat.FieldRanges | app.js:381 | the month (1-based) and the day of a valid date fit two digits |
| DateFormat.CivilKeyDigits | app.js:381 | the key is the year, then the zero-padded two-digit month (1-based) and day |
| DateFormat.CivilKeyLength | app.js:380-382 | for years 1000..9999 the key is ten characters, `YYYY-MM-DD` |
| DateFormat.Pad2Injective | app.js:381 | distinct two-digit fields pad to distinct strings |
| DateFormat.KeyYears | app.js:381 | equal keys have equal years and equal padded month and day fields |
| DateFormat.CivilKeyInjective | app.js:380-382 | two valid dates have the same key if and only if they are equal |
| DateFormat.DateKeySameDay | app.js:403 | `dateKey(a) === dateKey(b)` holds if and only if `a` and `b` fall on the same day |
| DateFormat.DateKeySameFields | app.js:380-382 | equal keys if and only if equal year, month and day of month |
| DateFormat.ShortLabelShape | app.js:370-373 | `fmtShort` is six characters: month abbreviation, a space, two-digit day |
| DateFormat.LabelSplit | app.js:372 | a three-letter month, a space and a two-character day split back uniquely |
| DateFormat.ShortLabelInjective | app.js:370-373 | two dates get the same short label if and only if they share month and day |
| DateFormat.FmtShortSameMonthDay | app.js:370-373 | `fmtShort(a) === fmtShort(b)` if and only if same month and day of month, whatever the years |
| DateFormat.FmtDayPeriod | app.js:375-378 | `fmtDay` labels repeat after exactly seven days and differ for any shift of 1..6 days |
| Gantt.FloorDaysBounds | app.js:432 | `c >= floor(ms / day)` if and only if `ms` lies before the end of day `c` |
| Gantt.CeilDaysBounds | app.js:433 | `c <= ceil(ms / day) - 1` if and only if day `c` starts before `ms` |
| Gantt.ClipColumnsExact | app.js:428-434 | a bar covers column `c` if and only if the booking `[start, end)` meets that column's day |
| Gantt.ClipNoneIff | app.js:428-434 | a booking is skipped (either test) if and only if it meets no column of the window |
| Gantt.ClipOutside | app.js:430 | a booking ending by the window start or starting at or after the window end gets no bar |
| Gantt.ClipBounds | app.js:432-434 | a drawn bar has `0 <= startCol <= endCol <= 13` |
| Gantt.ClipDrawnWhenNonEmpty | app.js:434 | a non-empty booking that passes the intersection test is always drawn |
| Gantt.ClipClampsLeft | app.js:432 | a booking starting before the window and reaching into it starts in column 0 |
| Gantt.ClipClampsRight | app.js:433 | a booking starting inside the window and ending after it ends in column 13 |
| Gantt.ClipWholeDays | app.js:432-433 | for midnight dates the columns are day differences clamped to the grid, the end column being the day before the end date |
| Gantt.ClipInsideWindow | app.js:432-433 | a whole-day booking inside the window covers columns `start - ws .. end - ws - 1` |
| Gantt.ClipSkipIffEmpty | app.js:434 | for midnight dates past the intersection test, the second skip fires if and only if the booking is empty or inverted |
| Gantt.ClipEmptyOffMidnight | app.js:432-434 | an empty booking off midnight still meets one column and is drawn |
| Gantt.ShiftMovesDays | app.js:365 | a non-zero shift moves the window start by exactly `days` calendar days |
| Gantt.ShiftZeroResets | app.js:362-363 | a shift of zero resets to 24 Feb 2026, which is not a no-op away from the anchor |
| Gantt.ShiftRoundTrip | app.js:361-368 | shifting by `k` and then by `-k` restores the window start |
| Gantt.ShiftKeepsMidnight | app.js:361-368 | every shift keeps the window start on a midnight |
| Gantt.WindowDates | app.js:395-398 | the window has 14 dates |
| Gantt.WindowDatesConsecutive | app.js:395-398 | the dates start at the window start and are consecutive days, date `i` lying on day `start + i` |
| Gantt.RangeLabelFromDates | app.js:390-392 | the label shows the first and the last of the 14 dates and the first date's year |
| Gantt.HeaderOf | app.js:402-405 | one header cell per date |
| Gantt.TodayFlags | app.js:411-414 | one "today" flag per day cell of a row |
| Gantt.RowsOf | app.js:408-416 | one row per room |
| Gantt.TodayColumnExact | app.js:403 | a column is marked today (header and day cells alike) if and only if its index is today's day minus the start day |
| Gantt.RowBarsExact | app.js:424-434 | a bar is in a room's row if and only if it comes from a booking of that room, in that row, with the clipped columns |
| Gantt.AllBarsExact | app.js:423-450 | a bar is drawn if and only if it is the clipped bar of some (room row, booking of that room) pair |
| Gantt.RowBarsCount | app.js:425-448 | a room's row holds exactly as many bars as that room has bookings surviving both skips |
| Gantt.AllBarsCount | app.js:423-450 | the overlay draws exactly one bar per (room row, booking of that room) pair that survives both skips |
| Gantt.BarClassStatus | app.js:445 | two bars get the same class list if and only if their bookings have the same status |
| Gantt.BarsInGrid | app.js:436-438 | every drawn bar names an existing row and columns inside the grid, so both cells it looks up exist |
| Gantt.BuildDates | app.js:395-398 | the `for` loop builds exactly the window's dates |
| Gantt.MapDates | app.js:402-405 | a `dates.forEach` loop yields one value per date, the `k`-th being the function applied to the `k`-th date |
| Gantt.BuildHeader | app.js:402-405 | the header loop builds one cell per date with its weekday, day of month and today mark |
| Gantt.BuildCells | app.js:411-414 | the inner loop over dates builds a row's today flags, one per date |
| Gantt.BuildRows | app.js:408-416 | the loop over rooms builds one row per room, each with the today flags of its cells |
| Gantt.OverlayBars | app.js:423-450 | the nested loops over rooms and bookings produce exactly the specified bars in row order |
| Gantt.RenderGantt | app.js:384-419 | rendering gives the full specified view, and nothing when the page has no calendar wrapper |
| Confirm.ClassifyTag | app.js:70-76 | each of the seven tags selects its own branch |
| Confirm.ClassifyOther | app.js:77 | the fallback branch is taken if and only if the callback is none of the seven tags, null included |
| Confirm.MessageInjective | app.js:70-77 | the eight messages are distinct |
| Confirm.ConfirmMessageDefault | app.js:77 | "Action completed!" is shown if and only if the callback is not one of the seven tags |
| SampleData.February2026 | app.js:337 | `new Date(2026, 1, d)` is the midnight of day `20484 + d` |
| SampleData.March2026 | app.js:349-358 | `new Date(2026, 2, d)` is the midnight of day `20512 + d` |
| SampleData.AnchorDay | app.js:337 | the anchor is day 20508, a Tuesday |
| SampleData.AnchorExamples | app.js:349 | Rahul Sharma's stay covers columns 3..4 of the anchor window; Sneha Reddy's, ending on the window's first day, gets no bar |
| SampleData.AnchorClip | app.js:348-359 | the columns the `i`-th sample booking gets at the anchor window, none for Sneha Reddy's |
| SampleData.AnchorClips | app.js:348-359 | the columns each of the ten bookings gets at the anchor window |
| SampleData.AnchorTodayColumn | app.js:387 | at the anchor window, column 3 and no other is marked today |
| SampleData.DayIsDate | app.js:397 | the midnight of a day has that day's calendar date |
| SampleData.FmtShortOfDay | app.js:370-373 | `fmtShort` of the midnight of a day is the short label of that day's date |
| SampleData.RangeLabelOfDays | app.js:390-392 | the label of a midnight window is the short labels of its first and last dates and the first date's year |
| SampleData.AnchorFirstDay | app.js:390 | day 20508, the anchor window's first day, is 24 Feb 2026 |
| SampleData.AnchorLastDay | app.js:390 | day 20521, the anchor window's last day, is 9 Mar 2026 |
| SampleData.AnchorWindowText | app.js:392 | the label text built from those two dates |
| SampleData.AnchorRangeLabel | app.js:390-392 | the anchor window is labelled "Feb 24 – Mar 09, 2026" |
| SampleData.ChristmasMidnight | app.js:337 | `new Date(2026, 11, 25)` is the midnight of day 20812 |
| SampleData.ChristmasDay | app.js:390-392 | day 20812 is 25 Dec 2026 |
| SampleData.SeventhJanuary | app.js:390-392 | day 20825 is 7 Jan 2027 |
| SampleData.CrossYearText | app.js:392 | the label text built from 25 Dec 2026 and 7 Jan 2027 |
| SampleData.CrossYearRangeLabel | app.js:390-392 | a window from 25 Dec 2026 is labelled "Dec 25 – Jan 07, 2026": the year of the first day only |
| App.Dashboard.constructor | app.js:59 | page load: the window at 24 Feb 2026, no pending callback, the popup closed, no toasts |
| App.Dashboard.StartIsMidnight | app.js:361-368 | the window start is always a midnight, `offset` days after the anchor |
| App.Dashboard.ConfirmAction | app.js:61-66 | sets the title "Are you sure?" and the text, remembers the callback, opens the popup, and changes nothing else |
| App.Dashboard.ConfirmYes | app.js:68-79 | closes the popup, appends the callback's message as a toast and returns it, clears the callback, and changes nothing else |
| App.Dashboard.RenderGanttCalendar | app.js:384-452 | the view of the current window over the sample rooms and bookings and the fixed today, and nothing without a wrapper |
| App.Dashboard.ShiftCalendar | app.js:361-368 | moves or resets the window start as `Shifted` says, keeps it a whole number of days from the anchor, redraws, and leaves the popup and toasts alone |

## Left out

- Chart drawing on canvases (`drawLineChart`, `drawBarChart`) and all other pages: they are floating-point layout for a drawing surface.
- Markup strings, CSS classes on cells, inline styles and the room label cell's markup: the model keeps the data each cell or bar shows (`HeaderCell`, `RowView`, `Bar`, `BarClass`, `BarTooltip`) instead of HTML text.
- Gantt.OverlayBars: does not model the bar's pixel width, which comes from the layout engine's cell rectangles.
- Gantt.OverlayBars: does not model running in a later animation frame. The frame callback reads `ganttStartDate` when it runs, and the model uses the window start of the same render.
- Gantt.RenderGantt: does not model the missing `calendarDateRange` element, which leaves the old label in place. The view always carries the label.
- Daylight-saving changes and time zones: every day is 86400000 ms long, so `getTime() + days * 86400000` always lands on a midnight.
- Parsing of the `YYYY-MM-DD` + `T00:00:00` strings: the bookings hold the time values those strings denote.
- App.Dashboard.ConfirmYes: does not model the toast's removal after 3.2 s (a timer), its icon markup or its `success` type. `toasts` is the sequence of messages shown.
- Opening and closing modals by overlay click or Escape, and `document.body` overflow styles. Only the popup's open flag is kept.
- `confirmAction`'s callers (the buttons that pass each tag) are not part of this model. Any string or null can be passed.
- JavaScript numbers are doubles. Times and day counts here are unbounded integers; all values the calendar uses are far inside the range where doubles are exact.
- App.Dashboard.ShiftCalendar: accepts any number of days and does not model JavaScript's time-value range. A `Date` more than 8.64e15 ms from 1970 is an Invalid Date, whose labels read "undefined NaN"; the model keeps computing calendar dates far beyond that.
- DateFormat.MakeDate: does not model `new Date(y, m, d)` for a year argument 0..99, which JavaScript maps to 1900 + y, nor its normalisation of out-of-range months and days (`ValidDate` is required). The script only calls it with the year 2026 and in-range fields.
