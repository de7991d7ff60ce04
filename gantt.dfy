/** The booking calendar ("Gantt") of the bookings page: a window of
    `GanttDays` consecutive days starting at a movable window start, one row
    per room, and one bar per booking that meets the window, clipped to the
    visible day columns. Dates are time values (see `DateFormat`). */
module Gantt {
  import opened Wrappers
  import opened Decimal
  import opened Civil
  import opened DateFormat

  const GanttDays: int := 14

  /** The window start the calendar opens at and resets to: 24 Feb 2026. */
  const Anchor: int := MakeDate(2026, 1, 24)

  /** The fixed "today" of the calendar: 27 Feb 2026. */
  const Today: int := MakeDate(2026, 1, 27)

  datatype Status = Confirmed | Pending | CheckedIn | CheckedOut | Cancelled

  /** The status tag as it appears in the bar's class list and tooltip. */
  function StatusName(s: Status): string {
    match s
    case Confirmed => "confirmed"
    case Pending => "pending"
    case CheckedIn => "checked-in"
    case CheckedOut => "checked-out"
    case Cancelled => "cancelled"
  }

  datatype Room = Room(id: string, name: string, roomType: string, color: string)

  /** A booking of `room` over the half-open range `[start, end)`. */
  datatype Booking = Booking(room: string, guest: string, start: int, end: int, status: Status)

  /** The first and the last column a bar covers, both inclusive. */
  datatype Span = Span(startCol: int, endCol: int)

  // ---------------------------------------------------------------
  // Clipping a booking to the window

  /** `Math.floor(ms / 86400000)`. */
  function FloorDays(ms: int): int {
    ms / MsPerDay
  }

  /** `Math.ceil(ms / 86400000)`. */
  function CeilDays(ms: int): int {
    -((-ms) / MsPerDay)
  }

  function Max(a: int, b: int): int { if a >= b then a else b }
  function Min(a: int, b: int): int { if a <= b then a else b }

  /** The booking range meets `[ws, ws + GanttDays days)`. */
  predicate Intersects(bStart: int, bEnd: int, ws: int) {
    !(bEnd <= ws || bStart >= ws + GanttDays * MsPerDay)
  }

  /** The columns a booking's bar spans, or `None` when no bar is drawn. */
  function Clip(bStart: int, bEnd: int, ws: int): Option<Span> {
    if !Intersects(bStart, bEnd, ws) then None
    else
      var startCol := Max(0, FloorDays(bStart - ws));
      var endCol := Min(GanttDays - 1, CeilDays(bEnd - ws) - 1);
      if startCol > endCol then None else Some(Span(startCol, endCol))
  }

  /** Column `c` of the window is the day `[ws + c days, ws + (c+1) days)`;
      the booking meets it when each range starts before the other ends. */
  predicate ColumnOverlaps(bStart: int, bEnd: int, ws: int, c: int) {
    bStart < ws + (c + 1) * MsPerDay && ws + c * MsPerDay < bEnd
  }

  lemma FloorDaysBounds(ms: int, c: int)
    ensures c >= FloorDays(ms) <==> ms < (c + 1) * MsPerDay
  {
  }

  lemma CeilDaysBounds(ms: int, c: int)
    ensures c <= CeilDays(ms) - 1 <==> c * MsPerDay < ms
  {
  }

  /** A bar covers exactly the columns whose day the booking meets. */
  lemma ClipColumnsExact(bStart: int, bEnd: int, ws: int, c: int)
    requires 0 <= c < GanttDays
    ensures (Clip(bStart, bEnd, ws).Some? && Clip(bStart, bEnd, ws).value.startCol <= c <= Clip(bStart, bEnd, ws).value.endCol)
        <==> ColumnOverlaps(bStart, bEnd, ws, c)
  {
    FloorDaysBounds(bStart - ws, c);
    CeilDaysBounds(bEnd - ws, c);
  }

  /** No bar is drawn exactly when the booking meets no column. */
  lemma ClipNoneIff(bStart: int, bEnd: int, ws: int)
    ensures Clip(bStart, bEnd, ws).None? <==>
      forall c :: 0 <= c < GanttDays ==> !ColumnOverlaps(bStart, bEnd, ws, c)
  {
    if Clip(bStart, bEnd, ws).None? {
      forall c | 0 <= c < GanttDays ensures !ColumnOverlaps(bStart, bEnd, ws, c) {
        ClipColumnsExact(bStart, bEnd, ws, c);
      }
    } else {
      ClipColumnsExact(bStart, bEnd, ws, Clip(bStart, bEnd, ws).value.startCol);
    }
  }

  /** A booking outside the window gets no bar. */
  lemma ClipOutside(bStart: int, bEnd: int, ws: int)
    requires bEnd <= ws || bStart >= ws + GanttDays * MsPerDay
    ensures Clip(bStart, bEnd, ws) == None
  {
  }

  /** Every drawn bar lies inside the grid: `0 <= startCol <= endCol <= GanttDays - 1`. */
  lemma ClipBounds(bStart: int, bEnd: int, ws: int)
    requires Clip(bStart, bEnd, ws).Some?
    ensures var sp := Clip(bStart, bEnd, ws).value;
      0 <= sp.startCol <= sp.endCol <= GanttDays - 1
  {
  }

  /** A non-empty booking that meets the window is always drawn, so the
      second skip only ever drops empty or inverted bookings. */
  lemma ClipDrawnWhenNonEmpty(bStart: int, bEnd: int, ws: int)
    requires Intersects(bStart, bEnd, ws) && bStart < bEnd
    ensures Clip(bStart, bEnd, ws).Some?
  {
    var s := Max(bStart, ws);
    var c := FloorDays(s - ws);
    assert 0 <= c < GanttDays;
    ClipColumnsExact(bStart, bEnd, ws, c);
  }

  /** A booking that starts before the window and reaches into it starts in column 0. */
  lemma ClipClampsLeft(bStart: int, bEnd: int, ws: int)
    requires bStart < ws < bEnd
    ensures Clip(bStart, bEnd, ws).Some? && Clip(bStart, bEnd, ws).value.startCol == 0
  {
    ClipDrawnWhenNonEmpty(bStart, bEnd, ws);
  }

  /** A booking that starts inside the window and ends after it ends in the last column. */
  lemma ClipClampsRight(bStart: int, bEnd: int, ws: int)
    requires bStart < ws + GanttDays * MsPerDay <= bEnd
    ensures Clip(bStart, bEnd, ws).Some? && Clip(bStart, bEnd, ws).value.endCol == GanttDays - 1
  {
    ClipDrawnWhenNonEmpty(bStart, bEnd, ws);
  }

  /** With midnight-aligned dates (day numbers `s`, `e`, `w`) the columns are
      plain day differences, the end column being the day before `e`. */
  lemma ClipWholeDays(s: int, e: int, w: int)
    requires w < e && s < w + GanttDays && s < e
    ensures Clip(s * MsPerDay, e * MsPerDay, w * MsPerDay)
         == Some(Span(Max(0, s - w), Min(GanttDays - 1, e - w - 1)))
  {
    assert FloorDays(s * MsPerDay - w * MsPerDay) == s - w;
    assert CeilDays(e * MsPerDay - w * MsPerDay) == e - w;
  }

  /** A whole-day booking inside the window occupies columns
      `s - w .. e - w - 1`. */
  lemma ClipInsideWindow(s: int, e: int, w: int)
    requires w <= s < e <= w + GanttDays
    ensures Clip(s * MsPerDay, e * MsPerDay, w * MsPerDay) == Some(Span(s - w, e - w - 1))
  {
    ClipWholeDays(s, e, w);
  }

  /** For whole-day dates that pass the intersection test, the second skip
      fires exactly when the booking is empty or inverted. */
  lemma ClipSkipIffEmpty(s: int, e: int, w: int)
    requires Intersects(s * MsPerDay, e * MsPerDay, w * MsPerDay)
    ensures Clip(s * MsPerDay, e * MsPerDay, w * MsPerDay).None? <==> s >= e
  {
    if s < e {
      ClipDrawnWhenNonEmpty(s * MsPerDay, e * MsPerDay, w * MsPerDay);
    } else {
      assert FloorDays(s * MsPerDay - w * MsPerDay) == s - w;
      assert CeilDays(e * MsPerDay - w * MsPerDay) == e - w;
    }
  }

  /** Off midnight an empty booking still meets one column and is drawn:
      the whole-day assumption is what makes the second skip fire. */
  lemma ClipEmptyOffMidnight(ws: int)
    ensures Clip(ws + MsPerDay / 2, ws + MsPerDay / 2, ws) == Some(Span(0, 0))
  {
  }

  // ---------------------------------------------------------------
  // Moving the window

  /** `shiftCalendar(days)`: `0` resets to the anchor, anything else moves
      the window start by that many days. */
  function Shifted(ws: int, days: int): int {
    if days == 0 then Anchor else ws + days * MsPerDay
  }

  /** A non-zero shift moves the window by exactly that many calendar days. */
  lemma ShiftMovesDays(ws: int, days: int)
    requires days != 0
    ensures DayOf(Shifted(ws, days)) == DayOf(ws) + days
    ensures Shifted(ws, days) - ws == days * MsPerDay
  {
  }

  /** A shift of zero is a reset, not a no-op. */
  lemma ShiftZeroResets(ws: int)
    ensures Shifted(ws, 0) == Anchor
    ensures ws != Anchor ==> Shifted(ws, 0) != ws
  {
  }

  /** Shifting by `k` and back by `-k` restores the start, for `k != 0`. */
  lemma ShiftRoundTrip(ws: int, k: int)
    requires k != 0
    ensures Shifted(Shifted(ws, k), -k) == ws
  {
  }

  /** Shifting keeps the window start on a midnight. */
  lemma ShiftKeepsMidnight(ws: int, days: int)
    requires ws % MsPerDay == 0
    ensures Shifted(ws, days) % MsPerDay == 0
  {
  }

  // ---------------------------------------------------------------
  // The grid

  /** The `dates` array: `GanttDays` consecutive days from the window start. */
  function WindowDates(ws: int): (ds: seq<int>)
    ensures |ds| == GanttDays
  {
    seq(GanttDays, i => ws + i * MsPerDay)
  }

  lemma WindowDatesConsecutive(ws: int)
    ensures WindowDates(ws)[0] == ws
    ensures forall i :: 0 <= i < GanttDays - 1 ==> WindowDates(ws)[i + 1] == WindowDates(ws)[i] + MsPerDay
    ensures forall i :: 0 <= i < GanttDays ==> DayOf(WindowDates(ws)[i]) == DayOf(ws) + i
  {
  }

  /** The `calendarDateRange` text: first and last date of the window, and
      the year of the first date only. */
  function RangeLabel(ws: int): string {
    RangeText(FmtShort(ws), FmtShort(ws + (GanttDays - 1) * MsPerDay), LocalDate(ws).year)
  }

  function RangeText(first: string, last: string, year: int): string {
    first + " \U{2013} " + last + ", " + IntToString(year)
  }

  /** The label runs from the first to the last of the window's dates. */
  lemma RangeLabelFromDates(ws: int)
    ensures var ds := WindowDates(ws);
      RangeLabel(ws) == RangeText(FmtShort(ds[0]), FmtShort(ds[GanttDays - 1]), LocalDate(ds[0]).year)
  {
    var ds := WindowDates(ws);
    assert ds[0] == ws;
    assert ds[GanttDays - 1] == ws + (GanttDays - 1) * MsPerDay;
  }

  /** The column-header cell of a date: weekday, day of month, "today" mark. */
  datatype HeaderCell = HeaderCell(weekday: string, dayOfMonth: string, isToday: bool)

  predicate IsToday(d: int, today: int) {
    DateKey(d) == DateKey(today)
  }

  function HeaderCellOf(d: int, today: int): HeaderCell {
    HeaderCell(FmtDay(d), IntToString(LocalDate(d).day), IsToday(d, today))
  }

  function HeaderOf(dates: seq<int>, today: int): (h: seq<HeaderCell>)
    ensures |h| == |dates|
  {
    seq(|dates|, i requires 0 <= i < |dates| => HeaderCellOf(dates[i], today))
  }

  /** A room's row: its label data, and for each day cell whether it carries
      the "today" column mark. */
  datatype RowView = RowView(room: Room, todayCols: seq<bool>)

  function TodayFlags(dates: seq<int>, today: int): (f: seq<bool>)
    ensures |f| == |dates|
  {
    seq(|dates|, i requires 0 <= i < |dates| => IsToday(dates[i], today))
  }

  function RowsOf(rooms: seq<Room>, dates: seq<int>, today: int): (rs: seq<RowView>)
    ensures |rs| == |rooms|
  {
    seq(|rooms|, r requires 0 <= r < |rooms| => RowView(rooms[r], TodayFlags(dates, today)))
  }

  /** Column `i` is marked "today" exactly when it is today's day; so at
      most one column is marked, and one is when today is in the window. */
  lemma TodayColumnExact(ws: int, today: int, i: int)
    requires 0 <= i < GanttDays
    ensures HeaderOf(WindowDates(ws), today)[i].isToday <==> i == DayOf(today) - DayOf(ws)
    ensures TodayFlags(WindowDates(ws), today)[i] <==> i == DayOf(today) - DayOf(ws)
  {
    WindowDatesConsecutive(ws);
    DateKeySameDay(WindowDates(ws)[i], today);
  }

  // ---------------------------------------------------------------
  // The bars

  /** A drawn bar: the room row, the columns, and the booking it shows. */
  datatype Bar = Bar(row: int, span: Span, booking: Booking)

  /** The bar element's class list: `gantt-bar` and the status tag. */
  function BarClass(bar: Bar): string {
    "gantt-bar " + StatusName(bar.booking.status)
  }

  /** Two bars get the same class list exactly when their bookings have the
      same status, so the styling tells all five statuses apart. */
  lemma BarClassStatus(a: Bar, b: Bar)
    ensures BarClass(a) == BarClass(b) <==> a.booking.status == b.booking.status
  {
    var prefix := "gantt-bar ";
    if BarClass(a) == BarClass(b) {
      assert BarClass(a)[|prefix|..] == StatusName(a.booking.status);
      assert BarClass(b)[|prefix|..] == StatusName(b.booking.status);
    }
  }

  /** The bar's tooltip: guest, date range and status. */
  function BarTooltip(bar: Bar): string {
    var b := bar.booking;
    b.guest + " \U{2022} " + FmtShort(b.start) + " \U{2013} " + FmtShort(b.end) + " \U{2022} " + StatusName(b.status)
  }

  /** The bars booking `b` contributes to row `ri` (none or one). */
  function BarsOfBooking(ri: int, id: string, b: Booking, ws: int): seq<Bar> {
    if b.room != id then []
    else match Clip(b.start, b.end, ws)
      case None => []
      case Some(sp) => [Bar(ri, sp, b)]
  }

  /** The bars of row `ri`, whose room is `id`, in booking order. */
  function RowBars(ri: int, id: string, bs: seq<Booking>, ws: int): seq<Bar> {
    if bs == [] then []
    else RowBars(ri, id, bs[..|bs| - 1], ws) + BarsOfBooking(ri, id, bs[|bs| - 1], ws)
  }

  /** All bars, row after row. */
  function AllBars(rooms: seq<Room>, bs: seq<Booking>, ws: int): seq<Bar> {
    if rooms == [] then []
    else AllBars(rooms[..|rooms| - 1], bs, ws) + RowBars(|rooms| - 1, rooms[|rooms| - 1].id, bs, ws)
  }

  /** `bar` is the bar booking `b` gets in row `ri`, whose room is `id`. */
  predicate BarFor(bar: Bar, ri: int, id: string, b: Booking, ws: int) {
    b.room == id && bar.row == ri && bar.booking == b && Clip(b.start, b.end, ws) == Some(bar.span)
  }

  lemma {:induction false} RowBarsExact(ri: int, id: string, bs: seq<Booking>, ws: int, bar: Bar)
    ensures bar in RowBars(ri, id, bs, ws) <==> exists j :: 0 <= j < |bs| && BarFor(bar, ri, id, bs[j], ws)
  {
    if bs != [] {
      var init := bs[..|bs| - 1];
      RowBarsExact(ri, id, init, ws, bar);
      if bar in RowBars(ri, id, bs, ws) {
        if bar in RowBars(ri, id, init, ws) {
          var j :| 0 <= j < |init| && BarFor(bar, ri, id, init[j], ws);
          assert bs[j] == init[j];
        } else {
          assert BarFor(bar, ri, id, bs[|bs| - 1], ws);
        }
      } else {
        forall j | 0 <= j < |bs| ensures !BarFor(bar, ri, id, bs[j], ws) {
          if j < |init| {
            assert bs[j] == init[j];
          }
        }
      }
    }
  }

  /** The drawn bars are exactly one per (room row, booking of that room)
      pair whose booking is not clipped away. */
  lemma {:induction false} AllBarsExact(rooms: seq<Room>, bs: seq<Booking>, ws: int, bar: Bar)
    ensures bar in AllBars(rooms, bs, ws) <==>
      exists ri, j :: 0 <= ri < |rooms| && 0 <= j < |bs| && BarFor(bar, ri, rooms[ri].id, bs[j], ws)
  {
    if rooms != [] {
      var init := rooms[..|rooms| - 1];
      var last := |rooms| - 1;
      AllBarsExact(init, bs, ws, bar);
      RowBarsExact(last, rooms[last].id, bs, ws, bar);
      assert AllBars(rooms, bs, ws) == AllBars(init, bs, ws) + RowBars(last, rooms[last].id, bs, ws);
      if bar in AllBars(rooms, bs, ws) {
        if bar in AllBars(init, bs, ws) {
          var ri, j :| 0 <= ri < |init| && 0 <= j < |bs| && BarFor(bar, ri, init[ri].id, bs[j], ws);
          assert rooms[ri] == init[ri];
          assert BarFor(bar, ri, rooms[ri].id, bs[j], ws);
        } else {
          var j :| 0 <= j < |bs| && BarFor(bar, last, rooms[last].id, bs[j], ws);
          assert BarFor(bar, last, rooms[last].id, bs[j], ws);
        }
      } else {
        forall ri, j | 0 <= ri < |rooms| && 0 <= j < |bs| ensures !BarFor(bar, ri, rooms[ri].id, bs[j], ws) {
          if ri < last {
            assert rooms[ri] == init[ri];
          }
        }
      }
    }
  }

  /** Every drawn bar names an existing row and lies inside the grid, so the
      cells the source looks up for it always exist. */
  lemma BarsInGrid(rooms: seq<Room>, bs: seq<Booking>, ws: int, bar: Bar)
    requires bar in AllBars(rooms, bs, ws)
    ensures 0 <= bar.row < |rooms|
    ensures 0 <= bar.span.startCol <= bar.span.endCol <= GanttDays - 1
  {
    AllBarsExact(rooms, bs, ws, bar);
    var ri, j :| 0 <= ri < |rooms| && 0 <= j < |bs| && BarFor(bar, ri, rooms[ri].id, bs[j], ws);
    ClipBounds(bs[j].start, bs[j].end, ws);
  }

  /** Booking `b` survives both skips in the row of room `id`. */
  predicate Drawn(b: Booking, id: string, ws: int) {
    b.room == id && Clip(b.start, b.end, ws).Some?
  }

  /** The indices of the bookings of room `id` that survive both skips. */
  function Survivors(id: string, bs: seq<Booking>, ws: int): set<int> {
    set j | 0 <= j < |bs| && Drawn(bs[j], id, ws)
  }

  /** The surviving bookings of room `id`, tagged with row `ri`. */
  function RowPairs(ri: int, id: string, bs: seq<Booking>, ws: int): set<(int, int)> {
    set j | j in Survivors(id, bs, ws) :: (ri, j)
  }

  lemma SurvivorsSnoc(id: string, bs: seq<Booking>, ws: int)
    requires bs != []
    ensures var n := |bs| - 1;
      Survivors(id, bs, ws) == Survivors(id, bs[..n], ws) + (if Drawn(bs[n], id, ws) then {n} else {})
      && n !in Survivors(id, bs[..n], ws)
  {
    var n := |bs| - 1;
    forall j | 0 <= j < n ensures bs[j] == bs[..n][j] {
    }
  }

  /** Each surviving booking contributes one bar to its row. */
  lemma {:induction false} RowBarsCount(ri: int, id: string, bs: seq<Booking>, ws: int)
    ensures |RowBars(ri, id, bs, ws)| == |Survivors(id, bs, ws)|
  {
    if bs == [] {
      assert Survivors(id, bs, ws) == {};
    } else {
      var n := |bs| - 1;
      RowBarsCount(ri, id, bs[..n], ws);
      SurvivorsSnoc(id, bs, ws);
      assert |BarsOfBooking(ri, id, bs[n], ws)| == if Drawn(bs[n], id, ws) then 1 else 0;
    }
  }

  /** Tagging a set of indices below `n` with a row number keeps its size. */
  lemma {:induction false} TagCount(c: int, s: set<int>, n: nat)
    requires forall j :: j in s ==> 0 <= j < n
    ensures |set j | j in s :: (c, j)| == |s|
    decreases n
  {
    var t := set j | j in s :: (c, j);
    if n == 0 {
      assert forall j :: j !in s;
      assert s == {};
      assert t == {};
    } else {
      var rest := s - {n - 1};
      TagCount(c, rest, n - 1);
      var t' := set j | j in rest :: (c, j);
      if n - 1 in s {
        assert t == t' + {(c, n - 1)};
        assert (c, n - 1) !in t';
      } else {
        assert rest == s;
      }
    }
  }

  /** The (row, booking) pairs that get a bar. */
  function DrawnPairs(rooms: seq<Room>, bs: seq<Booking>, ws: int): set<(int, int)> {
    set ri, j | 0 <= ri < |rooms| && 0 <= j < |bs| && Drawn(bs[j], rooms[ri].id, ws) :: (ri, j)
  }

  /** The drawn pairs of all rows are those of the rows before the last,
      and, apart from them, those of the last row. */
  lemma DrawnPairsSnoc(rooms: seq<Room>, bs: seq<Booking>, ws: int)
    requires rooms != []
    ensures var last := |rooms| - 1;
      var before, row := DrawnPairs(rooms[..last], bs, ws), RowPairs(last, rooms[last].id, bs, ws);
      DrawnPairs(rooms, bs, ws) == before + row && before * row == {}
  {
    var last := |rooms| - 1;
    var init := rooms[..last];
    var id := rooms[last].id;
    var row := RowPairs(last, id, bs, ws);
    var before := DrawnPairs(init, bs, ws);
    forall p | p in DrawnPairs(rooms, bs, ws) ensures p in before + row {
      if p.0 < last {
        assert rooms[p.0] == init[p.0];
      } else {
        assert p.1 in Survivors(id, bs, ws);
      }
    }
    forall p | p in before + row ensures p in DrawnPairs(rooms, bs, ws) {
      if p in before {
        assert rooms[p.0] == init[p.0];
      }
    }
    forall p | p in before ensures p !in row {
    }
  }

  /** The overlay draws exactly one bar per (room row, booking of that room)
      pair that survives both skips. */
  lemma {:induction false} AllBarsCount(rooms: seq<Room>, bs: seq<Booking>, ws: int)
    ensures |AllBars(rooms, bs, ws)| == |DrawnPairs(rooms, bs, ws)|
  {
    if rooms == [] {
      assert DrawnPairs(rooms, bs, ws) == {};
    } else {
      var last := |rooms| - 1;
      var id := rooms[last].id;
      AllBarsCount(rooms[..last], bs, ws);
      RowBarsCount(last, id, bs, ws);
      TagCount(last, Survivors(id, bs, ws), |bs|);
      DrawnPairsSnoc(rooms, bs, ws);
    }
  }

  // ---------------------------------------------------------------
  // Rendering

  datatype GanttView = GanttView(rangeLabel: string, header: seq<HeaderCell>, rows: seq<RowView>, bars: seq<Bar>)

  /** What `renderGanttCalendar` shows for window start `ws`. */
  function GanttSpec(ws: int, today: int, rooms: seq<Room>, bs: seq<Booking>): GanttView {
    var dates := WindowDates(ws);
    GanttView(RangeLabel(ws), HeaderOf(dates, today), RowsOf(rooms, dates, today), AllBars(rooms, bs, ws))
  }

  /** The `for` loop that fills the `dates` array. */
  method BuildDates(ws: int) returns (dates: seq<int>)
    ensures dates == WindowDates(ws)
  {
    dates := [];
    var i := 0;
    while i < GanttDays
      invariant 0 <= i <= GanttDays
      invariant |dates| == i
      invariant forall k :: 0 <= k < i ==> dates[k] == ws + k * MsPerDay
    {
      dates := dates + [ws + i * MsPerDay];
      i := i + 1;
    }
  }

  /** A `dates.forEach` that produces one value per date, in order. */
  method MapDates<T>(dates: seq<int>, f: int -> T) returns (out: seq<T>)
    ensures |out| == |dates|
    ensures forall k :: 0 <= k < |dates| ==> out[k] == f(dates[k])
  {
    out := [];
    var i := 0;
    while i < |dates|
      invariant 0 <= i <= |dates|
      invariant |out| == i
      invariant forall k :: 0 <= k < i ==> out[k] == f(dates[k])
    {
      out := out + [f(dates[i])];
      i := i + 1;
    }
  }

  /** The header row: one cell per date. */
  method BuildHeader(dates: seq<int>, today: int) returns (header: seq<HeaderCell>)
    ensures header == HeaderOf(dates, today)
  {
    header := MapDates(dates, d => HeaderCellOf(d, today));
  }

  /** The day cells of one room's row: a "today" flag per date. */
  method BuildCells(dates: seq<int>, today: int) returns (cells: seq<bool>)
    ensures cells == TodayFlags(dates, today)
  {
    cells := MapDates(dates, d => IsToday(d, today));
  }

  /** The body rows: for each room, one cell per date. */
  method BuildRows(rooms: seq<Room>, dates: seq<int>, today: int) returns (rows: seq<RowView>)
    ensures rows == RowsOf(rooms, dates, today)
  {
    rows := [];
    var r := 0;
    while r < |rooms|
      invariant 0 <= r <= |rooms|
      invariant |rows| == r
      invariant forall k :: 0 <= k < r ==> rows[k] == RowView(rooms[k], TodayFlags(dates, today))
    {
      var cells := BuildCells(dates, today);
      rows := rows + [RowView(rooms[r], cells)];
      r := r + 1;
    }
  }

  /** The bar overlay: for each room, its bookings in order, skipping those
      clipped away. */
  method OverlayBars(rooms: seq<Room>, bs: seq<Booking>, ws: int) returns (bars: seq<Bar>)
    ensures bars == AllBars(rooms, bs, ws)
  {
    bars := [];
    var ri := 0;
    while ri < |rooms|
      invariant 0 <= ri <= |rooms|
      invariant bars == AllBars(rooms[..ri], bs, ws)
    {
      var id := rooms[ri].id;
      var row: seq<Bar> := [];
      var j := 0;
      while j < |bs|
        invariant 0 <= j <= |bs|
        invariant row == RowBars(ri, id, bs[..j], ws)
      {
        var b := bs[j];
        if b.room == id {
          var clip := Clip(b.start, b.end, ws);
          if clip.Some? {
            row := row + [Bar(ri, clip.value, b)];
          }
        }
        assert bs[..j + 1][..j] == bs[..j];
        j := j + 1;
      }
      assert bs[..|bs|] == bs;
      assert rooms[..ri + 1][..ri] == rooms[..ri];
      bars := bars + row;
      ri := ri + 1;
    }
    assert rooms[..|rooms|] == rooms;
  }

  /** `renderGanttCalendar`: nothing when the page has no calendar
      container, otherwise the full grid and its bars. */
  method RenderGantt(ws: int, today: int, rooms: seq<Room>, bs: seq<Booking>, hasWrapper: bool)
    returns (view: Option<GanttView>)
    ensures view == if hasWrapper then Some(GanttSpec(ws, today, rooms, bs)) else None
  {
    if !hasWrapper {
      return None;
    }
    var rangeLabel := RangeLabel(ws);
    var dates := BuildDates(ws);
    var header := BuildHeader(dates, today);
    var rows := BuildRows(rooms, dates, today);
    var bars := OverlayBars(rooms, bs, ws);
    view := Some(GanttView(rangeLabel, header, rows, bars));
  }
}
