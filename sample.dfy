/** The calendar's constant rooms and bookings, and what the calendar shows
    for them at the anchor window. Booking dates are the local midnights
    that the date strings `YYYY-MM-DD` + `T00:00:00` denote. */
module SampleData {
  import opened Wrappers
  import opened Decimal
  import opened Civil
  import opened DateFormat
  import opened Gantt

  const Rooms: seq<Room> := [
    Room("101", "Room 101", "Deluxe", "#2ecc71"),
    Room("102", "Room 102", "Standard", "#3b82f6"),
    Room("108", "Room 108", "Deluxe", "#2ecc71"),
    Room("205", "Room 205", "Suite", "#8b5cf6"),
    Room("302", "Room 302", "Standard", "#3b82f6"),
    Room("410", "Room 410", "Suite", "#8b5cf6")
  ]

  const Bookings: seq<Booking> := [
    Booking("101", "Rahul Sharma", MakeDate(2026, 1, 27), MakeDate(2026, 2, 1), Confirmed),
    Booking("205", "Priya Patel", MakeDate(2026, 1, 28), MakeDate(2026, 2, 3), Pending),
    Booking("302", "Amit Kumar", MakeDate(2026, 1, 25), MakeDate(2026, 1, 27), CheckedIn),
    Booking("108", "Sneha Reddy", MakeDate(2026, 1, 20), MakeDate(2026, 1, 24), CheckedOut),
    Booking("410", "Vikram Singh", MakeDate(2026, 1, 26), MakeDate(2026, 1, 28), Cancelled),
    Booking("101", "Meera Nair", MakeDate(2026, 2, 3), MakeDate(2026, 2, 7), Confirmed),
    Booking("102", "Arjun Das", MakeDate(2026, 1, 24), MakeDate(2026, 1, 28), CheckedIn),
    Booking("302", "Kavitha R.", MakeDate(2026, 1, 28), MakeDate(2026, 2, 2), Pending),
    Booking("205", "Deepak Joshi", MakeDate(2026, 2, 5), MakeDate(2026, 2, 9), Confirmed),
    Booking("108", "Ritu Verma", MakeDate(2026, 1, 26), MakeDate(2026, 2, 1), Confirmed)
  ]

  /** Day numbers of February 2026: 1 Feb is day 20485. */
  lemma February2026(d: int)
    requires 1 <= d <= 28
    ensures MakeDate(2026, 1, d) == (20484 + d) * MsPerDay
  {
    assert DaysBeforeYear(2026) == 20454;
  }

  /** Day numbers of March 2026: 1 Mar is day 20513. */
  lemma March2026(d: int)
    requires 1 <= d <= 31
    ensures MakeDate(2026, 2, d) == (20512 + d) * MsPerDay
  {
    assert DaysBeforeYear(2026) == 20454;
  }

  /** 24 Feb 2026 is day 20508 and a Tuesday. */
  lemma AnchorDay()
    ensures Anchor == 20508 * MsPerDay && DayOf(Anchor) == 20508
    ensures FmtDay(Anchor) == "Tue"
  {
    assert Anchor == 20508 * MsPerDay by { February2026(24); }
    assert DayOf(Anchor) == 20508 by { DayOfMidnight(20508); }
    assert WeekDay(20508) == 2;
  }

  /** Rahul Sharma's stay, 27 Feb to 1 Mar, covers columns 3..4 at the anchor
      window (1 Mar is the exclusive end); Sneha Reddy's, which ends on the
      window's first day, gets no bar. */
  lemma AnchorExamples()
    ensures Clip(Bookings[0].start, Bookings[0].end, Anchor) == Some(Span(3, 4))
    ensures Clip(Bookings[3].start, Bookings[3].end, Anchor) == None
  {
    AnchorDay();
    February2026(27);
    March2026(1);
    ClipInsideWindow(20511, 20513, 20508);
    February2026(20);
    February2026(24);
  }

  /** The columns each sample booking gets at the anchor window, in booking order. */
  const AnchorSpans: seq<Option<Span>> :=
    [Some(Span(3, 4)), Some(Span(4, 6)), Some(Span(1, 2)), None, Some(Span(2, 3)),
     Some(Span(7, 10)), Some(Span(0, 3)), Some(Span(4, 5)), Some(Span(9, 12)), Some(Span(2, 4))]

  lemma AnchorClip(i: int)
    requires 0 <= i < |Bookings|
    ensures Clip(Bookings[i].start, Bookings[i].end, Anchor) == AnchorSpans[i]
  {
    assert Anchor == 20508 * MsPerDay by { February2026(24); }
    if i == 0 || i == 3 {
      AnchorExamples();
    } else if i == 1 {
      February2026(28); March2026(3); ClipInsideWindow(20512, 20515, 20508);
    } else if i == 2 {
      February2026(25); February2026(27); ClipInsideWindow(20509, 20511, 20508);
    } else if i == 4 {
      February2026(26); February2026(28); ClipInsideWindow(20510, 20512, 20508);
    } else if i == 5 {
      March2026(3); March2026(7); ClipInsideWindow(20515, 20519, 20508);
    } else if i == 6 {
      February2026(24); February2026(28); ClipInsideWindow(20508, 20512, 20508);
    } else if i == 7 {
      February2026(28); March2026(2); ClipInsideWindow(20512, 20514, 20508);
    } else if i == 8 {
      March2026(5); March2026(9); ClipInsideWindow(20517, 20521, 20508);
    } else {
      February2026(26); March2026(1); ClipInsideWindow(20510, 20513, 20508);
    }
  }

  /** The columns of every sample booking at the anchor window. */
  lemma AnchorClips()
    ensures seq(|Bookings|, i requires 0 <= i < |Bookings| => Clip(Bookings[i].start, Bookings[i].end, Anchor))
      == AnchorSpans
  {
    forall i | 0 <= i < |Bookings|
      ensures Clip(Bookings[i].start, Bookings[i].end, Anchor) == AnchorSpans[i]
    {
      AnchorClip(i);
    }
  }

  /** Today (27 Feb) is column 3 of the anchor window, and no other column. */
  lemma AnchorTodayColumn(i: int)
    requires 0 <= i < GanttDays
    ensures HeaderOf(WindowDates(Anchor), Today)[i].isToday <==> i == 3
  {
    AnchorDay();
    February2026(27);
    assert DayOf(Today) == 20511 by { DayOfMidnight(20511); }
    TodayColumnExact(Anchor, Today, i);
  }

  /** Day `n` falls on the date `d`, as `getFullYear`/`getMonth`/`getDate` report it. */
  lemma DayIsDate(n: int, d: Civil.Date)
    requires CivilFromDay(n) == d
    ensures LocalDate(n * MsPerDay) == d
  {
    DayOfMidnight(n);
  }

  /** `fmtShort` of the midnight of day `n` is the short label of its date. */
  lemma FmtShortOfDay(n: int, d: Civil.Date)
    requires 0 <= d.month0 < 12 && CivilFromDay(n) == d
    ensures FmtShort(n * MsPerDay) == ShortLabel(d)
  {
    DayIsDate(n, d);
    assert FmtShort(n * MsPerDay) == ShortLabel(LocalDate(n * MsPerDay));
  }

  /** The label of a window whose first and last days are day numbers
      `m` and `m + 13`, falling on the dates `first` and `last`. */
  lemma RangeLabelOfDays(m: int, first: Civil.Date, last: Civil.Date)
    requires 0 <= first.month0 < 12 && 0 <= last.month0 < 12
    requires CivilFromDay(m) == first && CivilFromDay(m + GanttDays - 1) == last
    ensures RangeLabel(m * MsPerDay) == RangeText(ShortLabel(first), ShortLabel(last), first.year)
  {
    var ws := m * MsPerDay;
    var we := (m + GanttDays - 1) * MsPerDay;
    assert ws + (GanttDays - 1) * MsPerDay == we;
    FmtShortOfDay(m, first);
    FmtShortOfDay(m + GanttDays - 1, last);
    DayIsDate(m, first);
    assert RangeLabel(ws) == RangeText(FmtShort(ws), FmtShort(we), LocalDate(ws).year);
  }

  lemma AnchorFirstDay()
    ensures CivilFromDay(20508) == Civil.Date(2026, 1, 24)
  {
  }

  lemma AnchorLastDay()
    ensures CivilFromDay(20521) == Civil.Date(2026, 2, 9)
  {
  }

  lemma AnchorWindowText()
    ensures RangeText(ShortLabel(Civil.Date(2026, 1, 24)), ShortLabel(Civil.Date(2026, 2, 9)), 2026)
      == "Feb 24 \U{2013} Mar 09, 2026"
  {
    assert ShortLabel(Civil.Date(2026, 1, 24)) == "Feb 24";
    assert ShortLabel(Civil.Date(2026, 2, 9)) == "Mar 09";
    assert IntToString(2026) == "2026";
  }

  /** The anchor window is labelled "Feb 24 \U{2013} Mar 09, 2026". */
  lemma AnchorRangeLabel()
    ensures RangeLabel(Anchor) == "Feb 24 \U{2013} Mar 09, 2026"
  {
    AnchorDay();
    AnchorFirstDay();
    AnchorLastDay();
    RangeLabelOfDays(20508, Civil.Date(2026, 1, 24), Civil.Date(2026, 2, 9));
    AnchorWindowText();
  }

  lemma ChristmasDay()
    ensures CivilFromDay(20812) == Civil.Date(2026, 11, 25)
  {
  }

  lemma SeventhJanuary()
    ensures CivilFromDay(20825) == Civil.Date(2027, 0, 7)
  {
  }

  lemma CrossYearText()
    ensures RangeText(ShortLabel(Civil.Date(2026, 11, 25)), ShortLabel(Civil.Date(2027, 0, 7)), 2026)
      == "Dec 25 \U{2013} Jan 07, 2026"
  {
    assert ShortLabel(Civil.Date(2026, 11, 25)) == "Dec 25";
    assert ShortLabel(Civil.Date(2027, 0, 7)) == "Jan 07";
    assert IntToString(2026) == "2026";
  }

  /** 25 Dec 2026 is day 20812. */
  lemma ChristmasMidnight()
    ensures MakeDate(2026, 11, 25) == 20812 * MsPerDay
  {
    assert DaysBeforeYear(2026) == 20454;
  }

  /** A window that crosses New Year still shows only its start year:
      "Dec 25 \U{2013} Jan 07, 2026". */
  lemma CrossYearRangeLabel()
    ensures RangeLabel(MakeDate(2026, 11, 25)) == "Dec 25 \U{2013} Jan 07, 2026"
  {
    ChristmasMidnight();
    ChristmasDay();
    SeventhJanuary();
    RangeLabelOfDays(20812, Civil.Date(2026, 11, 25), Civil.Date(2027, 0, 7));
    CrossYearText();
  }
}
