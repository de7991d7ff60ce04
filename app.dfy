/** The dashboard's page state that the confirmation popup and the room
    calendar change in place: the calendar's window start, the pending
    confirmation callback, the popup's title, text and visibility, and the
    toasts shown so far. */
module App {
  import opened Wrappers
  import opened DateFormat
  import opened Gantt
  import opened Confirm
  import SampleData

  class Dashboard {
    /** `ganttStartDate`, as a time value. */
    var ganttStart: int
    /** Whole days from the anchor date to `ganttStart`. */
    ghost var offset: int
    /** `confirmCallback`; `None` is `null`. */
    var pending: Option<string>
    var confirmTitle: string
    var confirmText: string
    /** Whether the popup carries the `active` class. */
    var confirmOpen: bool
    /** The messages of the toasts appended to the toast container, oldest first. */
    var toasts: seq<string>

    /** The window always starts at a local midnight a whole number of days
        from 24 Feb 2026. */
    ghost predicate Valid()
      reads this
    {
      ganttStart == Anchor + offset * MsPerDay
    }

    /** The state at page load. */
    constructor ()
      ensures Valid() && offset == 0
      ensures ganttStart == Anchor && pending == None
      ensures confirmTitle == "" && confirmText == "" && !confirmOpen && toasts == []
    {
      ganttStart := Anchor;
      offset := 0;
      pending := None;
      confirmTitle := "";
      confirmText := "";
      confirmOpen := false;
      toasts := [];
    }

    /** The window start is a midnight, so every date of the window is one. */
    lemma StartIsMidnight()
      requires Valid()
      ensures ganttStart % MsPerDay == 0
      ensures DayOf(ganttStart) == DayOf(Anchor) + offset
    {
      assert Anchor % MsPerDay == 0 by { MakeDateFields(2026, 1, 24); }
      assert Anchor == DayOf(Anchor) * MsPerDay;
      assert ganttStart == (DayOf(Anchor) + offset) * MsPerDay;
      DayOfMidnight(DayOf(Anchor) + offset);
    }

    /** `confirmAction(text, callback)`: fills in the popup, remembers the
        callback and opens the popup. */
    method ConfirmAction(text: string, callback: Option<string>)
      requires Valid()
      modifies this
      ensures Valid()
      ensures pending == callback
      ensures confirmTitle == "Are you sure?" && confirmText == text && confirmOpen
      ensures ganttStart == old(ganttStart) && offset == old(offset) && toasts == old(toasts)
    {
      confirmTitle := "Are you sure?";
      confirmText := text;
      pending := callback;
      confirmOpen := true;
    }

    /** `confirmYes()`: closes the popup, shows the message of the pending
        callback as a new toast and clears the callback. */
    method ConfirmYes() returns (msg: string)
      requires Valid()
      modifies this
      ensures Valid()
      ensures msg == ConfirmMessage(old(pending))
      ensures toasts == old(toasts) + [msg]
      ensures pending == None && !confirmOpen
      ensures confirmTitle == old(confirmTitle) && confirmText == old(confirmText)
      ensures ganttStart == old(ganttStart) && offset == old(offset)
    {
      confirmOpen := false;
      var a := Classify(pending);
      msg := Message(a);
      toasts := toasts + [msg];
      pending := None;
    }

    /** `renderGanttCalendar()` for the current window, the sample rooms and
        bookings and the fixed "today"; `None` when the page has no
        calendar wrapper. It changes nothing. */
    method RenderGanttCalendar(hasWrapper: bool) returns (view: Option<GanttView>)
      ensures view == if hasWrapper
        then Some(GanttSpec(ganttStart, Today, SampleData.Rooms, SampleData.Bookings))
        else None
    {
      view := RenderGantt(ganttStart, Today, SampleData.Rooms, SampleData.Bookings, hasWrapper);
    }

    /** `shiftCalendar(days)`: 0 resets the window to the anchor date, any
        other value moves it by that many days; then the calendar is redrawn. */
    method ShiftCalendar(days: int, hasWrapper: bool) returns (view: Option<GanttView>)
      requires Valid()
      modifies this
      ensures Valid()
      ensures ganttStart == Shifted(old(ganttStart), days)
      ensures offset == if days == 0 then 0 else old(offset) + days
      ensures view == if hasWrapper
        then Some(GanttSpec(ganttStart, Today, SampleData.Rooms, SampleData.Bookings))
        else None
      ensures pending == old(pending) && toasts == old(toasts)
      ensures confirmTitle == old(confirmTitle) && confirmText == old(confirmText)
      ensures confirmOpen == old(confirmOpen)
    {
      if days == 0 {
        ganttStart := Anchor;
        offset := 0;
      } else {
        ganttStart := ganttStart + days * MsPerDay;
        offset := offset + days;
      }
      view := RenderGanttCalendar(hasWrapper);
    }
  }
}
