/** Two ways in which the booking page's slots disagree with the weekly
    hours the dashboard saves (src/components/booking/BusinessBookingPage.tsx
    and src/components/dashboard/BusinessHours.tsx), each shown on the code
    as written, together with the slot generator the two screens evidently
    intend and its proved behaviour. */
module SlotFindings {
  import opened Common
  import opened Schema
  import opened BookingPage
  import opened HoursEditor

  // ---------------------------------------------------------------------
  // As written
  // ---------------------------------------------------------------------

  /** The editor keys Sunday as 0 while the page looks a Sunday up under 7:
      for any week the editor produces, a Sunday finds no row and offers
      nothing, whatever hours were saved for it. */
  lemma SundayNeverOffered(selectedDate: string, hours: seq<HoursEntry>, selected: Option<Service>)
    requires DaysInWeek(hours)
    ensures FindHours(hours, LookupKey(0)).None?
    ensures TimeSlots(selectedDate, 0, hours, selected) == []
  {
  }

  /** The restaurant preset opens Sunday 11:00-22:00, yet a Sunday offers
      no slot. */
  lemma OpenSundayOffersNothing()
    ensures var week := RestaurantPreset(DefaultHours());
            && week[0].dayOfWeek == 0 && week[0].isOpen
            && week[0].openTime == Clock(11, 0) && week[0].closeTime == Clock(22, 0)
            && TimeSlots("2025-03-09", 0, week, None) == []
  {
    var week := RestaurantPreset(DefaultHours());
    SundayNeverOffered("2025-03-09", week, None);
  }

  /** The open minute is ignored: a day opening at 09:30 offers 09:00,
      half an hour before opening. */
  lemma StartsBeforeOpening()
    ensures "09:00" in TimeSlots("2025-03-10", 1, [HoursEntry(1, Clock(9, 30), Clock(11, 0), true)], None)
  {
    var grid := GridSlots(9, 11, 660, 60);
    assert grid == [540, 570, 600];
    assert TimeSlots("2025-03-10", 1, [HoursEntry(1, Clock(9, 30), Clock(11, 0), true)], None) == Formatted(grid);
    assert Formatted(grid)[0] == FormatSlot(540) == "09:00";
  }

  /** No slot starts in the closing hour: closing at 17:30, a 30-minute
      service could start at 17:00 and is not offered. */
  lemma ClosingHourNeverStarts()
    ensures TimeSlots("2025-03-10", 1, [HoursEntry(1, Clock(16, 0), Clock(17, 30), true)],
                      Some(Service("s", "b", "Cut", None, 30, 0, true)))
         == ["16:00", "16:30"]
  {
    assert GridSlots(16, 17, 1050, 30) == [960, 990];
    assert FormatSlot(960) == "16:00";
    assert FormatSlot(990) == "16:30";
  }

  // ---------------------------------------------------------------------
  // As intended
  // ---------------------------------------------------------------------

  /** The first half-hour grid point at or after `m`. */
  function RoundUp(m: nat): (r: nat)
    ensures m <= r < m + SlotInterval
    ensures r % SlotInterval == 0
  {
    ((m + 29) / 30) * 30
  }

  /** The grid points `x`, `x + 30`, ... up to `last`. */
  function StartsFrom(x: nat, last: int): seq<nat>
    decreases last - x
  {
    if x > last then [] else [x] + StartsFrom(x + SlotInterval, last)
  }

  lemma {:induction false} StartsFromExactly(x: nat, last: int, y: nat)
    ensures y in StartsFrom(x, last) <==> x <= y <= last && (y - x) % SlotInterval == 0
    decreases last - x
  {
    if x <= last {
      StartsFromExactly(x + SlotInterval, last, y);
      assert y - x >= SlotInterval ==> (y - x) % SlotInterval == (y - (x + SlotInterval)) % SlotInterval;
    }
  }

  lemma {:induction false} StartsFromAscending(x: nat, last: int)
    ensures forall i :: 0 <= i < |StartsFrom(x, last)| ==> x <= StartsFrom(x, last)[i]
    ensures forall i, j :: 0 <= i < j < |StartsFrom(x, last)| ==> StartsFrom(x, last)[i] < StartsFrom(x, last)[j]
    decreases last - x
  {
    if x <= last {
      StartsFromAscending(x + SlotInterval, last);
    }
  }

  /** A multiple of 30 minus a grid point is a multiple of 30 exactly when
      the other is. */
  lemma GridOffset(y: nat, r: nat)
    requires r <= y && r % SlotInterval == 0
    ensures (y - r) % SlotInterval == 0 <==> y % SlotInterval == 0
  {
    var q := r / SlotInterval;
    assert r == q * SlotInterval;
    var k := (y - r) / SlotInterval;
    assert y - r == k * SlotInterval + (y - r) % SlotInterval;
    assert y == (q + k) * SlotInterval + (y - r) % SlotInterval;
  }

  /** The starts a day's window offers: every half-hour grid point from the
      opening time on whose service ends by the close time. */
  function WindowStarts(e: HoursEntry, d: int): seq<nat> {
    StartsFrom(RoundUp(e.openTime.hour * 60 + e.openTime.minute), CloseMinutes(e) - d)
  }

  /** The slots the page evidently intends: looked up under the day number
      the editor stores (Sunday = 0), and drawn from the whole opening
      window, open minute and closing hour included. */
  function IntendedTimeSlots(selectedDate: string, jsDay: int, hours: seq<HoursEntry>, selected: Option<Service>): seq<string> {
    if selectedDate == "" then []
    else match FindHours(hours, jsDay)
      case None => []
      case Some(e) =>
        if !e.isOpen then [] else Formatted(WindowStarts(e, ServiceDuration(selected)))
  }

  /** The window's starts are exactly the grid points from the opening
      time on whose service ends by the close time. */
  lemma WindowStartsExactly(e: HoursEntry, d: int, x: nat)
    ensures x in WindowStarts(e, d) <==>
              e.openTime.hour * 60 + e.openTime.minute <= x && x % SlotInterval == 0 && x + d <= CloseMinutes(e)
  {
    var open := e.openTime.hour * 60 + e.openTime.minute;
    var r := RoundUp(open);
    StartsFromExactly(r, CloseMinutes(e) - d, x);
    if r <= x {
      GridOffset(x, r);
    }
  }

  /** On every weekday, Sunday included, the intended slots are exactly the
      formatted grid points inside the window of the first row saved for
      that day, with the service ending by the close time; they are free
      of duplicates. */
  lemma IntendedTimeSlotsExactly(selectedDate: string, jsDay: int, hours: seq<HoursEntry>, selected: Option<Service>, k: nat)
    requires selectedDate != ""
    requires k < |hours| && hours[k].dayOfWeek == jsDay && hours[k].isOpen
    requires forall j :: 0 <= j < k ==> hours[j].dayOfWeek != jsDay
    ensures var e := hours[k];
            var d := ServiceDuration(selected);
            var slots := IntendedTimeSlots(selectedDate, jsDay, hours, selected);
            && (forall s :: s in slots <==>
                  exists x: nat :: s == FormatSlot(x)
                                  && e.openTime.hour * 60 + e.openTime.minute <= x
                                  && x % SlotInterval == 0 && x + d <= CloseMinutes(e))
            && (forall i, j :: 0 <= i < j < |slots| ==> slots[i] != slots[j])
  {
    var e := hours[k];
    FindFirst(hours, jsDay, k);
    var d := ServiceDuration(selected);
    var open := e.openTime.hour * 60 + e.openTime.minute;
    var slots := IntendedTimeSlots(selectedDate, jsDay, hours, selected);
    assert slots == Formatted(WindowStarts(e, d));
    forall s | s in slots
      ensures exists x: nat :: s == FormatSlot(x) && open <= x && x % SlotInterval == 0 && x + d <= CloseMinutes(e)
    {
      WindowSlotsSound(e, d, s);
    }
    forall x: nat | open <= x && x % SlotInterval == 0 && x + d <= CloseMinutes(e)
      ensures FormatSlot(x) in slots
    {
      WindowSlotsComplete(e, d, x);
    }
    WindowSlotsDistinct(e, d);
  }

  /** Every formatted start of the window is a grid point inside it. */
  lemma WindowSlotsSound(e: HoursEntry, d: int, s: string)
    requires s in Formatted(WindowStarts(e, d))
    ensures exists x: nat :: s == FormatSlot(x) && e.openTime.hour * 60 + e.openTime.minute <= x
                            && x % SlotInterval == 0 && x + d <= CloseMinutes(e)
  {
    var starts := WindowStarts(e, d);
    var i :| 0 <= i < |starts| && Formatted(starts)[i] == s;
    WindowStartsExactly(e, d, starts[i]);
  }

  /** Every grid point inside the window is offered. */
  lemma WindowSlotsComplete(e: HoursEntry, d: int, x: nat)
    requires e.openTime.hour * 60 + e.openTime.minute <= x && x % SlotInterval == 0 && x + d <= CloseMinutes(e)
    ensures FormatSlot(x) in Formatted(WindowStarts(e, d))
  {
    var starts := WindowStarts(e, d);
    WindowStartsExactly(e, d, x);
    var i :| 0 <= i < |starts| && starts[i] == x;
    assert Formatted(starts)[i] == FormatSlot(x);
  }

  /** The window's formatted starts are pairwise distinct. */
  lemma WindowSlotsDistinct(e: HoursEntry, d: int)
    ensures var slots := Formatted(WindowStarts(e, d));
            forall i, j :: 0 <= i < j < |slots| ==> slots[i] != slots[j]
  {
    var starts := WindowStarts(e, d);
    var slots := Formatted(starts);
    StartsFromAscending(RoundUp(e.openTime.hour * 60 + e.openTime.minute), CloseMinutes(e) - d);
    forall i, j | 0 <= i < j < |slots| ensures slots[i] != slots[j] {
      if slots[i] == slots[j] {
        FormatSlotInjective(starts[i], starts[j]);
      }
    }
  }

  /** The editor's own week is found on every weekday: the row the page
      reads for weekday `jsDay` is the one saved for that day. */
  lemma IntendedLookupFindsEditorRow(jsDay: int)
    requires 0 <= jsDay < 7
    ensures FindHours(DefaultHours(), jsDay) == Some(DefaultHours()[jsDay])
    ensures FindHours(RestaurantPreset(DefaultHours()), jsDay) == Some(RestaurantPreset(DefaultHours())[jsDay])
  {
    var d := DefaultHours();
    var w := RestaurantPreset(d);
    assert forall j :: 0 <= j < jsDay ==> d[j].dayOfWeek != jsDay;
    assert forall j :: 0 <= j < jsDay ==> w[j].dayOfWeek != jsDay;
    FindFirst(d, jsDay, jsDay);
    FindFirst(w, jsDay, jsDay);
  }

  /** `find` returns the first entry with the day. */
  lemma FindFirst(hours: seq<HoursEntry>, day: int, k: nat)
    requires k < |hours| && hours[k].dayOfWeek == day
    requires forall j :: 0 <= j < k ==> hours[j].dayOfWeek != day
    ensures FindHours(hours, day) == Some(hours[k])
  {
    var r := FindHours(hours, day);
    assert r.Some?;
    var i :| 0 <= i < |hours| && hours[i] == r.value && r.value.dayOfWeek == day
             && forall j :: 0 <= j < i ==> hours[j].dayOfWeek != day;
    assert i == k;
  }

  /** With the intended generator, the restaurant preset's Sunday opens at
      11:00 as saved. */
  lemma OpenSundayOffered()
    ensures var week := RestaurantPreset(DefaultHours());
            "11:00" in IntendedTimeSlots("2025-03-09", 0, week, None)
  {
    var week := RestaurantPreset(DefaultHours());
    IntendedLookupFindsEditorRow(0);
    IntendedTimeSlotsExactly("2025-03-09", 0, week, None, 0);
    assert FormatSlot(660) == "11:00";
  }

  /** With the intended generator, a day opening at 09:30 starts at 09:30. */
  lemma NoStartBeforeOpening()
    ensures var hours := [HoursEntry(1, Clock(9, 30), Clock(11, 0), true)];
            IntendedTimeSlots("2025-03-10", 1, hours, None) == ["09:30", "10:00"]
  {
    var e := HoursEntry(1, Clock(9, 30), Clock(11, 0), true);
    assert RoundUp(570) == 570;
    assert StartsFrom(570, 600) == [570, 600];
    assert FormatSlot(570) == "09:30";
    assert FormatSlot(600) == "10:00";
  }
}
