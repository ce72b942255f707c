/** The public booking page (src/components/booking/BusinessBookingPage.tsx):
    the candidate start times it offers for a date, and the rows it inserts
    for a booking and for a contact message. The page inserts the booking
    as it is: it neither filters the slots against existing reservations
    nor checks them again before the insert. */
module BookingPage {
  import opened Common
  import opened Schema

  /** Minutes between two candidate start times. */
  const SlotInterval: nat := 30

  /** The duration used when no service (or one of zero length) is chosen. */
  const DefaultDuration: int := 60

  // ---------------------------------------------------------------------
  // Day lookup
  // ---------------------------------------------------------------------

  /** The stored day number the page looks up for a JavaScript weekday
      (`getDay()`, Sunday = 0): Sunday becomes 7. */
  function LookupKey(jsDay: int): (key: int)
    ensures key != 0
    ensures key % 7 == jsDay % 7
    ensures 0 <= jsDay <= 6 ==> 1 <= key <= 7
    ensures 1 <= jsDay ==> key == jsDay
  {
    if jsDay == 0 then 7 else jsDay
  }

  /** `businessHours.find(h => h.day_of_week === day)`. */
  function FindHours(hours: seq<HoursEntry>, day: int): (r: Option<HoursEntry>)
    ensures r.None? <==> forall i :: 0 <= i < |hours| ==> hours[i].dayOfWeek != day
    ensures r.Some? ==> exists i :: 0 <= i < |hours| && hours[i] == r.value && r.value.dayOfWeek == day
                          && forall j :: 0 <= j < i ==> hours[j].dayOfWeek != day
  {
    if hours == [] then None
    else if hours[0].dayOfWeek == day then Some(hours[0])
    else
      var r := FindHours(hours[1..], day);
      assert r.Some? ==> exists i :: 0 <= i < |hours[1..]| && hours[1..][i] == r.value
                           && forall j :: 0 <= j < i ==> hours[1..][j].dayOfWeek != day;
      r
  }

  /** `selectedService?.duration || 60`. */
  function ServiceDuration(selected: Option<Service>): (d: int)
    ensures d != 0
    ensures selected.Some? && selected.value.duration != 0 ==> d == selected.value.duration
    ensures selected.None? || selected.value.duration == 0 ==> d == DefaultDuration
  {
    if selected.Some? && selected.value.duration != 0 then selected.value.duration else DefaultDuration
  }

  // ---------------------------------------------------------------------
  // Slot generation
  // ---------------------------------------------------------------------

  /** The starts (in minutes since midnight) the inner loop keeps for hour
      `h`: h:00, then h:30, stopping at the first that would end after
      `closeTime`. */
  function HourSlots(h: nat, closeTime: int, d: int): seq<nat> {
    if h * 60 + d > closeTime then []
    else if h * 60 + SlotInterval + d > closeTime then [h * 60]
    else [h * 60, h * 60 + SlotInterval]
  }

  /** The starts the nested loops keep for the hours `lo` .. `hi - 1`. */
  function GridSlots(lo: nat, hi: nat, closeTime: int, d: int): seq<nat>
    decreases hi
  {
    if hi <= lo then [] else GridSlots(lo, hi - 1, closeTime, d) + HourSlots(hi - 1, closeTime, d)
  }

  /** "HH:MM" with both fields padded to two digits. */
  function FormatClock(h: nat, m: nat): string {
    PadStart2(NatToString(h)) + ":" + PadStart2(NatToString(m))
  }

  function FormatSlot(m: nat): string {
    FormatClock(m / 60, m % 60)
  }

  function Formatted(ms: seq<nat>): (r: seq<string>)
    ensures |r| == |ms|
  {
    seq(|ms|, i requires 0 <= i < |ms| => FormatSlot(ms[i]))
  }

  /** The close time in minutes since midnight; the open minute plays no part. */
  function CloseMinutes(e: HoursEntry): int {
    e.closeTime.hour * 60 + e.closeTime.minute
  }

  /** What `generateTimeSlots` returns. */
  function TimeSlots(selectedDate: string, jsDay: int, hours: seq<HoursEntry>, selected: Option<Service>): seq<string> {
    SlotsForKey(selectedDate, LookupKey(jsDay), hours, selected)
  }

  /** The slots offered from the first row stored under day number `key`. */
  function SlotsForKey(selectedDate: string, key: int, hours: seq<HoursEntry>, selected: Option<Service>): seq<string> {
    if selectedDate == "" then []
    else match FindHours(hours, key)
      case None => []
      case Some(e) =>
        if !e.isOpen then []
        else Formatted(GridSlots(e.openTime.hour, e.closeTime.hour, CloseMinutes(e), ServiceDuration(selected)))
  }

  lemma FormattedAppend(a: seq<nat>, b: seq<nat>)
    ensures Formatted(a + b) == Formatted(a) + Formatted(b)
  {
    forall i | 0 <= i < |a + b| ensures Formatted(a + b)[i] == (Formatted(a) + Formatted(b))[i] {
      if i >= |a| {
        assert (a + b)[i] == b[i - |a|];
      }
    }
  }

  /** The outer loop's result so far: the formatted starts of the hours
      `lo` .. `h - 1`. */
  predicate SlotsSoFar(slots: seq<string>, lo: nat, h: nat, closeTime: int, d: int) {
    slots == Formatted(GridSlots(lo, h, closeTime, d))
  }

  /** One more hour of the outer loop appends that hour's starts. */
  lemma GridStep(slots: seq<string>, part: seq<string>, lo: nat, h: nat, closeTime: int, d: int)
    requires lo <= h && SlotsSoFar(slots, lo, h, closeTime, d)
    requires part == Formatted(HourSlots(h, closeTime, d))
    ensures SlotsSoFar(slots + part, lo, h + 1, closeTime, d)
  {
    FormattedAppend(GridSlots(lo, h, closeTime, d), HourSlots(h, closeTime, d));
  }

  /** On an open day the slots are the formatted grid of its window. */
  lemma OpenDaySlots(selectedDate: string, jsDay: int, hours: seq<HoursEntry>, selected: Option<Service>)
    requires selectedDate != ""
    requires FindHours(hours, LookupKey(jsDay)).Some? && FindHours(hours, LookupKey(jsDay)).value.isOpen
    ensures var e := FindHours(hours, LookupKey(jsDay)).value;
            TimeSlots(selectedDate, jsDay, hours, selected)
            == Formatted(GridSlots(e.openTime.hour, e.closeTime.hour, CloseMinutes(e), ServiceDuration(selected)))
  {
  }

  lemma FormatOnTheHour(h: nat, m: nat)
    requires m < 60
    ensures FormatSlot(h * 60 + m) == FormatClock(h, m)
  {
    assert (h * 60 + m) / 60 == h && (h * 60 + m) % 60 == m;
  }

  /** `generateTimeSlots`: walks hours from the opening hour up to (not
      including) the closing hour, and in each hour the minutes 0 and 30,
      keeping a start while it ends no later than the close time. */
  method GenerateTimeSlots(selectedDate: string, jsDay: int, hours: seq<HoursEntry>, selected: Option<Service>)
    returns (slots: seq<string>)
    ensures slots == TimeSlots(selectedDate, jsDay, hours, selected)
  {
    slots := [];
    if selectedDate == "" {
      return;
    }
    var dayOfWeek := LookupKey(jsDay);
    var found := FindHours(hours, dayOfWeek);
    if found.None? || !found.value.isOpen {
      return;
    }
    var entry := found.value;
    var openHour := entry.openTime.hour;
    var closeHour := entry.closeTime.hour;
    var closeMinute := entry.closeTime.minute;
    var serviceDuration := ServiceDuration(selected);
    var closeTime := closeHour * 60 + closeMinute;
    OpenDaySlots(selectedDate, jsDay, hours, selected);
    slots := WalkHours(openHour, closeHour, closeTime, serviceDuration);
  }

  /** The outer loop of `generateTimeSlots`: the starts of each hour from
      `openHour` up to, not including, `closeHour`, in order. */
  method WalkHours(openHour: nat, closeHour: nat, closeTime: int, serviceDuration: int) returns (slots: seq<string>)
    ensures slots == Formatted(GridSlots(openHour, closeHour, closeTime, serviceDuration))
  {
    slots := [];
    var hour := openHour;
    assert GridSlots(openHour, hour, closeTime, serviceDuration) == [];
    while hour < closeHour
      invariant openHour <= hour && (hour <= closeHour || hour == openHour)
      invariant SlotsSoFar(slots, openHour, hour, closeTime, serviceDuration)
    {
      var part := HourStarts(hour, closeTime, serviceDuration);
      GridStep(slots, part, openHour, hour, closeTime, serviceDuration);
      slots := slots + part;
      hour := hour + 1;
    }
    GridDone(slots, openHour, hour, closeHour, closeTime, serviceDuration);
  }

  /** Once the hour has passed the closing hour, or there was no hour to
      walk, the grid so far is the whole grid. */
  lemma GridDone(slots: seq<string>, lo: nat, h: nat, hi: nat, closeTime: int, d: int)
    requires h >= hi && (h == lo || h == hi) && SlotsSoFar(slots, lo, h, closeTime, d)
    ensures slots == Formatted(GridSlots(lo, hi, closeTime, d))
  {
  }

  /** The inner loop of `generateTimeSlots`: the minutes 0 and 30 of one
      hour, stopping at the first start whose service would end after the
      close time. */
  method HourStarts(hour: nat, closeTime: int, serviceDuration: int) returns (part: seq<string>)
    ensures part == Formatted(HourSlots(hour, closeTime, serviceDuration))
  {
    part := [];
    var minute: nat := 0;
    while minute < 60
      invariant minute == 0 || minute == 30 || minute == 60
      invariant minute == 0 ==> part == []
      invariant minute == 30 ==> part == [FormatClock(hour, 0)] && hour * 60 + serviceDuration <= closeTime
      invariant minute == 60 ==> part == [FormatClock(hour, 0), FormatClock(hour, 30)]
                                 && hour * 60 + 30 + serviceDuration <= closeTime
    {
      var endTime := hour * 60 + minute + serviceDuration;
      if endTime > closeTime {
        break;
      }
      var timeString := FormatClock(hour, minute);
      part := part + [timeString];
      minute := minute + SlotInterval;
    }
    FormatHalfHours(hour);
    HourSlotsFormatted(hour, closeTime, serviceDuration);
  }

  /** The two starts of hour `h` format as "HH:00" and "HH:30". */
  lemma FormatHalfHours(h: nat)
    ensures FormatSlot(h * 60) == FormatClock(h, 0)
    ensures FormatSlot(h * 60 + 30) == FormatClock(h, 30)
  {
    assert FormatSlot(h * 60) == FormatClock(h, 0) by { FormatOnTheHour(h, 0); }
    assert FormatSlot(h * 60 + 30) == FormatClock(h, 30) by { FormatOnTheHour(h, 30); }
  }

  /** The formatted starts of one hour, case by case. */
  lemma HourSlotsFormatted(h: nat, closeTime: int, d: int)
    ensures Formatted(HourSlots(h, closeTime, d))
         == if h * 60 + d > closeTime then []
            else if h * 60 + 30 + d > closeTime then [FormatSlot(h * 60)]
            else [FormatSlot(h * 60), FormatSlot(h * 60 + 30)]
  {
  }

  // ---------------------------------------------------------------------
  // What the slots are
  // ---------------------------------------------------------------------

  /** The nested loops keep exactly the half-hour grid points from the
      opening hour up to, not including, the closing hour that end by the
      close time. */
  lemma {:induction false} GridSlotsExactly(lo: nat, hi: nat, closeTime: int, d: int, x: nat)
    ensures x in GridSlots(lo, hi, closeTime, d)
        <==> lo * 60 <= x < hi * 60 && x % SlotInterval == 0 && x + d <= closeTime
    decreases hi
  {
    if hi > lo {
      GridSlotsExactly(lo, hi - 1, closeTime, d, x);
      HourSlotsExactly(hi - 1, closeTime, d, x);
      assert (hi - 1) * 60 + 60 == hi * 60;
    }
  }

  /** The starts of one hour are its grid points that end by the close time. */
  lemma HourSlotsExactly(h: nat, closeTime: int, d: int, x: nat)
    ensures x in HourSlots(h, closeTime, d)
        <==> h * 60 <= x < h * 60 + 60 && x % SlotInterval == 0 && x + d <= closeTime
  {
    HalfHoursOf(h * 60, 2 * h, x);
  }

  /** The half-hour grid points within the hour starting at minute `b`. */
  lemma HalfHoursOf(b: nat, k: nat, x: nat)
    requires b == k * 30
    ensures b <= x < b + 60 && x % 30 == 0 <==> x == b || x == b + 30
  {
    if b <= x < b + 60 {
      ShiftMod30(k, x - b);
    }
    assert b % 30 == 0 by { ShiftMod30(k, 0); }
    assert (b + 30) % 30 == 0 by { ShiftMod30(k + 1, 0); }
  }

  lemma {:induction false} ShiftMod30(k: nat, r: nat)
    ensures (k * 30 + r) % 30 == r % 30
  {
    if k > 0 {
      ShiftMod30(k - 1, r);
      assert k * 30 + r == ((k - 1) * 30 + r) + 30;
    }
  }

  /** Each grid lies below the next hour: every start is before `hi * 60`. */
  lemma {:induction false} GridSlotsBelow(lo: nat, hi: nat, closeTime: int, d: int)
    ensures forall i :: 0 <= i < |GridSlots(lo, hi, closeTime, d)| ==> GridSlots(lo, hi, closeTime, d)[i] < hi * 60
    decreases hi
  {
    if hi > lo {
      GridSlotsBelow(lo, hi - 1, closeTime, d);
    }
  }

  /** The starts come out strictly ascending. */
  lemma {:induction false} GridSlotsAscending(lo: nat, hi: nat, closeTime: int, d: int)
    ensures forall i, j :: 0 <= i < j < |GridSlots(lo, hi, closeTime, d)| ==>
              GridSlots(lo, hi, closeTime, d)[i] < GridSlots(lo, hi, closeTime, d)[j]
    decreases hi
  {
    if hi > lo {
      GridSlotsAscending(lo, hi - 1, closeTime, d);
      GridSlotsBelow(lo, hi - 1, closeTime, d);
    }
  }

  /** Formatting a start reads back as the same start, so distinct starts
      give distinct "HH:MM" strings. */
  lemma FormatSlotRoundTrip(m: nat)
    ensures ParseSixty(FormatSlot(m)) == Some(m)
  {
    ParsePadded(m / 60);
    ParseSixtyOf(PadStart2(NatToString(m / 60)), m);
  }

  lemma FormatSlotInjective(a: nat, b: nat)
    requires FormatSlot(a) == FormatSlot(b)
    ensures a == b
  {
    FormatSlotRoundTrip(a);
    FormatSlotRoundTrip(b);
  }

  /** Closed, unknown or unselected days offer nothing: an empty date, a
      weekday with no row under the looked-up key, or a closed row. */
  lemma NoSlotsUnlessOpen(selectedDate: string, jsDay: int, hours: seq<HoursEntry>, selected: Option<Service>)
    requires selectedDate == "" || FindHours(hours, LookupKey(jsDay)).None?
             || !FindHours(hours, LookupKey(jsDay)).value.isOpen
    ensures TimeSlots(selectedDate, jsDay, hours, selected) == []
  {
  }

  /** Every offered slot is the formatted form of a half-hour grid point in
      an hour from the opening hour to before the closing hour whose service
      ends by the close time; every such grid point is offered; the slots
      are strictly ascending, hence free of duplicates. */
  lemma TimeSlotsExactly(selectedDate: string, jsDay: int, hours: seq<HoursEntry>, selected: Option<Service>)
    requires selectedDate != ""
    requires FindHours(hours, LookupKey(jsDay)).Some? && FindHours(hours, LookupKey(jsDay)).value.isOpen
    ensures var e := FindHours(hours, LookupKey(jsDay)).value;
            var d := ServiceDuration(selected);
            var slots := TimeSlots(selectedDate, jsDay, hours, selected);
            && (forall s :: s in slots <==>
                  exists x: nat :: s == FormatSlot(x) && e.openTime.hour * 60 <= x < e.closeTime.hour * 60
                                  && x % SlotInterval == 0 && x + d <= CloseMinutes(e))
            && (forall i, j :: 0 <= i < j < |slots| ==> slots[i] != slots[j])
  {
    var e := FindHours(hours, LookupKey(jsDay)).value;
    var d := ServiceDuration(selected);
    var grid := GridSlots(e.openTime.hour, e.closeTime.hour, CloseMinutes(e), d);
    var slots := TimeSlots(selectedDate, jsDay, hours, selected);
    assert slots == Formatted(grid);
    forall s | s in slots
      ensures exists x: nat :: s == FormatSlot(x) && e.openTime.hour * 60 <= x < e.closeTime.hour * 60
                              && x % SlotInterval == 0 && x + d <= CloseMinutes(e)
    {
      var i :| 0 <= i < |slots| && slots[i] == s;
      GridSlotsExactly(e.openTime.hour, e.closeTime.hour, CloseMinutes(e), d, grid[i]);
    }
    forall x: nat | e.openTime.hour * 60 <= x < e.closeTime.hour * 60 && x % SlotInterval == 0 && x + d <= CloseMinutes(e)
      ensures FormatSlot(x) in slots
    {
      GridSlotsExactly(e.openTime.hour, e.closeTime.hour, CloseMinutes(e), d, x);
      var i :| 0 <= i < |grid| && grid[i] == x;
      assert slots[i] == FormatSlot(x);
    }
    GridSlotsAscending(e.openTime.hour, e.closeTime.hour, CloseMinutes(e), d);
    forall i, j | 0 <= i < j < |slots| ensures slots[i] != slots[j] {
      if slots[i] == slots[j] {
        FormatSlotInjective(grid[i], grid[j]);
      }
    }
  }

  /** Open 09:00-12:00, a 60-minute service: 09:00, 09:30, 10:00, 10:30 and
      11:00 (11:30 would end at 12:30). */
  lemma NineToNoonExample()
    ensures TimeSlots("2025-03-10", 1, [HoursEntry(1, Clock(9, 0), Clock(12, 0), true)], None)
         == ["09:00", "09:30", "10:00", "10:30", "11:00"]
  {
    NineToNoonGrid();
    NineToNoonFormatted();
  }

  lemma NineToNoonGrid()
    ensures GridSlots(9, 12, 720, 60) == [540, 570, 600, 630, 660]
  {
    assert GridSlots(9, 10, 720, 60) == [540, 570];
    assert GridSlots(9, 11, 720, 60) == [540, 570, 600, 630];
  }

  lemma NineToNoonFormatted()
    ensures Formatted([540, 570, 600, 630, 660]) == ["09:00", "09:30", "10:00", "10:30", "11:00"]
  {
    Slot0900();
    Slot0930();
    Slot1000();
    Slot1030();
    Slot1100();
  }

  lemma Slot0900() ensures FormatSlot(540) == "09:00" { ClockText(9, 0, "09:00"); }
  lemma Slot0930() ensures FormatSlot(570) == "09:30" { ClockText(9, 30, "09:30"); }
  lemma Slot1000() ensures FormatSlot(600) == "10:00" { ClockText(10, 0, "10:00"); }
  lemma Slot1030() ensures FormatSlot(630) == "10:30" { ClockText(10, 30, "10:30"); }
  lemma Slot1100() ensures FormatSlot(660) == "11:00" { ClockText(11, 0, "11:00"); }

  /** The text of a start within the first hundred hours, digit by digit. */
  lemma ClockText(h: nat, m: nat, text: string)
    requires h < 100 && m < 60
    requires text == [DigitChar(h / 10), DigitChar(h % 10), ':', DigitChar(m / 10), DigitChar(m % 10)]
    ensures FormatSlot(h * 60 + m) == text
  {
    FormatOnTheHour(h, m);
    PadTwo(h);
    PadTwo(m);
  }

  // ---------------------------------------------------------------------
  // Booking submission and contact messages
  // ---------------------------------------------------------------------

  datatype CustomerInfo = CustomerInfo(
    name: string, phone: string, email: string, notes: string,
    partySize: int, specialRequests: string)

  /** The business types for which the page asks for a party size. */
  predicate TakesPartySize(kind: string) {
    kind == "Restaurant" || kind == "Entertainment"
  }

  /** `handleSubmit`: nothing without a date, a time and a name; otherwise
      the single row it inserts, unconditionally and always 'pending'. */
  function SubmitPayload(businessId: string, business: Business, selected: Option<Service>,
                         selectedDate: string, selectedTime: string, info: CustomerInfo): (r: Option<NewReservation>)
    ensures r.None? <==> selectedDate == "" || selectedTime == "" || info.name == ""
    ensures r.Some? ==> && r.value.status == Pending
                        && r.value.businessId == businessId
                        && r.value.date == selectedDate && r.value.time == selectedTime
                        && r.value.customerName == info.name
                        && (r.value.customerPhone.None? <==> info.phone == "")
                        && (r.value.customerEmail.None? <==> info.email == "")
                        && (r.value.specialRequests.None? <==> info.specialRequests == "")
                        && (r.value.notes.None? <==> info.notes == "")
                        && (r.value.partySize.Some? <==> TakesPartySize(business.kind))
                        && (r.value.serviceId.Some? <==> selected.Some? && selected.value.id != "")
    ensures r.Some? ==> && (info.phone != "" ==> r.value.customerPhone == Some(info.phone))
                        && (info.email != "" ==> r.value.customerEmail == Some(info.email))
                        && (info.specialRequests != "" ==> r.value.specialRequests == Some(info.specialRequests))
                        && (info.notes != "" ==> r.value.notes == Some(info.notes))
                        && (TakesPartySize(business.kind) ==> r.value.partySize == Some(info.partySize))
                        && (r.value.serviceId.Some? ==> r.value.serviceId == Some(selected.value.id))
  {
    if selectedDate == "" || selectedTime == "" || info.name == "" then None
    else Some(NewReservation(
      businessId,
      if selected.Some? then OrNull(selected.value.id) else None,
      info.name,
      OrNull(info.phone),
      OrNull(info.email),
      if TakesPartySize(business.kind) then Some(info.partySize) else None,
      OrNull(info.specialRequests),
      selectedDate,
      selectedTime,
      OrNull(info.notes),
      Pending))
  }

  /** The characters `String.prototype.trim` removes. */
  predicate IsJsWhitespace(c: char) {
    || c == ' ' || c == '\t' || c == '\n' || c == '\r' || c == '\U{000B}' || c == '\U{000C}'
    || c == '\U{00A0}' || c == '\U{1680}' || ('\U{2000}' <= c <= '\U{200A}')
    || c == '\U{2028}' || c == '\U{2029}' || c == '\U{202F}' || c == '\U{205F}'
    || c == '\U{3000}' || c == '\U{FEFF}'
  }

  /** `!s.trim()`: the string is empty after trimming. */
  predicate IsBlank(s: string) {
    forall i :: 0 <= i < |s| ==> IsJsWhitespace(s[i])
  }

  const AnonymousCustomer: string := "Анонимен клиент"
  const NoContact: string := "Няма контакт"

  /** `handleSendMessage`: nothing for a blank message; otherwise an unread
      web message whose name and contact fall back to fixed texts. */
  function MessagePayload(businessId: string, info: CustomerInfo, contactMessage: string): (r: Option<NewMessage>)
    ensures r.None? <==> IsBlank(contactMessage)
    ensures r.Some? ==> && r.value.channel == WebChannel && r.value.status == Unread
                        && r.value.content == contactMessage
                        && r.value.businessId == businessId
                        && r.value.customerName == (if info.name != "" then info.name else AnonymousCustomer)
                        && r.value.customerContact ==
                             (if info.phone != "" then info.phone
                              else if info.email != "" then info.email else NoContact)
  {
    if IsBlank(contactMessage) then None
    else Some(NewMessage(
      businessId,
      if info.name != "" then info.name else AnonymousCustomer,
      if info.phone != "" then info.phone else if info.email != "" then info.email else NoContact,
      WebChannel,
      contactMessage,
      Unread))
  }

  /** `getDayName`: the English name of days 0..6 (Sunday first), undefined
      for any other index, 7 included. */
  function DayName(dayIndex: int): (r: Option<string>)
    ensures r.Some? <==> 0 <= dayIndex < 7
    ensures dayIndex == 0 ==> r == Some("Sunday")
  {
    var days := ["Sunday", "Monday", "Tuesday", "Wednesday", "Thursday", "Friday", "Saturday"];
    if 0 <= dayIndex < |days| then Some(days[dayIndex]) else None
  }
}
