/** The weekly hours editor (src/components/dashboard/BusinessHours.tsx):
    the default week, the toggle and time edits, the three preset templates
    and the rows a save inserts. Every edit rebuilds the list entry by entry
    and keys its entries by `day_of_week`, numbered 0..6 with Sunday = 0. */
module HoursEditor {
  import opened Common
  import opened Schema
  import opened Store

  /** The editor's day names, index = `day_of_week`. */
  const Days: seq<string> := ["Sunday", "Monday", "Tuesday", "Wednesday", "Thursday", "Friday", "Saturday"]

  /** Every entry is keyed by one of the editor's day numbers 0..6. */
  predicate DaysInWeek(hours: seq<HoursEntry>) {
    forall i :: 0 <= i < |hours| ==> 0 <= hours[i].dayOfWeek < |Days|
  }

  /** Two lists with the same days in the same order. */
  predicate SameDays(a: seq<HoursEntry>, b: seq<HoursEntry>) {
    |a| == |b| && forall i :: 0 <= i < |a| ==> a[i].dayOfWeek == b[i].dayOfWeek
  }

  // ---------------------------------------------------------------------
  // Loading
  // ---------------------------------------------------------------------

  /** The week shown when the business has no stored rows: one entry per
      day 0..6, 09:00-17:00, open Monday to Friday. */
  function DefaultHours(): (r: seq<HoursEntry>)
    ensures |r| == |Days|
    ensures DaysInWeek(r)
    ensures forall i :: 0 <= i < |r| ==>
              && r[i].dayOfWeek == i
              && r[i].openTime == Clock(9, 0) && r[i].closeTime == Clock(17, 0)
              && (r[i].isOpen <==> 1 <= i <= 5)
  {
    seq(|Days|, i requires 0 <= i < |Days| => HoursEntry(i, Clock(9, 0), Clock(17, 0), 1 <= i && i <= 5))
  }

  /** `fetchBusinessHours`: the stored rows, or the default week when there
      are none. A failed query is only logged, so the editor keeps the list
      it showed before (empty when the page has just opened). A missing
      list reads as empty. */
  function LoadedHours(shown: seq<HoursEntry>, fetch: StorageResult<seq<HoursEntry>>): (r: seq<HoursEntry>)
    ensures fetch.StorageError? ==> r == shown
    ensures fetch.Stored? && fetch.row != [] ==> r == fetch.row
    ensures fetch.Stored? && fetch.row == [] ==> r == DefaultHours()
    ensures fetch.Stored? ==> r != [] && (DaysInWeek(fetch.row) ==> DaysInWeek(r))
  {
    match fetch
    case StorageError(_) => shown
    case Stored(rows) => if |rows| == 0 then DefaultHours() else rows
  }

  // ---------------------------------------------------------------------
  // Edits
  // ---------------------------------------------------------------------

  /** `handleToggleDay`: flips `is_open` on every entry of that day. */
  function ToggleDay(hours: seq<HoursEntry>, day: int): (r: seq<HoursEntry>)
    ensures SameDays(r, hours)
    ensures forall i :: 0 <= i < |r| ==>
              && r[i].openTime == hours[i].openTime && r[i].closeTime == hours[i].closeTime
              && (r[i].isOpen <==> (if hours[i].dayOfWeek == day then !hours[i].isOpen else hours[i].isOpen))
  {
    seq(|hours|, i requires 0 <= i < |hours| =>
      if hours[i].dayOfWeek == day then hours[i].(isOpen := !hours[i].isOpen) else hours[i])
  }

  /** Toggling the same day twice restores the list. */
  lemma ToggleTwice(hours: seq<HoursEntry>, day: int)
    ensures ToggleDay(ToggleDay(hours, day), day) == hours
  {
    var r := ToggleDay(ToggleDay(hours, day), day);
    assert forall i :: 0 <= i < |r| ==> r[i] == hours[i];
  }

  /** Toggles of two days can be made in either order. */
  lemma ToggleCommutes(hours: seq<HoursEntry>, a: int, b: int)
    ensures ToggleDay(ToggleDay(hours, a), b) == ToggleDay(ToggleDay(hours, b), a)
  {
    var l := ToggleDay(ToggleDay(hours, a), b);
    var r := ToggleDay(ToggleDay(hours, b), a);
    assert forall i :: 0 <= i < |l| ==> l[i] == r[i];
  }

  /** The two time inputs of a day. */
  datatype TimeField = OpenField | CloseField

  /** `handleTimeChange`: sets the named time of every entry of that day. */
  function TimeChange(hours: seq<HoursEntry>, day: int, field: TimeField, value: Clock): (r: seq<HoursEntry>)
    ensures SameDays(r, hours)
    ensures forall i :: 0 <= i < |r| ==>
              && r[i].isOpen == hours[i].isOpen
              && (hours[i].dayOfWeek != day ==> r[i] == hours[i])
              && (hours[i].dayOfWeek == day && field == OpenField ==>
                    r[i].openTime == value && r[i].closeTime == hours[i].closeTime)
              && (hours[i].dayOfWeek == day && field == CloseField ==>
                    r[i].closeTime == value && r[i].openTime == hours[i].openTime)
  {
    seq(|hours|, i requires 0 <= i < |hours| =>
      if hours[i].dayOfWeek != day then hours[i]
      else match field
        case OpenField => hours[i].(openTime := value)
        case CloseField => hours[i].(closeTime := value))
  }

  /** A later change of the same field of the same day overrides an
      earlier one; in particular a repeated change is idempotent. */
  lemma TimeChangeOverrides(hours: seq<HoursEntry>, day: int, field: TimeField, v: Clock, w: Clock)
    ensures TimeChange(TimeChange(hours, day, field, v), day, field, w) == TimeChange(hours, day, field, w)
  {
    var l := TimeChange(TimeChange(hours, day, field, v), day, field, w);
    var r := TimeChange(hours, day, field, w);
    assert forall i :: 0 <= i < |l| ==> l[i] == r[i];
  }

  // ---------------------------------------------------------------------
  // Preset templates
  // ---------------------------------------------------------------------

  /** "Standard Business": open Monday to Friday, 09:00-17:00. */
  function StandardPreset(hours: seq<HoursEntry>): (r: seq<HoursEntry>)
    ensures SameDays(r, hours)
    ensures forall i :: 0 <= i < |r| ==>
              && (r[i].isOpen <==> 1 <= hours[i].dayOfWeek <= 5)
              && r[i].openTime == Clock(9, 0) && r[i].closeTime == Clock(17, 0)
  {
    seq(|hours|, i requires 0 <= i < |hours| =>
      hours[i].(isOpen := 1 <= hours[i].dayOfWeek && hours[i].dayOfWeek <= 5,
                openTime := Clock(9, 0), closeTime := Clock(17, 0)))
  }

  /** "Retail Store": open Monday to Saturday; opens 12:00 on Sunday and
      10:00 otherwise; closes 18:00 on Saturday and 20:00 otherwise. */
  function RetailPreset(hours: seq<HoursEntry>): (r: seq<HoursEntry>)
    ensures SameDays(r, hours)
    ensures forall i :: 0 <= i < |r| ==>
              && (r[i].isOpen <==> 1 <= hours[i].dayOfWeek <= 6)
              && r[i].openTime == (if hours[i].dayOfWeek == 0 then Clock(12, 0) else Clock(10, 0))
              && r[i].closeTime == (if hours[i].dayOfWeek == 6 then Clock(18, 0) else Clock(20, 0))
  {
    seq(|hours|, i requires 0 <= i < |hours| =>
      var d := hours[i].dayOfWeek;
      hours[i].(isOpen := 1 <= d && d <= 6,
                openTime := if d == 0 then Clock(12, 0) else Clock(10, 0),
                closeTime := if d == 6 then Clock(18, 0) else Clock(20, 0)))
  }

  /** "Restaurant": every day open, 11:00-22:00. */
  function RestaurantPreset(hours: seq<HoursEntry>): (r: seq<HoursEntry>)
    ensures SameDays(r, hours)
    ensures forall i :: 0 <= i < |r| ==>
              r[i].isOpen && r[i].openTime == Clock(11, 0) && r[i].closeTime == Clock(22, 0)
  {
    seq(|hours|, i requires 0 <= i < |hours| =>
      hours[i].(isOpen := true, openTime := Clock(11, 0), closeTime := Clock(22, 0)))
  }

  /** A preset depends only on the days of the list, never on its previous
      times or flags: lists with the same days give the same week. */
  lemma PresetsForgetEdits(a: seq<HoursEntry>, b: seq<HoursEntry>)
    requires SameDays(a, b)
    ensures StandardPreset(a) == StandardPreset(b)
    ensures RetailPreset(a) == RetailPreset(b)
    ensures RestaurantPreset(a) == RestaurantPreset(b)
  {
    assert forall i :: 0 <= i < |a| ==> StandardPreset(a)[i] == StandardPreset(b)[i];
    assert forall i :: 0 <= i < |a| ==> RetailPreset(a)[i] == RetailPreset(b)[i];
    assert forall i :: 0 <= i < |a| ==> RestaurantPreset(a)[i] == RestaurantPreset(b)[i];
  }

  /** Applying a preset to its own result changes nothing. */
  lemma PresetsIdempotent(hours: seq<HoursEntry>)
    ensures StandardPreset(StandardPreset(hours)) == StandardPreset(hours)
    ensures RetailPreset(RetailPreset(hours)) == RetailPreset(hours)
    ensures RestaurantPreset(RestaurantPreset(hours)) == RestaurantPreset(hours)
  {
    PresetsForgetEdits(StandardPreset(hours), hours);
    PresetsForgetEdits(RetailPreset(hours), hours);
    PresetsForgetEdits(RestaurantPreset(hours), hours);
  }

  /** The standard preset reproduces the default week. */
  lemma StandardIsDefault()
    ensures StandardPreset(DefaultHours()) == DefaultHours()
  {
    var d := DefaultHours();
    assert forall i :: 0 <= i < |d| ==> StandardPreset(d)[i] == d[i];
  }

  /** Each day at most once: no two entries share a `day_of_week`. */
  predicate OnceEach(hours: seq<HoursEntry>) {
    forall i, j :: 0 <= i < j < |hours| ==> hours[i].dayOfWeek != hours[j].dayOfWeek
  }

  /** The default week lists every day 0..6 exactly once. */
  lemma DefaultOnceEach()
    ensures OnceEach(DefaultHours()) && DaysInWeek(DefaultHours())
    ensures forall d :: 0 <= d < |Days| ==> DefaultHours()[d].dayOfWeek == d
  {
  }

  /** No edit adds, removes or reorders a day: every edit and preset keeps
      the days of the list position by position, so a week that lists the
      days 0..6 once each still does. */
  lemma EditsKeepDays(hours: seq<HoursEntry>, day: int, field: TimeField, value: Clock)
    ensures SameDays(ToggleDay(hours, day), hours)
    ensures SameDays(TimeChange(hours, day, field, value), hours)
    ensures SameDays(StandardPreset(hours), hours)
    ensures SameDays(RetailPreset(hours), hours)
    ensures SameDays(RestaurantPreset(hours), hours)
    ensures DaysInWeek(hours) && OnceEach(hours) ==>
              && DaysInWeek(ToggleDay(hours, day)) && OnceEach(ToggleDay(hours, day))
              && DaysInWeek(TimeChange(hours, day, field, value)) && OnceEach(TimeChange(hours, day, field, value))
              && DaysInWeek(StandardPreset(hours)) && OnceEach(StandardPreset(hours))
              && DaysInWeek(RetailPreset(hours)) && OnceEach(RetailPreset(hours))
              && DaysInWeek(RestaurantPreset(hours)) && OnceEach(RestaurantPreset(hours))
  {
  }

  // ---------------------------------------------------------------------
  // Saving
  // ---------------------------------------------------------------------

  /** One inserted `business_hours` row. */
  datatype HoursRow = HoursRow(businessId: string, dayOfWeek: int, openTime: Clock, closeTime: Clock, isOpen: bool)

  /** The entry a stored row reads back as. */
  function RowEntry(row: HoursRow): HoursEntry {
    HoursEntry(row.dayOfWeek, row.openTime, row.closeTime, row.isOpen)
  }

  /** `handleSave`: one row per entry, in order, tagged with the business. */
  function SaveRows(hours: seq<HoursEntry>, businessId: string): (rows: seq<HoursRow>)
    ensures |rows| == |hours|
    ensures forall i :: 0 <= i < |rows| ==> rows[i].businessId == businessId
  {
    seq(|hours|, i requires 0 <= i < |hours| =>
      HoursRow(businessId, hours[i].dayOfWeek, hours[i].openTime, hours[i].closeTime, hours[i].isOpen))
  }

  /** Saved rows read back as exactly the edited week: day, times and flag
      are copied one to one. */
  lemma SaveReadsBack(hours: seq<HoursEntry>, businessId: string)
    ensures seq(|hours|, i requires 0 <= i < |hours| => RowEntry(SaveRows(hours, businessId)[i])) == hours
  {
  }

  /** Nothing checks that a day opens before it closes: every entry is
      saved as it stands, an inverted or empty window included. A corollary
      of `SaveReadsBack`, stated for one entry. */
  lemma InvertedWindowSaved(hours: seq<HoursEntry>, businessId: string, i: int)
    requires 0 <= i < |hours|
    ensures i < |SaveRows(hours, businessId)|
    ensures var row := SaveRows(hours, businessId)[i];
            && row.openTime == hours[i].openTime && row.closeTime == hours[i].closeTime
            && row.isOpen == hours[i].isOpen && row.dayOfWeek == hours[i].dayOfWeek
  {
    SaveReadsBack(hours, businessId);
  }
}
