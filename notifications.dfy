/** Scheduling of reservation notifications (src/hooks/useNotifications.ts):
    the default templates, the rows the hook inserts, and the decision of
    which notifications a new reservation gets and when. Instants are
    milliseconds since the epoch; the reservation's start instant (its date
    and time read as local time) and the current instant are inputs. */
module Notifications {
  import opened Common
  import opened Schema

  datatype Trigger = BookingConfirmed | BookingReminder | BookingCancelled

  /** `timing` is the number of hours before the appointment. */
  datatype Template = Template(kind: NotificationKind, trigger: Trigger, subject: Option<string>, content: string, timing: int)

  /** One row of `notifications`; `scheduledFor` and `sentAt` are instants. */
  datatype NotificationRow = NotificationRow(
    businessId: string, reservationId: string, kind: NotificationKind,
    recipient: string, subject: Option<string>, content: string,
    status: NotificationStatus, scheduledFor: int, sentAt: Option<int>)

  const ConfirmationTemplate: Template := Template(
    Email, BookingConfirmed,
    Some("Потвърждение на резервация - {business_name}"),
    "Здравейте {customer_name},\n\nВашата резервация е потвърдена!\n\nДетайли:\n- Услуга: {service_name}\n- Дата: {date}\n- Час: {time}\n- Адрес: {business_address}\n\nАко имате въпроси, моля свържете се с нас.\n\nС уважение,\n{business_name}",
    0)

  const SmsReminderTemplate: Template := Template(
    Sms, BookingReminder, None,
    "Напомняне: Имате резервация в {business_name} утре в {time}. За промени: {business_phone}",
    24)

  const EmailReminderTemplate: Template := Template(
    Email, BookingReminder,
    Some("Напомняне за резервация - {business_name}"),
    "Здравейте {customer_name},\n\nТова е напомняне за вашата резервация утре:\n\n- Услуга: {service_name}\n- Дата: {date}\n- Час: {time}\n- Адрес: {business_address}\n\nОчакваме ви!\n\nС уважение,\n{business_name}",
    24)

  /** `loadDefaultTemplates`. */
  const DefaultTemplates: seq<Template> := [ConfirmationTemplate, SmsReminderTemplate, EmailReminderTemplate]

  /** The hook's template list after its business changes: the defaults
      once a business is known, otherwise the list it already had. */
  function LoadTemplates(businessId: Option<string>, current: seq<Template>): (r: seq<Template>)
    ensures Truthy(businessId) ==> r == DefaultTemplates
    ensures !Truthy(businessId) ==> r == current
  {
    if Truthy(businessId) then DefaultTemplates else current
  }

  /** `scheduleNotification`: the row inserted for a template, a recipient
      and an instant; the template text is copied unsubstituted. */
  function ScheduleRow(businessId: string, reservationId: string, t: Template, recipient: string, at: int): (n: NotificationRow)
    ensures n.status == Queued && n.sentAt.None?
    ensures n.kind == t.kind && n.subject == t.subject && n.content == t.content
    ensures n.businessId == businessId && n.reservationId == reservationId
    ensures n.recipient == recipient && n.scheduledFor == at
  {
    NotificationRow(businessId, reservationId, t.kind, recipient, t.subject, t.content, Queued, at, None)
  }

  predicate IsConfirmation(t: Template) {
    t.trigger == BookingConfirmed && t.kind == Email
  }

  /** `templates.find(...)`: the first e-mail confirmation template. */
  function FindConfirmation(templates: seq<Template>): (r: Option<Template>)
    ensures r.None? <==> forall i :: 0 <= i < |templates| ==> !IsConfirmation(templates[i])
    ensures r.Some? ==> r.value in templates && IsConfirmation(r.value)
  {
    if templates == [] then None
    else if IsConfirmation(templates[0]) then Some(templates[0])
    else FindConfirmation(templates[1..])
  }

  predicate IsReminder(t: Template) {
    t.trigger == BookingReminder
  }

  /** The reminder templates, in order. */
  function Reminders(templates: seq<Template>): seq<Template> {
    Filter(templates, IsReminder)
  }

  /** The contact a reminder goes to: the e-mail for an e-mail template,
      the phone for any other. */
  function ReminderRecipient(t: Template, r: Reservation): Option<string> {
    if t.kind == Email then r.customerEmail else r.customerPhone
  }

  /** The reservation's start minus the template's lead time. */
  function ReminderTime(startMs: int, t: Template): int {
    startMs - t.timing * 3600000
  }

  /** The confirmation row, if any: sent "now", to the e-mail address. */
  function ConfirmationRows(businessId: string, templates: seq<Template>, r: Reservation, now: int): seq<NotificationRow> {
    if !Truthy(r.customerEmail) then []
    else match FindConfirmation(templates)
      case None => []
      case Some(t) => [ScheduleRow(businessId, r.id, t, r.customerEmail.value, now)]
  }

  /** The row a reminder template contributes: none without a contact or
      when its instant is not strictly later than now. */
  function ReminderRow(businessId: string, t: Template, r: Reservation, startMs: int, now: int): seq<NotificationRow> {
    var recipient := ReminderRecipient(t, r);
    if Truthy(recipient) && ReminderTime(startMs, t) > now
    then [ScheduleRow(businessId, r.id, t, recipient.value, ReminderTime(startMs, t))]
    else []
  }

  /** The rows of the reminder templates `ts`, in order. */
  function ReminderRows(businessId: string, ts: seq<Template>, r: Reservation, startMs: int, now: int): (rows: seq<NotificationRow>)
    ensures |rows| <= |ts|
    decreases |ts|
  {
    if ts == [] then []
    else ReminderRows(businessId, ts[..|ts| - 1], r, startMs, now) + ReminderRow(businessId, ts[|ts| - 1], r, startMs, now)
  }

  /** What `scheduleReservationNotifications` asks to insert. */
  function ScheduledNotifications(businessId: Option<string>, templates: seq<Template>, r: Reservation, startMs: int, now: int): seq<NotificationRow> {
    if !Truthy(businessId) then []
    else ConfirmationRows(businessId.value, templates, r, now)
         + ReminderRows(businessId.value, Reminders(templates), r, startMs, now)
  }

  /** `scheduleReservationNotifications`: the confirmation first, then one
      pass over the reminder templates; every insert is attempted, a failed
      one is only logged. */
  method ScheduleReservationNotifications(businessId: Option<string>, templates: seq<Template>, r: Reservation, startMs: int, now: int)
    returns (inserted: seq<NotificationRow>)
    ensures inserted == ScheduledNotifications(businessId, templates, r, startMs, now)
  {
    inserted := [];
    if !Truthy(businessId) {
      return;
    }
    var id := businessId.value;
    if Truthy(r.customerEmail) {
      var confirmation := FindConfirmation(templates);
      if confirmation.Some? {
        inserted := inserted + [ScheduleRow(id, r.id, confirmation.value, r.customerEmail.value, now)];
      }
    }
    var reminders := ScheduleReminders(id, Reminders(templates), r, startMs, now);
    inserted := inserted + reminders;
  }

  /** The `for...of` pass over the reminder templates: a template whose
      contact is present gets a row at its lead time before the start,
      provided that instant is strictly later than now. */
  method ScheduleReminders(id: string, reminderTemplates: seq<Template>, r: Reservation, startMs: int, now: int)
    returns (inserted: seq<NotificationRow>)
    ensures inserted == ReminderRows(id, reminderTemplates, r, startMs, now)
  {
    inserted := [];
    for i := 0 to |reminderTemplates|
      invariant inserted == ReminderRows(id, reminderTemplates[..i], r, startMs, now)
    {
      var template := reminderTemplates[i];
      ReminderRowsStep(id, reminderTemplates, i, r, startMs, now);
      var recipient := if template.kind == Email then r.customerEmail else r.customerPhone;
      if Truthy(recipient) {
        var reminderTime := startMs - template.timing * 60 * 60 * 1000;
        HoursToMs(template.timing);
        if reminderTime > now {
          inserted := inserted + [ScheduleRow(id, r.id, template, recipient.value, reminderTime)];
        }
      }
    }
    assert reminderTemplates[..|reminderTemplates|] == reminderTemplates;
  }

  lemma HoursToMs(h: int)
    ensures h * 60 * 60 * 1000 == h * 3600000
  {
  }

  /** One more template of the pass appends that template's row. */
  lemma ReminderRowsStep(id: string, ts: seq<Template>, i: nat, r: Reservation, startMs: int, now: int)
    requires i < |ts|
    ensures ReminderRows(id, ts[..i + 1], r, startMs, now)
         == ReminderRows(id, ts[..i], r, startMs, now) + ReminderRow(id, ts[i], r, startMs, now)
  {
    assert ts[..i + 1][..i] == ts[..i];
  }

  // ---------------------------------------------------------------------
  // Properties of the schedule
  // ---------------------------------------------------------------------

  /** `n` is the row reminder template `t` contributes: the template's
      contact is present and the row lies strictly after now. */
  predicate ReminderRowOf(businessId: string, t: Template, r: Reservation, startMs: int, now: int, n: NotificationRow) {
    && Truthy(ReminderRecipient(t, r))
    && n == ScheduleRow(businessId, r.id, t, ReminderRecipient(t, r).value, ReminderTime(startMs, t))
    && n.scheduledFor > now
  }

  /** `n` is the row of some template of `ts`. */
  predicate FromReminder(businessId: string, ts: seq<Template>, r: Reservation, startMs: int, now: int, n: NotificationRow) {
    exists t :: t in ts && ReminderRowOf(businessId, t, r, startMs, now, n)
  }

  /** Every reminder row comes from a reminder template: it targets the
      template's contact, which is present, lies strictly in the future at
      the template's lead time before the start, and copies the template. */
  lemma {:induction false} ReminderRowsShape(businessId: string, ts: seq<Template>, r: Reservation, startMs: int, now: int)
    ensures forall k :: 0 <= k < |ReminderRows(businessId, ts, r, startMs, now)| ==>
              FromReminder(businessId, ts, r, startMs, now, ReminderRows(businessId, ts, r, startMs, now)[k])
    decreases |ts|
  {
    if ts != [] {
      var init := ts[..|ts| - 1];
      var last := ts[|ts| - 1];
      ReminderRowsShape(businessId, init, r, startMs, now);
      var front := ReminderRows(businessId, init, r, startMs, now);
      var rows := ReminderRows(businessId, ts, r, startMs, now);
      assert rows == front + ReminderRow(businessId, last, r, startMs, now);
      forall k | 0 <= k < |rows|
        ensures FromReminder(businessId, ts, r, startMs, now, rows[k])
      {
        if k < |front| {
          assert FromReminder(businessId, init, r, startMs, now, front[k]);
          FromReminderWider(businessId, init, ts, r, startMs, now, front[k]);
        } else {
          assert ReminderRowOf(businessId, last, r, startMs, now, rows[k]);
          assert last in ts;
        }
      }
    }
  }

  lemma FromReminderWider(businessId: string, a: seq<Template>, b: seq<Template>, r: Reservation, startMs: int, now: int,
                          n: NotificationRow)
    requires FromReminder(businessId, a, r, startMs, now, n) && forall t :: t in a ==> t in b
    ensures FromReminder(businessId, b, r, startMs, now, n)
  {
    var t :| t in a && ReminderRowOf(businessId, t, r, startMs, now, n);
    assert t in b;
  }

  /** A reminder template with a contact and a future instant is scheduled
      (and one without either is not: see `ReminderRowsShape`). */
  lemma {:induction false} ReminderScheduled(businessId: string, ts: seq<Template>, r: Reservation, startMs: int, now: int, t: Template)
    requires t in ts && Truthy(ReminderRecipient(t, r)) && ReminderTime(startMs, t) > now
    ensures ScheduleRow(businessId, r.id, t, ReminderRecipient(t, r).value, ReminderTime(startMs, t))
            in ReminderRows(businessId, ts, r, startMs, now)
    decreases |ts|
  {
    var last := ts[|ts| - 1];
    var init := ts[..|ts| - 1];
    if t != last {
      assert ts == init + [last];
      assert t in init;
      ReminderScheduled(businessId, init, r, startMs, now, t);
    }
  }

  /** Nothing is scheduled without a business. */
  lemma NothingWithoutBusiness(templates: seq<Template>, r: Reservation, startMs: int, now: int)
    ensures ScheduledNotifications(None, templates, r, startMs, now) == []
    ensures ScheduledNotifications(Some(""), templates, r, startMs, now) == []
  {
  }

  /** A confirmation for "now" heads the list exactly when the reservation
      has an e-mail address and an e-mail confirmation template exists; it
      goes to that address and copies the first such template. */
  lemma ConfirmationFirst(businessId: string, templates: seq<Template>, r: Reservation, startMs: int, now: int)
    requires businessId != ""
    ensures var rows := ScheduledNotifications(Some(businessId), templates, r, startMs, now);
            var c := FindConfirmation(templates);
            && (|ConfirmationRows(businessId, templates, r, now)| == 1 <==> Truthy(r.customerEmail) && c.Some?)
            && (Truthy(r.customerEmail) && c.Some? ==>
                  rows[0] == ScheduleRow(businessId, r.id, c.value, r.customerEmail.value, now))
  {
  }

  /** Every scheduled row is pending, unsent, tagged with the business and
      the reservation, and copies a template of the list unsubstituted. */
  lemma ScheduledRowsCopyTemplates(businessId: string, templates: seq<Template>, r: Reservation, startMs: int, now: int)
    requires businessId != ""
    ensures forall k :: 0 <= k < |ScheduledNotifications(Some(businessId), templates, r, startMs, now)| ==>
              var n := ScheduledNotifications(Some(businessId), templates, r, startMs, now)[k];
              && n.status == Queued && n.sentAt.None?
              && n.businessId == businessId && n.reservationId == r.id
              && exists t :: t in templates && n.kind == t.kind && n.subject == t.subject && n.content == t.content
  {
    var conf := ConfirmationRows(businessId, templates, r, now);
    var rem := ReminderRows(businessId, Reminders(templates), r, startMs, now);
    ReminderRowsShape(businessId, Reminders(templates), r, startMs, now);
    var rows := conf + rem;
    forall k | 0 <= k < |rows|
      ensures var n := rows[k];
              && n.status == Queued && n.sentAt.None?
              && n.businessId == businessId && n.reservationId == r.id
              && exists t :: t in templates && n.kind == t.kind && n.subject == t.subject && n.content == t.content
    {
      if k >= |conf| {
        var n := rem[k - |conf|];
        assert FromReminder(businessId, Reminders(templates), r, startMs, now, n);
        var t :| t in Reminders(templates) && ReminderRowOf(businessId, t, r, startMs, now, n);
        FilterMembers(templates, IsReminder, t);
      }
    }
  }

  /** The default reminders: the SMS one, then the e-mail one. */
  lemma DefaultReminders()
    ensures Reminders(DefaultTemplates) == [SmsReminderTemplate, EmailReminderTemplate]
  {
    RemindersOfThree(ConfirmationTemplate, SmsReminderTemplate, EmailReminderTemplate);
  }

  lemma RemindersOfThree(c: Template, sms: Template, email: Template)
    requires !IsReminder(c) && IsReminder(sms) && IsReminder(email)
    ensures Reminders([c, sms, email]) == [sms, email]
  {
    KeepsLast(sms, email);
    assert [c, sms, email][1..] == [sms, email];
  }

  lemma KeepsLast(sms: Template, email: Template)
    requires IsReminder(sms) && IsReminder(email)
    ensures Filter([sms, email], IsReminder) == [sms, email]
  {
    assert [sms, email][1..] == [email];
    assert Filter([email], IsReminder) == [email] by {
      assert [email][1..] == [];
    }
  }

  /** With the default templates a reservation gets at most three
      notifications, and exactly three when it has an e-mail address and a
      phone and starts more than 24 hours from now: the confirmation and
      the two reminders. */
  lemma DefaultSchedule(businessId: string, r: Reservation, startMs: int, now: int)
    requires businessId != ""
    ensures |ScheduledNotifications(Some(businessId), DefaultTemplates, r, startMs, now)| <= 3
    ensures Truthy(r.customerEmail) && Truthy(r.customerPhone) && startMs - 24 * 3600000 > now ==>
              ScheduledNotifications(Some(businessId), DefaultTemplates, r, startMs, now)
              == [ScheduleRow(businessId, r.id, ConfirmationTemplate, r.customerEmail.value, now),
                  ScheduleRow(businessId, r.id, SmsReminderTemplate, r.customerPhone.value, startMs - 24 * 3600000),
                  ScheduleRow(businessId, r.id, EmailReminderTemplate, r.customerEmail.value, startMs - 24 * 3600000)]
  {
    ThreeTemplateSchedule(businessId, ConfirmationTemplate, SmsReminderTemplate, EmailReminderTemplate, r, startMs, now);
  }

  /** The schedule of a confirmation followed by an SMS and an e-mail
      reminder with the same lead time. */
  lemma ThreeTemplateSchedule(businessId: string, c: Template, sms: Template, email: Template,
                              r: Reservation, startMs: int, now: int)
    requires businessId != ""
    requires IsConfirmation(c) && !IsReminder(c)
    requires IsReminder(sms) && sms.kind == Sms && IsReminder(email) && email.kind == Email
    requires sms.timing == email.timing
    ensures var rows := ScheduledNotifications(Some(businessId), [c, sms, email], r, startMs, now);
            && |rows| <= 3
            && (Truthy(r.customerEmail) && Truthy(r.customerPhone) && startMs - sms.timing * 3600000 > now ==>
                rows == [ScheduleRow(businessId, r.id, c, r.customerEmail.value, now),
                         ScheduleRow(businessId, r.id, sms, r.customerPhone.value, startMs - sms.timing * 3600000),
                         ScheduleRow(businessId, r.id, email, r.customerEmail.value, startMs - sms.timing * 3600000)])
  {
    var ts := [c, sms, email];
    RemindersOfThree(c, sms, email);
    assert FindConfirmation(ts) == Some(c);
    var conf := ConfirmationRows(businessId, ts, r, now);
    var first := ReminderRow(businessId, sms, r, startMs, now);
    var second := ReminderRow(businessId, email, r, startMs, now);
    assert [sms, email][..1] == [sms];
    assert ReminderRows(businessId, [sms], r, startMs, now) == first;
    assert ReminderRows(businessId, [sms, email], r, startMs, now) == first + second;
    assert ScheduledNotifications(Some(businessId), ts, r, startMs, now) == conf + first + second;
  }
}
