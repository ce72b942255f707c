/** The reservations screen (src/components/dashboard/ReservationManagement.tsx):
    the status-and-search filter, the service name shown on each row, the
    status change, and the new and edit forms with what they send. */
module ReservationManagement {
  import opened Common
  import opened Schema

  // ---------------------------------------------------------------------
  // Filter
  // ---------------------------------------------------------------------

  /** The status select: 'all' or one status's name. */
  predicate StatusMatches(selected: string, r: Reservation) {
    selected == "all" || StatusName(r.status) == selected
  }

  /** `field?.toLowerCase().includes(term.toLowerCase())` on an optional
      field: an absent field never matches. */
  predicate FieldContains(field: Option<string>, term: string) {
    field.Some? && Contains(Lower(field.value), Lower(term))
  }

  /** The search box matches the name, the phone or the email, ignoring
      case. */
  predicate SearchMatches(term: string, r: Reservation) {
    || Contains(Lower(r.customerName), Lower(term))
    || FieldContains(r.customerPhone, term)
    || FieldContains(r.customerEmail, term)
  }

  function Keeps(selected: string, term: string): Reservation -> bool {
    (r: Reservation) => StatusMatches(selected, r) && SearchMatches(term, r)
  }

  /** The rows the screen lists, in stored order. */
  function FilterReservations(rs: seq<Reservation>, selected: string, term: string): seq<Reservation> {
    Filter(rs, Keeps(selected, term))
  }

  /** A reservation is listed exactly when it is loaded, its status passes
      the select and the term occurs in its name, phone or email. */
  lemma FilterReservationsKeeps(rs: seq<Reservation>, selected: string, term: string, r: Reservation)
    ensures r in FilterReservations(rs, selected, term) <==>
              r in rs && (selected == "all" || StatusName(r.status) == selected) && SearchMatches(term, r)
  {
    FilterMembers(rs, Keeps(selected, term), r);
  }

  /** The filter keeps the stored order: filtering two runs of rows one
      after the other lists the first run's survivors first. */
  lemma FilterReservationsInOrder(a: seq<Reservation>, b: seq<Reservation>, selected: string, term: string)
    ensures FilterReservations(a + b, selected, term) ==
            FilterReservations(a, selected, term) + FilterReservations(b, selected, term)
  {
    FilterConcat(a, b, Keeps(selected, term));
  }

  /** 'all' with an empty search box lists every reservation. */
  lemma AllAndEmptyKeepEverything(rs: seq<Reservation>)
    ensures FilterReservations(rs, "all", "") == rs
  {
    forall r | r in rs ensures Keeps("all", "")(r) {
      ContainsEmpty(Lower(r.customerName));
    }
    FilterAll(rs, Keeps("all", ""));
  }

  /** A select value that is neither 'all' nor a status name lists nothing. */
  lemma {:induction false} UnknownStatusKeepsNothing(rs: seq<Reservation>, selected: string, term: string)
    requires selected != "all"
    requires selected !in {"pending", "confirmed", "cancelled", "completed"}
    ensures FilterReservations(rs, selected, term) == []
  {
    if rs != [] {
      UnknownStatusKeepsNothing(rs[1..], selected, term);
    }
  }

  /** The search ignores the case of the term. */
  lemma SearchIgnoresTermCase(term: string, r: Reservation)
    ensures SearchMatches(Lower(term), r) <==> SearchMatches(term, r)
  {
    LowerIdempotent(term);
  }

  // ---------------------------------------------------------------------
  // Service name of a row
  // ---------------------------------------------------------------------

  const GeneralReservation: string := "General Reservation"
  const UnknownService: string := "Unknown Service"

  /** `getServiceName`: no (or an empty) service id reads 'General
      Reservation'; an id no loaded service has, or a service with an
      empty name, reads 'Unknown Service'; otherwise the first service with
      that id gives its name. */
  function ServiceName(services: seq<Service>, serviceId: Option<string>): (name: string)
    ensures !Truthy(serviceId) ==> name == GeneralReservation
    ensures Truthy(serviceId) && (forall s :: s in services ==> s.id != serviceId.value) ==> name == UnknownService
    ensures name == GeneralReservation || name == UnknownService
            || exists s :: s in services && Some(s.id) == serviceId && s.name == name
  {
    if !Truthy(serviceId) then GeneralReservation
    else match FindService(services, serviceId)
      case Some(s) => if s.name != "" then s.name else UnknownService
      case None => UnknownService
  }

  /** With a known id, the row shows the name of the first service that has
      it, unless that name is empty. */
  lemma ServiceNameOfKnown(services: seq<Service>, i: nat)
    requires i < |services| && services[i].id != ""
    requires forall j :: 0 <= j < i ==> services[j].id != services[i].id
    ensures ServiceName(services, Some(services[i].id)) ==
            (if services[i].name != "" then services[i].name else UnknownService)
  {
    if i > 0 {
      ServiceNameOfKnown(services[1..], i - 1);
    }
  }

  // ---------------------------------------------------------------------
  // Updates sent to storage
  // ---------------------------------------------------------------------

  /** The columns an update sends: a present field is written, an absent
      one is left as stored. */
  datatype ReservationUpdate = ReservationUpdate(
    customerName: Option<string>, customerPhone: Option<string>, customerEmail: Option<string>,
    serviceId: Option<string>, date: Option<string>, time: Option<string>,
    notes: Option<string>, status: Option<ReservationStatus>)

  /** The stored row after an update: each sent column is written as the
      text it carries. */
  function Apply(r: Reservation, u: ReservationUpdate): Reservation {
    r.(customerName := if u.customerName.Some? then u.customerName.value else r.customerName,
       customerPhone := if u.customerPhone.Some? then u.customerPhone else r.customerPhone,
       customerEmail := if u.customerEmail.Some? then u.customerEmail else r.customerEmail,
       serviceId := if u.serviceId.Some? then u.serviceId else r.serviceId,
       date := if u.date.Some? then u.date.value else r.date,
       time := if u.time.Some? then u.time.value else r.time,
       notes := if u.notes.Some? then u.notes else r.notes,
       status := if u.status.Some? then u.status.value else r.status)
  }

  /** `handleStatusChange`: an update holding only `status`. */
  function StatusUpdate(s: ReservationStatus): (u: ReservationUpdate)
    ensures u.status == Some(s)
  {
    ReservationUpdate(None, None, None, None, None, None, None, Some(s))
  }

  /** A status change rewrites the status and nothing else. */
  lemma StatusUpdateOnlyStatus(r: Reservation, s: ReservationStatus)
    ensures Apply(r, StatusUpdate(s)) == r.(status := s)
    ensures Apply(r, StatusUpdate(s)).status == s
  {
  }

  // ---------------------------------------------------------------------
  // New reservation form
  // ---------------------------------------------------------------------

  /** The text fields of the new-reservation form. */
  datatype ReservationForm = ReservationForm(
    customerName: string, customerPhone: string, customerEmail: string,
    serviceId: string, date: string, time: string, notes: string)

  /** The form as it opens: every field empty. */
  const EmptyForm: ReservationForm := ReservationForm("", "", "", "", "", "", "")

  /** The new-reservation submit: nothing without a current business;
      otherwise the form's fields, the business's id, an empty service
      turned into null and the status forced to 'pending'. Empty phone,
      email and notes are sent as empty text, not null. */
  function NewReservationPayload(current: Option<Business>, form: ReservationForm): (p: Option<NewReservation>)
    ensures p.None? <==> current.None?
    ensures p.Some? ==> && p.value.businessId == current.value.id
                        && p.value.status == Pending
                        && (p.value.serviceId.None? <==> form.serviceId == "")
    ensures p.Some? ==> && p.value.customerPhone == Some(form.customerPhone)
                        && p.value.customerEmail == Some(form.customerEmail)
                        && p.value.notes == Some(form.notes)
                        && p.value.partySize.None? && p.value.specialRequests.None?
  {
    if current.None? then None
    else Some(NewReservation(
      current.value.id, OrNull(form.serviceId),
      form.customerName, Some(form.customerPhone), Some(form.customerEmail),
      None, None, form.date, form.time, Some(form.notes), Pending))
  }

  /** Reads a payload back into the form's text fields. */
  function FormOf(p: NewReservation): ReservationForm {
    ReservationForm(p.customerName, OrElse(p.customerPhone, ""), OrElse(p.customerEmail, ""),
                    OrElse(p.serviceId, ""), p.date, p.time, OrElse(p.notes, ""))
  }

  /** The payload carries everything typed into the form: reading it back
      gives the form. */
  lemma PayloadKeepsForm(b: Business, form: ReservationForm)
    ensures NewReservationPayload(Some(b), form).Some?
    ensures FormOf(NewReservationPayload(Some(b), form).value) == form
  {
  }

  // ---------------------------------------------------------------------
  // Edit form
  // ---------------------------------------------------------------------

  /** The edit form's fields: the text fields plus the status. */
  datatype EditForm = EditForm(fields: ReservationForm, status: ReservationStatus)

  /** `reservations.find(r => r.id === id)`. */
  function FindReservation(rs: seq<Reservation>, id: string): (r: Option<Reservation>)
    ensures r.Some? ==> r.value in rs && r.value.id == id
    ensures r.None? <==> forall x :: x in rs ==> x.id != id
  {
    if rs == [] then None
    else if rs[0].id == id then Some(rs[0])
    else FindReservation(rs[1..], id)
  }

  /** The form prefilled from a row: each absent optional field as ''. */
  function PrefillFrom(r: Reservation): EditForm {
    EditForm(ReservationForm(r.customerName, OrElse(r.customerPhone, ""), OrElse(r.customerEmail, ""),
                             OrElse(r.serviceId, ""), r.date, r.time, OrElse(r.notes, "")),
             r.status)
  }

  /** The edit dialog: nothing is rendered for an id no loaded reservation
      has; otherwise the form is prefilled from the first row with it. */
  function EditPrefill(rs: seq<Reservation>, id: string): (f: Option<EditForm>)
    ensures f.None? <==> forall x :: x in rs ==> x.id != id
    ensures f.Some? ==> exists r :: r in rs && r.id == id && f.value == PrefillFrom(r)
  {
    match FindReservation(rs, id)
    case None => None
    case Some(r) => Some(PrefillFrom(r))
  }

  /** The edit submit sends the form as it stands: every field, as text,
      an empty service id included. */
  function EditUpdate(f: EditForm): (u: ReservationUpdate)
    ensures u.serviceId == Some(f.fields.serviceId) && u.status == Some(f.status)
    ensures u.customerName.Some? && u.customerPhone.Some? && u.customerEmail.Some?
    ensures u.date.Some? && u.time.Some? && u.notes.Some?
  {
    ReservationUpdate(Some(f.fields.customerName), Some(f.fields.customerPhone), Some(f.fields.customerEmail),
                      Some(f.fields.serviceId), Some(f.fields.date), Some(f.fields.time),
                      Some(f.fields.notes), Some(f.status))
  }

  /** Every edited field reaches storage: the saved row, prefilled again,
      shows exactly the form that was submitted, and keeps its id. */
  lemma EditSaves(r: Reservation, f: EditForm)
    ensures PrefillFrom(Apply(r, EditUpdate(f))) == f
    ensures Apply(r, EditUpdate(f)).id == r.id && Apply(r, EditUpdate(f)).businessId == r.businessId
  {
  }

  /** Saving the edit form untouched gives back the row exactly when the
      row has a phone, an email, a service and notes; each absent one is
      written back as ''. */
  lemma UntouchedEditRoundTrip(r: Reservation)
    ensures Apply(r, EditUpdate(PrefillFrom(r))) == r <==>
              r.customerPhone.Some? && r.customerEmail.Some? && r.serviceId.Some? && r.notes.Some?
    ensures r.serviceId.None? ==> Apply(r, EditUpdate(PrefillFrom(r))).serviceId == Some("")
  {
    var after := Apply(r, EditUpdate(PrefillFrom(r)));
    if r.customerPhone.None? { assert after.customerPhone != r.customerPhone; }
    if r.customerEmail.None? { assert after.customerEmail != r.customerEmail; }
    if r.serviceId.None? { assert after.serviceId != r.serviceId; }
    if r.notes.None? { assert after.notes != r.notes; }
  }
}
