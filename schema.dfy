/** The rows the application reads and writes (the table types of
    src/lib/supabase.ts), with the derived notions several screens share. */
module Schema {
  import opened Common

  datatype ReservationStatus = Pending | Confirmed | Cancelled | Completed
  datatype MessageStatus = Unread | Read | Replied
  datatype MessageChannel = PhoneChannel | TelegramChannel | WebChannel | EmailChannel
  /** A notification's `type`; the table declares 'email' | 'sms', the
      dispatcher also handles any other value. */
  datatype NotificationKind = Email | Sms | OtherKind(name: string)
  datatype NotificationStatus = Queued | Sent | Failed

  datatype Business = Business(
    id: string, userId: string, name: string, kind: string,
    phone: Option<string>, email: Option<string>, address: Option<string>)

  /** `price` is a whole amount in the currency unit (leva). */
  datatype Service = Service(
    id: string, businessId: string, name: string, description: Option<string>,
    duration: int, price: int, isActive: bool)

  /** `date` is the stored 'YYYY-MM-DD' text and `time` the 'HH:MM' text. */
  datatype Reservation = Reservation(
    id: string, businessId: string, serviceId: Option<string>,
    customerName: string, customerPhone: Option<string>, customerEmail: Option<string>,
    partySize: Option<int>, specialRequests: Option<string>,
    status: ReservationStatus, date: string, time: string, notes: Option<string>)

  /** The columns a client sends when it inserts a reservation. */
  datatype NewReservation = NewReservation(
    businessId: string, serviceId: Option<string>,
    customerName: string, customerPhone: Option<string>, customerEmail: Option<string>,
    partySize: Option<int>, specialRequests: Option<string>,
    date: string, time: string, notes: Option<string>, status: ReservationStatus)

  datatype Message = Message(
    id: string, businessId: string, customerName: string, customerContact: string,
    channel: MessageChannel, content: string, status: MessageStatus)

  datatype NewMessage = NewMessage(
    businessId: string, customerName: string, customerContact: string,
    channel: MessageChannel, content: string, status: MessageStatus)

  /** A time of day as the screens read an 'HH:MM' string. */
  datatype Clock = Clock(hour: nat, minute: nat)

  /** One row of `business_hours`. */
  datatype HoursEntry = HoursEntry(dayOfWeek: int, openTime: Clock, closeTime: Clock, isOpen: bool)

  /** The text a status select compares against. */
  function StatusName(s: ReservationStatus): string {
    match s
    case Pending => "pending"
    case Confirmed => "confirmed"
    case Cancelled => "cancelled"
    case Completed => "completed"
  }

  function MessageStatusName(s: MessageStatus): string {
    match s
    case Unread => "unread"
    case Read => "read"
    case Replied => "replied"
  }

  /** A reservation that earns revenue: confirmed or completed. */
  predicate IsPaid(r: Reservation) {
    r.status == Confirmed || r.status == Completed
  }

  /** The identity of a customer: email, else phone, else name. */
  function CustomerKey(r: Reservation): string {
    OrElse(r.customerEmail, OrElse(r.customerPhone, r.customerName))
  }

  /** `services.find(s => s.id === id)`: the first service with that id. */
  function FindService(services: seq<Service>, id: Option<string>): (r: Option<Service>)
    ensures r.Some? ==> r.value in services && id == Some(r.value.id)
    ensures r.None? <==> id.None? || forall s :: s in services ==> s.id != id.value
  {
    if id.None? || services == [] then None
    else if services[0].id == id.value then Some(services[0])
    else FindService(services[1..], id)
  }

  /** `service?.price || 0`: the price of the reservation's service, 0 when
      the service is unknown. */
  function PriceOf(services: seq<Service>, id: Option<string>): int {
    match FindService(services, id)
    case Some(s) => s.price
    case None => 0
  }
}
