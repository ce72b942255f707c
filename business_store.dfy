/** The client-side record store of src/hooks/useBusiness.ts: the signed-in
    user's businesses, the current business, and its services, reservations
    and messages. Each operation receives the storage call's result as an
    input and applies it to the lists: prepend for new businesses and
    services, append for new reservations, replace-by-id for updates, and
    clearing when the user or the current business goes away. */
module Store {
  import opened Common
  import opened Schema
  import opened Notifications

  /** What a storage call returned: the row(s), or an error message. */
  datatype StorageResult<T> = Stored(row: T) | StorageError(message: string)

  /** `{ data, error }` as the hook's operations return it. */
  datatype Reply<T> = Reply(data: Option<T>, error: Option<string>)

  const NotAuthenticated: string := "User not authenticated"

  // ---------------------------------------------------------------------
  // Replace by id (`prev.map(x => x.id === id ? data : x)`)
  // ---------------------------------------------------------------------

  function BusinessKey(b: Business): string { b.id }
  function ServiceKey(s: Service): string { s.id }
  function ReservationKey(r: Reservation): string { r.id }
  function MessageKey(m: Message): string { m.id }

  function ReplaceById<T>(xs: seq<T>, idOf: T -> string, id: string, row: T): (r: seq<T>)
    ensures |r| == |xs|
  {
    seq(|xs|, i requires 0 <= i < |xs| => if idOf(xs[i]) == id then row else xs[i])
  }

  predicate UniqueIds<T>(xs: seq<T>, idOf: T -> string) {
    forall i, j :: 0 <= i < j < |xs| ==> idOf(xs[i]) != idOf(xs[j])
  }

  /** The ids of a list, in order. */
  function Ids<T>(xs: seq<T>, idOf: T -> string): (ids: seq<string>)
    ensures |ids| == |xs|
  {
    seq(|xs|, i requires 0 <= i < |xs| => idOf(xs[i]))
  }

  /** With unique ids, exactly the element with the id is replaced, in
      place; length and order are kept. */
  lemma ReplaceExactlyOne<T>(xs: seq<T>, idOf: T -> string, id: string, row: T, k: nat)
    requires UniqueIds(xs, idOf) && k < |xs| && idOf(xs[k]) == id
    ensures ReplaceById(xs, idOf, id, row) == xs[k := row]
  {
    var r := ReplaceById(xs, idOf, id, row);
    assert forall i :: 0 <= i < |xs| ==> r[i] == xs[k := row][i];
  }

  /** An id that is not in the list changes nothing. */
  lemma ReplaceMissing<T>(xs: seq<T>, idOf: T -> string, id: string, row: T)
    requires forall i :: 0 <= i < |xs| ==> idOf(xs[i]) != id
    ensures ReplaceById(xs, idOf, id, row) == xs
  {
    var r := ReplaceById(xs, idOf, id, row);
    assert forall i :: 0 <= i < |xs| ==> r[i] == xs[i];
  }

  /** A row that carries the id it replaces keeps the list's ids, hence
      their uniqueness; replacing again with the same row changes nothing. */
  lemma ReplaceKeepsIds<T>(xs: seq<T>, idOf: T -> string, id: string, row: T)
    requires idOf(row) == id
    ensures Ids(ReplaceById(xs, idOf, id, row), idOf) == Ids(xs, idOf)
    ensures UniqueIds(xs, idOf) ==> UniqueIds(ReplaceById(xs, idOf, id, row), idOf)
    ensures ReplaceById(ReplaceById(xs, idOf, id, row), idOf, id, row) == ReplaceById(xs, idOf, id, row)
  {
    var r := ReplaceById(xs, idOf, id, row);
    assert forall i :: 0 <= i < |xs| ==> Ids(r, idOf)[i] == Ids(xs, idOf)[i];
    var rr := ReplaceById(r, idOf, id, row);
    assert forall i :: 0 <= i < |xs| ==> rr[i] == r[i];
  }

  /** The business id the notification hook is given:
      `currentBusiness?.id || null`. */
  function HookBusinessId(current: Option<Business>): (r: Option<string>)
    ensures Truthy(r) <==> current.Some? && current.value.id != ""
    ensures r.Some? ==> current.Some? && r.value == current.value.id
  {
    if current.Some? then OrNull(current.value.id) else None
  }

  // ---------------------------------------------------------------------
  // The store
  // ---------------------------------------------------------------------

  class BusinessStore {
    /** The signed-in user's id, if any. */
    var user: Option<string>
    var businesses: seq<Business>
    var currentBusiness: Option<Business>
    var services: seq<Service>
    var reservations: seq<Reservation>
    var messages: seq<Message>
    /** The notification hook's template list. */
    var templates: seq<Template>

    constructor()
      ensures user.None? && currentBusiness.None?
      ensures businesses == [] && services == [] && reservations == [] && messages == [] && templates == []
    {
      user := None;
      businesses := [];
      currentBusiness := None;
      services := [];
      reservations := [];
      messages := [];
      templates := [];
    }

    /** `fetchBusinesses`: nothing without a user or on error; otherwise the
        list is replaced, and its first row becomes current only if no
        business is current yet. */
    method FetchBusinesses(result: StorageResult<seq<Business>>)
      modifies this
      ensures user.None? || result.StorageError? ==> unchanged(this)
      ensures user.Some? && result.Stored? ==>
                && businesses == result.row
                && currentBusiness == (if result.row != [] && old(currentBusiness).None?
                                       then Some(result.row[0]) else old(currentBusiness))
                && user == old(user) && services == old(services) && reservations == old(reservations)
                && messages == old(messages) && templates == old(templates)
    {
      if user.None? {
        return;
      }
      match result
      case StorageError(_) =>
      case Stored(data) =>
        businesses := data;
        if |data| > 0 && currentBusiness.None? {
          currentBusiness := Some(data[0]);
        }
    }

    /** `fetchServices`: with a current business and no error, the list is
        replaced; otherwise nothing changes. */
    method FetchServices(result: StorageResult<seq<Service>>)
      modifies this
      ensures currentBusiness.None? || result.StorageError? ==> unchanged(this)
      ensures old(currentBusiness).Some? && result.Stored? ==>
                services == result.row && unchanged(this`user, this`businesses, this`currentBusiness,
                                                    this`reservations, this`messages, this`templates)
    {
      if currentBusiness.None? {
        return;
      }
      if result.Stored? {
        services := result.row;
      }
    }

    /** `fetchReservations`, alike. */
    method FetchReservations(result: StorageResult<seq<Reservation>>)
      modifies this
      ensures currentBusiness.None? || result.StorageError? ==> unchanged(this)
      ensures old(currentBusiness).Some? && result.Stored? ==>
                reservations == result.row && unchanged(this`user, this`businesses, this`currentBusiness,
                                                        this`services, this`messages, this`templates)
    {
      if currentBusiness.None? {
        return;
      }
      if result.Stored? {
        reservations := result.row;
      }
    }

    /** `fetchMessages`, alike. */
    method FetchMessages(result: StorageResult<seq<Message>>)
      modifies this
      ensures currentBusiness.None? || result.StorageError? ==> unchanged(this)
      ensures old(currentBusiness).Some? && result.Stored? ==>
                messages == result.row && unchanged(this`user, this`businesses, this`currentBusiness,
                                                    this`services, this`reservations, this`templates)
    {
      if currentBusiness.None? {
        return;
      }
      if result.Stored? {
        messages := result.row;
      }
    }

    /** `createBusiness`: without a user it answers 'User not authenticated'
        at once; on error it answers the message; otherwise the new row is
        put first and made current. */
    method CreateBusiness(result: StorageResult<Business>) returns (reply: Reply<Business>)
      modifies this
      ensures user.None? ==> unchanged(this) && reply == Reply(None, Some(NotAuthenticated))
      ensures user.Some? && result.StorageError? ==> unchanged(this) && reply == Reply(None, Some(result.message))
      ensures old(user).Some? && result.Stored? ==>
                && businesses == [result.row] + old(businesses)
                && currentBusiness == Some(result.row)
                && reply == Reply(Some(result.row), None)
                && unchanged(this`user, this`services, this`reservations, this`messages, this`templates)
    {
      if user.None? {
        return Reply(None, Some(NotAuthenticated));
      }
      match result
      case StorageError(message) =>
        reply := Reply(None, Some(message));
      case Stored(data) =>
        businesses := [data] + businesses;
        currentBusiness := Some(data);
        reply := Reply(Some(data), None);
    }

    /** `updateBusiness`: on success the row with the id is replaced, and
        the current business is replaced only when it has that id. */
    method UpdateBusiness(id: string, result: StorageResult<Business>) returns (reply: Reply<Business>)
      modifies this
      ensures result.StorageError? ==> unchanged(this) && reply == Reply(None, Some(result.message))
      ensures result.Stored? ==>
                && businesses == ReplaceById(old(businesses), BusinessKey, id, result.row)
                && currentBusiness == (if old(currentBusiness).Some? && old(currentBusiness).value.id == id
                                       then Some(result.row) else old(currentBusiness))
                && reply == Reply(Some(result.row), None)
                && unchanged(this`user, this`services, this`reservations, this`messages, this`templates)
    {
      match result
      case StorageError(message) =>
        reply := Reply(None, Some(message));
      case Stored(data) =>
        businesses := ReplaceById(businesses, BusinessKey, id, data);
        if currentBusiness.Some? && currentBusiness.value.id == id {
          currentBusiness := Some(data);
        }
        reply := Reply(Some(data), None);
    }

    /** `createService`: on success the new row is put first. */
    method CreateService(result: StorageResult<Service>) returns (reply: Reply<Service>)
      modifies this
      ensures result.StorageError? ==> unchanged(this) && reply == Reply(None, Some(result.message))
      ensures result.Stored? ==>
                && services == [result.row] + old(services)
                && reply == Reply(Some(result.row), None)
                && unchanged(this`user, this`businesses, this`currentBusiness, this`reservations,
                             this`messages, this`templates)
    {
      match result
      case StorageError(message) =>
        reply := Reply(None, Some(message));
      case Stored(data) =>
        services := [data] + services;
        reply := Reply(Some(data), None);
    }

    /** `updateService`: on success the row with the id is replaced. */
    method UpdateService(id: string, result: StorageResult<Service>) returns (reply: Reply<Service>)
      modifies this
      ensures result.StorageError? ==> unchanged(this) && reply == Reply(None, Some(result.message))
      ensures result.Stored? ==>
                && services == ReplaceById(old(services), ServiceKey, id, result.row)
                && reply == Reply(Some(result.row), None)
                && unchanged(this`user, this`businesses, this`currentBusiness, this`reservations,
                             this`messages, this`templates)
    {
      match result
      case StorageError(message) =>
        reply := Reply(None, Some(message));
      case Stored(data) =>
        services := ReplaceById(services, ServiceKey, id, data);
        reply := Reply(Some(data), None);
    }

    /** `createReservation`: on success the new row is put last, and when a
        business is current the new reservation's notifications are
        scheduled (`scheduled` are the rows that asks to insert). The
        insert is made as it is: no slot or overlap check. `startMs` is the
        reservation's start instant and `now` the clock. */
    method CreateReservation(result: StorageResult<Reservation>, startMs: int, now: int)
      returns (reply: Reply<Reservation>, scheduled: seq<NotificationRow>)
      modifies this
      ensures result.StorageError? ==> unchanged(this) && reply == Reply(None, Some(result.message)) && scheduled == []
      ensures result.Stored? ==>
                && reservations == old(reservations) + [result.row]
                && reply == Reply(Some(result.row), None)
                && scheduled == (if currentBusiness.None? then []
                                 else ScheduledNotifications(HookBusinessId(currentBusiness), templates, result.row, startMs, now))
                && unchanged(this`user, this`businesses, this`currentBusiness, this`services,
                             this`messages, this`templates)
    {
      scheduled := [];
      match result
      case StorageError(message) =>
        reply := Reply(None, Some(message));
      case Stored(data) =>
        reservations := reservations + [data];
        if currentBusiness.Some? {
          scheduled := ScheduleReservationNotifications(HookBusinessId(currentBusiness), templates, data, startMs, now);
        }
        reply := Reply(Some(data), None);
    }

    /** `updateReservation`: on success the row with the id is replaced. */
    method UpdateReservation(id: string, result: StorageResult<Reservation>) returns (reply: Reply<Reservation>)
      modifies this
      ensures result.StorageError? ==> unchanged(this) && reply == Reply(None, Some(result.message))
      ensures result.Stored? ==>
                && reservations == ReplaceById(old(reservations), ReservationKey, id, result.row)
                && reply == Reply(Some(result.row), None)
                && unchanged(this`user, this`businesses, this`currentBusiness, this`services,
                             this`messages, this`templates)
    {
      match result
      case StorageError(message) =>
        reply := Reply(None, Some(message));
      case Stored(data) =>
        reservations := ReplaceById(reservations, ReservationKey, id, data);
        reply := Reply(Some(data), None);
    }

    /** `updateMessage`: on success the row with the id is replaced. */
    method UpdateMessage(id: string, result: StorageResult<Message>) returns (reply: Reply<Message>)
      modifies this
      ensures result.StorageError? ==> unchanged(this) && reply == Reply(None, Some(result.message))
      ensures result.Stored? ==>
                && messages == ReplaceById(old(messages), MessageKey, id, result.row)
                && reply == Reply(Some(result.row), None)
                && unchanged(this`user, this`businesses, this`currentBusiness, this`services,
                             this`reservations, this`templates)
    {
      match result
      case StorageError(message) =>
        reply := Reply(None, Some(message));
      case Stored(data) =>
        messages := ReplaceById(messages, MessageKey, id, data);
        reply := Reply(Some(data), None);
    }

    /** The exported `setCurrentBusiness`. */
    method SetCurrentBusiness(b: Option<Business>)
      modifies this`currentBusiness
      ensures currentBusiness == b
    {
      currentBusiness := b;
    }

    /** The effect on a change of user: a new user is recorded (its
        businesses are then fetched); losing the user clears every list and
        the current business. */
    method OnUserChanged(u: Option<string>)
      modifies this
      ensures user == u && templates == old(templates)
      ensures u.None? ==> businesses == [] && currentBusiness.None? && services == []
                          && reservations == [] && messages == []
      ensures u.Some? ==> unchanged(this`businesses, this`currentBusiness, this`services,
                                    this`reservations, this`messages)
    {
      user := u;
      if u.None? {
        businesses := [];
        currentBusiness := None;
        services := [];
        reservations := [];
        messages := [];
      }
    }

    /** The effects on a change of current business: without one, services,
        reservations and messages are cleared (with one, they are fetched);
        the notification hook loads its default templates once the business
        has an id. */
    method OnCurrentBusinessChanged()
      modifies this
      ensures templates == LoadTemplates(HookBusinessId(currentBusiness), old(templates))
      ensures unchanged(this`user, this`businesses, this`currentBusiness)
      ensures currentBusiness.None? ==> services == [] && reservations == [] && messages == []
      ensures currentBusiness.Some? ==> unchanged(this`services, this`reservations, this`messages)
    {
      if currentBusiness.None? {
        services := [];
        reservations := [];
        messages := [];
      }
      var businessId := HookBusinessId(currentBusiness);
      if Truthy(businessId) {
        templates := DefaultTemplates;
      }
    }
  }

  // ---------------------------------------------------------------------
  // Sequences of store operations
  // ---------------------------------------------------------------------

  /** A failed update leaves the store as it was, and a successful one
      keeps the list's ids when the stored row has the id it was asked to
      update. */
  method UpdateKeepsIds(s: BusinessStore, id: string, result: StorageResult<Reservation>)
    requires result.Stored? ==> result.row.id == id
    requires UniqueIds(s.reservations, ReservationKey)
    modifies s
    ensures result.StorageError? ==> s.reservations == old(s.reservations)
    ensures Ids(s.reservations, ReservationKey) == Ids(old(s.reservations), ReservationKey)
    ensures UniqueIds(s.reservations, ReservationKey)
  {
    if result.Stored? {
      ReplaceKeepsIds(s.reservations, ReservationKey, id, result.row);
    }
    var _ := s.UpdateReservation(id, result);
  }

  /** Signing out after any activity leaves nothing behind. */
  method SignOutClears(s: BusinessStore, created: StorageResult<Reservation>, startMs: int, now: int)
    modifies s
    ensures s.user.None? && s.currentBusiness.None?
    ensures s.businesses == [] && s.services == [] && s.reservations == [] && s.messages == []
  {
    var _, _ := s.CreateReservation(created, startMs, now);
    s.OnUserChanged(None);
  }
}
