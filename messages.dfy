/** The messages screen (src/components/dashboard/Messages.tsx): the status
    filter, the reply, mark-as-read and create-reservation handlers over the
    record store, and the quick reservation form opened from a message. */
module Messages {
  import opened Common
  import opened Schema
  import opened Store
  import opened BookingPage
  import opened ReservationManagement

  // ---------------------------------------------------------------------
  // Filter
  // ---------------------------------------------------------------------

  function ShowsMessage(filterStatus: string): Message -> bool {
    (m: Message) => filterStatus == "all" || MessageStatusName(m.status) == filterStatus
  }

  /** The listed messages, in stored order. */
  function FilterMessages(ms: seq<Message>, filterStatus: string): seq<Message> {
    Filter(ms, ShowsMessage(filterStatus))
  }

  /** 'all' lists every message; any other value lists exactly the
      messages whose status has that name. */
  lemma FilterMessagesKeeps(ms: seq<Message>, filterStatus: string, m: Message)
    ensures filterStatus == "all" ==> FilterMessages(ms, filterStatus) == ms
    ensures filterStatus != "all" ==>
              (m in FilterMessages(ms, filterStatus) <==> m in ms && MessageStatusName(m.status) == filterStatus)
  {
    FilterMembers(ms, ShowsMessage(filterStatus), m);
    if filterStatus == "all" {
      FilterAll(ms, ShowsMessage(filterStatus));
    }
  }

  /** The three status tabs split the list: every message is under exactly
      one of them. */
  lemma {:induction false} StatusTabsPartition(ms: seq<Message>)
    ensures |FilterMessages(ms, "unread")| + |FilterMessages(ms, "read")| + |FilterMessages(ms, "replied")| == |ms|
  {
    if ms != [] {
      StatusTabsPartition(ms[1..]);
    }
  }

  /** The row storage keeps after a `{ status }` update of message `m`:
      the status is the new one and every other column is kept. */
  function WithStatus(m: Message, s: MessageStatus): (r: Message)
    ensures r.status == s && r.id == m.id
    ensures r.(status := m.status) == m
  {
    m.(status := s)
  }

  // ---------------------------------------------------------------------
  // The quick reservation form
  // ---------------------------------------------------------------------

  /** The form opened from a message: name and phone from the message
      (`customer_contact` goes to the phone field), email, service, date
      and time empty, and notes the caption `prefix`, ': ' and the
      message's text. */
  function QuickForm(message: Option<Message>, prefix: string): (f: ReservationForm)
    ensures f.customerEmail == "" && f.serviceId == "" && f.date == "" && f.time == ""
    ensures message.None? ==> f.customerName == "" && f.customerPhone == "" && f.notes == prefix + ": "
  {
    match message
    case None => ReservationForm("", "", "", "", "", "", prefix + ": ")
    case Some(m) =>
      ReservationForm(OrElse(Some(m.customerName), ""), OrElse(Some(m.customerContact), ""),
                      "", "", "", "", prefix + ": " + OrElse(Some(m.content), ""))
  }

  /** Submitted untouched with a current business, the quick form inserts a
      pending reservation for the message's sender with no service, the
      contact as phone, an empty email and the message quoted in the notes;
      without a current business nothing is sent. */
  lemma QuickPayloadFromMessage(current: Option<Business>, m: Message, prefix: string)
    ensures current.None? ==> NewReservationPayload(current, QuickForm(Some(m), prefix)).None?
    ensures current.Some? ==>
              NewReservationPayload(current, QuickForm(Some(m), prefix)) ==
              Some(NewReservation(current.value.id, None, m.customerName, Some(m.customerContact), Some(""),
                                  None, None, "", "", Some(prefix + ": " + m.content), Pending))
  {
  }

  // ---------------------------------------------------------------------
  // The screen's handlers
  // ---------------------------------------------------------------------

  class MessagesScreen {
    /** The id of the message whose reply box is open. */
    var selectedMessage: Option<string>
    var replyText: string
    /** The id of the message the quick reservation form was opened for. */
    var showReservationModal: Option<string>
    var filterStatus: string

    constructor()
      ensures selectedMessage.None? && replyText == "" && showReservationModal.None? && filterStatus == "all"
    {
      selectedMessage := None;
      replyText := "";
      showReservationModal := None;
      filterStatus := "all";
    }

    /** `handleReply`: a reply that is blank after trimming does nothing.
        Otherwise the message is updated to 'replied' (`request` is the
        status sent), and the reply box is cleared and closed; the storage
        call reports errors rather than throwing, so this happens even
        when the update fails. The reply text is not delivered anywhere. */
    method HandleReply(store: BusinessStore, messageId: string, result: StorageResult<Message>)
      returns (request: Option<MessageStatus>)
      modifies this, store
      ensures IsBlank(old(replyText)) ==> request.None? && unchanged(this) && unchanged(store)
      ensures !IsBlank(old(replyText)) ==>
                && request == Some(Replied)
                && replyText == "" && selectedMessage.None?
                && showReservationModal == old(showReservationModal) && filterStatus == old(filterStatus)
                && store.messages == (if result.Stored? then ReplaceById(old(store.messages), MessageKey, messageId, result.row)
                                      else old(store.messages))
                && unchanged(store`user, store`businesses, store`currentBusiness, store`services,
                             store`reservations, store`templates)
    {
      if IsBlank(replyText) {
        return None;
      }
      request := Some(Replied);
      var _ := store.UpdateMessage(messageId, result);
      replyText := "";
      selectedMessage := None;
    }

    /** `handleMarkAsRead`: the message is updated to 'read'. */
    method HandleMarkAsRead(store: BusinessStore, messageId: string, result: StorageResult<Message>)
      returns (request: MessageStatus)
      modifies store
      ensures request == Read
      ensures store.messages == (if result.Stored? then ReplaceById(old(store.messages), MessageKey, messageId, result.row)
                                 else old(store.messages))
      ensures unchanged(store`user, store`businesses, store`currentBusiness, store`services,
                        store`reservations, store`templates)
    {
      request := Read;
      var _ := store.UpdateMessage(messageId, result);
    }

    /** `handleCreateReservation`: the reservation is inserted, then the
        message is updated to 'replied' and the form closed. An insert
        error is returned, not thrown, so the message is marked replied
        even when no reservation was created. */
    method HandleCreateReservation(store: BusinessStore, messageId: string,
                                   created: StorageResult<Reservation>, startMs: int, now: int,
                                   updated: StorageResult<Message>)
      returns (request: MessageStatus)
      modifies this, store
      ensures request == Replied
      ensures store.reservations == (if created.Stored? then old(store.reservations) + [created.row]
                                     else old(store.reservations))
      ensures store.messages == (if updated.Stored? then ReplaceById(old(store.messages), MessageKey, messageId, updated.row)
                                 else old(store.messages))
      ensures showReservationModal.None?
      ensures selectedMessage == old(selectedMessage) && replyText == old(replyText) && filterStatus == old(filterStatus)
      ensures unchanged(store`user, store`businesses, store`currentBusiness, store`services, store`templates)
    {
      var _, _ := store.CreateReservation(created, startMs, now);
      request := Replied;
      var _ := store.UpdateMessage(messageId, updated);
      showReservationModal := None;
    }
  }

  /** A failed insert still marks the message: when the update stores the
      message with the status asked for, the message with that id is
      'replied' although no reservation was added. */
  method FailedInsertStillReplies(screen: MessagesScreen, store: BusinessStore, k: nat,
                                  error: string, startMs: int, now: int)
    requires k < |store.messages| && UniqueIds(store.messages, MessageKey)
    modifies screen, store
    ensures store.reservations == old(store.reservations)
    ensures |store.messages| == old(|store.messages|) && store.messages[k].status == Replied
  {
    var m := store.messages[k];
    ReplaceExactlyOne(store.messages, MessageKey, m.id, WithStatus(m, Replied), k);
    var _ := screen.HandleCreateReservation(store, m.id, StorageError(error), startMs, now,
                                            Stored(WithStatus(m, Replied)));
  }
}
