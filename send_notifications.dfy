/** The notification sender (supabase/functions/send-notifications/index.ts):
    it fetches the pending notifications that are due, tries to deliver
    each, and records 'sent' or 'failed' on the row. Also the placeholder
    substitution applied to a notification's text before delivery. The
    notifications table is a map from row id to row; the delivery outcome
    of each row and the clock readings are inputs. */
module SendNotifications {
  import opened Common
  import opened Schema
  import opened Notifications

  // ---------------------------------------------------------------------
  // Placeholder substitution
  // ---------------------------------------------------------------------

  /** `s.replace(/p/g, v)` for a literal pattern: every occurrence, scanned
      left to right without overlap, becomes `v`; the replacement text is
      not scanned again. */
  function ReplaceAll(s: string, p: string, v: string): string
    requires |p| > 0
    decreases |s|
  {
    if |s| < |p| then s
    else if s[..|p|] == p then v + ReplaceAll(s[|p|..], p, v)
    else [s[0]] + ReplaceAll(s[1..], p, v)
  }

  /** A placeholder: a '{' that occurs nowhere else in it. */
  predicate IsPlaceholder(p: string) {
    |p| > 0 && p[0] == '{' && forall i :: 0 < i < |p| ==> p[i] != '{'
  }

  /** Text without the pattern is returned unchanged. */
  lemma {:induction false} ReplaceAbsent(s: string, p: string, v: string)
    requires |p| > 0 && !Contains(s, p)
    ensures ReplaceAll(s, p, v) == s
    decreases |s|
  {
    if |s| >= |p| {
      assert s[..|p|] != p;
      ReplaceAbsent(s[1..], p, v);
      assert s == [s[0]] + s[1..];
    }
  }

  /** Text that does not contain a placeholder, followed by it, does not
      start with it unless the text is empty. */
  lemma NotAtFront(a: string, p: string, b: string)
    requires IsPlaceholder(p) && !Contains(a, p) && a != []
    ensures (a + p + b)[..|p|] != p
  {
    var s := a + p + b;
    if |a| >= |p| {
      assert s[..|p|] == a[..|p|];
      assert !StartsWith(a, p);
    } else {
      assert s[|a|] == p[0] && p[|a|] != '{';
      assert s[..|p|][|a|] != p[|a|];
    }
  }

  /** The first occurrence of a placeholder becomes the value, the text
      before it is kept and the rest is processed in turn: together with
      `ReplaceAbsent` this says that every occurrence is replaced. */
  lemma {:induction false} ReplaceFirst(a: string, p: string, b: string, v: string)
    requires IsPlaceholder(p) && !Contains(a, p)
    ensures ReplaceAll(a + p + b, p, v) == a + v + ReplaceAll(b, p, v)
    decreases |a|
  {
    var s := a + p + b;
    if a == [] {
      assert s[..|p|] == p && s[|p|..] == b;
    } else {
      NotAtFront(a, p, b);
      assert |s| >= |p|;
      assert ReplaceAll(s, p, v) == [s[0]] + ReplaceAll(s[1..], p, v);
      assert s[1..] == a[1..] + p + b;
      assert !Contains(a[1..], p);
      ReplaceFirst(a[1..], p, b, v);
      assert s[0] == a[0] && a == [a[0]] + a[1..];
    }
  }

  /** Text without '{' contains no placeholder. */
  lemma {:induction false} NoBraceNoPlaceholder(s: string, p: string)
    requires IsPlaceholder(p) && forall i :: 0 <= i < |s| ==> s[i] != '{'
    ensures !Contains(s, p)
    decreases |s|
  {
    if |s| > 0 {
      NoBraceNoPlaceholder(s[1..], p);
    }
  }

  const CustomerNameKey: string := "{customer_name}"
  const BusinessNameKey: string := "{business_name}"
  const ServiceNameKey: string := "{service_name}"
  const DateKey: string := "{date}"
  const TimeKey: string := "{time}"
  const BusinessAddressKey: string := "{business_address}"
  const BusinessPhoneKey: string := "{business_phone}"

  /** The text given for a missing service. */
  const GeneralReservation: string := "Обща резервация"

  /** The values a notification's reservation supplies; a missing business
      leaves name, address and phone absent. `dateText` is the reservation
      date as the Bulgarian locale writes it. */
  datatype PlaceholderValues = PlaceholderValues(
    customerName: string, businessName: Option<string>, serviceName: Option<string>,
    dateText: string, time: string, businessAddress: Option<string>, businessPhone: Option<string>)

  /** `replacePlaceholders`: seven global replacements, one after another,
      in this fixed order. */
  function ReplacePlaceholders(template: string, v: PlaceholderValues): string {
    var s1 := ReplaceAll(template, CustomerNameKey, v.customerName);
    var s2 := ReplaceAll(s1, BusinessNameKey, OrElse(v.businessName, ""));
    var s3 := ReplaceAll(s2, ServiceNameKey, OrElse(v.serviceName, GeneralReservation));
    var s4 := ReplaceAll(s3, DateKey, v.dateText);
    var s5 := ReplaceAll(s4, TimeKey, v.time);
    var s6 := ReplaceAll(s5, BusinessAddressKey, OrElse(v.businessAddress, ""));
    ReplaceAll(s6, BusinessPhoneKey, OrElse(v.businessPhone, ""))
  }

  predicate BraceFree(s: string) {
    forall i :: 0 <= i < |s| ==> s[i] != '{'
  }

  /** Text without '{' passes through every step unchanged. */
  lemma ReplaceBraceFree(s: string, p: string, v: string)
    requires IsPlaceholder(p) && BraceFree(s)
    ensures ReplaceAll(s, p, v) == s
  {
    NoBraceNoPlaceholder(s, p);
    ReplaceAbsent(s, p, v);
  }

  lemma KeysArePlaceholders()
    ensures IsPlaceholder(CustomerNameKey) && IsPlaceholder(BusinessNameKey) && IsPlaceholder(ServiceNameKey)
    ensures IsPlaceholder(DateKey) && IsPlaceholder(TimeKey)
    ensures IsPlaceholder(BusinessAddressKey) && IsPlaceholder(BusinessPhoneKey)
  {
  }

  /** A template without placeholders (indeed without '{') is returned
      unchanged. */
  lemma PlainTemplateUnchanged(template: string, v: PlaceholderValues)
    requires BraceFree(template)
    ensures ReplacePlaceholders(template, v) == template
  {
    KeysArePlaceholders();
    ReplaceBraceFree(template, CustomerNameKey, v.customerName);
    ReplaceBraceFree(template, BusinessNameKey, OrElse(v.businessName, ""));
    ReplaceBraceFree(template, ServiceNameKey, OrElse(v.serviceName, GeneralReservation));
    ReplaceBraceFree(template, DateKey, v.dateText);
    ReplaceBraceFree(template, TimeKey, v.time);
    ReplaceBraceFree(template, BusinessAddressKey, OrElse(v.businessAddress, ""));
    ReplaceBraceFree(template, BusinessPhoneKey, OrElse(v.businessPhone, ""));
  }

  /** A lone placeholder becomes its value. */
  lemma ReplaceWhole(p: string, v: string)
    requires IsPlaceholder(p)
    ensures ReplaceAll(p, p, v) == v
  {
    ReplaceFirst([], p, [], v);
    assert [] + p + [] == p;
  }

  /** The steps from `{date}` on pass brace-free text through. */
  lemma StepsFromDateKeep(s: string, v: PlaceholderValues)
    requires BraceFree(s)
    ensures ReplaceAll(ReplaceAll(ReplaceAll(ReplaceAll(s, DateKey, v.dateText), TimeKey, v.time),
              BusinessAddressKey, OrElse(v.businessAddress, "")), BusinessPhoneKey, OrElse(v.businessPhone, "")) == s
  {
    KeysArePlaceholders();
    ReplaceBraceFree(s, DateKey, v.dateText);
    ReplaceBraceFree(s, TimeKey, v.time);
    ReplaceBraceFree(s, BusinessAddressKey, OrElse(v.businessAddress, ""));
    ReplaceBraceFree(s, BusinessPhoneKey, OrElse(v.businessPhone, ""));
  }

  /** A string no longer than a different pattern does not contain it. */
  lemma NotContainedShort(s: string, t: string)
    requires |s| <= |t| && s != t
    ensures !Contains(s, t)
  {
    if |s| > 0 && Contains(s[1..], t) {
      ContainsLength(s[1..], t);
    }
  }

  /** Substitution is sequential: a customer name that reads
      "{business_name}" is itself replaced by the business name. */
  lemma LaterStepsRewriteEarlierValues(business: string)
    requires BraceFree(business)
    ensures ReplacePlaceholders(CustomerNameKey,
              PlaceholderValues(BusinessNameKey, Some(business), None, "", "", None, None)) == OrElse(Some(business), "")
  {
    var v := PlaceholderValues(BusinessNameKey, Some(business), None, "", "", None, None);
    var b := OrElse(Some(business), "");
    KeysArePlaceholders();
    ReplaceWhole(CustomerNameKey, BusinessNameKey);
    ReplaceWhole(BusinessNameKey, b);
    ReplaceBraceFree(b, ServiceNameKey, GeneralReservation);
    StepsFromDateKeep(b, v);
  }

  /** The first two steps leave "{service_name}" alone. */
  lemma ServiceKeySurvivesNames(v: PlaceholderValues)
    ensures ReplaceAll(ReplaceAll(ServiceNameKey, CustomerNameKey, v.customerName), BusinessNameKey, OrElse(v.businessName, ""))
         == ServiceNameKey
  {
    NotContainedShort(ServiceNameKey, CustomerNameKey);
    ReplaceAbsent(ServiceNameKey, CustomerNameKey, v.customerName);
    NotContainedShort(ServiceNameKey, BusinessNameKey);
    ReplaceAbsent(ServiceNameKey, BusinessNameKey, OrElse(v.businessName, ""));
  }

  /** A missing service reads 'Обща резервация'. */
  lemma ServiceFallback(v: PlaceholderValues)
    requires v.serviceName.None?
    ensures ReplacePlaceholders(ServiceNameKey, v) == GeneralReservation
  {
    KeysArePlaceholders();
    ServiceKeySurvivesNames(v);
    ReplaceWhole(ServiceNameKey, GeneralReservation);
    StepsFromDateKeep(GeneralReservation, v);
  }

  /** A missing business name reads as the empty text. */
  lemma BusinessNameFallback(v: PlaceholderValues)
    requires v.businessName.None?
    ensures ReplacePlaceholders(BusinessNameKey, v) == ""
  {
    KeysArePlaceholders();
    NotContainedShort(BusinessNameKey, CustomerNameKey);
    ReplaceAbsent(BusinessNameKey, CustomerNameKey, v.customerName);
    ReplaceWhole(BusinessNameKey, "");
    ReplaceBraceFree("", ServiceNameKey, OrElse(v.serviceName, GeneralReservation));
    StepsFromDateKeep("", v);
  }

  /** A placeholder that does not start with another placeholder does not
      contain it at all: its only '{' is the first character. */
  lemma OtherKeyKept(s: string, p: string, v: string)
    requires IsPlaceholder(s) && IsPlaceholder(p) && !StartsWith(s, p)
    ensures ReplaceAll(s, p, v) == s
  {
    NoBraceNoPlaceholder(s[1..], p);
    ReplaceAbsent(s, p, v);
  }

  /** The five steps before the address step leave a placeholder alone
      when it starts with none of their keys. */
  lemma EarlyStepsKeep(k: string, v: PlaceholderValues)
    requires IsPlaceholder(k)
    requires !StartsWith(k, CustomerNameKey) && !StartsWith(k, BusinessNameKey) && !StartsWith(k, ServiceNameKey)
    requires !StartsWith(k, DateKey) && !StartsWith(k, TimeKey)
    ensures ReplaceAll(ReplaceAll(ReplaceAll(ReplaceAll(ReplaceAll(k, CustomerNameKey, v.customerName),
              BusinessNameKey, OrElse(v.businessName, "")), ServiceNameKey, OrElse(v.serviceName, GeneralReservation)),
              DateKey, v.dateText), TimeKey, v.time) == k
  {
    KeysArePlaceholders();
    OtherKeyKept(k, CustomerNameKey, v.customerName);
    OtherKeyKept(k, BusinessNameKey, OrElse(v.businessName, ""));
    OtherKeyKept(k, ServiceNameKey, OrElse(v.serviceName, GeneralReservation));
    OtherKeyKept(k, DateKey, v.dateText);
    OtherKeyKept(k, TimeKey, v.time);
  }

  /** The address and phone keys start with none of the keys replaced
      before them. */
  lemma LateKeysDistinct()
    ensures !StartsWith(BusinessAddressKey, CustomerNameKey) && !StartsWith(BusinessAddressKey, BusinessNameKey)
    ensures !StartsWith(BusinessAddressKey, ServiceNameKey) && !StartsWith(BusinessAddressKey, DateKey)
    ensures !StartsWith(BusinessAddressKey, TimeKey)
    ensures !StartsWith(BusinessPhoneKey, CustomerNameKey) && !StartsWith(BusinessPhoneKey, BusinessNameKey)
    ensures !StartsWith(BusinessPhoneKey, ServiceNameKey) && !StartsWith(BusinessPhoneKey, DateKey)
    ensures !StartsWith(BusinessPhoneKey, TimeKey) && !StartsWith(BusinessPhoneKey, BusinessAddressKey)
  {
    var a, p := BusinessAddressKey, BusinessPhoneKey;
    assert a[1] != CustomerNameKey[1] && a[1] != ServiceNameKey[1] && a[1] != DateKey[1] && a[1] != TimeKey[1];
    assert p[1] != CustomerNameKey[1] && p[1] != ServiceNameKey[1] && p[1] != DateKey[1] && p[1] != TimeKey[1];
    assert a[10] != BusinessNameKey[10] && p[10] != BusinessNameKey[10];
  }

  /** A missing business address reads as the empty text. */
  lemma BusinessAddressFallback(v: PlaceholderValues)
    requires v.businessAddress.None?
    ensures ReplacePlaceholders(BusinessAddressKey, v) == ""
  {
    KeysArePlaceholders();
    LateKeysDistinct();
    EarlyStepsKeep(BusinessAddressKey, v);
    ReplaceWhole(BusinessAddressKey, "");
    ReplaceBraceFree("", BusinessPhoneKey, OrElse(v.businessPhone, ""));
  }

  /** A missing business phone reads as the empty text. */
  lemma BusinessPhoneFallback(v: PlaceholderValues)
    requires v.businessPhone.None?
    ensures ReplacePlaceholders(BusinessPhoneKey, v) == ""
  {
    KeysArePlaceholders();
    LateKeysDistinct();
    EarlyStepsKeep(BusinessPhoneKey, v);
    OtherKeyKept(BusinessPhoneKey, BusinessAddressKey, OrElse(v.businessAddress, ""));
    ReplaceWhole(BusinessPhoneKey, "");
  }

  // ---------------------------------------------------------------------
  // Delivery and status update
  // ---------------------------------------------------------------------

  /** What the `try` for one notification did: the sender returned its
      verdict (with the clock reading taken for `sent_at`) and the status
      update was issued, or that status update itself threw. `sendEmail`
      and `sendSMS` catch their own errors and return false, so only the
      update can reach the `catch`. */
  datatype Delivery = Returned(ok: bool, at: int) | UpdateThrew

  /** A row the sender fetches: pending and due by `now`. */
  predicate Due(n: NotificationRow, now: int) {
    n.status == Queued && n.scheduledFor <= now
  }

  predicate Delivers(k: NotificationKind) {
    k == Email || k == Sms
  }

  /** The row after its turn. Only e-mail and SMS rows are delivered; any
      other kind counts as an unsuccessful delivery. The update in the `try`
      sets the status and `sent_at` (cleared on failure); when that update
      throws, the `catch` sets the status alone. */
  function Outcome(n: NotificationRow, d: Delivery): (m: NotificationRow)
    ensures m.status == Sent <==> Delivers(n.kind) && d.Returned? && d.ok
    ensures m.status == Sent ==> m.sentAt == Some(d.at)
    ensures m.status != Sent ==> m.status == Failed
    ensures d.Returned? ==> (m.status == Failed ==> m.sentAt.None?)
    ensures d.UpdateThrew? ==> m.sentAt == n.sentAt
    ensures m.(status := n.status, sentAt := n.sentAt) == n
  {
    match d
    case UpdateThrew => n.(status := Failed)
    case Returned(ok, at) =>
      if Delivers(n.kind) && ok then n.(status := Sent, sentAt := Some(at)) else n.(status := Failed, sentAt := None)
  }

  predicate Distinct(ids: seq<string>) {
    forall i, j :: 0 <= i < j < |ids| ==> ids[i] != ids[j]
  }

  /** The fetch as the query answers it: every due row, once each. */
  predicate IsDueListing(table: map<string, NotificationRow>, now: int, fetched: seq<string>) {
    && Distinct(fetched)
    && (forall i :: 0 <= i < |fetched| ==> fetched[i] in table && Due(table[fetched[i]], now))
    && (forall id :: id in table && Due(table[id], now) ==> id in fetched)
  }

  /** The loop over the fetched rows: each is delivered and its status
      written back by id; `processed` is the number fetched. `writes[i]`
      is whether the status update of the i-th row succeeded: the update's
      error is not looked at, so a failed write leaves the row as it was
      and the row still counts as processed. */
  method ProcessNotifications(table: map<string, NotificationRow>, fetched: seq<string>, deliveries: seq<Delivery>,
                              writes: seq<bool>)
    returns (updated: map<string, NotificationRow>, processed: nat)
    requires |deliveries| == |fetched| == |writes| && Distinct(fetched)
    ensures processed == |fetched|
    ensures updated.Keys == table.Keys
    ensures forall i :: 0 <= i < |fetched| && fetched[i] in table && writes[i] ==>
              updated[fetched[i]] == Outcome(table[fetched[i]], deliveries[i])
    ensures forall i :: 0 <= i < |fetched| && fetched[i] in table && !writes[i] ==>
              updated[fetched[i]] == table[fetched[i]]
    ensures forall id :: id in table && id !in fetched ==> updated[id] == table[id]
  {
    updated := table;
    var i := 0;
    while i < |fetched|
      invariant 0 <= i <= |fetched|
      invariant ProcessedUpTo(table, updated, fetched, deliveries, writes, i)
    {
      var id := fetched[i];
      if id in updated {
        var result := DeliverOne(updated[id], deliveries[i]);
        if writes[i] {
          ProcessHit(table, updated, fetched, deliveries, writes, i, result);
          updated := updated[id := result];
        } else {
          ProcessLost(table, updated, fetched, deliveries, writes, i);
        }
      } else {
        ProcessMiss(table, updated, fetched, deliveries, writes, i);
      }
      i := i + 1;
    }
    assert fetched[..i] == fetched;
    processed := |fetched|;
  }

  /** The row a fetched id holds after its turn: the delivery outcome when
      the status write succeeded, the row as fetched when it did not. */
  function AfterWrite(n: NotificationRow, d: Delivery, written: bool): NotificationRow {
    if written then Outcome(n, d) else n
  }

  /** The loop's invariant after the first `i` fetched rows: the same ids,
      those rows written (or left as they were when the write failed),
      every other row untouched. */
  predicate ProcessedUpTo(table: map<string, NotificationRow>, updated: map<string, NotificationRow>,
                          fetched: seq<string>, deliveries: seq<Delivery>, writes: seq<bool>, i: nat)
    requires i <= |fetched| == |deliveries| == |writes|
  {
    && updated.Keys == table.Keys
    && (forall k :: 0 <= k < i && fetched[k] in table ==>
          updated[fetched[k]] == AfterWrite(table[fetched[k]], deliveries[k], writes[k]))
    && (forall id :: id in table && id !in fetched[..i] ==> updated[id] == table[id])
  }

  /** Writing the next fetched row, present in the table, advances the
      invariant. */
  lemma ProcessHit(table: map<string, NotificationRow>, updated: map<string, NotificationRow>,
                   fetched: seq<string>, deliveries: seq<Delivery>, writes: seq<bool>, i: nat, result: NotificationRow)
    requires i < |fetched| == |deliveries| == |writes| && Distinct(fetched) && writes[i]
    requires ProcessedUpTo(table, updated, fetched, deliveries, writes, i) && fetched[i] in updated
    requires result == Outcome(updated[fetched[i]], deliveries[i])
    ensures ProcessedUpTo(table, updated[fetched[i] := result], fetched, deliveries, writes, i + 1)
  {
    PrefixStep(fetched, i);
    assert fetched[i] !in fetched[..i];
  }

  /** A failed status write leaves the row as fetched and advances the
      invariant. */
  lemma ProcessLost(table: map<string, NotificationRow>, updated: map<string, NotificationRow>,
                    fetched: seq<string>, deliveries: seq<Delivery>, writes: seq<bool>, i: nat)
    requires i < |fetched| == |deliveries| == |writes| && Distinct(fetched) && !writes[i]
    requires ProcessedUpTo(table, updated, fetched, deliveries, writes, i) && fetched[i] in updated
    ensures ProcessedUpTo(table, updated, fetched, deliveries, writes, i + 1)
  {
    PrefixStep(fetched, i);
    assert fetched[i] !in fetched[..i];
  }

  /** A fetched id no longer in the table is skipped. */
  lemma ProcessMiss(table: map<string, NotificationRow>, updated: map<string, NotificationRow>,
                    fetched: seq<string>, deliveries: seq<Delivery>, writes: seq<bool>, i: nat)
    requires i < |fetched| == |deliveries| == |writes|
    requires ProcessedUpTo(table, updated, fetched, deliveries, writes, i) && fetched[i] !in updated
    ensures ProcessedUpTo(table, updated, fetched, deliveries, writes, i + 1)
  {
    PrefixStep(fetched, i);
  }

  /** The body of the loop for one row: the delivery and status update
      inside the `try`, and the status the `catch` writes when that update
      throws. */
  method DeliverOne(notification: NotificationRow, delivery: Delivery) returns (result: NotificationRow)
    ensures result == Outcome(notification, delivery)
  {
    var success := false;
    match delivery
    case UpdateThrew =>
      result := notification.(status := Failed);
    case Returned(ok, at) =>
      if notification.kind == Email || notification.kind == Sms {
        success := ok;
      }
      result := notification.(status := if success then Sent else Failed,
                              sentAt := if success then Some(at) else None);
  }

  /** After a run over a complete due listing, the rows still due are
      exactly the fetched rows whose status write failed: a second run at
      the same instant fetches those again and nothing else. When every
      write succeeded nothing is due any more. Rows that were not due are
      untouched. */
  lemma NothingDueAfterRun(table: map<string, NotificationRow>, now: int, fetched: seq<string>, deliveries: seq<Delivery>,
                           writes: seq<bool>, updated: map<string, NotificationRow>)
    requires IsDueListing(table, now, fetched) && |deliveries| == |fetched| == |writes|
    requires updated.Keys == table.Keys
    requires forall i :: 0 <= i < |fetched| && fetched[i] in table && writes[i] ==>
               updated[fetched[i]] == Outcome(table[fetched[i]], deliveries[i])
    requires forall i :: 0 <= i < |fetched| && fetched[i] in table && !writes[i] ==>
               updated[fetched[i]] == table[fetched[i]]
    requires forall id :: id in table && id !in fetched ==> updated[id] == table[id]
    ensures forall i :: 0 <= i < |fetched| ==> (Due(updated[fetched[i]], now) <==> !writes[i])
    ensures forall id :: id in updated && Due(updated[id], now) ==> WriteFailed(fetched, writes, id)
    ensures (forall i :: 0 <= i < |writes| ==> writes[i]) ==> forall id :: id in updated ==> !Due(updated[id], now)
    ensures forall id :: id in table && !Due(table[id], now) ==> updated[id] == table[id]
  {
    forall id | id in updated && Due(updated[id], now) ensures WriteFailed(fetched, writes, id) {
      if id in fetched {
        var i :| 0 <= i < |fetched| && fetched[i] == id;
        assert !writes[i];
      }
    }
  }

  /** `id` is a fetched row whose status write failed. */
  predicate WriteFailed(fetched: seq<string>, writes: seq<bool>, id: string)
    requires |writes| == |fetched|
  {
    exists i :: 0 <= i < |fetched| && fetched[i] == id && !writes[i]
  }

  /** The fetch: the listed rows, or the storage error. A missing list
      reads as empty. */
  datatype FetchResult = Fetched(ids: seq<string>) | FetchFailed(message: string)

  /** The response body: the processed count, or a server error. */
  datatype Response = ProcessedCount(processed: nat) | ServerError(message: string)

  /** The handler: a failed fetch answers with the error and writes
      nothing; otherwise every fetched row is processed and the count of
      fetched rows is reported, whether or not its status write
      succeeded. */
  method HandleRequest(table: map<string, NotificationRow>, fetch: FetchResult, deliveries: seq<Delivery>,
                       writes: seq<bool>)
    returns (updated: map<string, NotificationRow>, response: Response)
    requires fetch.Fetched? ==> |deliveries| == |fetch.ids| == |writes| && Distinct(fetch.ids)
    ensures fetch.FetchFailed? ==> updated == table && response == ServerError(fetch.message)
    ensures fetch.Fetched? ==> response == ProcessedCount(|fetch.ids|) && updated.Keys == table.Keys
    ensures fetch.Fetched? ==> forall i :: 0 <= i < |fetch.ids| && fetch.ids[i] in table ==>
              updated[fetch.ids[i]] == AfterWrite(table[fetch.ids[i]], deliveries[i], writes[i])
    ensures fetch.Fetched? ==> forall id :: id in table && id !in fetch.ids ==> updated[id] == table[id]
  {
    if fetch.FetchFailed? {
      return table, ServerError(fetch.message);
    }
    var processed;
    updated, processed := ProcessNotifications(table, fetch.ids, deliveries, writes);
    response := ProcessedCount(processed);
  }
}
