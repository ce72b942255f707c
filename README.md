# bookany: a verified model of the booking rules

bookany is a booking service for small businesses, built as a React app over a hosted Postgres database (Supabase). A business owner uses it to:
- set weekly opening hours;
- define services with a duration and a price;
- take reservations from a public booking page;
- answer customer messages;
- look at customers, revenue and status statistics.

A server function sends the e-mail and SMS notifications that the app queues for each reservation.

This project is a Dafny model of the rules inside those screens and hooks, with proofs of what they guarantee. One module per source file:

| module | source file | what is modelled |
|---|---|---|
| `BookingPage` | src/components/booking/BusinessBookingPage.tsx | The start-time generator (an imperative method over nested loops, proved equal to a specification function). The weekday lookup. The submit and contact-message payloads. |
| `HoursEditor` | src/components/dashboard/BusinessHours.tsx | The default week. The toggle and time edits. The three presets. The rows written on save. |
| `Store` | src/hooks/useBusiness.ts | A `BusinessStore` class with the hook's lists and its current business. It covers the fetches, creates and updates, the replace-by-id rule, and the two clearing effects. |
| `Notifications` | src/hooks/useNotifications.ts | The default templates and the row shape. The confirmation-and-reminder scheduling decision, as a loop proved against a function. |
| `SendNotifications` | supabase/functions/send-notifications/index.ts | The ordered placeholder substitution. The sent/failed status machine over the due rows. The handler's response. |
| `Customers` | src/components/dashboard/CustomerManagement.tsx | Grouping reservations into customers (the imperative map fill), search, the four sort modes, repeat customers. |
| `Analytics` | src/components/dashboard/Analytics.tsx | Revenue, the status breakdown, per-service statistics, distinct customers, growth. |
| `Overview` | src/components/dashboard/Overview.tsx | The dashboard counts and revenue. The "recent reservations" list. |
| `ReservationManagement` | src/components/dashboard/ReservationManagement.tsx | The status-and-search filter, the service name of a row, the status change, and the new and edit forms. |
| `Messages` | src/components/dashboard/Messages.tsx | The status filter. The reply, mark-read and create-reservation handlers over the store. The quick reservation form. |
| `Telegram` | src/components/dashboard/TelegramIntegration.tsx | The connect/disconnect state machine, the webhook address, the statistics. |
| `PhoneAgent` | src/components/dashboard/AIPhoneAgent.tsx | Call-length formatting, status colours, the enable switch. |
| `ServiceManagement` | src/components/dashboard/ServiceManagement.tsx | The active toggle, the form's initial values, how the numeric fields read typed text, the create and edit payloads. |
| `Schema`, `Common` | src/lib/supabase.ts, and shared helpers | Row types. Option and text helpers, decimal printing and parsing, a filter and an insertion sort with their proofs. |

How the model represents things:
- Storage calls are not performed. What storage answered is an input: a row or list, or an error message (`StorageResult<T>`; `FetchResult` for the notification sender's query). The same holds for:
  - the clock (`now`, `startMs`);
  - the weekday of a date;
  - the answer to a confirmation dialog;
  - a delivery's outcome;
  - whether each status write of the notification sender took effect (the sender never reads that write's error).
- Times of day in the hours rows are `Clock(hour, minute)`. Slot starts are minutes since midnight.
- Prices are whole amounts in the currency unit. The service form's price field is an exact `real`.
- JavaScript's truncating `%`, `parseInt` and `parseFloat`, and `||`/`??` fallbacks are written out explicitly.

## Model

| member | source | states |
|---|---|---|
| BookingPage.LookupKey | src/components/booking/BusinessBookingPage.tsx:184-185 | The lookup key of a JavaScript weekday is 7 for Sunday (0) and the weekday itself for Monday to Saturday. It is never 0 and agrees with the weekday modulo 7. |
| BookingPage.FindHours | src/components/booking/BusinessBookingPage.tsx:187 | The entry found has the day asked for. Nothing is found exactly when no entry has that day. |
| BookingPage.ServiceDuration | src/components/booking/BusinessBookingPage.tsx:193 | The slot length is the selected service's duration. It is 60 when no service is selected or its duration is 0, so it is never 0. |
| BookingPage.GenerateTimeSlots | src/components/booking/BusinessBookingPage.tsx:178-208 | The nested hour/half-hour loops with their early exit return exactly the specification list `TimeSlots`. |
| BookingPage.WalkHours | src/components/booking/BusinessBookingPage.tsx:196-205 | The outer loop from the opening hour to before the closing hour returns the formatted starts of those hours, in order. |
| BookingPage.HourStarts | src/components/booking/BusinessBookingPage.tsx:197-203 | The inner loop over the minutes 0 and 30 of one hour keeps the starts that fit before closing and stops at the first that does not. |
| BookingPage.GridSlotsExactly | src/components/booking/BusinessBookingPage.tsx:196-204 | A minute is a start iff it is a whole or half hour of an hour from the opening hour up to (not including) the closing hour, and the service ends by closing time. |
| BookingPage.HourSlotsExactly | src/components/booking/BusinessBookingPage.tsx:197-203 | A minute is a start of hour h iff it is h:00 or h:30 and the service ends by closing time. |
| BookingPage.GridSlotsBelow | src/components/booking/BusinessBookingPage.tsx:196 | No start lies in or after the closing hour. |
| BookingPage.GridSlotsAscending | src/components/booking/BusinessBookingPage.tsx:196-204 | The starts are strictly ascending, hence free of duplicates. |
| BookingPage.FormatSlotRoundTrip | src/components/booking/BusinessBookingPage.tsx:202 | Reading a formatted "HH:MM" back as hours and minutes gives the start minute. |
| BookingPage.FormatSlotInjective | src/components/booking/BusinessBookingPage.tsx:202 | Distinct starts print as distinct texts, so the slot list has no repeated text. |
| BookingPage.NoSlotsUnlessOpen | src/components/booking/BusinessBookingPage.tsx:180-188 | An empty date, a day with no hours entry, or a closed day yields no slots. |
| BookingPage.TimeSlotsExactly | src/components/booking/BusinessBookingPage.tsx:190-204 | On an open day, the slot texts are exactly the formatted grid starts of that window whose service ends by closing time. |
| BookingPage.NineToNoonExample | src/components/booking/BusinessBookingPage.tsx:196-205 | 09:00 to 12:00 with a 60-minute service gives 09:00, 09:30, 10:00, 10:30 and 11:00. |
| BookingPage.SubmitPayload | src/components/booking/BusinessBookingPage.tsx:114-136 | Nothing is inserted without a date, a time and a name. Otherwise the inserted row is 'pending' and carries the typed fields: name, date and time, and phone, e-mail, special requests and notes as typed when non-empty, null when empty. The service id is the selected service's, null without one or for an empty id. Party size is sent, as typed, only for restaurant and entertainment businesses. No existing reservation is consulted. |
| BookingPage.MessagePayload | src/components/booking/BusinessBookingPage.tsx:148-163 | A message that is blank after trimming is not sent. Otherwise it goes through the web channel as 'unread', with fixed fallbacks for a missing name or contact. |
| BookingPage.DayName | src/components/booking/BusinessBookingPage.tsx:211-214 | A day name exists exactly for indexes 0 to 6, and 0 is Sunday. |
| HoursEditor.DefaultHours | src/components/dashboard/BusinessHours.tsx:49-55 | The default week is seven entries for days 0 to 6, 09:00 to 17:00, open exactly on days 1 to 5. |
| HoursEditor.LoadedHours | src/components/dashboard/BusinessHours.tsx:36-62 | Stored rows are shown as loaded. With none stored, exactly the default week is shown. A failed query keeps the list shown before. |
| HoursEditor.DefaultOnceEach | src/components/dashboard/BusinessHours.tsx:49-56 | The default week lists each day 0 to 6 once, at its own position. |
| HoursEditor.ToggleDay | src/components/dashboard/BusinessHours.tsx:67-73 | The toggle flips the open flag of the entries with that day. Everything else and the order of days are unchanged. |
| HoursEditor.ToggleTwice | src/components/dashboard/BusinessHours.tsx:67-73 | Toggling a day twice restores the week. |
| HoursEditor.ToggleCommutes | src/components/dashboard/BusinessHours.tsx:67-73 | Toggles of two days can be applied in either order. |
| HoursEditor.TimeChange | src/components/dashboard/BusinessHours.tsx:75-81 | A time edit sets only the named field of the matching day. Everything else is unchanged. |
| HoursEditor.TimeChangeOverrides | src/components/dashboard/BusinessHours.tsx:75-81 | The last edit of a field wins. |
| HoursEditor.StandardPreset | src/components/dashboard/BusinessHours.tsx:206-213 | Every day is 09:00 to 17:00, open exactly on days 1 to 5. Days and their order are kept. |
| HoursEditor.RetailPreset | src/components/dashboard/BusinessHours.tsx:222-229 | Open exactly on days 1 to 6. Opens at 12:00 on day 0, otherwise at 10:00. Closes at 18:00 on day 6, otherwise at 20:00. Days and their order are kept. |
| HoursEditor.RestaurantPreset | src/components/dashboard/BusinessHours.tsx:238-245 | Every day is open from 11:00 to 22:00. Days and their order are kept. |
| HoursEditor.PresetsForgetEdits | src/components/dashboard/BusinessHours.tsx:206-245 | A preset's result depends only on the days listed, not on earlier edits. |
| HoursEditor.PresetsIdempotent | src/components/dashboard/BusinessHours.tsx:206-245 | Applying a preset twice is the same as applying it once. |
| HoursEditor.StandardIsDefault | src/components/dashboard/BusinessHours.tsx:49-55 | The Standard preset applied to the default week gives the default week. |
| HoursEditor.EditsKeepDays | src/components/dashboard/BusinessHours.tsx:67-81 | Every edit and preset keeps the days of the list position by position. A week listing days 0 to 6 once each still does after any of them. |
| HoursEditor.SaveRows | src/components/dashboard/BusinessHours.tsx:95-101 | One row is saved per entry, each with the business's id. |
| HoursEditor.SaveReadsBack | src/components/dashboard/BusinessHours.tsx:95-101 | The saved rows copy day, times and open flag one to one, so reading them back gives the edited week. |
| HoursEditor.InvertedWindowSaved | src/components/dashboard/BusinessHours.tsx:83-105 | Every entry is saved with its own day, times and flag, whatever its window: a day that opens after it closes is not checked or dropped. |
| SlotFindings.SundayNeverOffered | src/components/booking/BusinessBookingPage.tsx:184-187 | Hours stored with the editor's Sunday key 0 are never found for a Sunday. |
| SlotFindings.OpenSundayOffersNothing | src/components/dashboard/BusinessHours.tsx:238-245 | After the Restaurant preset opens Sunday, the booking page still offers no Sunday slot. |
| SlotFindings.StartsBeforeOpening | src/components/booking/BusinessBookingPage.tsx:190-197 | With opening at 09:30, the page offers 09:00. |
| SlotFindings.ClosingHourNeverStarts | src/components/booking/BusinessBookingPage.tsx:196 | With closing at 17:30 and a 30-minute service, 17:00 is not offered although it fits. |
| SlotFindings.RoundUp | src/components/booking/BusinessBookingPage.tsx:196-197 | The first grid point at or after a minute is less than one interval later. |
| SlotFindings.StartsFromExactly | src/components/booking/BusinessBookingPage.tsx:196-204 | A stepping run contains exactly the grid points between its start and its last point. |
| SlotFindings.StartsFromAscending | src/components/booking/BusinessBookingPage.tsx:196-204 | A stepping run is strictly ascending and never below its start. |
| SlotFindings.WindowStartsExactly | src/components/booking/BusinessBookingPage.tsx:190-204 | The corrected starts are exactly the grid points from opening time on whose service ends by closing time. |
| SlotFindings.IntendedTimeSlotsExactly | src/components/booking/BusinessBookingPage.tsx:178-208 | The corrected generator offers exactly the formatted grid starts of the day's window, looked up under the editor's own day key. |
| SlotFindings.WindowSlotsSound | src/components/booking/BusinessBookingPage.tsx:196-204 | Every corrected slot is a half-hour grid point inside the opening window whose service ends by closing time. |
| SlotFindings.WindowSlotsComplete | src/components/booking/BusinessBookingPage.tsx:196-204 | Every such grid point is offered by the corrected generator. |
| SlotFindings.WindowSlotsDistinct | src/components/booking/BusinessBookingPage.tsx:196-204 | The corrected generator offers no slot twice. |
| SlotFindings.IntendedLookupFindsEditorRow | src/components/dashboard/BusinessHours.tsx:14-22 | Under the corrected lookup, every weekday finds its own row of the editor's week. |
| SlotFindings.FindFirst | src/components/booking/BusinessBookingPage.tsx:187 | The lookup returns the first entry with the day. |
| SlotFindings.OpenSundayOffered | src/components/dashboard/BusinessHours.tsx:238-245 | With the corrected lookup, an open Sunday offers its slots. |
| SlotFindings.NoStartBeforeOpening | src/components/booking/BusinessBookingPage.tsx:190-197 | With the corrected generator, opening at 09:30 offers 09:30 and not 09:00. |
| Store.ReplaceById | src/hooks/useBusiness.ts:182 | Replace-by-id keeps the list's length. |
| Store.Ids | src/hooks/useBusiness.ts:182 | The id list has one id per row. |
| Store.ReplaceExactlyOne | src/hooks/useBusiness.ts:239 | With unique ids, an update replaces exactly the element with that id, in place. |
| Store.ReplaceMissing | src/hooks/useBusiness.ts:258 | An update whose id is absent leaves the list as it was. |
| Store.ReplaceKeepsIds | src/hooks/useBusiness.ts:182 | A replacement whose row keeps its id leaves the ids, their order and their uniqueness unchanged, and repeating it changes nothing. |
| Store.HookBusinessId | src/hooks/useBusiness.ts:16 | The notifications hook sees a business id exactly when a business with a non-empty id is current. |
| Store.BusinessStore.constructor | src/hooks/useBusiness.ts:14-19 | The store starts with no user, no current business and empty lists. |
| Store.BusinessStore.FetchBusinesses | src/hooks/useBusiness.ts:23-43 | Without a user or on an error nothing changes. Otherwise the list is the fetched rows, and the first becomes current only if none was. |
| Store.BusinessStore.FetchServices | src/hooks/useBusiness.ts:46-62 | With a current business, the fetched services replace the list. Otherwise, or on an error, nothing changes. |
| Store.BusinessStore.FetchReservations | src/hooks/useBusiness.ts:64-87 | With a current business, the fetched reservations replace the list. Otherwise, or on an error, nothing changes. |
| Store.BusinessStore.FetchMessages | src/hooks/useBusiness.ts:90-105 | With a current business, the fetched messages replace the list. Otherwise, or on an error, nothing changes. |
| Store.BusinessStore.CreateBusiness | src/hooks/useBusiness.ts:108-127 | Without a user it replies 'User not authenticated' and changes nothing. An error changes nothing. Otherwise the row is prepended and made current. |
| Store.BusinessStore.UpdateBusiness | src/hooks/useBusiness.ts:130-150 | The business is replaced by id. The current business changes only when the ids match. An error changes nothing. |
| Store.BusinessStore.CreateService | src/hooks/useBusiness.ts:153-168 | The new service is prepended; an error changes nothing. |
| Store.BusinessStore.UpdateService | src/hooks/useBusiness.ts:171-187 | The service is replaced by id; an error changes nothing. |
| Store.BusinessStore.CreateReservation | src/hooks/useBusiness.ts:190-218 | The new reservation is appended with every earlier row kept. Its notifications are scheduled only when a business is current. An error changes nothing and schedules nothing. |
| Store.BusinessStore.UpdateReservation | src/hooks/useBusiness.ts:221-244 | The reservation is replaced by id; an error changes nothing. |
| Store.BusinessStore.UpdateMessage | src/hooks/useBusiness.ts:247-263 | The message is replaced by id; an error changes nothing. |
| Store.BusinessStore.SetCurrentBusiness | src/hooks/useBusiness.ts:15 | Sets the current business and nothing else. |
| Store.BusinessStore.OnUserChanged | src/hooks/useBusiness.ts:265-276 | Losing the user clears the businesses, the current business and the services. |
| Store.BusinessStore.OnCurrentBusinessChanged | src/hooks/useBusiness.ts:278-288 | Without a current business, services, reservations and messages are cleared. The templates follow the business id. |
| Store.UpdateKeepsIds | src/hooks/useBusiness.ts:221-243 | A failed update leaves the reservations as they were. A successful one whose row has the id asked for keeps the ids and their uniqueness. |
| Store.SignOutClears | src/hooks/useBusiness.ts:265-288 | After sign-out and the effect it triggers, every list is empty and no business is current. This holds even if a reservation was created first. |
| Notifications.LoadTemplates | src/hooks/useNotifications.ts:16-21 | With a business id the templates are the defaults; without one they are kept. |
| Notifications.ScheduleRow | src/hooks/useNotifications.ts:74-100 | A scheduled row is pending with no send time. It copies kind, subject and content from its template unsubstituted, with the given recipient and time. |
| Notifications.FindConfirmation | src/hooks/useNotifications.ts:108-110 | The confirmation found is an e-mail booking-confirmed template. None is found exactly when no template is one. |
| Notifications.ReminderRows | src/hooks/useNotifications.ts:121-136 | At most one reminder row per reminder template. |
| Notifications.ScheduleReservationNotifications | src/hooks/useNotifications.ts:102-137 | The scheduling method inserts exactly the rows of the specification `ScheduledNotifications`. |
| Notifications.ScheduleReminders | src/hooks/useNotifications.ts:121-136 | The loop over reminder templates inserts exactly `ReminderRows`. |
| Notifications.ReminderRowsShape | src/hooks/useNotifications.ts:121-136 | Every reminder row comes from a reminder template. It goes to that template's contact (e-mail or phone), at start minus the template's hours, and lies strictly in the future. |
| Notifications.ReminderScheduled | src/hooks/useNotifications.ts:123-135 | A reminder template whose contact is present and whose time is in the future gets its row. |
| Notifications.NothingWithoutBusiness | src/hooks/useNotifications.ts:103 | Nothing is scheduled without a business id. |
| Notifications.ConfirmationFirst | src/hooks/useNotifications.ts:108-118 | With an e-mail and a confirmation template, the first row is the confirmation, to that e-mail, at now. |
| Notifications.ScheduledRowsCopyTemplates | src/hooks/useNotifications.ts:83-92 | Every scheduled row is pending and copies its template's kind, subject and content. |
| Notifications.DefaultReminders | src/hooks/useNotifications.ts:23-72 | The default reminders are the SMS and the e-mail 24-hour templates. |
| Notifications.DefaultSchedule | src/hooks/useNotifications.ts:23-72 | With the defaults, at most three notifications are scheduled. With both contacts and a start over a day away, exactly three are. |
| Notifications.ThreeTemplateSchedule | src/hooks/useNotifications.ts:102-137 | With one confirmation and two reminders of the same timing (one SMS, one e-mail), at most three rows are scheduled. With both contacts and a start far enough ahead, exactly the confirmation and the two reminders are. |
| Notifications.RemindersOfThree | src/hooks/useNotifications.ts:121 | Of a confirmation followed by two reminders, the reminder filter keeps the two reminders in order. |
| SendNotifications.ReplaceAbsent | supabase/functions/send-notifications/index.ts:131-138 | Replacing a placeholder that does not occur changes nothing. |
| SendNotifications.ReplaceFirst | supabase/functions/send-notifications/index.ts:131-138 | A global replacement rewrites the first occurrence and continues after it, so every occurrence is replaced. |
| SendNotifications.NoBraceNoPlaceholder | supabase/functions/send-notifications/index.ts:131-138 | Text with no opening brace contains no placeholder. |
| SendNotifications.ReplaceBraceFree | supabase/functions/send-notifications/index.ts:131-138 | A replacement leaves brace-free text unchanged. |
| SendNotifications.KeysArePlaceholders | supabase/functions/send-notifications/index.ts:132-138 | The seven keys are braced names. |
| SendNotifications.PlainTemplateUnchanged | supabase/functions/send-notifications/index.ts:127-139 | A template without placeholders is returned unchanged. |
| SendNotifications.ReplaceWhole | supabase/functions/send-notifications/index.ts:131-138 | A placeholder on its own becomes its value. |
| SendNotifications.StepsFromDateKeep | supabase/functions/send-notifications/index.ts:135-138 | The steps from the date on leave brace-free text unchanged. |
| SendNotifications.LaterStepsRewriteEarlierValues | supabase/functions/send-notifications/index.ts:131-138 | A customer name that contains "{business_name}" is rewritten by the later step. |
| SendNotifications.ServiceKeySurvivesNames | supabase/functions/send-notifications/index.ts:132-134 | The name steps do not disturb the service placeholder. |
| SendNotifications.ServiceFallback | supabase/functions/send-notifications/index.ts:134 | A missing service name is written as the general-reservation text. |
| SendNotifications.BusinessNameFallback | supabase/functions/send-notifications/index.ts:133 | A missing business name is written as ''. |
| SendNotifications.BusinessAddressFallback | supabase/functions/send-notifications/index.ts:137 | A missing business address is written as ''; the earlier steps leave its placeholder alone. |
| SendNotifications.BusinessPhoneFallback | supabase/functions/send-notifications/index.ts:138 | A missing business phone is written as ''; the earlier steps leave its placeholder alone. |
| SendNotifications.Outcome | supabase/functions/send-notifications/index.ts:38-61 | A row becomes 'sent', with its send time, iff it is an e-mail or SMS and delivery returned true. Otherwise it becomes 'failed': with no send time when the update in the `try` was issued, and with its send time untouched when that update threw and the `catch` wrote the status alone. Nothing else changes. |
| SendNotifications.ProcessNotifications | supabase/functions/send-notifications/index.ts:36-67 | Each fetched row whose status write succeeded gets its outcome. A row whose write failed stays as fetched. Every other row is untouched. The processed count is the number fetched, failed writes included. |
| SendNotifications.DeliverOne | supabase/functions/send-notifications/index.ts:37-61 | The `try`/`catch` for one row gives that row's outcome. |
| SendNotifications.ProcessHit | supabase/functions/send-notifications/index.ts:36-62 | Writing the next fetched row's outcome keeps the loop's invariant, because fetched ids are distinct. |
| SendNotifications.ProcessLost | supabase/functions/send-notifications/index.ts:47-61 | A status write that failed leaves the row as fetched and keeps the loop's invariant. |
| SendNotifications.NothingDueAfterRun | supabase/functions/send-notifications/index.ts:21-63 | After a run over all due rows, a fetched row is still due exactly when its status write failed, and no other row is due. So a second run at the same time fetches just those rows, and nothing when every write succeeded. Rows that were not due are untouched. |
| SendNotifications.HandleRequest | supabase/functions/send-notifications/index.ts:21-81 | A failed fetch answers with the error and writes nothing. Otherwise each fetched row gets its outcome if its write succeeded and stays as fetched if not. The count of fetched rows is reported either way. |
| Customers.KeyIndex | src/components/dashboard/CustomerManagement.tsx:26 | The index found holds the key. None is found exactly when no customer has it. |
| Customers.GroupCustomers | src/components/dashboard/CustomerManagement.tsx:20-54 | The map-filling loop builds exactly the specification grouping `Group`. |
| Customers.CountInto | src/components/dashboard/CustomerManagement.tsx:38-50 | Counting a reservation into a customer gives the specification's `Absorb`. |
| Customers.CountReservation | src/components/dashboard/CustomerManagement.tsx:23-51 | One `forEach` turn through the key-to-position map gives the specification's `AddReservation`, and the map still indexes every customer. |
| Customers.GroupUnique | src/components/dashboard/CustomerManagement.tsx:24-26 | No two customers share a key. |
| Customers.GroupKeyIndex | src/components/dashboard/CustomerManagement.tsx:24-36 | There is a customer for a key exactly when some reservation has that key. |
| Customers.GroupCount | src/components/dashboard/CustomerManagement.tsx:53 | The number of customers equals the distinct-key count of the analytics screen. |
| Customers.GroupLists | src/components/dashboard/CustomerManagement.tsx:38-39 | Each customer's list is exactly the reservations with its key, in order. |
| Customers.ListAbsorbs | src/components/dashboard/CustomerManagement.tsx:38-39 | Absorbing a reservation into a customer with its key extends that customer's list by it. |
| Customers.ListStarts | src/components/dashboard/CustomerManagement.tsx:26-39 | A new key's customer lists exactly the new reservation. |
| Customers.LatestDate | src/components/dashboard/CustomerManagement.tsx:48-50 | The last visit is one of the dates, and none is later. |
| Customers.GroupTotals | src/components/dashboard/CustomerManagement.tsx:42-50 | Each customer's total is the paid total of its reservations, and its last visit is their latest date. |
| Customers.ReservationListed | src/components/dashboard/CustomerManagement.tsx:38-39 | Every reservation is in some customer's list. |
| Customers.ReservationListedOnce | src/components/dashboard/CustomerManagement.tsx:38-39 | A reservation is in only one customer's list. |
| Customers.GroupPartition | src/components/dashboard/CustomerManagement.tsx:38-39 | The list lengths sum to the number of reservations. |
| Customers.SearchKeeps | src/components/dashboard/CustomerManagement.tsx:56-60 | A customer is listed iff it matches by name, e-mail (ignoring case) or phone (as typed). An empty term lists all. |
| Customers.SearchIgnoresCase | src/components/dashboard/CustomerManagement.tsx:56-60 | The name and e-mail parts of the search do not depend on the case of the term. The phone part compares the term as typed, so the whole search ignores case only for a customer without a phone. |
| Customers.BeforeIsWeakOrder | src/components/dashboard/CustomerManagement.tsx:62-74 | Each sort mode's comparison is a strict weak order, so the sort is well defined. |
| Customers.SortCustomersOrdered | src/components/dashboard/CustomerManagement.tsx:62-74 | The sorted list is a permutation of the customers, ordered by the chosen mode. |
| Customers.RepeatExactly | src/components/dashboard/CustomerManagement.tsx:139 | Repeat customers are exactly those with more than one reservation. |
| Analytics.SumPricesConcat | src/components/dashboard/Analytics.tsx:35-42 | The revenue fold over two runs is the fold over the second, started from the first's total. |
| Analytics.RevenueIsPaidTotal | src/components/dashboard/Analytics.tsx:35-42 | The revenue fold equals the sum of the prices of the confirmed or completed reservations; an unknown service adds 0. |
| Analytics.RevenueConcat | src/components/dashboard/Analytics.tsx:35-42 | Revenue adds up over concatenated lists. |
| Analytics.PaidTotalConcat | src/components/dashboard/Analytics.tsx:35-42 | The paid total adds up over concatenated lists. |
| Analytics.RevenueOnlyFromPaid | src/components/dashboard/Analytics.tsx:37-39 | Without a confirmed or completed reservation the revenue is 0. With non-negative prices it is never negative. |
| Analytics.PaidTotalSigns | src/components/dashboard/Analytics.tsx:37-39 | The paid total is 0 without paid reservations and non-negative for non-negative prices. |
| Analytics.StatusBreakdown | src/components/dashboard/Analytics.tsx:57-60 | The accumulator holds a status iff some reservation has it, with the number of reservations that have it. |
| Analytics.CountStep | src/components/dashboard/Analytics.tsx:57-60 | Adding a reservation raises exactly its own status's count by one. |
| Analytics.BreakdownTotal | src/components/dashboard/Analytics.tsx:57-60 | The four counts sum to the number of reservations. |
| Analytics.UnsortedStats | src/components/dashboard/Analytics.tsx:63-73 | There is one statistic per service. |
| Analytics.ServiceStatsOrdered | src/components/dashboard/Analytics.tsx:63-74 | The statistics are a permutation of the per-service ones, ordered by bookings, descending. |
| Analytics.ServiceRevenueAgrees | src/components/dashboard/Analytics.tsx:63-73 | A service's revenue is the revenue of its own bookings. |
| Analytics.UniformPaidTotal | src/components/dashboard/Analytics.tsx:66-71 | For one service, the paid total is the number of confirmed or completed bookings times its price. |
| Analytics.TotalCustomersBounds | src/components/dashboard/Analytics.tsx:102 | There are no more customers than reservations, and at least one when there is a reservation. |
| Analytics.GrowthSign | src/components/dashboard/Analytics.tsx:48-54 | Growth is positive, zero or negative exactly as this month is above, equal to or below last month. |
| Analytics.ZeroBaseGrowth | src/components/dashboard/Analytics.tsx:48-54 | With a zero base, growth is 100 when this month is positive and 0 otherwise. |
| Overview.OverviewStats | src/components/dashboard/Overview.tsx:107-115 | The total is the reservation count. The confirmed and pending figures are the numbers of reservations with that status. With the other two statuses they add up to the total, so they never exceed it. Revenue is the paid total, which equals the analytics revenue. |
| Overview.StatusCountZero | src/components/dashboard/Overview.tsx:108-109 | A status count is 0 exactly when no reservation has that status. |
| Overview.Recent | src/components/dashboard/Overview.tsx:204 | The recent list is at most the first four reservations, in stored order. |
| Overview.RecentOmitsLatest | src/components/dashboard/Overview.tsx:204 | With more than four reservations, loaded in date order and with a later date at the end than at the fourth, the latest one is not listed. |
| Overview.LaterDateIsWeakOrder | src/components/dashboard/Overview.tsx:204 | "Later date first" is a strict weak order. |
| Overview.LatestFour | src/components/dashboard/Overview.tsx:204 | The corrected list is the start of the reservations sorted latest first: four entries, or all when there are fewer. |
| Overview.LatestFourShowsLatest | src/components/dashboard/Overview.tsx:204 | The corrected list shows only loaded reservations. Its first is the latest, and no hidden reservation is later than a shown one. |
| ReservationManagement.FilterReservationsKeeps | src/components/dashboard/ReservationManagement.tsx:28-34 | A reservation is listed iff its status passes the select and the term occurs, ignoring case, in its name, phone or e-mail. |
| ReservationManagement.FilterReservationsInOrder | src/components/dashboard/ReservationManagement.tsx:28-34 | The filter keeps the stored order. |
| ReservationManagement.AllAndEmptyKeepEverything | src/components/dashboard/ReservationManagement.tsx:28-34 | 'all' with an empty term lists every reservation. |
| ReservationManagement.UnknownStatusKeepsNothing | src/components/dashboard/ReservationManagement.tsx:30 | A select value that is neither 'all' nor a status lists nothing. |
| ReservationManagement.SearchIgnoresTermCase | src/components/dashboard/ReservationManagement.tsx:31-33 | The search does not depend on the case of the term. |
| ReservationManagement.ServiceName | src/components/dashboard/ReservationManagement.tsx:40-44 | No service id reads 'General Reservation' and an unknown id 'Unknown Service'. Any other name shown is that of a loaded service with the id. |
| ReservationManagement.ServiceNameOfKnown | src/components/dashboard/ReservationManagement.tsx:40-44 | A known id shows the first such service's name, or 'Unknown Service' when that name is empty. |
| ReservationManagement.StatusUpdate | src/components/dashboard/ReservationManagement.tsx:36-38 | The status change sends the status chosen. |
| ReservationManagement.StatusUpdateOnlyStatus | src/components/dashboard/ReservationManagement.tsx:36-38 | The status change rewrites the status and nothing else. |
| ReservationManagement.NewReservationPayload | src/components/dashboard/ReservationManagement.tsx:237-255 | Nothing is sent without a current business. Otherwise the row carries the business id and status 'pending', and its service is null iff the field is empty. Phone, e-mail and notes are sent as typed, empty text included. Party size and special requests are absent. |
| ReservationManagement.PayloadKeepsForm | src/components/dashboard/ReservationManagement.tsx:243-248 | The payload carries everything typed: reading it back gives the form. |
| ReservationManagement.FindReservation | src/components/dashboard/ReservationManagement.tsx:362 | The reservation found has the id. None is found exactly when no reservation has it. |
| ReservationManagement.EditPrefill | src/components/dashboard/ReservationManagement.tsx:361-388 | Nothing is shown for an unknown id. Otherwise the form is prefilled from a reservation with that id. |
| ReservationManagement.EditUpdate | src/components/dashboard/ReservationManagement.tsx:379 | The edit sends every column of the form: the service field and status as they stand, and each text field. |
| ReservationManagement.EditSaves | src/components/dashboard/ReservationManagement.tsx:379 | Every edited field reaches storage: the saved row, prefilled again, is the submitted form, with its id and business kept. |
| ReservationManagement.UntouchedEditRoundTrip | src/components/dashboard/ReservationManagement.tsx:364-379 | An untouched edit gives back the stored row iff it has a phone, an e-mail, a service and notes. A missing service comes back as ''. |
| Messages.FilterMessagesKeeps | src/components/dashboard/Messages.tsx:27-29 | 'all' keeps every message. Any other value keeps exactly the messages with that status. |
| Messages.StatusTabsPartition | src/components/dashboard/Messages.tsx:27-29 | The unread, read and replied tabs together list every message exactly once. |
| Messages.WithStatus | src/hooks/useBusiness.ts:247-258 | A status update sets the status and keeps the id and every other column. |
| Messages.QuickForm | src/components/dashboard/Messages.tsx:207-215 | The quick form leaves e-mail, service, date and time empty, and quotes the message in the notes. |
| Messages.QuickPayloadFromMessage | src/components/dashboard/Messages.tsx:207-228 | Submitted untouched, the quick form inserts a pending reservation for the sender, with the contact as phone, no service and the message in the notes. Without a business nothing is sent. |
| Messages.MessagesScreen.constructor | src/components/dashboard/Messages.tsx:22-25 | The screen opens with nothing selected, an empty reply and the 'all' filter. |
| Messages.MessagesScreen.HandleReply | src/components/dashboard/Messages.tsx:31-43 | A blank reply changes nothing. Otherwise the message is set to 'replied' in the store and the reply box is cleared and closed. |
| Messages.MessagesScreen.HandleMarkAsRead | src/components/dashboard/Messages.tsx:45-51 | The message is set to 'read' in the store and nothing else changes. |
| Messages.MessagesScreen.HandleCreateReservation | src/components/dashboard/Messages.tsx:53-61 | The reservation is appended if stored. The message is set to 'replied' whether or not the insert succeeded, and the form closes. |
| Messages.FailedInsertStillReplies | src/components/dashboard/Messages.tsx:53-61 | A failed insert adds no reservation yet still marks the message 'replied'. |
| Telegram.WebhookUrl | src/components/dashboard/TelegramIntegration.tsx:64-69 | The address is the origin and the webhook path, followed by the business id. |
| Telegram.WebhookNamesBusiness | src/components/dashboard/TelegramIntegration.tsx:67 | The business id reads back from its address, so no two businesses share one. |
| Telegram.Stats | src/components/dashboard/TelegramIntegration.tsx:99-104 | The total is the list length and never below the bookings count. The response rate is 100 for a non-empty list and 0 for an empty one. |
| Telegram.BookingsCreatedCounts | src/components/dashboard/TelegramIntegration.tsx:101 | The bookings count is 0 for no conversations, and one more conversation adds 1 exactly when it created a booking. So it is 0 iff none did, and the total when all did. |
| Telegram.TelegramPanel.constructor | src/components/dashboard/TelegramIntegration.tsx:26-31 | The panel opens connected with the placeholder bot. |
| Telegram.TelegramPanel.EditToken | src/components/dashboard/TelegramIntegration.tsx:139-159 | The token can be typed only while not connected. |
| Telegram.TelegramPanel.EditUsername | src/components/dashboard/TelegramIntegration.tsx:139-171 | The username can be typed only while not connected. |
| Telegram.TelegramPanel.ConnectBot | src/components/dashboard/TelegramIntegration.tsx:71-80 | Connecting is accepted iff both token and username are non-empty. A refusal changes nothing. A connected bot always has both. |
| Telegram.TelegramPanel.DisconnectBot | src/components/dashboard/TelegramIntegration.tsx:82-87 | Disconnecting clears token and username. |
| Telegram.TelegramPanel.OnBusinessChanged | src/components/dashboard/TelegramIntegration.tsx:64-69 | The address is set only when a business is current. |
| Telegram.ReconnectNeedsBoth | src/components/dashboard/TelegramIntegration.tsx:71-87 | After a disconnect, entering only a token is not enough to reconnect. |
| PhoneAgent.JsRem | src/components/dashboard/AIPhoneAgent.tsx:93 | The remainder agrees with the mathematical one for a non-negative dividend and stays strictly inside (−60, 60). |
| PhoneAgent.FormatDurationRoundTrip | src/components/dashboard/AIPhoneAgent.tsx:91-95 | For a non-negative whole number of seconds, reading "m:ss" back as 60·m + ss gives the duration. |
| PhoneAgent.FormatDurationExamples | src/components/dashboard/AIPhoneAgent.tsx:91-95 | 0 formats as "0:00", 45 as "0:45" and 180 as "3:00". |
| PhoneAgent.NegativeDuration | src/components/dashboard/AIPhoneAgent.tsx:91-95 | A negative length keeps JavaScript's signs: −1 gives "-1:-1". |
| PhoneAgent.StatusColor | src/components/dashboard/AIPhoneAgent.tsx:97-108 | booking_made, completed and missed each get their own class, and any other status the gray default. |
| PhoneAgent.PhoneAgentPanel.constructor | src/components/dashboard/AIPhoneAgent.tsx:28 | The agent starts enabled. |
| PhoneAgent.PhoneAgentPanel.ToggleAI | src/components/dashboard/AIPhoneAgent.tsx:73-83 | Enabling is unconditional. Disabling happens only when confirmed. |
| ServiceManagement.ToggleActive | src/components/dashboard/ServiceManagement.tsx:19-21 | The toggle sends the negation of the current flag. |
| ServiceManagement.ApplyActive | src/components/dashboard/ServiceManagement.tsx:20 | The stored flag becomes the value sent. |
| ServiceManagement.ToggleTwiceRestores | src/components/dashboard/ServiceManagement.tsx:19-21 | A toggle changes only the flag, and toggling twice restores the service. |
| ServiceManagement.InitialForm | src/components/dashboard/ServiceManagement.tsx:151-157 | A new service starts with empty texts, 60 minutes, price 0 and active. An existing one keeps its name, price and flag (even false). Its duration is the stored one, or 60 in place of 0. Its description is the stored one, or '' when there is none. |
| ServiceManagement.UntouchedEditKeepsService | src/components/dashboard/ServiceManagement.tsx:139-157 | An untouched edit shows the stored service iff it has a description and a non-zero duration. |
| ServiceManagement.SkipSpaces | src/components/dashboard/ServiceManagement.tsx:214 | What remains is a suffix of the text that does not start with white space. |
| ServiceManagement.DigitRun | src/components/dashboard/ServiceManagement.tsx:214 | The run is the longest prefix made of digits. |
| ServiceManagement.DigitRunStops | src/components/dashboard/ServiceManagement.tsx:214 | Digits followed by a non-digit form exactly the run. |
| ServiceManagement.UnsignedOfDigit | src/components/dashboard/ServiceManagement.tsx:214 | Text that starts with a digit has no white space or sign to skip. |
| ServiceManagement.DurationFieldReadsNumber | src/components/dashboard/ServiceManagement.tsx:214 | A typed whole number reads as itself, whatever non-digit text follows it. |
| ServiceManagement.AmountParts | src/components/dashboard/ServiceManagement.tsx:226 | "a.bb" splits into whole part a and fraction digits bb. |
| ServiceManagement.WholeRun | src/components/dashboard/ServiceManagement.tsx:226 | The whole-number run of "a.bb" is a, followed by ".bb". |
| ServiceManagement.AmountReads | src/components/dashboard/ServiceManagement.tsx:226 | "a.bb" parses as the decimal value of its parts. |
| ServiceManagement.CentsValue | src/components/dashboard/ServiceManagement.tsx:226 | The decimal value of a and two digits bb is a + bb/100. |
| ServiceManagement.ParseFloatParts | src/components/dashboard/ServiceManagement.tsx:226 | Unsigned digits, a point and digits parse as their decimal value. |
| ServiceManagement.PriceFieldReadsAmount | src/components/dashboard/ServiceManagement.tsx:226 | An amount typed with two decimals, a.bb, reads as a + bb/100. |
| ServiceManagement.NonNumericIsZero | src/components/dashboard/ServiceManagement.tsx:214-226 | Text that does not start with a number leaves 0 in the duration and price fields. |
| ServiceManagement.ServiceSubmit | src/components/dashboard/ServiceManagement.tsx:159-176 | Nothing is sent without a current business. Both create and edit send the form. A create adds the business id, an edit does not. |
| Schema.FindService | src/components/dashboard/ReservationManagement.tsx:42 | The service found has the id asked for. None is found exactly when the id is null or no service has it. |
| Common.Lower | src/components/dashboard/CustomerManagement.tsx:57 | Lower-casing keeps the length and folds each capital of A-Z, А-Я and Ѐ-Џ to its small letter, position by position; every other code unit is kept. |
| Common.LowerIdempotent | src/components/dashboard/ReservationManagement.tsx:31-33 | Lower-casing twice is lower-casing once. |
| Common.ContainsEmpty | src/components/dashboard/ReservationManagement.tsx:31 | Every text contains the empty text. |
| Common.ContainsLength | src/components/dashboard/ReservationManagement.tsx:31 | A contained text is no longer than its container. |
| Common.NatToString | src/components/dashboard/AIPhoneAgent.tsx:93 | A number prints as one or more digits, one digit exactly below 10. |
| Common.ParseNatToString | src/components/dashboard/AIPhoneAgent.tsx:93 | Reading a printed number back gives the number. |
| Common.ParsePadded | src/components/booking/BusinessBookingPage.tsx:202 | Reading a zero-padded number back gives the number. |
| Common.ParseSixtyOf | src/components/dashboard/AIPhoneAgent.tsx:91-95 | "m:ss" with ss the remainder modulo 60 reads back as the number. |
| Common.Filter | src/components/dashboard/ReservationManagement.tsx:28-34 | A filter keeps only elements that pass, never more than it is given. |
| Common.FilterMembers | src/components/dashboard/Messages.tsx:27-29 | An element is kept iff it is in the input and passes. |
| Common.FilterConcat | src/components/dashboard/ReservationManagement.tsx:28-34 | Filtering keeps the order of the input. |
| Common.FilterAll | src/components/dashboard/Messages.tsx:27-29 | When everything passes, the filter keeps the whole list. |
| Common.LexLessIrreflexive | src/components/dashboard/CustomerManagement.tsx:48 | No date is later than itself. |
| Common.LexLessTransitive | src/components/dashboard/CustomerManagement.tsx:48 | Date order is transitive. |
| Common.LexLessTotal | src/components/dashboard/CustomerManagement.tsx:48 | Two distinct dates are ordered one way or the other. |
| Common.LexLessAsymmetric | src/components/dashboard/CustomerManagement.tsx:48 | Two dates are never each later than the other. |
| Common.Insert | src/components/dashboard/Analytics.tsx:74 | An insertion adds exactly the one element. |
| Common.SortBy | src/components/dashboard/Analytics.tsx:74 | Sorting is a permutation. |
| Common.InsertSorted | src/components/dashboard/Analytics.tsx:74 | Inserting into a sorted list under a weak order keeps it sorted. |
| Common.SortBySorted | src/components/dashboard/Analytics.tsx:74 | Sorting under a strict weak order gives an ordered list. |

## Left out

- Storage, network and React mechanics. Reads and writes to the hosted database, awaits, state hooks, effects and rendering are not modelled. Storage answers, delivery verdicts, the clock and confirmation dialogs are inputs. `alert` and `console` output is dropped.
- Each call of the business hook having its own copy of the state: the model has one shared store.
- The delete-then-insert of the hours save (src/components/dashboard/BusinessHours.tsx:88-105) is not atomic. The model writes the rows as one step.
- The weekday of a date (`new Date(...).getDay()`, which can shift by time zone) and the bg-BG date format of notifications are inputs. Dates are compared as ISO text, which agrees with date order for well-formed dates.
- Month and seven-day windows in the analytics screen are inputs: the lists passed in are already filtered.
- Floating-point arithmetic. Growth is an exact `real`. Averages, percentages, success rates and the average call length are not modelled.
- Analytics.Growth: the percentage is exact, without IEEE rounding and `Math.round`.
- ServiceManagement.ParseFloatText: decimal text only. `parseFloat`'s exponents and "Infinity" are not modelled.
- ServiceManagement.InitialForm: the price is shown as an exact real, so float formatting of prices is not modelled.
- Prices: a stored service price is a whole number of leva. The service form accepts prices in steps of 0.01, and such a fractional price has no stored counterpart here: the payload carries the form's exact value, and storing it is not modelled.
- Common.SortBy: the insertion sort is stable, as `Array.prototype.sort` is, so equal keys keep their loaded order in the service statistics and the customer list. Its contract states order and permutation, not stability.
- Common.Lower: `toLowerCase` is modelled for the capitals A-Z (U+0041-U+005A), А-Я (U+0410-U+042F) and Ѐ-Џ (U+0400-U+040F) only. Other capitals that `toLowerCase` folds are kept as they are: accented Latin letters such as À or Ł, later Cyrillic letters such as Ґ (U+0490) or Ѣ (U+0462), Greek, and the rest of Unicode.
- Customers.Before: `localeCompare` is modelled as code-unit order of the names.
- `$` patterns in the replacement values of `String.replace` are not interpreted; values are inserted literally.
- `sendEmail` and `sendSMS` log and return true, or return false when placeholder substitution throws inside their `try` (for example when the row's reservation join is missing). The verdict, or a throw of the status update inside the `try`, is an input, `Delivery`; the substitution itself is modelled on present values only.
- The overlap of reservations: the code has no overlap check, and none is modelled or claimed.
- Demo fixtures: the hard-coded Telegram conversations and the phone agent's call log and statistics.
- The AI settings form, the average response time text and copying the webhook address to the clipboard in the Telegram panel.
- Billing and subscriptions, authentication, the QR code generator, business setup, navigation, the landing pages and translations are outside this model.

## Findings

| source | as written | input that shows it | evidently intended | confidence | as-written member | corrected member |
|---|---|---|---|---|---|---|
| src/components/booking/BusinessBookingPage.tsx:184-187 | A JavaScript Sunday (0) is looked up under day 7, but the hours editor stores Sunday as day 0 (src/components/dashboard/BusinessHours.tsx:14-22). | The Restaurant preset opens Sunday 11:00 to 22:00. The booking page finds no Sunday hours and offers no slot. | Look the day up under the editor's numbering, so an open Sunday offers its slots. | high, not executed | SlotFindings.SundayNeverOffered | SlotFindings.OpenSundayOffered |
| src/components/booking/BusinessBookingPage.tsx:190-204 | Starts run from the opening hour on the hour, ignoring the opening minute, and stop before the closing hour, whatever its minute. | Opening 09:30 offers 09:00. Closing 17:30 with a 30-minute service never offers 17:00. | Offer every half-hour grid point from opening time on whose service ends by closing time. | medium, not executed | SlotFindings.StartsBeforeOpening | SlotFindings.NoStartBeforeOpening |
| src/components/dashboard/Overview.tsx:204 | "Recent reservations" shows the first four rows of a list loaded oldest date first (src/hooks/useBusiness.ts:79-80). | Five reservations dated 1 to 5 March show those of 1 to 4 March; the one of 5 March is hidden. | Show the four reservations with the latest dates. | medium, not executed | Overview.RecentOmitsLatest | Overview.LatestFourShowsLatest |
