# Hostel booking engine — a Dafny model

This project models the booking allocation and availability engine of a
hostel booking backend. Bookings come from online travel agencies (OTAs) such
as Booking.com or Hostelworld, or directly. The backend:

- validates a booking request;
- checks every requested room for enough free beds over the stay;
- derives commission, GST, pending amount, payment status and settlement bank
  from the channel;
- inserts the booking and assigns beds to it;
- deletes assignments child rows first;
- builds a bed × day occupancy calendar;
- recomputes a room's capacity as its number of beds, on request.

The database is an in-memory store: the class `Store.Db` has one sequence per
table (`rooms`, `beds`, `bookings`, `booking_rooms`, `booking_beds`) and one id
sequence. Each database call takes a boolean saying whether it fails, so every
error path of the code is a reachable branch of the model. A value the
database cannot read as an integer or a date (`undefined`, `NaN`, a non-numeric
string) makes the query fail, as it does in PostgreSQL (`Store.SqlInt`,
`Store.SqlDay`).

JavaScript values are `Js.Value`: undefined, null, booleans, integers, NaN,
strings and objects. The model gives `Number()`, `parseInt`, truthiness,
object spread and JSON serialisation explicitly. Dates are integer day
numbers. Rates are whole percentages, and `Math.round(base * 0.15)` is
round-half-up of `base * 15 / 100`.

The invariant kept by every state-changing method is `Db.Valid()`:

- bed ids are keys;
- no two `booking_beds` rows for one bed overlap in time (half-open
  intervals, so a stay may start on the day another ends).

Modules, one per source file:

| module | file |
|---|---|
| `Js` | JavaScript values |
| `Store` | tables |
| `Financials` | utils/bookings/financials.js |
| `Validation` | utils/bookings/validateBookingData.js |
| `Availability` | utils/bookings/availability.js |
| `BedManagement` | utils/bookings/bedManagement.js |
| `PreBookingChecks` | utils/bookings/preBookingChecks.js |
| `InsertBookings` | utils/bookings/insertBookings.js |
| `BookingService` | services/bookingService.js, create/update/delete |
| `BookingCalendar` | services/bookingService.js, the bed × day map |
| `RoomService` | services/roomService.js |
| `Http` | replies |
| `RoomController` | controllers/roomController.js |
| `BookingRoomsController` | controllers/bookingRoomsController.js |

Where the code and its description disagree, the model follows the code:

- the unpaid status is `'Unpaid'`, not "Pending Payment";
- `exclude_booking_id` is dropped, because `checkAvailability` takes four parameters.

## Model

| member | source | states |
|---|---|---|
| Financials.CommissionRate | utils/bookings/financials.js:3-12 | the commission rate is 15% for Booking.com and Hostelworld and 0 for every other channel, listed or not |
| Financials.GstRate | utils/bookings/financials.js:14-23 | the GST rate is 12% for Booking.com and Hostelworld and 0 for every other channel |
| Financials.CalculateCommission | utils/bookings/financials.js:36-39 | the commission is base × rate rounded to the nearest integer, halves up |
| Financials.CalculateGST | utils/bookings/financials.js:41-44 | the GST is base × GST rate rounded to the nearest integer, halves up |
| Financials.CalculatePendingAmount | utils/bookings/financials.js:46-48 | pending + received = base + gst exactly |
| Financials.CalculatePaymentStatus | utils/bookings/financials.js:50-54 | 'Paid' iff pending ≤ 5 (overpayment included); 'Unpaid' iff pending > 5 and pending = base + gst; 'Part-Payment' otherwise |
| Financials.CalculateBank | utils/bookings/financials.js:25-59 | 'Secondary' exactly for Direct, Extension, Other and unlisted channels; 'Primary' for the rest |
| Financials.FinancialFields | utils/bookings/financials.js:62-66 | the derived record has exactly the five keys commission, gst, pending_amount, payment_status, bank |
| Financials.FinancialFieldsConsistent | utils/bookings/financials.js:62-66 | with numeric amounts, each derived field is its calculator's result and the stored pending amount is base + gst − received |
| Financials.NaNAmountIsPartPayment | utils/bookings/financials.js:46-53 | a NaN amount gives a null pending amount and the status 'Part-Payment', whatever was paid |
| Financials.UnknownChannelIsOther | utils/bookings/financials.js:36-59 | a channel missing from the tables is charged as 'Other': commission 0, GST 0, bank 'Secondary' |
| Financials.BookingComExample | utils/bookings/financials.js:36-59 | Booking.com, base 1000, nothing received: 150, 120, 1120, 'Unpaid', 'Primary' |
| Financials.BookingComFullyPaid | utils/bookings/financials.js:46-51 | paying the whole 1120 of that booking leaves 0 pending and the status 'Paid' |
| Financials.UnpaidIffNothingReceived | utils/bookings/financials.js:50-53 | above the 5-unit tolerance, the status is 'Unpaid' iff nothing was received |
| Financials.PaymentPatchOnlyThatBooking | utils/bookings/financials.js:68-78 | the update writes exactly the five derived fields and payment_received into the booking's row, keeps its other fields, and leaves every other row unchanged |
| Financials.PaymentPatchFields | utils/bookings/financials.js:68-78 | the update holds the five derived fields and payment_received, nothing else, and never a booking_id |
| Financials.UpdatePaymentAndBank | utils/bookings/financials.js:61-81 | succeeds iff the update succeeds and the id is readable; then only that booking's row takes the six fields; on error nothing changes |
| Validation.FirstMissing | utils/bookings/validateBookingData.js:10-14 | no field is named iff every required field is present; a named field is required and missing |
| Validation.ValidateBookingData | utils/bookings/validateBookingData.js:1-40 | the loop and the checks return the message of the first failing check, or none |
| Validation.FirstMissingIsFirst | utils/bookings/validateBookingData.js:10-14 | the field named is the first missing one in list order |
| Validation.FirstMissingFieldNamed | utils/bookings/validateBookingData.js:2-14 | fields are checked in the order booking_name, check_in, check_out, ota_name, base_amount, and the first missing one is named in the message |
| Validation.ZeroIsPresent | utils/bookings/validateBookingData.js:11 | a field whose value is 0 is never reported missing |
| Validation.ValidIffAllChecksPass | utils/bookings/validateBookingData.js:10-39 | no error iff every required field is present, check-out is after check-in, no amount is negative, adults is a positive number and guests_per_room is a non-empty object |
| Validation.LaterChecksInOrder | utils/bookings/validateBookingData.js:16-37 | with all fields present, the date, amounts, adults and rooms errors come in that order, each only when the earlier ones pass |
| Availability.CheckAvailability | utils/bookings/availability.js:3-36 | errors are only the two thrown messages; a bed-query error or unreadable room id throws "Failed to fetch beds."; the overlap query runs (and can throw) only when the room has beds; true needs a numeric bed count |
| Availability.AvailableIffEnoughFreeBeds | utils/bookings/availability.js:14-35 | without errors, the answer is true iff the room has a bed and the number of its beds with no conflicting assignment is at least the count required |
| Availability.RoomWithoutBedsNeverAvailable | utils/bookings/availability.js:14 | a room with no beds is never available, even for 0 beds |
| Availability.ConflictIffSharedNight | utils/bookings/availability.js:19-24 | an assignment conflicts with a stay iff they share a night, so back-to-back stays do not conflict |
| Availability.IrrelevantRowsIgnored | utils/bookings/availability.js:22 | assignments of other rooms' beds never change the answer |
| Availability.MoreAssignmentsNeverHelp | utils/bookings/availability.js:32-35 | adding assignments can only turn an available room unavailable |
| Availability.BackToBackExample | utils/bookings/availability.js:19-35 | a stay starting on the day another ends is granted |
| Availability.OverlapExample | utils/bookings/availability.js:19-35 | a stay over a held night is refused for two beds and granted for one |
| Availability.AnswerFromFreeBeds | utils/bookings/availability.js:14-35 | once the room has a bed and both queries succeed, the answer is "free beds ≥ Number(count)" |
| BedManagement.SliceEnd | utils/bookings/bedManagement.js:44 | the slice of `slice(0, n)` ends within the list |
| BedManagement.Assignments | utils/bookings/bedManagement.js:46-53 | one row per chosen bed, in order, carrying the booking, booking room and dates |
| BedManagement.TooFewFreeBedsFails | utils/bookings/bedManagement.js:40-42 | fewer free beds than guests: "Not enough available beds to assign." and no row |
| BedManagement.AllocationTakesFirstFreeBeds | utils/bookings/bedManagement.js:38-53 | otherwise exactly `number_of_guests` rows, the i-th holding the room's i-th free bed |
| BedManagement.AllocatedBedsAreFreeBedsOfTheRoom | utils/bookings/bedManagement.js:25-53 | each new row carries the given ids and dates and a bed of the room that no existing row holds for an overlapping stay |
| BedManagement.AllocationKeepsNoDoubleBooking | utils/bookings/bedManagement.js:25-57 | inserting the allocation keeps "no two rows for one bed overlap", given unique bed ids |
| BedManagement.AssignBeds | utils/bookings/bedManagement.js:3-64 | success iff the allocation succeeds, appending its rows; on every error booking_beds is unchanged; other tables never change |
| BedManagement.WithoutBookingBeds | utils/bookings/bedManagement.js:68-71 | the rows kept are exactly those of other bookings |
| BedManagement.WithoutBookingRooms | utils/bookings/bedManagement.js:79-82 | the rows kept are exactly those of other bookings |
| BedManagement.DeleteBookingAssignments | utils/bookings/bedManagement.js:66-88 | booking_beds of the booking are deleted first; if that fails booking_rooms is untouched; then its booking_rooms are deleted |
| PreBookingChecks.RoomLabelOf | utils/bookings/preBookingChecks.js:27-33 | a name shown is truthy and is the name of a room in the table; otherwise "Room <id>" |
| PreBookingChecks.RoomOutcomes | utils/bookings/preBookingChecks.js:16-35 | one availability outcome per room key, in key order |
| PreBookingChecks.PreBookingChecks | utils/bookings/preBookingChecks.js:5-38 | the loop returns the validation message, else the first failing room, else success; it takes no `modifies`, so no table changes |
| PreBookingChecks.ValidationComesFirst | utils/bookings/preBookingChecks.js:9-13 | a validation error is thrown with its message, whatever the tables and queries |
| PreBookingChecks.SuccessMeansEveryRoomHasEnoughBeds | utils/bookings/preBookingChecks.js:16-37 | success means the request is valid and every room key names a room with a bed and at least the requested number of free beds |
| PreBookingChecks.UnavailableRoomNamed | utils/bookings/preBookingChecks.js:25-35 | an unavailable room's error names the room when its name is found and truthy, else "Room <id>", with the count required |
| PreBookingChecks.OnlyMatch | utils/bookings/preBookingChecks.js:27-31 | with unique room ids, `.single()` finds exactly the one room |
| InsertBookings.ListedFields | utils/bookings/insertBookings.js:20-26 | the fields listed by name: number_of_nights as passed, the others from the request |
| InsertBookings.BookingRecord | utils/bookings/insertBookings.js:4-28 | guests_per_room only if a financial field brings it; financial fields override; listed fields from the request; the rest unchanged; nothing else |
| InsertBookings.StoredBooking | utils/bookings/insertBookings.js:15-31 | the stored row carries its new id and every other field as JSON writes it |
| InsertBookings.StoredBookingFields | utils/bookings/insertBookings.js:5-27 | guests_per_room is never stored; nights and adults are stored as passed; financial fields as given |
| InsertBookings.InsertBooking | utils/bookings/insertBookings.js:3-40 | a store error gives "Could not insert booking" and changes nothing; otherwise the row is appended and returned |
| BookingService.CreateRowFields | services/bookingService.js:18-56 | whatever financial fields are given, the literal spreads the rest of the request first, then lists the amounts, the calculators' financial fields, the channel and the dates, so the listed keys override same-named request keys, and drops room_id and beds_required |
| BookingService.StoredCreateRow | services/bookingService.js:41-59 | the stored row keeps the financial fields as JSON writes them and has no room_id or beds_required |
| BookingService.CreateRecordFields | services/bookingService.js:18-56 | the inserted object takes the financial fields from the calculators, amounts, channel and dates from the request, drops room_id and beds_required, keeps the rest, adds nothing |
| BookingService.CreatedBookingFinancials | services/bookingService.js:34-56 | the stored booking's commission, gst, pending_amount, payment_status and bank are the calculators' results for its channel and amounts |
| BookingService.ShiftedAssignmentAlwaysFails | services/bookingService.js:64 | the five-argument `assignBeds` call always throws |
| BookingService.CreateBooking | services/bookingService.js:13-67 | as written: never succeeds; validation and unavailability throw with no write; past the insert, the booking row stays and no bed is assigned |
| BookingService.AvailabilityGuaranteesAllocation | services/bookingService.js:30-64 | when the availability check passes, the allocation over the same tables succeeds with exactly the count of beds |
| BookingService.CreateBookingFixed | services/bookingService.js:13-67 | intended create: refused requests write nothing; on success the booking, its booking room and its beds are added; with no store error an available room always succeeds; Valid is kept |
| BookingService.CreateValidated | services/bookingService.js:29-64 | the intended create after validation, with the same guarantees |
| BookingService.InsertCreated | services/bookingService.js:41-61 | the row is stored under the next id and appended; nothing else changes |
| BookingService.PlaceBooking | services/bookingService.js:64 | a booking_rooms row, then the beds of the allocation; with no fault and availability it succeeds |
| BookingService.UpdateBooking | services/bookingService.js:85-99 | as written: the raw update is applied; when it carries an amount a ReferenceError follows and the derived fields stay stale |
| BookingService.StalePendingAfterUpdate | services/bookingService.js:89-96 | recording a full payment through it leaves the row 'Unpaid' and inconsistent |
| BookingService.UpdateBookingImported | services/bookingService.js:85-99 | with the call imported: raw update, then the six derived fields from the update's own channel and amounts, only when an amount is present; a failed second update keeps the raw one |
| BookingService.PartialUpdateNullsPending | services/bookingService.js:89-95 | with the call imported, an update carrying no base amount writes gst and pending_amount null and 'Part-Payment', leaving the row inconsistent |
| BookingService.MissingChannelChargedAsOther | services/bookingService.js:89-95 | with the call imported, an update with both amounts but no ota_name is charged commission 0, GST 0 and the secondary bank |
| BookingService.UpdateBookingFixed | services/bookingService.js:85-99 | intended update: raw update, then, when an amount is present, the six derived fields recomputed from the booking's row as the raw update left it; a failed second update keeps the raw one |
| BookingService.FixedUpdateKeepsPendingConsistent | services/bookingService.js:85-99 | after the intended update, whichever fields it carried, a booking whose amounts are numbers has the GST, status and bank of its own channel and base, and pending = base + gst − received |
| BookingService.FixedUpdateRepairsExample | services/bookingService.js:85-99 | recording the full 1120 on the unpaid Booking.com booking of 1000 leaves 0 pending, 'Paid' and a consistent row |
| BookingService.RawUpdateKeepsId | services/bookingService.js:86 | the raw update, which has no booking_id, keeps the row's id |
| BookingService.PaymentPatchRestoresPending | utils/bookings/financials.js:68-78 | writing the six derived fields into a row with a numeric base gives it the channel's GST, status and bank and pending = base + gst − received |
| BookingService.BaselessPatchNullsPending | utils/bookings/financials.js:68-78 | the six fields computed without a base amount null the row's gst and pending amount and mark it 'Part-Payment' |
| BookingService.WithoutBooking | services/bookingService.js:102 | the rows kept are exactly those of other bookings |
| BookingService.DeleteBooking | services/bookingService.js:101-105 | only the matching bookings row is removed; booking_rooms and booking_beds stay |
| BookingCalendar.BuildCalendar | services/bookingService.js:127-146 | the nested loops set each (bed, day) cell to the last fetched booking holding that bed that night; bed maps are never empty |
| BookingCalendar.CellIffHeld | services/bookingService.js:133-142 | a cell is set iff some booking holds the bed and check_in ≤ d < check_out; the check-out day never is |
| BookingCalendar.LastHolderWins | services/bookingService.js:128-142 | of several holders the later one in the list is shown |
| BookingCalendar.RoomBeds | services/bookingService.js:118-120 | the beds listed are exactly those of the booking room |
| BookingCalendar.BookingBeds | services/bookingService.js:115-121 | the beds listed are exactly those of the booking's rooms |
| BookingCalendar.Fetch | services/bookingService.js:108-123 | exactly the bookings passing the inclusive filter are fetched |
| BookingCalendar.GetBookingsByBedAndDateRange | services/bookingService.js:107-149 | throws iff the select fails; otherwise the map is the calendar of the fetched bookings, unclipped |
| BookingCalendar.CheckOutDayExample | services/bookingService.js:123-133 | a range starting on the check-out day fetches the booking, but that day is empty and earlier nights are shown |
| Js.DigitsRead | services/roomService.js:7 | a non-empty digit string is read as its decimal value by both `Number()` and `parseInt` |
| RoomService.ParsedCount | services/roomService.js:7 | the count handed on is `parseInt(beds_required, 10)`, an integer or NaN |
| RoomService.GetRoomAvailability | services/roomService.js:3-15 | any falsy parameter throws "Missing required parameters" before a query; otherwise the check's errors are rethrown unchanged |
| RoomService.GivenParametersPassedOn | services/roomService.js:7-13 | with every parameter given, the service answers exactly what the check answers for the parsed count, errors included |
| RoomService.AvailableIffEnoughFreeBedsForParsedCount | services/roomService.js:7-10 | the answer is the availability check on the parsed count; `exclude_booking_id` plays no part |
| RoomService.ExcludedBookingIgnored | services/roomService.js:3-9 | the answer, error or not, is the same whichever booking is named in `exclude_booking_id`: that booking's own bed assignments still count against the room |
| RoomService.ParsedCountExample | services/roomService.js:7-10 | "2 beds" is read as 2 |
| RoomService.ZeroCountOnlyAsString | services/roomService.js:4-7 | the number 0 is refused as missing; the string "0" is a request granted for any room with a bed |
| RoomService.ZeroBedsFitAnyRoomWithABed | utils/bookings/availability.js:32-35 | a zero count reaching the check is granted for any room with a bed |
| RoomController.NewRoomCapacity | controllers/roomController.js:5-7 | capacity defaults to 0 only when it is undefined |
| RoomController.CreateRoom | controllers/roomController.js:4-23 | an error gives 500 and no change; otherwise 201 and the room is appended |
| RoomController.WithoutBedsOfRoom | controllers/roomController.js:58-61 | the beds kept are exactly those of other rooms |
| RoomController.WithoutRoom | controllers/roomController.js:68-71 | the rooms kept are exactly the other rooms |
| RoomController.DeleteRoom | controllers/roomController.js:54-81 | beds are deleted before the room; a bed-delete error keeps everything; a room-delete error keeps the room with its beds gone |
| RoomController.SetCapacity | controllers/roomController.js:113-116 | the matching rooms take the new capacity, the others are unchanged |
| RoomController.UpdateRoomCapacity | controllers/roomController.js:93-124 | a non-integer id gives 400; a failed fetch or update gives 500 and no change; otherwise the capacity is the room's bed count |
| RoomController.CapacityCountsBeds | controllers/roomController.js:110 | that count is the number of distinct beds of the room |
| RoomController.CapacityAfterUpdate | controllers/roomController.js:99-116 | after success the room's capacity equals its bed count; other rooms are unchanged |
| BookingRoomsController.GetRoomsForBooking | controllers/bookingRoomsController.js:24-31 | exactly the booking_rooms rows of the booking; an error gives 400 |
| BookingRoomsController.BedsOfBookingRoom | controllers/bookingRoomsController.js:43-46 | the rows found are exactly those of the booking room |
| BookingRoomsController.WithoutBedsOfBookingRoom | controllers/bookingRoomsController.js:55-58 | the rows kept are exactly those of other booking rooms |
| BookingRoomsController.WithoutBookingRoom | controllers/bookingRoomsController.js:67-70 | the rows kept are exactly the other booking rooms |
| BookingRoomsController.RemoveRoomFromBooking | controllers/bookingRoomsController.js:34-82 | a bad id gives 400 and no change; beds are deleted before the booking room; a failed lookup or bed delete keeps the booking room; 204 means neither remains |
| BookingRoomsController.NothingToDelete | controllers/bookingRoomsController.js:54 | skipping the bed delete when there are no beds leaves the same table |
| Store.BedsOfRoom | utils/bookings/availability.js:4-16 | the ids listed are exactly the room's beds |
| Store.FreeBeds | utils/bookings/availability.js:32-33 | the free beds are exactly the room's beds with no conflicting assignment |
| Store.FreeBedsCount | utils/bookings/availability.js:32-35 | with unique bed ids, the free-bed list has as many entries as the set of free beds |

## Left out

- The Supabase client and query builder (utils/supabase.js): replaced by in-memory tables and a failure flag per call.
- The database's own error text: the model keeps which call failed, not its message.
- Express wiring and every route file.
- The CRUD controllers with no rule, the booking-bed controller and the `assignRoomToBooking`, `getRoom`, `getAllRooms` and `updateRoom` handlers.
- The read-only `getAllBookingsService` and `getBookingService`: they add no rule beyond a select.
- The unused duplicate rate tables in utils/bookings/constants.js.
- `new Date` parsing, `toISOString` keys and the `assigned_at` timestamp: dates are integer day numbers, and a calendar key is a day number.
- Floating-point rates: `Math.round(base * 0.15)` is modelled on integers, without binary-float edge cases. Amounts are integers.
- Financials.FinancialFields: a string amount (for which `+` concatenates) is modelled through `Number()`, not as string concatenation.
- Channel names that are `Object.prototype` properties (such as "toString"), which `??` would not treat as missing.
- Concurrency: the check-then-insert race between requests is not modelled; calls are sequential.
- Foreign keys and cascades inside the database: deletes touch only the table they name.
- One id sequence (`Db.nextId`) serves bookings, booking rooms and rooms; a client-supplied `booking_id` is overwritten by it.
- Duplicate keys in a request object: a record is a map, so a key appears once.
- InsertBookings.InsertBooking: the `!data` branch is not modelled separately; with `.single()` after an insert, no error means a row.
- PreBookingChecks.RoomLabelOf: the room-name lookup is simplified to the name of the one room with that id, or "Room <id>".
- BookingCalendar.CalendarBooking: the nested booking_rooms/booking_beds of a booking are flattened into one bed list, in table order. The order of an embedded select is taken as table order.
- BookingCalendar.Fetch: the top-level select of bookings has no ordering either, and the model returns the bookings in table order. When two fetched bookings hold the same bed on the same night (which `Store.Db.Valid` rules out, but the query does not require), which one a calendar cell shows depends on that order, and the model fixes it as table order.
- RoomController.CreateRoom: the row returned in the reply is not modelled (`Rows`).
- BookingRoomsController.RemoveRoomFromBooking: the 'Internal server error' catch is not modelled; no step of the model throws.
- Js.ToNumber: `Number()` of a string is modelled as an optionally signed run of decimal digits after trimming white space. Fractions, exponents, hexadecimal, binary and octal prefixes and "Infinity" are read as NaN. So "2.0", "1e3" and "0x10" are NaN in the model, while JavaScript reads them as 2, 1000 and 16. Non-integral numbers are outside the model.
- Js.ParseInt: `parseInt` is always modelled with radix 10. Where the code omits the radix (the route parameters of the booking-rooms controller and the room keys of the pre-booking checks), JavaScript reads a "0x" prefix as hexadecimal; the model reads "0x1A" as 0.
- Store.SqlInt: the database's integer input is modelled as an optionally signed run of decimal digits, without the surrounding white space PostgreSQL accepts.
- `console` logging.

## Findings

| source | as written | input that shows it | evidently intended | confidence | as-written member | corrected member |
|---|---|---|---|---|---|---|
| services/bookingService.js:64 | `assignBeds` is called with five arguments for six parameters, so `room_id` lands in `booking_room_id`, `beds_required` in `room_id`, and `check_out` is undefined | any valid, available request: the occupied-beds query gets `check_out` undefined and throws, at the latest after the booking row is inserted (the insert may fail first) | create a booking_rooms row and call `assignBeds(booking_id, booking_room_id, room_id, beds_required, check_in, check_out)` | not executed | BookingService.CreateBooking, BookingService.ShiftedAssignmentAlwaysFails | BookingService.CreateBookingFixed, BookingService.AvailabilityGuaranteesAllocation |
| services/bookingService.js:89-96 | `updatePaymentAndBank` is called but never imported, so a ReferenceError follows the raw update | the update `{ payment_received: 1120 }` on a Booking.com booking of 1000 with nothing paid: the row stays 'Unpaid' with 1120 pending | recompute the six derived fields after an amount changes | not executed | BookingService.UpdateBooking, BookingService.StalePendingAfterUpdate | BookingService.UpdateBookingFixed, BookingService.FixedUpdateRepairsExample |
| services/bookingService.js:91-94 | even once imported, the call recomputes from `updateData` alone: an omitted channel is undefined and an omitted amount is `Number(undefined)`, NaN | with the import added, `{ payment_received: 1120 }` on the same booking writes gst and pending_amount null and 'Part-Payment'; `{ base_amount, payment_received }` without `ota_name` charges the 'Other' rates | recompute from the booking's channel and amounts as stored after the raw update | not executed | BookingService.UpdateBookingImported, BookingService.PartialUpdateNullsPending, BookingService.MissingChannelChargedAsOther | BookingService.UpdateBookingFixed, BookingService.FixedUpdateKeepsPendingConsistent |
